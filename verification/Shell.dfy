/** Quoting of command words, and how a shell splits them again (section 2.2 of
    the POSIX Shell Command Language: backslash and single quotes). */
module Shell {
  import opened Wrappers

  /** Characters that mean themselves outside quotes. */
  predicate Safe(c: char) {
    '0' <= c <= '9' || 'A' <= c <= 'Z' || 'a' <= c <= 'z' || c == '-' || c == '.' || c == '_' || c == '/'
  }

  predicate AllSafe(word: string) {
    forall i | 0 <= i < |word| :: Safe(word[i])
  }

  /** Every single quote leaves the quotes, stands escaped, and enters them again. */
  function Escape(word: string): string {
    if word == [] then []
    else (if word[0] == '\'' then ['\'', '\\', '\'', '\''] else [word[0]]) + Escape(word[1..])
  }

  function Quote(word: string): string {
    if word != [] && AllSafe(word) then word else ['\''] + Escape(word) + ['\'']
  }

  function Join(words: seq<string>): string {
    if words == [] then []
    else if |words| == 1 then Quote(words[0])
    else Quote(words[0]) + ([' '] + Join(words[1..]))
  }

  /** Splits outside quotes; `word` is the word begun, if any. A character the
      shell would act upon makes the result `None`. */
  function Words(s: string, word: Option<string>): Option<seq<string>>
    decreases |s|
  {
    if s == [] then Some(if word.Some? then [word.value] else [])
    else if s[0] == ' ' then
      var rest := Words(s[1..], None);
      if word.None? || rest.None? then rest else Some([word.value] + rest.value)
    else
      var begun := if word.Some? then word.value else [];
      if s[0] == '\'' then InQuotes(s[1..], begun)
      else if s[0] == '\\' then
        if |s| < 2 || s[1] == '\n' then None else Words(s[2..], Some(begun + [s[1]]))
      else if Safe(s[0]) then Words(s[1..], Some(begun + [s[0]]))
      else None
  }

  function InQuotes(s: string, word: string): Option<seq<string>>
    decreases |s|
  {
    if s == [] then None
    else if s[0] == '\'' then Words(s[1..], Some(word))
    else InQuotes(s[1..], word + [s[0]])
  }

  function Begun(word: Option<string>): string { if word.Some? then word.value else [] }

  lemma {:induction false} SafeReads(word: string, begun: Option<string>, rest: string)
    requires AllSafe(word) && word != []
    ensures Words(word + rest, begun) == Words(rest, Some(Begun(begun) + word))
    decreases |word|
  {
    assert (word + rest)[1..] == word[1..] + rest;
    var next := Begun(begun) + [word[0]];
    if |word| == 1 {
      assert word[1..] + rest == rest && next == Begun(begun) + word;
    } else {
      SafeReads(word[1..], Some(next), rest);
      assert next + word[1..] == Begun(begun) + word;
    }
  }

  lemma QuoteInQuotes(begun: string, rest: string)
    ensures InQuotes(['\'', '\\', '\'', '\''] + rest, begun) == InQuotes(rest, begun + ['\''])
  {
    var s := ['\'', '\\', '\'', '\''] + rest;
    var a, b := ['\\', '\'', '\''] + rest, ['\''] + rest;
    assert s[1..] == a && a[2..] == b && b[1..] == rest;
    calc {
      InQuotes(s, begun);
      Words(a, Some(begun));
      Words(b, Some(begun + ['\'']));
      InQuotes(rest, begun + ['\'']);
    }
  }

  lemma {:induction false} EscapeReads(word: string, begun: string, rest: string)
    ensures InQuotes(Escape(word) + (['\''] + rest), begun) == Words(rest, Some(begun + word))
    decreases |word|
  {
    var closing := ['\''] + rest;
    if word == [] {
      assert Escape(word) + closing == closing && closing[1..] == rest && begun + word == begun;
    } else {
      var tail := Escape(word[1..]) + closing;
      EscapeReads(word[1..], begun + [word[0]], rest);
      assert begun + [word[0]] + word[1..] == begun + word;
      if word[0] == '\'' {
        QuoteInQuotes(begun, tail);
        assert Escape(word) + closing == ['\'', '\\', '\'', '\''] + tail;
      } else {
        assert Escape(word) + closing == [word[0]] + tail;
        assert ([word[0]] + tail)[1..] == tail;
      }
    }
  }

  lemma QuoteReads(word: string, rest: string)
    ensures Words(Quote(word) + rest, None) == Words(rest, Some(word))
  {
    if word != [] && AllSafe(word) {
      SafeReads(word, None, rest);
      assert [] + word == word;
    } else {
      var tail := Escape(word) + (['\''] + rest);
      assert Quote(word) + rest == ['\''] + tail;
      assert (['\''] + tail)[1..] == tail;
      EscapeReads(word, [], rest);
      assert [] + word == word;
    }
  }

  /** The shell gives back the words that were quoted and joined. */
  lemma {:induction false} SplitJoin(words: seq<string>)
    ensures Words(Join(words), None) == Some(words)
    decreases |words|
  {
    if |words| == 1 {
      QuoteReads(words[0], []);
      assert Quote(words[0]) + [] == Quote(words[0]) && [words[0]] == words;
    } else if |words| > 1 {
      var rest := [' '] + Join(words[1..]);
      QuoteReads(words[0], rest);
      assert rest[1..] == Join(words[1..]);
      SplitJoin(words[1..]);
      assert Words(rest, Some(words[0])) == Some([words[0]] + words[1..]);
      assert [words[0]] + words[1..] == words;
    }
  }
}
