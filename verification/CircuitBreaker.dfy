/** The breaker that limits exchanges per conversation in a sliding window. */
module CircuitBreaker {
  import opened Wrappers

  // --------------------------------------------------------------- conversation keys

  /** The order of strings. */
  predicate Less(a: string, b: string) {
    b != [] && (a == [] || a[0] < b[0] || (a[0] == b[0] && Less(a[1..], b[1..])))
  }

  function Key(from: string, to: string): string {
    if Less(to, from) then to + ['|'] + from else from + ['|'] + to
  }

  lemma {:induction false} LessIsOrder(a: string, b: string)
    ensures !(Less(a, b) && Less(b, a))
    ensures Less(a, b) || Less(b, a) || a == b
  {
    if a != [] && b != [] && a[0] == b[0] {
      LessIsOrder(a[1..], b[1..]);
      if a[1..] == b[1..] { assert a == [a[0]] + a[1..] && b == [b[0]] + b[1..]; }
    }
  }

  /** The direction of an exchange does not matter. */
  lemma KeySymmetric(a: string, b: string)
    ensures Key(a, b) == Key(b, a)
  {
    LessIsOrder(a, b);
  }

  /** The smaller of two names, which comes first in their key. */
  function First(a: string, b: string): string { if Less(b, a) then b else a }

  function Second(a: string, b: string): string { if Less(b, a) then a else b }

  predicate SamePair(a: string, b: string, c: string, d: string) {
    (a == c && b == d) || (a == d && b == c)
  }

  /** The key can also be read as the names before and after position i. */
  predicate SplitsAt(key: string, i: nat) {
    i < |key| && key[i] == '|' && !Less(key[i + 1..], key[..i])
  }

  lemma SplitIsKey(key: string, i: nat)
    requires SplitsAt(key, i)
    ensures Key(key[..i], key[i + 1..]) == key
  {
    assert key[..i] + ['|'] + key[i + 1..] == key;
  }

  lemma KeySplits(a: string, b: string)
    ensures SplitsAt(Key(a, b), |First(a, b)|)
    ensures Key(a, b)[..|First(a, b)|] == First(a, b) && Key(a, b)[|First(a, b)| + 1..] == Second(a, b)
  {
    LessIsOrder(a, b);
    var x, y := First(a, b), Second(a, b);
    assert Key(a, b) == x + ['|'] + y;
    assert (x + ['|'] + y)[..|x|] == x && (x + ['|'] + y)[|x| + 1..] == y;
  }

  /** Two pairs with one key and the joining bar at one position are the same. */
  lemma JoinTells(a: string, b: string, c: string, d: string)
    requires Key(a, b) == Key(c, d)
    ensures |First(a, b)| == |First(c, d)| <==> SamePair(a, b, c, d)
  {
    KeySplits(a, b);
    KeySplits(c, d);
    LessIsOrder(a, b);
  }

  lemma SharedSplits(a: string, b: string, c: string, d: string)
    requires Key(c, d) == Key(a, b) && !SamePair(a, b, c, d)
    ensures |First(c, d)| != |First(a, b)| && SplitsAt(Key(a, b), |First(c, d)|)
  {
    KeySplits(c, d);
    JoinTells(a, b, c, d);
  }

  lemma SplitShares(a: string, b: string, i: nat)
    requires i != |First(a, b)| && SplitsAt(Key(a, b), i)
    ensures var c, d := Key(a, b)[..i], Key(a, b)[i + 1..]; Key(c, d) == Key(a, b) && !SamePair(a, b, c, d)
  {
    SplitIsKey(Key(a, b), i);
    JoinTells(a, b, Key(a, b)[..i], Key(a, b)[i + 1..]);
  }

  /** Another pair shares the key of two names exactly when the key has a second
      bar at which what comes before is not after what follows. */
  lemma KeyShared(a: string, b: string)
    ensures (exists c, d :: Key(c, d) == Key(a, b) && !SamePair(a, b, c, d))
            <==> (exists i: nat :: i != |First(a, b)| && SplitsAt(Key(a, b), i))
  {
    if c, d :| Key(c, d) == Key(a, b) && !SamePair(a, b, c, d) {
      SharedSplits(a, b, c, d);
    }
    if i: nat :| i != |First(a, b)| && SplitsAt(Key(a, b), i) {
      SplitShares(a, b, i);
    }
  }

  predicate NoBar(s: string) { forall i | 0 <= i < |s| :: s[i] != '|' }

  lemma OneBar(a: string, b: string, i: nat)
    requires NoBar(a) && NoBar(b) && SplitsAt(Key(a, b), i)
    ensures i == |First(a, b)|
  {
    var x, y := First(a, b), Second(a, b);
    assert Key(a, b) == x + ['|'] + y;
  }

  /** Names without '|' share their key with no other pair, whatever its names. */
  lemma KeyTells(a: string, b: string, c: string, d: string)
    requires NoBar(a) && NoBar(b)
    ensures Key(a, b) == Key(c, d) <==> SamePair(a, b, c, d)
  {
    KeySymmetric(a, b);
    if Key(a, b) == Key(c, d) && !SamePair(a, b, c, d) {
      KeyShared(a, b);
      var i: nat :| i != |First(a, b)| && SplitsAt(Key(a, b), i);
      OneBar(a, b, i);
    }
  }

  /** Two pairs of names with one key. */
  lemma BarConfuses()
    ensures Key("a|b", "c") == Key("a", "b|c") && !SamePair("a|b", "c", "a", "b|c")
  {
  }

  // ------------------------------------------------------------------------- windows

  /** How many of the first n times are later than the cutoff. */
  function After(times: seq<int>, n: nat, cutoff: int): nat
    requires n <= |times|
  {
    if n == 0 then 0 else After(times, n - 1, cutoff) + if times[n - 1] > cutoff then 1 else 0
  }

  function Recent(times: seq<int>, cutoff: int): nat { After(times, |times|, cutoff) }

  /** Drops expired times from the front. */
  function Pruned(times: seq<int>, cutoff: int): seq<int> {
    if times != [] && times[0] <= cutoff then Pruned(times[1..], cutoff) else times
  }

  lemma {:induction false} AfterConcat(a: seq<int>, b: seq<int>, cutoff: int)
    ensures Recent(a + b, cutoff) == Recent(a, cutoff) + Recent(b, cutoff)
    decreases |b|
  {
    if b == [] {
      assert a + b == a;
    } else {
      var n := |b| - 1;
      AfterConcat(a, b[..n], cutoff);
      AfterPrefix(a + b, a + b[..n], |a| + n, cutoff);
      AfterPrefix(b, b[..n], n, cutoff);
    }
  }

  lemma {:induction false} AfterPrefix(a: seq<int>, b: seq<int>, n: nat, cutoff: int)
    requires n <= |a| && n <= |b| && forall i | 0 <= i < n :: a[i] == b[i]
    ensures After(a, n, cutoff) == After(b, n, cutoff)
  {
    if n > 0 { AfterPrefix(a, b, n - 1, cutoff); }
  }

  /** Dropping times that are expired now changes no count now or later. */
  lemma {:induction false} PrunedCounts(times: seq<int>, cutoff: int, later: int)
    requires later >= cutoff
    ensures Recent(Pruned(times, cutoff), later) == Recent(times, later)
  {
    if times != [] && times[0] <= cutoff {
      PrunedCounts(times[1..], cutoff, later);
      AfterConcat([times[0]], times[1..], later);
      assert [times[0]] + times[1..] == times;
      assert Recent([times[0]], later) == 0 by { assert After([times[0]], 0, later) == 0; }
    }
  }

  // --------------------------------------------------------------------- the breaker

  /** How many times of the first n lie in the window (from, to]. */
  function Within(times: seq<int>, n: nat, from: int, to: int): nat
    requires n <= |times|
  {
    if n == 0 then 0 else Within(times, n - 1, from, to) + if from < times[n - 1] <= to then 1 else 0
  }

  /** Each exchange came when fewer than `limit` lay in the window before it. */
  ghost predicate Gated(log: seq<int>, window: nat, limit: nat) {
    forall i | 0 <= i < |log| :: After(log, i, log[i] - window) < limit
  }

  lemma {:induction false} WithinAfter(log: seq<int>, n: nat, from: int, to: int, cutoff: int)
    requires n <= |log| && cutoff <= from
    ensures Within(log, n, from, to) <= After(log, n, cutoff)
  {
    if n > 0 { WithinAfter(log, n - 1, from, to, cutoff); }
  }

  /** No window of that length, wherever it starts, holds more than the limit. */
  lemma {:induction false} NoWindowOverflows(log: seq<int>, window: nat, limit: nat, from: int, n: nat)
    requires Gated(log, window, limit) && n <= |log|
    ensures Within(log, n, from, from + window) <= limit
  {
    if n > 0 {
      NoWindowOverflows(log, window, limit, from, n - 1);
      if from < log[n - 1] <= from + window {
        WithinAfter(log, n - 1, from, from + window, log[n - 1] - window);
      }
    }
  }

  /** What the breaker bounds: the first exchange passes at every limit. */
  function Bound(limit: nat): nat { if limit == 0 then 1 else limit }

  /** The log after exchanges were tried at these times, one after the other. */
  function Admitted(log: seq<int>, window: nat, limit: nat, tries: seq<int>): seq<int> {
    if tries == [] then log
    else
      var before := Admitted(log, window, limit, tries[..|tries| - 1]);
      var now := tries[|tries| - 1];
      if before == [] || Recent(before, now - window) < limit then before + [now] else before
  }

  lemma {:induction false} AdmittedGated(window: nat, limit: nat, tries: seq<int>)
    ensures Gated(Admitted([], window, limit, tries), window, Bound(limit))
  {
    if tries != [] {
      var before := Admitted([], window, limit, tries[..|tries| - 1]);
      var now := tries[|tries| - 1];
      AdmittedGated(window, limit, tries[..|tries| - 1]);
      if before == [] || Recent(before, now - window) < limit { GatedNext(before, window, Bound(limit), now); }
    }
  }

  /** Whatever is tried and when, no window holds more than the limit, or than one. */
  lemma AdmittedBounded(window: nat, limit: nat, tries: seq<int>, from: int)
    ensures var log := Admitted([], window, limit, tries); Within(log, |log|, from, from + window) <= Bound(limit)
  {
    var log := Admitted([], window, limit, tries);
    AdmittedGated(window, limit, tries);
    NoWindowOverflows(log, window, Bound(limit), from, |log|);
  }

  class Breaker {
    const window: nat
    const limit: nat
    var history: map<string, seq<int>>
    /** Every exchange ever recorded, and the latest time seen. */
    ghost var log: map<string, seq<int>>
    ghost var clock: int

    ghost function Log(key: string): seq<int> reads this { if key in log then log[key] else [] }

    function Entries(key: string): seq<int> reads this { if key in history then history[key] else [] }

    /** The kept times count the same as the whole log, from now on. */
    ghost predicate Faithful(key: string) reads this {
      && (key in history <==> key in log)
      && forall cutoff: int | cutoff >= clock - window :: Recent(Entries(key), cutoff) == Recent(Log(key), cutoff)
    }

    ghost predicate Valid() reads this { forall key :: Faithful(key) }

    /** No conversation ever went over the limit. */
    ghost predicate AllGated() reads this { forall key :: Gated(Log(key), window, Bound(limit)) }

    constructor (window: nat, limit: nat, now: int)
      ensures Valid() && AllGated() && this.window == window && this.limit == limit && log == map[] && clock == now
    {
      this.window, this.limit := window, limit;
      history, log, clock := map[], map[], now;
    }

    method CountAt(from: string, to: string, now: int) returns (count: nat)
      requires Valid() && now >= clock
      ensures count == Recent(Log(Key(from, to)), now - window)
    {
      var key := Key(from, to);
      assert Faithful(key);
      count := CountRecent(Entries(key), now - window);
    }

    /** A conversation never seen is let through; any other while it is under the limit. */
    method CheckAt(from: string, to: string, now: int) returns (ok: bool)
      requires Valid() && now >= clock
      ensures ok <==> Key(from, to) !in log || Recent(Log(Key(from, to)), now - window) < limit
    {
      var key := Key(from, to);
      assert Faithful(key);
      if key !in history { return true; }
      var count := CountRecent(history[key], now - window);
      return count < limit;
    }

    method RecordAt(from: string, to: string, now: int)
      requires Valid() && now >= clock
      modifies this
      ensures Valid() && clock == now
      ensures log == old(log)[Key(from, to) := old(Log(Key(from, to))) + [now]]
    {
      var key := Key(from, to);
      var cutoff := now - window;
      ghost var was, whole := Entries(key), Log(key);
      assert Faithful(key);
      assert forall later: int | later >= cutoff :: Recent(was, later) == Recent(whole, later);
      var entries := Entries(key) + [now];
      ghost var pushed := entries;
      while entries != [] && entries[0] <= cutoff
        invariant Pruned(entries, cutoff) == Pruned(pushed, cutoff)
        decreases |entries|
      {
        entries := entries[1..];
      }
      history := history[key := entries];
      log := log[key := whole + [now]];
      clock := now;
      forall k ensures Faithful(k) {
        if k == key {
          assert Entries(k) == Pruned(pushed, cutoff) && Log(k) == whole + [now];
          forall later: int | later >= cutoff ensures Recent(Entries(k), later) == Recent(Log(k), later) {
            PrunedCounts(pushed, cutoff, later);
            AfterConcat(was, [now], later);
            AfterConcat(whole, [now], later);
          }
        } else {
          assert old(Faithful(k));
          assert Entries(k) == old(Entries(k)) && Log(k) == old(Log(k));
        }
      }
    }

    /** An exchange goes through when the check allows it, and is then recorded. */
    method Exchange(from: string, to: string, now: int) returns (ok: bool)
      requires Valid() && AllGated() && now >= clock
      modifies this
      ensures Valid() && AllGated() && clock >= old(clock)
      ensures ok <==> Key(from, to) !in old(log) || old(Recent(Log(Key(from, to)), now - window)) < limit
      ensures log == if ok then old(log)[Key(from, to) := old(Log(Key(from, to))) + [now]] else old(log)
    {
      ok := CheckAt(from, to, now);
      if ok {
        assert Gated(Log(Key(from, to)), window, Bound(limit));
        GatedNext(Log(Key(from, to)), window, Bound(limit), now);
        RecordAt(from, to, now);
        forall key ensures Gated(Log(key), window, Bound(limit)) {
          if key != Key(from, to) {
            assert Gated(old(Log(key)), window, Bound(limit)) && Log(key) == old(Log(key));
          }
        }
      }
    }
  }

  lemma GatedNext(log: seq<int>, window: nat, limit: nat, now: int)
    requires Gated(log, window, limit) && Recent(log, now - window) < limit
    ensures Gated(log + [now], window, limit)
  {
    var all := log + [now];
    forall i | 0 <= i < |all| ensures After(all, i, all[i] - window) < limit {
      var cutoff := all[i] - window;
      AfterPrefix(all, log, i, cutoff);
      if i < |log| {
        assert cutoff == log[i] - window;
      } else {
        assert cutoff == now - window && After(log, i, cutoff) == Recent(log, cutoff);
      }
    }
  }

  method CountRecent(times: seq<int>, cutoff: int) returns (count: nat)
    ensures count == Recent(times, cutoff)
  {
    count := 0;
    for i := 0 to |times|
      invariant count == After(times, i, cutoff)
    {
      if times[i] > cutoff { count := count + 1; }
    }
  }

  /** The first exchange of a conversation is let through even at limit 0. */
  method FirstAlwaysPasses(window: nat, now: int) returns (ok: bool)
    ensures ok
  {
    var breaker := new Breaker(window, 0, now);
    ok := breaker.CheckAt("a", "b", now);
  }
}
