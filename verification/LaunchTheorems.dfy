/** The resume command read back, and what the remote terminal is given. */
module LaunchTheorems {
  import opened Wrappers
  import opened Shell
  import opened Launch

  /** One accepted option, as it stands among the terminal's arguments. */
  datatype Item = Flag(text: string) | Pair(option: string, value: string)

  predicate FlagKind(kind: Kind) { kind.BypassFlag? || kind.SearchFlag? || kind.ScreenFlag? }

  predicate WellFormed(env: Env, item: Item) {
    match item
    case Flag(text) =>
      var cut := CutAt(text, 0);
      var kind := env.kind(cut.option);
      && FlagKind(kind) && (cut.inline.None? || kind.ScreenFlag?) && FlagText(text, kind) == text
      && Dashed(text) && !env.takesValue(text) && (env.withheld(text) <==> kind.BypassFlag?)
      && (kind.BypassFlag? <==> text == BYPASS)
    case Pair(option, _) =>
      && Valued(env.kind(option)) && CutAt(option, 0) == Cut(option, None)
      && Dashed(option) && env.takesValue(option) && option != BYPASS
      && (env.withheld(option) <==> Permission(env.kind(option)))
  }

  predicate AllWellFormed(env: Env, items: seq<Item>) { forall i | 0 <= i < |items| :: WellFormed(env, items[i]) }

  function Tokens(item: Item): seq<string> {
    match item
    case Flag(text) => [text]
    case Pair(option, value) => [option, value]
  }

  function Render(items: seq<Item>): seq<string> {
    if items == [] then [] else Tokens(items[0]) + Render(items[1..])
  }

  function Add(env: Env, core: Core, item: Item): Core {
    match item
    case Flag(text) => WithFlag(core, text, env.kind(CutAt(text, 0).option))
    case Pair(option, value) => WithOption(env, core, option, value)
  }

  function AddAll(env: Env, core: Core, items: seq<Item>): Core
    decreases |items|
  {
    if items == [] then core else AddAll(env, Add(env, core, items[0]), items[1..])
  }

  // -------------------------------------------------------------- cutting at '='

  lemma {:induction false} CutPlain(arg: string, i: nat)
    requires i <= |arg| && forall k | i <= k < |arg| :: arg[k] != '='
    ensures CutAt(arg, i) == Cut(arg, None)
    decreases |arg| - i
  {
    if i < |arg| { CutPlain(arg, i + 1); }
  }

  lemma {:induction false} CutOption(arg: string, i: nat)
    requires i <= |arg| && forall k | 0 <= k < i :: arg[k] != '='
    ensures var c := CutAt(arg, i);
            && c.option <= arg && (c.inline.None? ==> c.option == arg)
            && forall k | 0 <= k < |c.option| :: c.option[k] != '='
    decreases |arg| - i
  {
    if i < |arg| && arg[i] != '=' { CutOption(arg, i + 1); }
  }

  lemma OptionPlain(arg: string)
    ensures var option := CutAt(arg, 0).option;
            option <= arg && CutAt(option, 0) == Cut(option, None) && (CutAt(arg, 0).inline.None? ==> option == arg)
  {
    CutOption(arg, 0);
    CutPlain(CutAt(arg, 0).option, 0);
  }

  // ------------------------------------------------------------- the option tables

  predicate Plain(s: string) { forall k | 0 <= k < |s| :: s[k] != '=' }

  /** What the tables say about one word. */
  ghost predicate ConsistentAt(env: Env, s: string) {
    && (Valued(env.kind(s)) ==>
          env.takesValue(s) && Dashed(s) && s != BYPASS && (env.withheld(s) <==> Permission(env.kind(s))))
    && (FlagKind(env.kind(s)) ==> Dashed(s) && !env.takesValue(s) && (env.kind(s).SearchFlag? ==> !env.withheld(s)))
    && (env.kind(s).ScreenFlag? ==> s == SCREEN)
    && (env.takesValue(s) || env.withheld(s) ==> Dashed(s) && !(SCREEN <= s))
  }

  ghost predicate Consistent(env: Env) {
    && (forall s :: ConsistentAt(env, s))
    && env.kind(BYPASS).BypassFlag? && env.withheld(BYPASS)
    && env.kind("--name").NameOption? && env.kind("resume").ResumeWord?
  }

  /** An option parsed with a value is one that takes a value. */
  lemma ValuedTakesValue(option: string)
    requires Valued(KindOf(option))
    ensures TakesValue(option) && Dashed(option) && option != BYPASS
    ensures Withheld(option) <==> Permission(KindOf(option))
  {
  }

  lemma FlagNames(option: string)
    requires FlagKind(KindOf(option))
    ensures option == BYPASS || option == "--yolo" || option == "--search" || option == SCREEN
    ensures KindOf(option).SearchFlag? ==> option == "--search"
    ensures KindOf(option).ScreenFlag? ==> option == SCREEN
  {
  }

  lemma BypassTakesNoValue()
    ensures !TakesValue(BYPASS) && !TakesValue("--yolo")
  {
  }

  lemma SwitchTakesNoValue()
    ensures !TakesValue("--search") && !TakesValue(SCREEN)
  {
  }

  lemma SearchShown()
    ensures !Withheld("--search")
  {
  }

  lemma FlagTable(option: string)
    requires FlagKind(KindOf(option))
    ensures Dashed(option) && !TakesValue(option) && (KindOf(option).SearchFlag? ==> !Withheld(option))
    ensures KindOf(option).ScreenFlag? ==> option == SCREEN
  {
    FlagNames(option);
    BypassTakesNoValue();
    SwitchTakesNoValue();
    SearchShown();
  }

  lemma ValueTable(arg: string)
    requires TakesValue(arg) || Withheld(arg)
    ensures Dashed(arg) && (|arg| < 3 || arg[2] != SCREEN[2])
  {
  }

  lemma WordIsConsistent(env: Env, s: string)
    requires Codex(env)
    ensures ConsistentAt(env, s)
  {
    assert Agrees(env, s);
    if Valued(env.kind(s)) { ValuedTakesValue(s); }
    if FlagKind(env.kind(s)) { FlagTable(s); }
    if env.takesValue(s) || env.withheld(s) { ValueTable(s); }
  }

  lemma BypassKnown(env: Env)
    requires Codex(env)
    ensures env.kind(BYPASS).BypassFlag? && env.withheld(BYPASS)
  {
    assert Agrees(env, BYPASS);
  }

  lemma NameKnown(env: Env)
    requires Codex(env)
    ensures env.kind("--name").NameOption?
  {
    assert Agrees(env, "--name");
  }

  lemma ResumeKnown(env: Env)
    requires Codex(env)
    ensures env.kind("resume").ResumeWord?
  {
    assert Agrees(env, "resume");
  }

  lemma CodexIsConsistent(env: Env)
    requires Codex(env)
    ensures Consistent(env)
  {
    BypassKnown(env);
    NameKnown(env);
    ResumeKnown(env);
    forall s ensures ConsistentAt(env, s) {
      WordIsConsistent(env, s);
    }
  }

  lemma FlagIsWellFormed(env: Env, arg: string)
    requires Consistent(env)
    requires var cut := CutAt(arg, 0);
             FlagKind(env.kind(cut.option)) && (cut.inline.None? || env.kind(cut.option).ScreenFlag?)
    ensures var kind := env.kind(CutAt(arg, 0).option);
            WellFormed(env, Flag(FlagText(arg, kind))) && env.kind(CutAt(FlagText(arg, kind), 0).option) == kind
  {
    OptionPlain(arg);
    CutPlain(BYPASS, 0);
    assert ConsistentAt(env, CutAt(arg, 0).option) && ConsistentAt(env, arg) && ConsistentAt(env, BYPASS);
  }

  // ------------------------------------------------------------- options and states

  lemma AddTui(env: Env, core: Core, item: Item)
    requires WellFormed(env, item)
    ensures Add(env, core, item).tui == core.tui + Tokens(item)
  {
  }

  lemma {:induction false} AddAllTui(env: Env, core: Core, items: seq<Item>)
    requires AllWellFormed(env, items)
    ensures AddAll(env, core, items).tui == core.tui + Render(items)
    decreases |items|
  {
    if items != [] {
      var first := Add(env, core, items[0]);
      calc {
        AddAll(env, core, items).tui;
        AddAll(env, first, items[1..]).tui;
        { AddAllTui(env, first, items[1..]); }
        first.tui + Render(items[1..]);
        { AddTui(env, core, items[0]); }
        core.tui + Tokens(items[0]) + Render(items[1..]);
        core.tui + (Tokens(items[0]) + Render(items[1..]));
        core.tui + Render(items);
      }
    }
  }

  /** One step either reads an option or leaves what the options add up to alone. */
  lemma StepItem(env: Env, rest: seq<string>, st: State) returns (items: seq<Item>)
    requires Consistent(env)
    requires rest != [] && ParseOne(env, rest, st).Success?
    ensures AllWellFormed(env, items) && ParseOne(env, rest, st).value.state.core == AddAll(env, st.core, items)
  {
    var cut := CutAt(rest[0], 0);
    var kind := env.kind(cut.option);
    OptionPlain(rest[0]);
    items := [];
    if FlagKind(kind) {
      FlagIsWellFormed(env, rest[0]);
      items := [Flag(FlagText(rest[0], kind))];
      assert items[1..] == [];
    } else if Valued(kind) {
      assert ConsistentAt(env, cut.option);
      items := [Pair(cut.option, ValueOf(cut, rest).value)];
      assert items[1..] == [];
    }
  }

  lemma {:induction false} AddAllConcat(env: Env, core: Core, a: seq<Item>, b: seq<Item>)
    ensures AddAll(env, core, a + b) == AddAll(env, AddAll(env, core, a), b)
    decreases |a|
  {
    if a == [] {
      assert a + b == b;
    } else {
      var first := Add(env, core, a[0]);
      calc {
        AddAll(env, core, a + b);
        { assert (a + b)[0] == a[0] && (a + b)[1..] == a[1..] + b; }
        AddAll(env, first, a[1..] + b);
        { AddAllConcat(env, first, a[1..], b); }
        AddAll(env, AddAll(env, first, a[1..]), b);
        AddAll(env, AddAll(env, core, a), b);
      }
    }
  }

  /** What a step keeps: an accepted name is valid and a prompt never looks like an option. */
  predicate Sane(env: Env, st: State) {
    (st.name.Some? ==> ValidName(env, st.name.value)) && (st.prompt.Some? ==> !Dashed(st.prompt.value))
  }

  lemma StepSane(env: Env, rest: seq<string>, st: State)
    requires rest != [] && Sane(env, st) && ParseOne(env, rest, st).Success?
    ensures Sane(env, ParseOne(env, rest, st).value.state)
  {
  }

  lemma {:induction false} ParsedItems(env: Env, rest: seq<string>, st: State) returns (items: seq<Item>)
    requires Consistent(env)
    requires Sane(env, st) && ParseAll(env, rest, st).Success?
    ensures AllWellFormed(env, items) && ParseAll(env, rest, st).value.core == AddAll(env, st.core, items)
    ensures Sane(env, ParseAll(env, rest, st).value)
    decreases |rest|
  {
    items := [];
    if rest != [] {
      var next := ParseOne(env, rest, st).value;
      var here := StepItem(env, rest, st);
      StepSane(env, rest, st);
      var later := ParsedItems(env, next.rest, next.state);
      AddAllConcat(env, st.core, here, later);
      items := here + later;
    }
  }

  // ------------------------------------------------------------------ reading back

  lemma ReadItem(env: Env, item: Item, rest: seq<string>, st: State)
    requires WellFormed(env, item)
    ensures ParseOne(env, Tokens(item) + rest, st) == Success(Next(st.(core := Add(env, st.core, item)), rest))
  {
  }

  lemma {:induction false} ReadItems(env: Env, items: seq<Item>, rest: seq<string>, st: State)
    requires AllWellFormed(env, items)
    ensures ParseAll(env, Render(items) + rest, st) == ParseAll(env, rest, st.(core := AddAll(env, st.core, items)))
    decreases |items|
  {
    if items == [] {
      assert Render(items) + rest == rest;
    } else {
      assert Render(items) + rest == Tokens(items[0]) + (Render(items[1..]) + rest);
      ReadItem(env, items[0], Render(items[1..]) + rest, st);
      ReadItems(env, items[1..], rest, st.(core := Add(env, st.core, items[0])));
    }
  }

  lemma {:induction false} KeptRender(env: Env, items: seq<Item>, prompt: seq<string>)
    requires AllWellFormed(env, items) && (prompt != [] ==> !Dashed(prompt[0]))
    ensures KeptOptions(env, Render(items) + prompt) == Render(items)
    decreases |items|
  {
    if items == [] {
      assert Render(items) + prompt == prompt;
    } else {
      var rest := Render(items[1..]) + prompt;
      var all := Tokens(items[0]) + rest;
      assert Render(items) + prompt == all;
      assert WellFormed(env, items[0]);
      KeptRender(env, items[1..], prompt);
      match items[0]
      case Flag(_) => KeepOne(env, all); assert all[1..] == rest;
      case Pair(_, _) => KeepTwo(env, all); assert all[2..] == rest;
    }
  }

  // ----------------------------------------------------------------------- resuming

  predicate HexDigit(c: char) { '0' <= c <= '9' || 'a' <= c <= 'f' }

  /** The canonical text of a UUID. */
  predicate IsUuid(s: string) {
    |s| == 36 && forall i | 0 <= i < 36 :: if i in [8, 13, 18, 23] then s[i] == '-' else HexDigit(s[i])
  }

  /** The library leaves canonical UUIDs alone and knows their characters. */
  ghost predicate Standard(env: Env) {
    && (forall c | HexDigit(c) || c == '-' :: !env.blank(c) && !env.control(c))
    && (forall s | IsUuid(s) :: env.canonical(s) == s && env.size(s) == 36)
  }

  lemma UuidIsTarget(env: Env, thread: string)
    requires Standard(env) && IsUuid(thread)
    ensures !Dashed(thread) && ValidTarget(env, thread) && env.canonical(thread) == thread
  {
  }

  lemma ReadName(env: Env, name: string, rest: seq<string>, st: State)
    requires Consistent(env)
    requires ValidName(env, name) && st.name.None?
    ensures ParseAll(env, ["--name", name] + rest, st) == ParseAll(env, rest, st.(name := Some(name)))
  {
  }

  lemma ReadResume(env: Env, thread: string, st: State)
    requires Consistent(env)
    requires !Dashed(thread) && ValidTarget(env, thread) && env.canonical(thread) == thread
    requires st.resume.None? && st.prompt.None?
    ensures ParseAll(env, ["resume", thread], st) == Success(st.(resume := Some(thread)))
  {
  }

  function NameArgs(name: Option<string>): seq<string> { if name.Some? then ["--name", name.value] else [] }

  lemma ReadBack(env: Env, items: seq<Item>, name: Option<string>, thread: string)
    requires Consistent(env)
    requires AllWellFormed(env, items) && (name.Some? ==> ValidName(env, name.value))
    requires Standard(env) && IsUuid(thread)
    ensures ParseAll(env, Render(items) + NameArgs(name) + ["resume", thread], START)
            == Success(State(AddAll(env, START.core, items), Some(thread), name, None))
  {
    UuidIsTarget(env, thread);
    var tail := ["resume", thread];
    var st := START.(core := AddAll(env, START.core, items));
    assert Render(items) + NameArgs(name) + tail == Render(items) + (NameArgs(name) + tail);
    ReadItems(env, items, NameArgs(name) + tail, START);
    if name.Some? { ReadName(env, name.value, tail, st); } else { assert NameArgs(name) + tail == tail; }
    ReadResume(env, thread, st.(name := name));
  }

  /** What parsing found, as options and a prompt. */
  lemma ParsedLaunch(env: Env, args: seq<string>) returns (items: seq<Item>, prompt: seq<string>)
    requires Consistent(env) && Parse(env, args).Success?
    ensures AllWellFormed(env, items) && |prompt| <= 1 && (prompt != [] ==> !Dashed(prompt[0]))
    ensures var launch := Parse(env, args).value;
            && launch.tui == Render(items) + prompt && KeptOptions(env, launch.tui) == Render(items)
            && launch.server == AddAll(env, START.core, items).server + ["app-server"]
            && launch.model == AddAll(env, START.core, items).model
            && (launch.name.Some? ==> ValidName(env, launch.name.value))
  {
    items := ParsedItems(env, args, START);
    var st := ParseAll(env, args, START).value;
    prompt := if st.prompt.Some? then [st.prompt.value] else [];
    AddAllTui(env, START.core, items);
    KeptRender(env, items, prompt);
  }

  lemma CommandWords(env: Env, launch: Launch, thread: string)
    ensures Words(ResumeCommand(env, launch, thread), None)
            == Some(["bridget", "codex"] + ResumeArgs(env, launch, thread))
  {
    SplitJoin(["bridget", "codex"] + ResumeArgs(env, launch, thread));
  }

  lemma ResumeParses(env: Env, launch: Launch, items: seq<Item>, thread: string)
    requires Consistent(env) && Standard(env) && IsUuid(thread) && AllWellFormed(env, items)
    requires KeptOptions(env, launch.tui) == Render(items)
    requires launch.server == AddAll(env, START.core, items).server + ["app-server"]
    requires launch.model == AddAll(env, START.core, items).model
    requires launch.name.Some? ==> ValidName(env, launch.name.value)
    ensures Parse(env, ResumeArgs(env, launch, thread)) ==
              Success(Launch(launch.server, KeptOptions(env, launch.tui), launch.model, Some(thread), launch.name))
  {
    ReadBack(env, items, launch.name, thread);
    AddAllTui(env, START.core, items);
    assert AddAll(env, START.core, items).tui + [] == Render(items);
    assert ResumeArgs(env, launch, thread) == Render(items) + NameArgs(launch.name) + ["resume", thread];
  }

  /** The printed command, split by a shell and parsed again, starts the same
      session on the given thread without the prompt. */
  lemma ResumeRoundTrip(env: Env, args: seq<string>, thread: string)
    requires Codex(env) && Standard(env) && IsUuid(thread) && Parse(env, args).Success?
    ensures var launch := Parse(env, args).value;
            var words := Words(ResumeCommand(env, launch, thread), None);
            && words.Some? && |words.value| >= 2 && words.value[..2] == ["bridget", "codex"]
            && Parse(env, words.value[2..]) ==
                 Success(Launch(launch.server, KeptOptions(env, launch.tui), launch.model, Some(thread), launch.name))
  {
    CodexIsConsistent(env);
    var items, prompt := ParsedLaunch(env, args);
    var launch := Parse(env, args).value;
    ResumeParses(env, launch, items, thread);
    CommandWords(env, launch, thread);
    DropTwo(ResumeArgs(env, launch, thread));
  }

  lemma DropTwo(rest: seq<string>)
    ensures (["bridget", "codex"] + rest)[2..] == rest && (["bridget", "codex"] + rest)[..2] == ["bridget", "codex"]
  {
  }

  /** Only the prompt is left out of the command. */
  lemma OnlyPromptDropped(env: Env, args: seq<string>)
    requires Codex(env) && Parse(env, args).Success?
    ensures var tui := Parse(env, args).value.tui;
            tui == KeptOptions(env, tui) || (exists p :: tui == KeptOptions(env, tui) + [p] && !Dashed(p))
  {
    CodexIsConsistent(env);
    var items, prompt := ParsedLaunch(env, args);
    if prompt != [] { assert prompt == [prompt[0]]; }
  }

  // -------------------------------------------------------------- the remote terminal

  /** No permission option is ever passed on. */
  lemma {:induction false} RemoteWithholds(env: Env, tui: seq<string>, arg: string)
    requires arg in RemoteArgs(env, tui)
    ensures !env.withheld(arg)
    decreases |tui|
  {
    if tui[0] == BYPASS { RemoteWithholds(env, tui[1..], arg); }
    else if env.withheld(tui[0]) { RemoteWithholds(env, tui[2..], arg); }
    else if arg != tui[0] { RemoteWithholds(env, tui[1..], arg); }
  }

  predicate PermissionItem(env: Env, item: Item) {
    match item
    case Flag(text) => env.withheld(text)
    case Pair(option, _) => env.withheld(option)
  }

  function Harmless(env: Env, items: seq<Item>): seq<Item> {
    if items == [] then [] else (if PermissionItem(env, items[0]) then [] else [items[0]]) + Harmless(env, items[1..])
  }

  predicate Confusing(env: Env, item: Item) { item.Pair? && !env.withheld(item.option) && env.withheld(item.value) }

  lemma RemoteItem(env: Env, item: Item, rest: seq<string>)
    requires WellFormed(env, item) && !Confusing(env, item) && env.withheld(BYPASS)
    ensures RemoteArgs(env, Tokens(item) + rest)
            == (if PermissionItem(env, item) then [] else Tokens(item)) + RemoteArgs(env, rest)
  {
    var all := Tokens(item) + rest;
    match item
    case Flag(_) => assert all[1..] == rest;
    case Pair(_, value) =>
      assert all[2..] == rest;
      if !PermissionItem(env, item) { assert all[1..] == [value] + rest && ([value] + rest)[1..] == rest; }
  }

  lemma RemoteJoin(env: Env, item: Item, others: seq<string>, kept: seq<string>, prompt: seq<string>)
    requires WellFormed(env, item) && !Confusing(env, item) && env.withheld(BYPASS)
    requires RemoteArgs(env, others + prompt) == kept + prompt
    ensures RemoteArgs(env, Tokens(item) + others + prompt)
            == (if PermissionItem(env, item) then [] else Tokens(item)) + kept + prompt
  {
    RemoteItem(env, item, others + prompt);
    assert Tokens(item) + others + prompt == Tokens(item) + (others + prompt);
  }

  lemma {:induction false} RemoteKeeps(env: Env, items: seq<Item>, prompt: seq<string>)
    requires AllWellFormed(env, items) && (forall i | 0 <= i < |items| :: !Confusing(env, items[i]))
    requires env.withheld(BYPASS)
    requires |prompt| <= 1 && (prompt != [] ==> !env.withheld(prompt[0]))
    ensures RemoteArgs(env, Render(items) + prompt) == Render(Harmless(env, items)) + prompt
    decreases |items|
  {
    if items == [] {
      assert Render(items) + prompt == prompt && Render(Harmless(env, items)) + prompt == prompt;
      RemoteWord(env, prompt);
    } else {
      RemoteKeeps(env, items[1..], prompt);
      RemoteJoin(env, items[0], Render(items[1..]), Render(Harmless(env, items[1..])), prompt);
      RenderHarmless(env, items);
    }
  }

  lemma RemoteWord(env: Env, prompt: seq<string>)
    requires |prompt| <= 1 && (prompt != [] ==> !env.withheld(prompt[0])) && env.withheld(BYPASS)
    ensures RemoteArgs(env, prompt) == prompt
  {
  }

  lemma RenderHarmless(env: Env, items: seq<Item>)
    requires items != []
    ensures Render(Harmless(env, items))
            == (if PermissionItem(env, items[0]) then [] else Tokens(items[0])) + Render(Harmless(env, items[1..]))
  {
    if !PermissionItem(env, items[0]) { assert Harmless(env, items)[1..] == Harmless(env, items[1..]); }
    else { assert Harmless(env, items) == Harmless(env, items[1..]); }
  }

  lemma {:induction false} ConfusingShows(env: Env, items: seq<Item>, i: nat)
    requires i < |items| && Confusing(env, items[i])
    ensures items[i].value in Render(Harmless(env, items))
    decreases |items|
  {
    RenderHarmless(env, items);
    if i > 0 { ConfusingShows(env, items[1..], i - 1); } else { assert items[0].value == Tokens(items[0])[1]; }
  }

  /** The remote terminal gets exactly the other options and the prompt, unless a
      kept option has the name of a permission option for its value. */
  lemma RemoteExact(env: Env, items: seq<Item>, prompt: seq<string>)
    requires Consistent(env)
    requires AllWellFormed(env, items) && |prompt| <= 1 && (prompt != [] ==> !Dashed(prompt[0]))
    ensures RemoteArgs(env, Render(items) + prompt) == Render(Harmless(env, items)) + prompt
            <==> forall i | 0 <= i < |items| :: !Confusing(env, items[i])
  {
    if forall i | 0 <= i < |items| :: !Confusing(env, items[i]) {
      if prompt != [] { assert ConsistentAt(env, prompt[0]); }
      RemoteKeeps(env, items, prompt);
    } else {
      var i :| 0 <= i < |items| && Confusing(env, items[i]);
      ConfusingShows(env, items, i);
      if RemoteArgs(env, Render(items) + prompt) == Render(Harmless(env, items)) + prompt {
        assert items[i].value in RemoteArgs(env, Render(items) + prompt);
        RemoteWithholds(env, Render(items) + prompt, items[i].value);
        assert false;
      }
    }
  }

  /** A terminal's arguments read option by option. */
  function ItemsOf(env: Env, tui: seq<string>): seq<Item>
    decreases |tui|
  {
    if tui == [] || !Dashed(tui[0]) then []
    else if env.takesValue(tui[0]) && |tui| > 1 then [Pair(tui[0], tui[1])] + ItemsOf(env, tui[2..])
    else [Flag(tui[0])] + ItemsOf(env, tui[1..])
  }

  /** What follows the options. */
  function PromptOf(env: Env, tui: seq<string>): seq<string>
    decreases |tui|
  {
    if tui == [] || !Dashed(tui[0]) then tui
    else if env.takesValue(tui[0]) && |tui| > 1 then PromptOf(env, tui[2..])
    else PromptOf(env, tui[1..])
  }

  lemma {:induction false} ItemsRender(env: Env, items: seq<Item>, prompt: seq<string>)
    requires AllWellFormed(env, items) && (prompt != [] ==> !Dashed(prompt[0]))
    ensures ItemsOf(env, Render(items) + prompt) == items && PromptOf(env, Render(items) + prompt) == prompt
    decreases |items|
  {
    if items == [] {
      assert Render(items) + prompt == prompt;
    } else {
      var rest := Render(items[1..]) + prompt;
      var all := Tokens(items[0]) + rest;
      assert Render(items) + prompt == all;
      assert WellFormed(env, items[0]);
      ItemsRender(env, items[1..], prompt);
      match items[0]
      case Flag(_) => assert all[1..] == rest;
      case Pair(_, _) => assert all[2..] == rest;
    }
  }

  /** For every command line that parses: the remote terminal gets exactly the
      other options and the prompt, unless one of the parsed options keeps the
      name of a permission option as its value. */
  lemma RemoteOfParsed(env: Env, args: seq<string>)
    requires Codex(env) && Parse(env, args).Success?
    ensures var tui := Parse(env, args).value.tui;
            var items := ItemsOf(env, tui);
            && tui == Render(items) + PromptOf(env, tui)
            && (RemoteArgs(env, tui) == Render(Harmless(env, items)) + PromptOf(env, tui)
                <==> forall i | 0 <= i < |items| :: !Confusing(env, items[i]))
  {
    CodexIsConsistent(env);
    var items, prompt := ParsedLaunch(env, args);
    ItemsRender(env, items, prompt);
    RemoteExact(env, items, prompt);
  }

  /** A model named like an option swallows the option after it. */
  lemma ModelTakesPolicy(env: Env)
    requires Codex(env)
    ensures var tui := ["-m", "-a", "-s", "read-only"];
            Parse(env, tui).Success? && Parse(env, tui).value.tui == tui && RemoteArgs(env, tui) == ["-m", "read-only"]
  {
    CodexIsConsistent(env);
    ModelKnown(env);
    PolicyKnown(env);
    SandboxKnown(env);
    ReadOnlyKnown(env);
    SwallowsNext(env, "-m", "-a", "-s", "read-only");
  }

  lemma ModelKnown(env: Env)
    requires Codex(env)
    ensures Valued(env.kind("-m")) && !env.withheld("-m") && Plain("-m")
  {
    assert Agrees(env, "-m");
  }

  lemma PolicyKnown(env: Env)
    requires Codex(env)
    ensures env.withheld("-a") && "-a" != BYPASS
  {
    assert Agrees(env, "-a");
  }

  lemma SandboxKnown(env: Env)
    requires Codex(env)
    ensures Valued(env.kind("-s")) && Plain("-s")
  {
    assert Agrees(env, "-s");
  }

  lemma ReadOnlyKnown(env: Env)
    requires Codex(env)
    ensures !env.withheld("read-only") && "read-only" != BYPASS
  {
    assert Agrees(env, "read-only");
  }

  lemma PlainIsWellFormed(env: Env, option: string, value: string)
    requires Consistent(env) && Valued(env.kind(option)) && Plain(option)
    ensures WellFormed(env, Pair(option, value))
  {
    CutPlain(option, 0);
    assert ConsistentAt(env, option);
  }

  /** Well-formed options parse to themselves. */
  lemma ItemsParse(env: Env, items: seq<Item>)
    requires Consistent(env) && AllWellFormed(env, items)
    ensures Parse(env, Render(items)).Success? && Parse(env, Render(items)).value.tui == Render(items)
  {
    assert Render(items) + [] == Render(items);
    ReadItems(env, items, [], START);
    AddAllTui(env, START.core, items);
  }

  lemma SwallowsNext(env: Env, option: string, value: string, next: string, last: string)
    requires Consistent(env) && Valued(env.kind(option)) && !env.withheld(option) && Plain(option)
    requires env.withheld(value) && value != BYPASS && Valued(env.kind(next)) && Plain(next)
    requires !env.withheld(last) && last != BYPASS
    ensures var tui := [option, value, next, last];
            Parse(env, tui).Success? && Parse(env, tui).value.tui == tui && RemoteArgs(env, tui) == [option, last]
  {
    var items := [Pair(option, value), Pair(next, last)];
    PlainIsWellFormed(env, option, value);
    PlainIsWellFormed(env, next, last);
    RenderTwo(items);
    ItemsParse(env, items);
    SkipsTwo(env, Render(items));
  }

  lemma RenderTwo(items: seq<Item>)
    requires |items| == 2
    ensures Render(items) == Tokens(items[0]) + Tokens(items[1])
  {
    assert items[1..][1..] == [];
    assert Render(items[1..]) == Tokens(items[1]) + Render([]);
  }

  lemma SkipsTwo(env: Env, tui: seq<string>)
    requires |tui| == 4 && tui[0] != BYPASS && tui[1] != BYPASS && tui[3] != BYPASS
    requires !env.withheld(tui[0]) && env.withheld(tui[1]) && !env.withheld(tui[3])
    ensures RemoteArgs(env, tui) == [tui[0], tui[3]]
  {
    assert tui[1..][2..] == [tui[3]] && [tui[3]][1..] == [];
    assert RemoteArgs(env, [tui[3]]) == [tui[3]];
    assert RemoteArgs(env, tui[1..]) == [tui[3]];
  }
}
