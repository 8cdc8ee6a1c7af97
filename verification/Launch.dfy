/** The arguments of an interactive session: parsing them, passing them on to
    the remote terminal, and printing the command that resumes the session. */
module Launch {
  import opened Wrappers
  import opened Shell

  /** What the standard library answers (JSON text of a string, canonical text
      of a UUID with other names unchanged, bytes in UTF-8, white space, control)
      and the option tables in force. */
  datatype Env = Env(
    json: string -> string, canonical: string -> string, size: string -> nat, blank: char -> bool,
    control: char -> bool,
    kind: string -> Kind, takesValue: string -> bool, withheld: string -> bool)

  const MAX_DISPLAY_NAME_CHARS: nat := 80
  const MAX_TARGET_BYTES: nat := 1024
  const BYPASS: string := "--dangerously-bypass-approvals-and-sandbox"
  const SCREEN: string := "--no-alt-screen"

  datatype Error =
    | Incompatible | TakesNoValue | MissingValue | Unsupported | BadName | SecondName | MisplacedResume | BadTarget
    | SecondPrompt

  datatype Kind =
    | Owned | BypassFlag | SearchFlag | ScreenFlag | ModelOption | ApprovalOption | SandboxOption | SettingOption
    | Excluded | NameOption | ResumeWord | OtherCommand | Text

  function KindOf(option: string): Kind {
    if option in ["--remote", "--remote-auth-token-env", "--last", "--all"] then Owned
    else if option in [BYPASS, "--yolo"] then BypassFlag
    else if option == "--search" then SearchFlag
    else if option == SCREEN then ScreenFlag
    else if option in ["-m", "--model"] then ModelOption
    else if option in ["-a", "--ask-for-approval"] then ApprovalOption
    else if option in ["-s", "--sandbox"] then SandboxOption
    else if option in ["-c", "--config", "-p", "--profile", "--enable", "--disable"] then SettingOption
    else if option in ["-C", "--cd", "--add-dir", "-i", "--image", "--oss", "--local-provider"] then Excluded
    else if option == "--name" then NameOption
    else if option == "resume" then ResumeWord
    else if option in ["fork", "app-server", "exec"] then OtherCommand
    else Text
  }

  predicate Dashed(arg: string) { arg != [] && arg[0] == '-' }

  predicate Valued(kind: Kind) {
    kind.ModelOption? || kind.ApprovalOption? || kind.SandboxOption? || kind.SettingOption?
  }

  predicate Permission(kind: Kind) { kind.BypassFlag? || kind.ApprovalOption? || kind.SandboxOption? }

  /** The options codex itself reads a value for. */
  predicate TakesValue(arg: string) {
    arg in ["-c", "--config", "--enable", "--disable", "--remote", "--remote-auth-token-env", "-i", "--image", "-m",
            "--model", "--local-provider", "-p", "--profile", "-s", "--sandbox", "-C", "--cd", "--add-dir", "-a",
            "--ask-for-approval"]
  }

  /** What a remote terminal must not be given. */
  predicate Withheld(arg: string) { arg in [BYPASS, "-a", "--ask-for-approval", "-s", "--sandbox"] }

  predicate Agrees(env: Env, s: string) {
    env.kind(s) == KindOf(s) && env.takesValue(s) == TakesValue(s) && env.withheld(s) == Withheld(s)
  }

  /** The option tables are these. */
  ghost predicate Codex(env: Env) {
    forall s :: Agrees(env, s)
  }

  /** What stands before the first '=' and, when there is one, what stands after it. */
  datatype Cut = Cut(option: string, inline: Option<string>)

  function CutAt(arg: string, i: nat): Cut
    requires i <= |arg|
    decreases |arg| - i
  {
    if i == |arg| then Cut(arg, None)
    else if arg[i] == '=' then Cut(arg[..i], Some(arg[i + 1..]))
    else CutAt(arg, i + 1)
  }

  /** What the options add up to. */
  datatype Core = Core(server: seq<string>, tui: seq<string>, model: Option<string>)

  datatype State = State(core: Core, resume: Option<string>, name: Option<string>, prompt: Option<string>)

  const START: State := State(Core([], [], None), None, None, None)

  datatype Launch = Launch(
    server: seq<string>, tui: seq<string>, model: Option<string>, resume: Option<string>, name: Option<string>)

  // ---------------------------------------------------------------- single options

  function FlagText(arg: string, kind: Kind): string { if kind.BypassFlag? then BYPASS else arg }

  function FlagServer(kind: Kind): seq<string> {
    if kind.BypassFlag? then ["-c", "approval_policy=\"never\"", "-c", "sandbox_mode=\"danger-full-access\""]
    else if kind.SearchFlag? then ["-c", "web_search=\"live\""]
    else []
  }

  function OptionServer(env: Env, option: string, value: string): seq<string> {
    match env.kind(option)
    case ModelOption => ["-c", "model=" + env.json(value)]
    case ApprovalOption => ["-c", "approval_policy=" + env.json(value)]
    case SandboxOption => ["-c", "sandbox_mode=" + env.json(value)]
    case _ => [option, value]
  }

  function WithFlag(core: Core, arg: string, kind: Kind): Core {
    core.(tui := core.tui + [FlagText(arg, kind)], server := core.server + FlagServer(kind))
  }

  function WithOption(env: Env, core: Core, option: string, value: string): Core {
    Core(core.server + OptionServer(env, option, value), core.tui + [option, value],
         if env.kind(option).ModelOption? then Some(value) else core.model)
  }

  predicate AllBlank(env: Env, s: string) { forall i | 0 <= i < |s| :: env.blank(s[i]) }

  predicate HasControl(env: Env, s: string) { exists i | 0 <= i < |s| :: env.control(s[i]) }

  predicate ValidName(env: Env, value: string) {
    !AllBlank(env, value) && !HasControl(env, value) && |value| <= MAX_DISPLAY_NAME_CHARS
  }

  predicate ValidTarget(env: Env, value: string) {
    !AllBlank(env, value) && !HasControl(env, value) && env.size(value) <= MAX_TARGET_BYTES
  }

  // ------------------------------------------------------------------------ parsing

  datatype Next = Next(state: State, rest: seq<string>)

  /** The value of an option: inline or the next argument. */
  function ValueOf(cut: Cut, rest: seq<string>): Option<string> {
    if cut.inline.Some? then cut.inline else if |rest| > 1 then Some(rest[1]) else None
  }

  function After(cut: Cut, rest: seq<string>): seq<string>
    requires rest != [] && (cut.inline.None? ==> |rest| > 1)
  {
    if cut.inline.Some? then rest[1..] else rest[2..]
  }

  function ParseName(env: Env, cut: Cut, rest: seq<string>, st: State): Result<Next, Error>
    requires rest != []
  {
    var value := ValueOf(cut, rest);
    if value.None? then Failure(MissingValue)
    else if !ValidName(env, value.value) then Failure(BadName)
    else if st.name.Some? then Failure(SecondName)
    else Success(Next(st.(name := value), After(cut, rest)))
  }

  function ParseResume(env: Env, cut: Cut, rest: seq<string>, st: State): Result<Next, Error>
    requires rest != []
  {
    if st.resume.Some? || st.prompt.Some? || cut.inline.Some? then Failure(MisplacedResume)
    else if |rest| < 2 || Dashed(rest[1]) then Success(Next(st.(resume := Some("")), rest[1..]))
    else if !ValidTarget(env, rest[1]) then Failure(BadTarget)
    else Success(Next(st.(resume := Some(env.canonical(rest[1]))), rest[2..]))
  }

  function ParseOption(env: Env, cut: Cut, rest: seq<string>, st: State): Result<Next, Error>
    requires rest != []
  {
    var value := ValueOf(cut, rest);
    if value.None? then Failure(MissingValue)
    else Success(Next(st.(core := WithOption(env, st.core, cut.option, value.value)), After(cut, rest)))
  }

  function ParseFlag(cut: Cut, kind: Kind, rest: seq<string>, st: State): Result<Next, Error>
    requires rest != []
  {
    if cut.inline.Some? && !kind.ScreenFlag? then Failure(TakesNoValue)
    else Success(Next(st.(core := WithFlag(st.core, rest[0], kind)), rest[1..]))
  }

  function ParseOne(env: Env, rest: seq<string>, st: State): (r: Result<Next, Error>)
    requires rest != []
    ensures r.Success? ==> |r.value.rest| < |rest|
  {
    var cut := CutAt(rest[0], 0);
    var kind := env.kind(cut.option);
    if kind.Owned? then Failure(Incompatible)
    else if kind.BypassFlag? || kind.SearchFlag? || kind.ScreenFlag? then ParseFlag(cut, kind, rest, st)
    else if Valued(kind) then ParseOption(env, cut, rest, st)
    else if kind.Excluded? || kind.OtherCommand? then Failure(Unsupported)
    else if kind.NameOption? then ParseName(env, cut, rest, st)
    else if kind.ResumeWord? then ParseResume(env, cut, rest, st)
    else if Dashed(rest[0]) then Failure(Unsupported)
    else if st.prompt.Some? then Failure(SecondPrompt)
    else Success(Next(st.(prompt := Some(rest[0])), rest[1..]))
  }

  function ParseAll(env: Env, rest: seq<string>, st: State): Result<State, Error>
    decreases |rest|
  {
    if rest == [] then Success(st)
    else
      var next := ParseOne(env, rest, st);
      if next.Failure? then Failure(next.error) else ParseAll(env, next.value.rest, next.value.state)
  }

  function Finish(st: State): Launch {
    Launch(st.core.server + ["app-server"], st.core.tui + (if st.prompt.Some? then [st.prompt.value] else []),
      st.core.model, st.resume, st.name)
  }

  function Parse(env: Env, args: seq<string>): Result<Launch, Error> {
    var st := ParseAll(env, args, START);
    if st.Failure? then Failure(st.error) else Success(Finish(st.value))
  }

  // ------------------------------------------------------------------ using the result

  /** The arguments for a terminal that joins a remote session. */
  function RemoteArgs(env: Env, tui: seq<string>): seq<string>
    decreases |tui|
  {
    if tui == [] then []
    else if tui[0] == BYPASS then RemoteArgs(env, tui[1..])
    else if env.withheld(tui[0]) then if |tui| == 1 then [] else RemoteArgs(env, tui[2..])
    else [tui[0]] + RemoteArgs(env, tui[1..])
  }

  /** The options kept for resuming: everything before the prompt. */
  function KeptOptions(env: Env, tui: seq<string>): seq<string>
    decreases |tui|
  {
    if tui == [] || !Dashed(tui[0]) then []
    else if env.takesValue(tui[0]) && |tui| > 1 then tui[..2] + KeptOptions(env, tui[2..])
    else [tui[0]] + KeptOptions(env, tui[1..])
  }

  function ResumeArgs(env: Env, launch: Launch, thread: string): seq<string> {
    KeptOptions(env, launch.tui) + (if launch.name.Some? then ["--name", launch.name.value] else [])
      + ["resume", thread]
  }

  function ResumeCommand(env: Env, launch: Launch, thread: string): string {
    Join(["bridget", "codex"] + ResumeArgs(env, launch, thread))
  }

  // ----------------------------------------------------------------------- the methods

  /** Reading on from here gives this. */
  ghost predicate Pending(env: Env, rest: seq<string>, st: State, whole: Result<State, Error>) {
    ParseAll(env, rest, st) == whole
  }

  lemma PendingNext(env: Env, rest: seq<string>, st: State, whole: Result<State, Error>)
    requires rest != [] && Pending(env, rest, st, whole)
    ensures var next := ParseOne(env, rest, st);
            if next.Failure? then whole == Failure(next.error)
            else Pending(env, next.value.rest, next.value.state, whole)
  {
  }

  /** The argument at `index`, with the value it takes if it takes one. */
  method ParseArgument(env: Env, args: seq<string>, index: nat, st: State, ghost whole: Result<State, Error>)
    returns (r: Result<State, Error>, after: nat)
    requires index < |args| && Pending(env, args[index..], st, whole)
    ensures r.Failure? ==> whole == r
    ensures r.Success? ==> index < after <= |args| && Pending(env, args[after..], r.value, whole)
  {
    PendingNext(env, args[index..], st, whole);
    var next := ParseOne(env, args[index..], st);
    if next.Failure? { return Failure(next.error), index; }
    ConsumesSuffix(env, args, index, st);
    return Success(next.value.state), |args| - |next.value.rest|;
  }

  method ParseArguments(env: Env, args: seq<string>) returns (r: Result<Launch, Error>)
    ensures r == Parse(env, args)
  {
    var st := START;
    var index: nat := 0;
    ghost var whole := ParseAll(env, args, START);
    assert args[0..] == args;
    while index < |args|
      invariant index <= |args| && Pending(env, args[index..], st, whole)
    {
      var next, after := ParseArgument(env, args, index, st, whole);
      if next.Failure? { return Failure(next.error); }
      st, index := next.value, after;
    }
    return Success(Finish(st));
  }

  lemma ConsumesSuffix(env: Env, args: seq<string>, index: nat, st: State)
    requires index < |args| && ParseOne(env, args[index..], st).Success?
    ensures var rest := ParseOne(env, args[index..], st).value.rest; |rest| <= |args| && rest == args[|args| - |rest|..]
  {
  }

  method RemoteTuiArgs(env: Env, tui: seq<string>) returns (args: seq<string>)
    ensures args == RemoteArgs(env, tui)
  {
    args := [];
    var index: nat := 0;
    assert tui[0..] == tui;
    while index < |tui|
      invariant index <= |tui| + 1
      invariant args + RemoteArgs(env, if index <= |tui| then tui[index..] else []) == RemoteArgs(env, tui)
    {
      var arg := tui[index];
      ghost var rest := tui[index..];
      if arg != BYPASS && env.withheld(arg) {
        assert |rest| > 1 ==> rest[2..] == tui[index + 2..];
        index := index + 1;
      } else {
        assert rest[1..] == tui[index + 1..];
        if arg != BYPASS { args := args + [arg]; }
      }
      index := index + 1;
    }
  }

  lemma KeepOne(env: Env, tui: seq<string>)
    requires tui != [] && Dashed(tui[0]) && (!env.takesValue(tui[0]) || |tui| == 1)
    ensures KeptOptions(env, tui) == [tui[0]] + KeptOptions(env, tui[1..])
  {
  }

  lemma KeepTwo(env: Env, tui: seq<string>)
    requires |tui| > 1 && Dashed(tui[0]) && env.takesValue(tui[0])
    ensures KeptOptions(env, tui) == [tui[0], tui[1]] + KeptOptions(env, tui[2..])
  {
    assert tui[..2] == [tui[0], tui[1]];
  }

  /** `args` is what was kept before `rest`. */
  ghost predicate Keeping(env: Env, tui: seq<string>, args: seq<string>, rest: seq<string>) {
    args + KeptOptions(env, rest) == KeptOptions(env, tui)
  }

  lemma KeepingNext(env: Env, tui: seq<string>, args: seq<string>, rest: seq<string>)
    requires Keeping(env, tui, args, rest) && rest != [] && Dashed(rest[0])
    ensures if env.takesValue(rest[0]) && |rest| > 1 then Keeping(env, tui, args + [rest[0], rest[1]], rest[2..])
            else Keeping(env, tui, args + [rest[0]], rest[1..])
  {
    if env.takesValue(rest[0]) && |rest| > 1 { KeepTwo(env, rest); } else { KeepOne(env, rest); }
  }

  method CollectOptions(env: Env, tui: seq<string>) returns (args: seq<string>)
    ensures args == KeptOptions(env, tui)
  {
    args := [];
    var rest := tui;
    while rest != [] && Dashed(rest[0])
      invariant Keeping(env, tui, args, rest)
      decreases |rest|
    {
      KeepingNext(env, tui, args, rest);
      if env.takesValue(rest[0]) && |rest| > 1 {
        args, rest := args + [rest[0], rest[1]], rest[2..];
      } else {
        args, rest := args + [rest[0]], rest[1..];
      }
    }
  }
}
