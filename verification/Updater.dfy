/** Activation and rollback of an installed image. A process may stop between
    any two steps; what survives is the link and the saved state. `save` updates
    the memory before the file and `switch_link` may fail after the rename, so
    both have outcomes in which the effect and the exception come together. */
module Updater {
  import opened Wrappers

  type Image = nat
  type Version = nat

  datatype Activation = Activation(previous: Image, candidate: Image, version: Version)

  datatype Saved = Saved(activation: Option<Activation>, rollback: Option<Image>, failed: Option<Version>)

  /** Where the process stands. `Raising` marks the handler of a switched attempt. */
  datatype Phase =
    | Stopped
    | Starting
    | RecoveryChecked(action: Activation)
    | RecoveryLeased(action: Activation)
    | RecoverySwitched(action: Activation)
    | RecoveryHealthy(action: Activation)
    | RecoveryFinished(action: Activation)
    | Ready
    | Checked(image: Image, version: Version)
    | Leased(attempt: Activation)
    | Recorded(attempt: Activation)
    | Switched(attempt: Activation)
    | Healthy(attempt: Activation)
    | Reported(attempt: Activation)
    | Raising(attempt: Activation)
    | RollbackChecked(attempt: Activation)
    | RollbackSwitched(attempt: Activation)
    | RollbackHealthy(attempt: Activation)
    | AfterStep

  /** `confirmed` holds the images found healthy while live, and `checked` those
      whose storage check passed in the current attempt; neither is program state. */
  datatype State = State(
    link: Image,
    disk: Saved,
    memory: Saved,
    original: Image,
    phase: Phase,
    checked: set<Image>,
    confirmed: set<Image>)

  /** Whether a step took effect, and whether it raised. */
  datatype Outcome = Done | NotDone | DoneThenRaised

  datatype Event =
    | Start
    | Crash
    | Flush
    | Check(ok: bool)
    | Lease(ok: bool)
    | Switch(outcome: Outcome)
    | Health(ok: bool)
    | Report(ok: bool)
    | Save(outcome: Outcome)
    | NothingToRecover
    | Begin(candidate: Image, version: Version)
    | Idle
    | LoopEnd

  const NOTHING_SAVED := Saved(None, None, None)

  function Initial(image: Image): State {
    State(image, NOTHING_SAVED, NOTHING_SAVED, image, Stopped, {}, {image})
  }

  // -------------------------------------------------------------- elementary steps

  function Launch(s: State): State {
    s.(phase := Starting, memory := s.disk, original := s.link, checked := {})
  }

  function Redirect(s: State, target: Image, outcome: Outcome): State {
    if outcome.NotDone? then s else s.(link := target)
  }

  /** `memory` is updated first; the file may or may not follow. */
  function Store(s: State, values: Saved, outcome: Outcome): State {
    s.(memory := values, disk := if outcome.NotDone? then s.disk else values)
  }

  /** The image to return to: the live one, or the recorded fallback when the
      live image is activated again. */
  function Fallback(s: State, candidate: Image): Image {
    if s.link == candidate && s.memory.rollback.Some? then s.memory.rollback.value else s.link
  }

  // ------------------------------------------------------------------ transitions

  function NextRecovery(s: State, e: Event): State {
    match (s.phase, e)
    case (Starting, NothingToRecover) => if s.memory.activation.None? then s.(phase := Ready) else s
    case (Starting, Check(ok)) =>
      (match s.memory.activation
       case None => s
       case Some(action) =>
         if ok then s.(phase := RecoveryChecked(action), checked := s.checked + {action.previous})
         else s.(phase := Stopped))
    case (RecoveryChecked(action), Lease(ok)) => s.(phase := if ok then RecoveryLeased(action) else Stopped)
    case (RecoveryLeased(action), Switch(outcome)) =>
      Redirect(s, action.previous, outcome).(phase := if outcome.Done? then RecoverySwitched(action) else Stopped)
    case (RecoverySwitched(action), Health(ok)) =>
      if ok then s.(phase := RecoveryHealthy(action), confirmed := s.confirmed + {s.link}) else s.(phase := Stopped)
    case (RecoveryHealthy(action), Report(ok)) => s.(phase := if ok then RecoveryFinished(action) else Stopped)
    case (RecoveryFinished(action), Save(outcome)) =>
      Store(s, s.memory.(activation := None), outcome).(phase := if outcome.Done? then Ready else Stopped)
    case _ => s
  }

  function NextActivation(s: State, e: Event): State {
    match (s.phase, e)
    case (Ready, Idle) => s.(phase := AfterStep)
    case (Ready, Begin(candidate, version)) => s.(phase := Checked(candidate, version), checked := {candidate})
    case (Checked(image, version), Lease(ok)) =>
      s.(phase := if ok then Leased(Activation(Fallback(s, image), image, version)) else AfterStep)
    case (Leased(a), Save(outcome)) =>
      Store(s, s.memory.(activation := Some(a), rollback := Some(a.previous)), outcome)
        .(phase := if outcome.Done? then Recorded(a) else AfterStep)
    case (Recorded(a), Switch(outcome)) =>
      Redirect(s, a.candidate, outcome).(phase := if outcome.Done? then Switched(a) else AfterStep)
    case (Switched(a), Health(ok)) =>
      if ok then s.(phase := Healthy(a), confirmed := s.confirmed + {s.link}) else s.(phase := Raising(a))
    case (Healthy(a), Report(ok)) => s.(phase := if ok then Reported(a) else Raising(a))
    case (Reported(a), Save(outcome)) =>
      Store(s, s.memory.(activation := None), outcome).(phase := if outcome.Done? then AfterStep else Raising(a))
    case _ => s
  }

  function NextRollback(s: State, e: Event): State {
    match (s.phase, e)
    case (Raising(a), Check(ok)) =>
      if ok then s.(phase := RollbackChecked(a), checked := s.checked + {a.previous}) else s.(phase := AfterStep)
    case (RollbackChecked(a), Switch(outcome)) =>
      Redirect(s, a.previous, outcome).(phase := if outcome.Done? then RollbackSwitched(a) else AfterStep)
    case (RollbackSwitched(a), Health(ok)) =>
      if ok then s.(phase := RollbackHealthy(a), confirmed := s.confirmed + {s.link}) else s.(phase := AfterStep)
    case (RollbackHealthy(a), Save(outcome)) =>
      Store(s, s.memory.(activation := None, failed := Some(a.version)), outcome).(phase := AfterStep)
    case _ => s
  }

  predicate Recovering(p: Phase) {
    p.Starting? || p.RecoveryChecked? || p.RecoveryLeased? || p.RecoverySwitched? || p.RecoveryHealthy?
      || p.RecoveryFinished?
  }

  predicate RollingBack(p: Phase) {
    p.Raising? || p.RollbackChecked? || p.RollbackSwitched? || p.RollbackHealthy?
  }

  function Next(s: State, e: Event): State {
    match e
    case Start => if s.phase.Stopped? then Launch(s) else s
    case Crash => s.(phase := Stopped)
    case Flush => if s.phase.Stopped? then s else s.(disk := s.memory)
    case LoopEnd =>
      if !s.phase.AfterStep? then s
      else if s.link != s.original then Launch(s)
      else s.(phase := Ready)
    case _ =>
      if Recovering(s.phase) then NextRecovery(s, e)
      else if RollingBack(s.phase) then NextRollback(s, e)
      else NextActivation(s, e)
  }

  function Run(s: State, events: seq<Event>): State {
    if events == [] then s else Next(Run(s, events[..|events| - 1]), events[|events| - 1])
  }

  // -------------------------------------------------------- the local invariant

  /** What each control point knows, in every run. */
  ghost predicate Sound(s: State) {
    && (s.memory.activation.Some? ==> s.memory.rollback == Some(s.memory.activation.value.previous))
    && (s.disk.activation.Some? ==> s.disk.rollback == Some(s.disk.activation.value.previous))
    && match s.phase
       case Starting => s.memory == s.disk
       case RecoveryChecked(a) => s.memory == s.disk && s.disk.activation == Some(a) && a.previous in s.checked
       case RecoveryLeased(a) => s.memory == s.disk && s.disk.activation == Some(a) && a.previous in s.checked
       case RecoverySwitched(a) => s.memory == s.disk && s.disk.activation == Some(a) && s.link == a.previous
       case RecoveryHealthy(a) => s.memory == s.disk && s.disk.activation == Some(a) && s.link == a.previous
       case RecoveryFinished(a) => s.memory == s.disk && s.disk.activation == Some(a) && s.link == a.previous
       case Checked(image, _) => image in s.checked
       case Leased(a) => a.candidate in s.checked && a.previous == Fallback(s, a.candidate)
       case Recorded(a) => s.disk == s.memory && s.disk.activation == Some(a) && a.candidate in s.checked
       case Switched(a) => s.disk == s.memory && s.disk.activation == Some(a) && s.link == a.candidate
       case Healthy(a) => s.disk == s.memory && s.disk.activation == Some(a) && s.link == a.candidate
         && s.link in s.confirmed
       case Reported(a) => s.disk == s.memory && s.disk.activation == Some(a) && s.link == a.candidate
         && s.link in s.confirmed
       case Raising(a) => s.link == a.candidate
       case RollbackChecked(a) => s.link == a.candidate && a.previous in s.checked
       case RollbackSwitched(a) => s.link == a.previous
       case RollbackHealthy(a) => s.link == a.previous && s.link in s.confirmed
       case _ => true
  }

  lemma NextSound(s: State, e: Event)
    requires Sound(s)
    ensures Sound(Next(s, e))
  {
  }

  lemma {:induction false} RunSound(image: Image, events: seq<Event>)
    ensures Sound(Run(Initial(image), events))
  {
    if events != [] {
      RunSound(image, events[..|events| - 1]);
      NextSound(Run(Initial(image), events[..|events| - 1]), events[|events| - 1]);
    }
  }

  /** Every redirect goes to an image whose storage check passed in the same attempt. */
  lemma RedirectsAreChecked(image: Image, events: seq<Event>, e: Event)
    ensures var s := Run(Initial(image), events);
            Next(s, e).link != s.link ==> Next(s, e).link in s.checked
  {
    RunSound(image, events);
  }

  /** The attempt a step leaves unsettled. A redirect to the candidate of the
      record that took effect, raised or not, leaves its attempt unsettled. A
      confirmed health, a redirect back and a new record settle it; a crash, a
      failed step, a flush and a new process do not. */
  function NextUnsettled(s: State, unsettled: Option<Activation>, e: Event): Option<Activation> {
    match (s.phase, e)
    case (Recorded(a), Switch(outcome)) => if outcome.NotDone? then unsettled else Some(a)
    case (RecoveryLeased(_), Switch(outcome)) => if outcome.NotDone? then unsettled else None
    case (RollbackChecked(_), Switch(outcome)) => if outcome.NotDone? then unsettled else None
    case (Switched(_), Health(ok)) => if ok then None else unsettled
    case (RecoverySwitched(_), Health(ok)) => if ok then None else unsettled
    case (RollbackSwitched(_), Health(ok)) => if ok then None else unsettled
    case (Leased(_), Save(_)) => None
    case _ => unsettled
  }

  function Unsettled(s: State, events: seq<Event>): Option<Activation> {
    if events == [] then None
    else
      var n := |events| - 1;
      NextUnsettled(Run(s, events[..n]), Unsettled(s, events[..n]), events[n])
  }

  /** The file, and the memory of a running process, name the unsettled attempt,
      and its candidate is live. */
  ghost predicate Spans(s: State, unsettled: Option<Activation>) {
    unsettled.Some? ==>
      && s.disk.activation == unsettled && s.link == unsettled.value.candidate
      && (!s.phase.Stopped? ==> s.memory.activation == unsettled)
      && match s.phase
         case RecoverySwitched(_) => false
         case RecoveryHealthy(_) => false
         case RecoveryFinished(_) => false
         case Healthy(_) => false
         case Reported(_) => false
         case RollbackSwitched(_) => false
         case RollbackHealthy(_) => false
         case _ => true
  }

  lemma NextSpans(s: State, unsettled: Option<Activation>, e: Event)
    requires Sound(s) && Spans(s, unsettled)
    ensures Spans(Next(s, e), NextUnsettled(s, unsettled, e))
  {
  }

  lemma {:induction false} RunSpans(image: Image, events: seq<Event>)
    ensures Spans(Run(Initial(image), events), Unsettled(Initial(image), events))
  {
    if events != [] {
      var n := |events| - 1;
      RunSpans(image, events[..n]);
      RunSound(image, events[..n]);
      NextSpans(Run(Initial(image), events[..n]), Unsettled(Initial(image), events[..n]), events[n]);
    }
  }

  /** From any redirect to a candidate until its health is confirmed, the link
      leaves it or a new record is written, the file names the attempt and with
      it the image to return to: in every run, through crashes, redirects that
      raised, failed checks and new processes. */
  lemma RecordSpansTheSwitch(image: Image, events: seq<Event>)
    ensures var s := Run(Initial(image), events);
            var unsettled := Unsettled(Initial(image), events);
            unsettled.Some? ==> s.disk.activation == unsettled && s.link == unsettled.value.candidate
  {
    RunSpans(image, events);
  }

  /** Every redirect out of a record starts such a stretch. */
  lemma RedirectIsUnsettled(image: Image, events: seq<Event>, outcome: Outcome)
    requires Run(Initial(image), events).phase.Recorded? && !outcome.NotDone?
    ensures Unsettled(Initial(image), events + [Switch(outcome)]) == Some(Run(Initial(image), events).phase.attempt)
  {
    var all := events + [Switch(outcome)];
    assert all[..|all| - 1] == events;
  }

  // -------------------------------------------------------------------- recovery

  /** Events of processes that are started, stopped, and only recover. */
  predicate OnlyRecovers(e: Event) {
    !e.Begin? && !e.Idle? && !e.LoopEnd?
  }

  /** Either the record stands, or the link is back and the record is cleared. */
  ghost predicate Recovered(s: State, action: Activation) {
    || s.disk.activation == Some(action)
    || (s.disk.activation.None? && s.link == action.previous)
  }

  ghost predicate InRecovery(s: State, action: Activation) {
    && Recovered(s, action)
    && (s.phase.Stopped? || Recovering(s.phase) || s.phase.Ready?)
    && (s.phase.Ready? ==> s.disk.activation.None? && s.memory.activation.None?)
  }

  lemma RecoveryStep(s: State, e: Event, action: Activation)
    requires Sound(s) && InRecovery(s, action) && OnlyRecovers(e)
    ensures InRecovery(Next(s, e), action)
  {
  }

  /** However often it crashes and starts again, recovery either leaves the record
      in place or ends on the previous image with the record cleared. */
  lemma {:induction false} RecoveryConverges(s: State, events: seq<Event>, action: Activation)
    requires Sound(s) && s.phase.Stopped? && s.disk.activation == Some(action)
    requires forall i | 0 <= i < |events| :: OnlyRecovers(events[i])
    ensures Sound(Run(s, events)) && InRecovery(Run(s, events), action)
    ensures Run(s, events).phase.Ready?
            ==> Run(s, events).link == action.previous && Run(s, events).disk.activation.None?
  {
    if events != [] {
      var n := |events| - 1;
      RecoveryConverges(s, events[..n], action);
      NextSound(Run(s, events[..n]), events[n]);
      RecoveryStep(Run(s, events[..n]), events[n], action);
    }
  }

  // ------------------------------------------------ the fallback is a known image

  ghost predicate Trusted(s: State, saved: Saved) {
    && (saved.rollback.Some? ==> saved.rollback.value in s.confirmed)
    && (saved.activation.Some? ==> saved.rollback == Some(saved.activation.value.previous))
  }

  /** A live image nobody found healthy is the candidate of both records. */
  ghost predicate Covered(s: State) {
    || s.link in s.confirmed
    || (&& s.disk.activation.Some? && s.disk.activation.value.candidate == s.link
        && s.memory.activation.Some? && s.memory.activation.value.candidate == s.link)
  }

  ghost predicate Safe(s: State) {
    && Sound(s)
    && Trusted(s, s.disk)
    && (!s.phase.Stopped? ==> Trusted(s, s.memory))
    && (if s.phase.Stopped?
        then s.link in s.confirmed || (s.disk.activation.Some? && s.disk.activation.value.candidate == s.link)
        else Covered(s))
    && match s.phase
       case Checked(image, _) => s.link in s.confirmed || image == s.link
       case Leased(a) => a.previous in s.confirmed && (s.link in s.confirmed || a.candidate == s.link)
       case Raising(a) => a.previous in s.confirmed
       case RollbackChecked(a) => a.previous in s.confirmed
       case RollbackSwitched(a) => a.previous in s.confirmed
       case RollbackHealthy(a) => a.previous in s.confirmed
       case _ => true
  }

  /** No attempt on another image starts while the record still names the live
      image as its candidate. */
  predicate Orderly(s: State, e: Event) {
    e.Begin? && s.memory.activation.Some? && s.memory.activation.value.candidate == s.link ==> e.candidate == s.link
  }

  lemma NextSafe(s: State, e: Event)
    requires Safe(s) && Orderly(s, e)
    ensures Safe(Next(s, e))
  {
    NextSound(s, e);
  }

  ghost predicate OrderlyRun(s: State, events: seq<Event>) {
    forall i | 0 <= i < |events| :: Orderly(Run(s, events[..i]), events[i])
  }

  /** In an orderly run, whenever the live image has never been found healthy,
      the file names it as candidate and names a healthy image to return to. */
  lemma {:induction false} RunSafe(image: Image, events: seq<Event>)
    requires OrderlyRun(Initial(image), events)
    ensures Safe(Run(Initial(image), events))
    ensures var s := Run(Initial(image), events);
            s.link in s.confirmed
            || (s.disk.activation.Some? && s.disk.activation.value.candidate == s.link
              && s.disk.activation.value.previous in s.confirmed)
  {
    if events != [] {
      var n := |events| - 1;
      var front := events[..n];
      assert forall i | 0 <= i < n :: front[..i] == events[..i] && front[i] == events[i];
      RunSafe(image, front);
      NextSafe(Run(Initial(image), front), events[n]);
    }
  }

  /** Exactly when the record written by an attempt names a healthy image. */
  lemma RecordNamesHealthyImage(s: State, candidate: Image, version: Version)
    requires Safe(s) && s.phase.Ready?
    ensures var recorded := Next(Next(Next(s, Begin(candidate, version)), Lease(true)), Save(Done));
            && recorded.disk.activation.Some?
            && (recorded.disk.activation.value.previous in recorded.confirmed
                <==> s.link in s.confirmed || candidate == s.link)
  {
  }

  ghost predicate Reaches(s: State, t: State) {
    exists events :: Run(s, events) == t
  }

  lemma Then(s: State, t: State, e: Event) returns (u: State)
    requires Reaches(s, t)
    ensures u == Next(t, e) && Reaches(s, u)
  {
    var events :| Run(s, events) == t;
    assert (events + [e])[..|events + [e]| - 1] == events;
    u := Next(t, e);
    assert Run(s, events + [e]) == u;
  }

  /** The first half of an attempt: the record is written. */
  lemma Recording(s: State, t: State, candidate: Image, version: Version) returns (u: State)
    requires Reaches(s, t) && t.phase.Ready?
    ensures var a := Activation(Fallback(t, candidate), candidate, version);
            var saved := t.memory.(activation := Some(a), rollback := Some(a.previous));
            u == State(t.link, saved, saved, t.original, Recorded(a), {candidate}, t.confirmed)
    ensures Reaches(s, u)
  {
    u := Then(s, t, Begin(candidate, version));
    u := Then(s, u, Lease(true));
    u := Then(s, u, Save(Done));
  }

  lemma Recovery(s: State, t: State) returns (u: State)
    requires Reaches(s, t) && t.phase.Stopped? && t.disk.activation.Some?
    ensures var saved := t.disk.(activation := None);
            var image := t.disk.activation.value.previous;
            u == State(image, saved, saved, t.link, Ready, {image}, t.confirmed + {image})
    ensures Reaches(s, u)
  {
    u := Then(s, t, Start);
    u := Then(s, u, Check(true));
    u := Then(s, u, Lease(true));
    u := Then(s, u, Switch(Done));
    u := Then(s, u, Health(true));
    u := Then(s, u, Report(true));
    u := Then(s, u, Save(Done));
  }

  /** The candidate is unhealthy and the storage check of the fallback fails. */
  lemma FailedRollback(s: State, t: State) returns (u: State)
    requires Reaches(s, t) && t.phase.Recorded? && t.original == t.phase.attempt.candidate
    ensures u == t.(link := t.phase.attempt.candidate, phase := Ready)
    ensures Reaches(s, u)
  {
    u := Then(s, t, Switch(Done));
    u := Then(s, u, Health(false));
    u := Then(s, u, Check(false));
    u := Then(s, u, LoopEnd);
  }

  /** A process that started on the candidate, recovered and tried it again does
      not notice that the link is back on it: the next attempt overwrites the
      record, which then names an image that was never healthy, while the healthy
      one is named nowhere any more. */
  lemma FallbackCanBeLost()
    ensures exists t ::
            Reaches(Initial(0), t) && t.disk == Saved(Some(Activation(1, 2, 2)), Some(1), None) && t.confirmed == {0}
  {
    var s := Initial(0);
    assert Run(s, []) == s;
    var t := Then(s, s, Start);
    t := Then(s, t, NothingToRecover);
    t := Recording(s, t, 1, 1);
    t := Then(s, t, Switch(Done));
    t := Then(s, t, Crash);
    t := Recovery(s, t);
    t := Recording(s, t, 1, 1);
    t := FailedRollback(s, t);
    t := Recording(s, t, 2, 2);
  }
}
