/**
 Confirming that a whole process tree has exited. The kernel Job counts every process that ever
 joined and those still active; a process leaves the active count before its handle is signalled. The
 runner captures members in several queries while the tree keeps changing, and confirms only from
 totals, retained identities and waited handles.
 */
module JobTree {
  import opened Common
  import opened SetSizes

  /** A native identity: a process id may be reused, but not with the same creation time. */
  datatype Process = Process(pid: nat, created: nat)

  const MAX_TRACKED := 4096

  datatype Capture =
    | NoCapture
    | Counted(total: nat, active: nat)
    | Opening(total: nat, pids: seq<nat>, held: set<Process>)
    | Captured(total: nat, held: set<Process>)

  datatype Runner =
    | Watching
    | Stopping
    | Retained(total: nat, members: set<Process>)
    | Drained(total: nat, members: set<Process>)
    | Totaled(total: nat, members: set<Process>, final: nat, waited: set<Process>)
    | Confirmed
    | Unconfirmed

  datatype State = State(
    joined: set<Process>, active: set<Process>, exited: set<Process>,
    registry: set<Process>, capture: Capture, observationError: bool, runner: Runner)

  /** The suspended child was just assigned and nothing is captured yet. */
  function Init(child: Process): State {
    State({child}, {child}, {}, {}, NoCapture, false, Watching)
  }

  datatype Event =
    | Spawn(parent: Process, child: Process) | Deactivate(p: Process) | Exit(p: Process)
    | CountBefore | ListPids(pids: seq<nat>) | OpenNext(p: Process) | CountAfter | Register
    | CaptureFails(kept: set<Process>, error: bool)
    | StopObserver | SeeNoActive | ReadTotal | WaitMember(p: Process) | Confirm | GiveUp

  predicate Enabled(s: State, e: Event) {
    match e
    // the tree: only a running member brings in another one
    case Spawn(parent, child) => parent in s.active && child !in s.joined
    case Deactivate(p) => p in s.active
    case Exit(p) => p in s.joined && p !in s.active
    // a capture, by the observer while watching or by the runner while stopping
    case CountBefore => s.capture.NoCapture? && (s.runner.Watching? || s.runner.Stopping?)
    case ListPids(pids) => s.capture.Counted? && |pids| == s.capture.active
    case OpenNext(p) =>
      s.capture.Opening? && s.capture.pids != [] && p.pid == s.capture.pids[0] && p in s.joined
    case CountAfter => s.capture.Opening? && s.capture.pids == [] && |s.joined| == s.capture.total
    case Register => s.capture.Captured? && |s.registry + s.capture.held| <= MAX_TRACKED
    case CaptureFails(kept, error) =>
      !s.capture.NoCapture? && (kept != {} ==> s.capture.Captured? && kept <= s.capture.held)
    // stop_windows_owned
    case StopObserver => s.runner.Watching? && s.capture.NoCapture?
    case SeeNoActive => s.runner.Retained? && |s.active| == 0
    case ReadTotal => s.runner.Drained?
    case WaitMember(p) => s.runner.Totaled? && p in s.runner.members && p in s.exited
    case Confirm =>
      && s.runner.Totaled? && !s.observationError
      && s.runner.final == s.runner.total && s.runner.total == |s.runner.members|
      && s.runner.waited == s.runner.members
    case GiveUp => !s.runner.Confirmed?
  }

  function Next(s: State, e: Event): State
    requires Enabled(s, e)
  {
    match e
    case Spawn(_, child) => s.(joined := s.joined + {child}, active := s.active + {child})
    case Deactivate(p) => s.(active := s.active - {p})
    case Exit(p) => s.(exited := s.exited + {p})
    case CountBefore => s.(capture := Counted(|s.joined|, |s.active|))
    case ListPids(pids) => s.(capture := Opening(s.capture.total, pids, {}))
    case OpenNext(p) => s.(capture := Opening(s.capture.total, s.capture.pids[1..], s.capture.held + {p}))
    case CountAfter => s.(capture := Captured(s.capture.total, s.capture.held))
    case Register =>
      var registry := s.registry + s.capture.held;
      s.(registry := registry, capture := NoCapture,
         runner := if s.runner.Stopping? then Retained(s.capture.total, registry) else s.runner)
    case CaptureFails(kept, error) =>
      s.(registry := s.registry + kept, capture := NoCapture, observationError := s.observationError || error,
         runner := if s.runner.Stopping? && error then Unconfirmed else s.runner)
    case StopObserver => s.(runner := Stopping)
    case SeeNoActive => s.(runner := Drained(s.runner.total, s.runner.members))
    case ReadTotal => s.(runner := Totaled(s.runner.total, s.runner.members, |s.joined|, {}))
    case WaitMember(p) => s.(runner := s.runner.(waited := s.runner.waited + {p}))
    case Confirm => s.(runner := Confirmed)
    case GiveUp => s.(runner := Unconfirmed)
  }

  ghost predicate Reaches(s: State, es: seq<Event>, t: State)
    decreases |es|
  {
    if es == [] then s == t else Enabled(s, es[0]) && Reaches(Next(s, es[0]), es[1..], t)
  }

  ghost predicate RunnerOk(s: State) {
    match s.runner
    case Retained(_, members) => members <= s.joined
    case Drained(_, members) => members <= s.joined && s.active == {}
    case Totaled(_, members, final, waited) =>
      members <= s.joined && s.active == {} && final == |s.joined| && waited <= s.exited && waited <= members
    case Confirmed => s.active == {} && s.exited == s.joined
    case _ => true
  }

  ghost predicate CaptureOk(s: State) {
    match s.capture
    case Opening(total, _, held) => held <= s.joined && total <= |s.joined|
    case Captured(total, held) => held <= s.joined && total <= |s.joined|
    case Counted(total, _) => total <= |s.joined|
    case NoCapture => true
  }

  ghost predicate Inv(s: State) {
    s.active <= s.joined && s.exited <= s.joined && s.active !! s.exited && s.registry <= s.joined
    && CaptureOk(s) && RunnerOk(s)
  }

  lemma StepKeeps(s: State, e: Event)
    requires Inv(s) && Enabled(s, e)
    ensures Inv(Next(s, e))
  {
    match e
    case Confirm => SameSize(s.runner.members, s.joined);
    case Spawn(parent, child) => assert s.joined <= s.joined + {child}; assert s.active != {};
    case Exit(p) =>
    case SeeNoActive => assert s.active == {};
    case _ =>
  }

  lemma {:induction false} RunKeeps(s: State, es: seq<Event>, t: State)
    requires Inv(s) && Reaches(s, es, t)
    ensures Inv(t)
    decreases |es|
  {
    hide Inv;
    if es != [] {
      StepKeeps(s, es[0]);
      RunKeeps(Next(s, es[0]), es[1..], t);
    }
  }

  /** A confirmed tree has really exited: every process that ever joined, in every run. */
  lemma ConfirmedMeansExited(child: Process, es: seq<Event>, t: State)
    requires Reaches(Init(child), es, t) && t.runner.Confirmed?
    ensures t.exited == t.joined && t.active == {}
  {
    RunKeeps(Init(child), es, t);
  }

  /** Nothing joins a confirmed tree any more, and the confirmation is not withdrawn. */
  lemma {:induction false} ConfirmedIsFinal(s: State, es: seq<Event>, t: State)
    requires Inv(s) && s.runner.Confirmed? && Reaches(s, es, t)
    ensures t.runner.Confirmed? && t.joined == s.joined
    decreases |es|
  {
    if es != [] {
      StepKeeps(s, es[0]);
      ConfirmedIsFinal(Next(s, es[0]), es[1..], t);
    }
  }

  /** With the totals read and the retained handles waited for, the counts agree exactly when the
      retained identities are all the processes that ever joined. */
  lemma CountsAgreeExactly(child: Process, es: seq<Event>, t: State)
    requires Reaches(Init(child), es, t) && t.runner.Totaled? && t.runner.waited == t.runner.members
    requires !t.observationError
    ensures Enabled(t, Confirm) <==> t.runner.members == t.joined && t.runner.total == |t.joined|
  {
    RunKeeps(Init(child), es, t);
    if Enabled(t, Confirm) { SameSize(t.runner.members, t.joined); }
  }

  /** An empty active count alone proves nothing: the count drops before a handle is signalled. */
  lemma NoActiveIsNotExited(child: Process) returns (es: seq<Event>, t: State)
    ensures Reaches(Init(child), es, t) && t.runner.Drained? && t.exited != t.joined
  {
    var s0 := Init(child);
    var first, watched := OneCapture(s0, child);
    var stopping := Next(watched, StopObserver);
    var second, retained := OneCapture(stopping, child);
    var inactive := Next(retained, Deactivate(child));
    t := Next(inactive, SeeNoActive);
    assert Reaches(t, [], t);
    assert Enabled(retained, Deactivate(child)) && Enabled(watched, StopObserver);
    assert t.runner.Drained? && t.exited != t.joined;
    hide Reaches, Enabled, Next;
    First(inactive, SeeNoActive, [], t);
    var ending := [SeeNoActive] + [];
    First(retained, Deactivate(child), ending, t);
    ending := [Deactivate(child)] + ending;
    Joined(stopping, second, retained, ending, t);
    ending := second + ending;
    First(watched, StopObserver, ending, t);
    ending := [StopObserver] + ending;
    Joined(s0, first, watched, ending, t);
    es := first + ending;
  }

  lemma {:induction false} Joined(s: State, a: seq<Event>, m: State, b: seq<Event>, t: State)
    requires Reaches(s, a, m) && Reaches(m, b, t)
    ensures Reaches(s, a + b, t)
    decreases |a|
  {
    if a == [] {
      assert a + b == b;
    } else {
      Joined(Next(s, a[0]), a[1..], m, b, t);
      assert (a + b)[1..] == a[1..] + b;
    }
  }

  lemma First(s: State, e: Event, rest: seq<Event>, t: State)
    requires Enabled(s, e) && Reaches(Next(s, e), rest, t)
    ensures Reaches(s, [e] + rest, t)
  {
  }

  predicate OnlyChild(s: State, child: Process) {
    && s.joined == {child} && s.active == {child} && s.capture.NoCapture? && (s.runner.Watching? || s.runner.Stopping?)
    && s.registry <= {child}
  }

  lemma CaptureEnds(s: State, child: Process)
    requires OnlyChild(s, child)
    ensures var s2, s3 := s.(capture := Opening(1, [child.pid], {})), s.(capture := Opening(1, [], {child}));
      Enabled(s2, OpenNext(child)) && Next(s2, OpenNext(child)) == s3
    ensures var s3, s4 := s.(capture := Opening(1, [], {child})), s.(capture := Captured(1, {child}));
      Enabled(s3, CountAfter) && Next(s3, CountAfter) == s4
    ensures var s4 := s.(capture := Captured(1, {child}));
      && Enabled(s4, Register)
      && Next(s4, Register)
         == s.(registry := {child}, runner := if s.runner.Stopping? then Retained(1, {child}) else s.runner)
  {
    assert |{child}| == 1 && s.registry + {child} == {child};
    assert {} + {child} == {child} && [child.pid][1..] == [];
  }

  /** The capture of a tree that is just its child. */
  lemma OneCapture(s: State, child: Process) returns (es: seq<Event>, t: State)
    requires OnlyChild(s, child)
    ensures Reaches(s, es, t)
    ensures t == s.(registry := {child}, runner := if s.runner.Stopping? then Retained(1, {child}) else s.runner)
  {
    CaptureEnds(s, child);
    t := s.(registry := {child}, runner := if s.runner.Stopping? then Retained(1, {child}) else s.runner);
    es := [];
    assert Reaches(t, es, t);
    hide Reaches, Enabled, Next;
    First(s.(capture := Captured(1, {child})), Register, es, t);
    es := [Register] + es;
    First(s.(capture := Opening(1, [], {child})), CountAfter, es, t);
    es := [CountAfter] + es;
    First(s.(capture := Opening(1, [child.pid], {})), OpenNext(child), es, t);
    es := [OpenNext(child)] + es;
    First(s.(capture := Counted(1, 1)), ListPids([child.pid]), es, t);
    es := [ListPids([child.pid])] + es;
    First(s, CountBefore, es, t);
    es := [CountBefore] + es;
  }
}
