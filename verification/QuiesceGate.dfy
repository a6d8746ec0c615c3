/**
 The quiesce gate: any number of executors work inside it, one coordinator opens exclusive windows
 and fingerprints the root at both ends of a backup. Executors change the root only while they are
 inside; the backup only reads.
 */
module QuiesceGate {
  import opened Common
  import opened Sums

  datatype Coordinator = Idle | Draining | Window(before: Option<int>, after: Option<int>)

  /** inside[w] says whether executor w is between entering and leaving; root is what a fingerprint sees. */
  datatype State = State(active: int, exclusive: bool, inside: seq<bool>, coordinator: Coordinator, root: int)

  datatype Event =
    | Enter(w: nat) | Leave(w: nat) | Mutate(w: nat, content: int)
    | Announce | Open | FingerprintBefore | FingerprintAfter | Close

  function Init(executors: nat, root: int): State {
    State(0, false, seq(executors, _ => false), Idle, root)
  }

  predicate Enabled(s: State, e: Event) {
    match e
    case Enter(w) => w < |s.inside| && !s.inside[w] && !s.exclusive
    case Leave(w) => w < |s.inside| && s.inside[w]
    case Mutate(w, _) => w < |s.inside| && s.inside[w]
    case Announce => s.coordinator.Idle?
    case Open => s.coordinator.Draining? && s.active == 0
    case FingerprintBefore => s.coordinator.Window? && s.coordinator.before.None?
    case FingerprintAfter => s.coordinator.Window? && s.coordinator.before.Some? && s.coordinator.after.None?
    case Close => s.coordinator.Window?
  }

  function Next(s: State, e: Event): State
    requires Enabled(s, e)
  {
    match e
    case Enter(w) => s.(active := s.active + 1, inside := s.inside[w := true])
    case Leave(w) => s.(active := s.active - 1, inside := s.inside[w := false])
    case Mutate(_, content) => s.(root := content)
    case Announce => s.(exclusive := true, coordinator := Draining)
    case Open => s.(coordinator := Window(None, None))
    case FingerprintBefore => s.(coordinator := s.coordinator.(before := Some(s.root)))
    case FingerprintAfter => s.(coordinator := s.coordinator.(after := Some(s.root)))
    case Close => s.(exclusive := false, coordinator := Idle)
  }

  ghost predicate Reaches(s: State, es: seq<Event>, t: State)
    decreases |es|
  {
    if es == [] then s == t else Enabled(s, es[0]) && Reaches(Next(s, es[0]), es[1..], t)
  }

  const ONE: bool -> int := (b: bool) => if b then 1 else 0

  function Inside(s: State): int { Sum(s.inside, ONE) }

  ghost predicate Inv(s: State) {
    && s.active == Inside(s)
    && (s.exclusive <==> !s.coordinator.Idle?)
    && (s.coordinator.Window? ==> s.active == 0)
    && (s.coordinator.Window? && s.coordinator.before.Some? ==> s.coordinator.before == Some(s.root))
    && (s.coordinator.Window? && s.coordinator.after.Some? ==> s.coordinator.after == s.coordinator.before)
    && (s.coordinator.Window? && s.coordinator.after.Some? ==> s.coordinator.before.Some?)
  }

  lemma StepKeeps(s: State, e: Event)
    requires Inv(s) && Enabled(s, e)
    ensures Inv(Next(s, e)) && |Next(s, e).inside| == |s.inside|
    ensures s.exclusive ==> Next(s, e).active <= s.active
  {
    SumNonNegative(s.inside, ONE);
    match e
    case Enter(w) => SumUpdate(s.inside, w, true, ONE);
    case Leave(w) => SumUpdate(s.inside, w, false, ONE);
    case Mutate(w, _) => assert ONE(s.inside[w]) <= Sum(s.inside, ONE);
    case _ =>
  }

  lemma {:induction false} RunKeeps(s: State, es: seq<Event>, t: State)
    requires Inv(s) && Reaches(s, es, t)
    ensures Inv(t)
    decreases |es|
  {
    if es != [] {
      StepKeeps(s, es[0]);
      hide Inv;
      RunKeeps(Next(s, es[0]), es[1..], t);
    }
  }

  lemma InitKeeps(executors: nat, root: int)
    ensures Inv(Init(executors, root))
  {
    AllZero(Init(executors, root).inside, ONE);
  }

  /** The counter counts the executors inside, and an open window has none of them. */
  lemma WindowIsExclusive(executors: nat, root: int, es: seq<Event>, t: State)
    requires Reaches(Init(executors, root), es, t)
    ensures t.active == Inside(t)
    ensures t.coordinator.Window? ==> t.exclusive && forall w | 0 <= w < |t.inside| :: !t.inside[w]
  {
    InitKeeps(executors, root);
    RunKeeps(Init(executors, root), es, t);
    if t.coordinator.Window? {
      SumZero(t.inside, ONE);
    }
  }

  /** archive_cycle always finds the fingerprints equal: its unstable branch is never taken. */
  lemma CutWindowIsStable(executors: nat, root: int, es: seq<Event>, t: State)
    requires Reaches(Init(executors, root), es, t)
    requires t.coordinator.Window? && t.coordinator.before.Some? && t.coordinator.after.Some?
    ensures t.coordinator.before.value == t.coordinator.after.value == t.root
  {
    InitKeeps(executors, root);
    RunKeeps(Init(executors, root), es, t);
  }

  /** From the announcement until the window closes, the counter never rises. */
  lemma {:induction false} ExclusiveOnlyDrains(s: State, es: seq<Event>, t: State)
    requires Inv(s) && s.exclusive && Reaches(s, es, t) && Close !in es
    ensures t.exclusive && t.active <= s.active
    decreases |es|
  {
    if es != [] {
      StepKeeps(s, es[0]);
      assert es[0] in es && es[0] != Close;
      assert forall e | e in es[1..] :: e in es;
      ExclusiveOnlyDrains(Next(s, es[0]), es[1..], t);
    }
  }

  /** When everybody leaves, the announced window can open: the drain never gets stuck. */
  lemma {:induction false} DrainCompletes(s: State) returns (es: seq<Event>, t: State)
    requires Inv(s) && s.coordinator.Draining?
    ensures Reaches(s, es, t) && Enabled(t, Open)
    decreases Inside(s)
  {
    SumNonNegative(s.inside, ONE);
    if s.active == 0 {
      es, t := [], s;
    } else {
      SumZero(s.inside, ONE);
      var w :| 0 <= w < |s.inside| && ONE(s.inside[w]) != 0;
      StepKeeps(s, Leave(w));
      var rest, u := DrainCompletes(Next(s, Leave(w)));
      es, t := [Leave(w)] + rest, u;
      assert es[1..] == rest;
    }
  }

  // ---- the object -----------------------------------------------------------------------

  class QuiesceGate {
    var active: int
    var exclusive: bool

    constructor ()
      ensures active == 0 && !exclusive
    {
      active, exclusive := 0, false;
    }

    /** One pass of working's entry loop: false means the executor goes back to waiting. */
    method TryEnter(ghost s: State, ghost w: nat) returns (entered: bool)
      requires s.active == active && s.exclusive == exclusive && w < |s.inside| && !s.inside[w]
      modifies this
      ensures entered <==> Enabled(s, Enter(w))
      ensures entered ==> active == Next(s, Enter(w)).active && exclusive == Next(s, Enter(w)).exclusive
      ensures !entered ==> active == old(active) && exclusive == old(exclusive)
    {
      if exclusive {
        return false;
      }
      active := active + 1;
      entered := true;
    }

    method Exit(ghost s: State, ghost w: nat)
      requires s.active == active && s.exclusive == exclusive && Enabled(s, Leave(w))
      modifies this
      ensures active == Next(s, Leave(w)).active && exclusive == Next(s, Leave(w)).exclusive
    {
      active := active - 1;
    }

    method BeginQuiesce(ghost s: State)
      requires s.active == active && s.exclusive == exclusive && Enabled(s, Announce)
      modifies this
      ensures active == Next(s, Announce).active && exclusive == Next(s, Announce).exclusive
    {
      exclusive := true;
    }

    /** One pass of quiesced's entry loop. */
    method Drained(ghost s: State) returns (open: bool)
      requires s.active == active && s.coordinator.Draining?
      ensures open <==> Enabled(s, Open)
    {
      open := active == 0;
    }

    method EndQuiesce(ghost s: State)
      requires s.active == active && s.exclusive == exclusive && Enabled(s, Event.Close)
      modifies this
      ensures active == Next(s, Event.Close).active && exclusive == Next(s, Event.Close).exclusive
    {
      exclusive := false;
    }
  }
}
