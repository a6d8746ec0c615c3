/**
 Native handles over a whole run of the process tree. A capture opens handles, then hands some of
 them to the registry and closes the rest, also when it fails; closing the Job closes the registry's
 handles one by one. The tree moves on meanwhile. Handles stand for their lifetimes: a number the
 system uses again is another handle.
 */
module HandleOwners {
  import opened Common
  import opened HandleRegistry
  import T = JobTree

  /** released holds the identities whose registered handle was closed with the Job. */
  datatype State = State(
    tree: T.State, registry: map<T.Process, Handle>, inHand: map<Handle, T.Process>,
    closed: set<Handle>, failed: set<Handle>, everOpened: set<Handle>, released: set<T.Process>)

  function Init(child: T.Process): State { State(T.Init(child), map[], map[], {}, {}, {}, {}) }

  datatype Move =
    | Tree(e: T.Event)
    | OpenMember(p: T.Process, h: Handle)
    | OpenStranger(p: T.Process, h: Handle)
    | Settle(after: map<T.Process, Handle>, closes: set<Handle>, ok: bool, error: bool)
    | CloseMember(p: T.Process, ok: bool)

  predicate TouchesHandles(e: T.Event) { e.OpenNext? || e.Register? || e.CaptureFails? }

  /** What the capture still holds after handing handles to the registry. */
  function Rest(s: State, after: map<T.Process, Handle>): set<Handle> { s.inHand.Keys - after.Values }

  function Kept(s: State, after: map<T.Process, Handle>): set<T.Process> { after.Keys - s.registry.Keys }

  /** Registered identities keep their handle; new ones get a handle in hand that identifies them. */
  ghost predicate HandsOver(s: State, after: map<T.Process, Handle>) {
    && (forall p | p in s.registry :: p in after && after[p] == s.registry[p])
    && (forall p | p in after && p !in s.registry :: after[p] in s.inHand && s.inHand[after[p]] == p)
  }

  ghost predicate Enabled(s: State, m: Move) {
    match m
    case Tree(e) =>
      && !TouchesHandles(e) && T.Enabled(s.tree, e)
      && (e.CountBefore? ==> s.released == {})
      && (e.CountAfter? ==> s.inHand.Values == s.tree.capture.held)
    case OpenMember(p, h) => T.Enabled(s.tree, T.OpenNext(p)) && h !in s.everOpened
    // the pid was used again by a process outside the Job: this capture can only fail
    case OpenStranger(p, h) => s.tree.capture.Opening? && p !in s.tree.joined && h !in s.everOpened
    case Settle(after, closes, ok, error) =>
      && !s.tree.capture.NoCapture? && HandsOver(s, after) && closes <= Rest(s, after)
      && if ok then
           && T.Enabled(s.tree, T.Register) && closes == Rest(s, after)
           && after.Keys == s.registry.Keys + s.tree.capture.held
         else
           && T.Enabled(s.tree, T.CaptureFails(Kept(s, after), error))
           && (closes != Rest(s, after) ==> error)
    case CloseMember(p, ok) => s.tree.capture.NoCapture? && p in s.registry
  }

  function Released(s: State, p: T.Process): State
    requires p in s.registry
  {
    s.(registry := s.registry - {p}, closed := s.closed + {s.registry[p]}, released := s.released + {p})
  }

  ghost function Next(s: State, m: Move): State
    requires Enabled(s, m)
  {
    match m
    case Tree(e) => s.(tree := T.Next(s.tree, e))
    case OpenMember(p, h) =>
      s.(tree := T.Next(s.tree, T.OpenNext(p)), inHand := s.inHand[h := p], everOpened := s.everOpened + {h})
    case OpenStranger(p, h) => s.(inHand := s.inHand[h := p], everOpened := s.everOpened + {h})
    case Settle(after, closes, ok, error) =>
      s.(tree := T.Next(s.tree, if ok then T.Register else T.CaptureFails(Kept(s, after), error)),
         registry := after, inHand := map[],
         closed := s.closed + closes, failed := s.failed + (Rest(s, after) - closes))
    case CloseMember(p, ok) => if ok then Released(s, p) else s
  }

  ghost predicate Reaches(s: State, ms: seq<Move>, t: State)
    decreases |ms|
  {
    if ms == [] then s == t else Enabled(s, ms[0]) && Reaches(Next(s, ms[0]), ms[1..], t)
  }

  // ---- one owner ------------------------------------------------------------------------

  ghost predicate OneOwner(s: State) {
    && s.everOpened == s.registry.Values + s.inHand.Keys + s.closed + s.failed
    && s.registry.Values !! s.inHand.Keys !! s.closed !! s.failed
    && (forall p, q | p in s.registry && q in s.registry && s.registry[p] == s.registry[q] :: p == q)
  }

  ghost predicate HandOk(s: State) {
    match s.tree.capture
    case Opening(_, _, held) => held <= s.inHand.Values
    case Captured(_, held) => held == s.inHand.Values
    case _ => s.inHand == map[]
  }

  ghost predicate RegistryIsTree(s: State) {
    && s.registry.Keys + s.released == s.tree.registry && s.registry.Keys !! s.released
    && (s.released != {} ==> s.tree.capture.NoCapture?)
  }

  ghost predicate Inv(s: State) { T.Inv(s.tree) && OneOwner(s) && HandOk(s) && RegistryIsTree(s) }

  lemma TakeInHand(s: State, t: State, p: T.Process, h: Handle)
    requires OneOwner(s) && h !in s.everOpened
    requires t == s.(tree := t.tree, inHand := s.inHand[h := p], everOpened := s.everOpened + {h})
    ensures OneOwner(t) && t.inHand.Values == s.inHand.Values + {p}
  {
    assert h !in s.inHand;
    assert t.inHand.Keys == s.inHand.Keys + {h};
    forall v | v in s.inHand.Values + {p} ensures v in t.inHand.Values {
      if v == p {
        assert h in t.inHand && t.inHand[h] == v;
      } else {
        var k :| k in s.inHand && s.inHand[k] == v;
        assert k in t.inHand && t.inHand[k] == v;
      }
    }
  }

  /** The registry gains handles from the hand only, and the rest is closed or fails to close. */
  lemma SettleKeepsOwners(s: State, after: map<T.Process, Handle>, closes: set<Handle>, t: State)
    requires OneOwner(s) && HandsOver(s, after) && closes <= Rest(s, after)
    requires t == s.(tree := t.tree, registry := after, inHand := map[], closed := s.closed + closes,
                     failed := s.failed + (Rest(s, after) - closes))
    ensures OneOwner(t)
  {
    forall h | h in after.Values ensures h in s.registry.Values || h in s.inHand {
      var p :| p in after && after[p] == h;
      if p in s.registry { assert s.registry[p] == h; }
    }
    forall h | h in s.registry.Values ensures h in after.Values {
      var p :| p in s.registry && s.registry[p] == h;
      assert after[p] == h;
    }
    assert forall p | p in s.registry :: after[p] == s.registry[p] && s.registry[p] in s.registry.Values;
    assert forall p | p in after && p !in s.registry :: after[p] in s.inHand.Keys;
    assert forall p, q | p in after && q in after && after[p] == after[q] :: p == q;
  }

  lemma ReleaseKeepsOwners(s: State, p: T.Process)
    requires OneOwner(s) && p in s.registry
    ensures OneOwner(Released(s, p))
  {
    var h, rest := s.registry[p], s.registry - {p};
    assert h in s.registry.Values;
    forall v | v in s.registry.Values && v != h ensures v in rest.Values {
      var q :| q in s.registry && s.registry[q] == v;
      assert q in rest && rest[q] == v;
    }
    forall v | v in rest.Values ensures v in s.registry.Values && v != h {
      var q :| q in rest && rest[q] == v;
      assert s.registry[q] == v;
    }
  }

  lemma TreeSettles(tree: T.State, e: T.Event)
    requires T.Enabled(tree, e) && (e.Register? || e.CaptureFails?)
    ensures T.Next(tree, e).capture.NoCapture?
    ensures T.Next(tree, e).registry == tree.registry + if e.Register? then tree.capture.held else e.kept
  {
  }

  /** Exactly the identities the tree registers are handed over. */
  lemma SettleRegisters(s: State, m: Move)
    requires RegistryIsTree(s) && m.Settle? && Enabled(s, m)
    ensures s.released == {}
    ensures m.after.Keys == s.tree.registry + if m.ok then s.tree.capture.held else Kept(s, m.after)
  {
    hide T.Next, OneOwner, HandOk, Rest;
    assert s.released == {};
    assert s.registry.Keys == s.tree.registry;
    assert forall p | p in s.registry.Keys :: p in m.after.Keys;
  }

  lemma NothingInHand(t: State)
    requires t.tree.capture.NoCapture? && t.inHand == map[] && t.released == {} && t.registry.Keys == t.tree.registry
    ensures RegistryIsTree(t) && HandOk(t)
  {
  }

  lemma SettleKeepsTree(s: State, m: Move)
    requires RegistryIsTree(s) && T.Inv(s.tree) && m.Settle? && Enabled(s, m)
    ensures RegistryIsTree(Next(s, m)) && HandOk(Next(s, m)) && T.Inv(Next(s, m).tree)
  {
    hide OneOwner, T.Inv, T.Enabled, T.Next, HandsOver, Rest, Kept, HandOk, RegistryIsTree;
    var e := if m.ok then T.Register else T.CaptureFails(Kept(s, m.after), m.error);
    T.StepKeeps(s.tree, e);
    TreeSettles(s.tree, e);
    SettleRegisters(s, m);
    NothingInHand(Next(s, m));
  }

  /** A step of the tree alone leaves the registry, and a capture its handles. */
  lemma TreeMovesOn(s: State, e: T.Event)
    requires Enabled(s, Tree(e)) && HandOk(s) && RegistryIsTree(s)
    ensures HandOk(Next(s, Tree(e))) && RegistryIsTree(Next(s, Tree(e)))
  {
  }

  lemma OpensMember(s: State, t: State, p: T.Process, h: Handle)
    requires Enabled(s, OpenMember(p, h)) && HandOk(s) && RegistryIsTree(s) && t == Next(s, OpenMember(p, h))
    requires t.inHand.Values == s.inHand.Values + {p}
    ensures HandOk(t) && RegistryIsTree(t)
  {
  }

  lemma StepKeeps(s: State, m: Move)
    requires Inv(s) && Enabled(s, m)
    ensures Inv(Next(s, m))
  {
    hide OneOwner, HandOk, RegistryIsTree, HandsOver, T.Inv, T.Enabled, T.Next;
    match m
    case Tree(e) =>
      T.StepKeeps(s.tree, e);
      TreeMovesOn(s, e);
      SameOwners(s, Next(s, m));
    case OpenMember(p, h) =>
      T.StepKeeps(s.tree, T.OpenNext(p));
      TakeInHand(s, Next(s, m), p, h);
      OpensMember(s, Next(s, m), p, h);
    case OpenStranger(p, h) =>
      TakeInHand(s, Next(s, m), p, h);
      OpensStranger(s, Next(s, m));
    case Settle(after, closes, ok, error) =>
      SettleKeepsOwners(s, after, closes, Next(s, m));
      SettleKeepsTree(s, m);
    case CloseMember(p, ok) =>
      if ok {
        ReleaseKeepsOwners(s, p);
        ReleaseKeepsTree(s, p);
      }
  }

  lemma SameOwners(s: State, t: State)
    requires OneOwner(s) && t == s.(tree := t.tree)
    ensures OneOwner(t)
  {
  }

  lemma OpensStranger(s: State, t: State)
    requires s.tree.capture.Opening? && HandOk(s) && RegistryIsTree(s)
    requires t.tree == s.tree && t.registry == s.registry && t.released == s.released
    requires s.inHand.Values <= t.inHand.Values
    ensures HandOk(t) && RegistryIsTree(t)
  {
  }

  lemma ReleaseKeepsTree(s: State, p: T.Process)
    requires RegistryIsTree(s) && HandOk(s) && p in s.registry && s.tree.capture.NoCapture?
    ensures RegistryIsTree(Released(s, p)) && HandOk(Released(s, p))
  {
    assert (s.registry - {p}).Keys == s.registry.Keys - {p};
  }

  lemma {:induction false} RunKeeps(s: State, ms: seq<Move>, t: State)
    requires Inv(s) && Reaches(s, ms, t)
    ensures Inv(t)
    decreases |ms|
  {
    hide Inv, Next, Enabled;
    if ms != [] {
      StepKeeps(s, ms[0]);
      RunKeeps(Next(s, ms[0]), ms[1..], t);
    }
  }

  /** Where a handle is. */
  datatype Owner = InRegistry | InCapture | Closed | CloseFailed

  ghost predicate OwnedBy(s: State, h: Handle, o: Owner) {
    match o
    case InRegistry => h in s.registry.Values
    case InCapture => h in s.inHand
    case Closed => h in s.closed
    case CloseFailed => h in s.failed
  }

  /** In every run every handle ever opened has exactly one owner; between captures no capture owns
      any; and until the Job is closed the registry holds exactly the identities of the tree. */
  lemma EveryHandleHasOneOwner(child: T.Process, ms: seq<Move>, t: State)
    requires Reaches(Init(child), ms, t)
    ensures forall h | h in t.everOpened ::
      exists o :: OwnedBy(t, h, o) && forall other | OwnedBy(t, h, other) :: other == o
    ensures t.tree.capture.NoCapture? ==> t.inHand == map[]
    ensures t.registry.Keys == t.tree.registry - t.released
    ensures t.released == {} ==> t.registry.Keys == t.tree.registry
  {
    assert Inv(Init(child));
    RunKeeps(Init(child), ms, t);
    forall h | h in t.everOpened
      ensures exists o :: OwnedBy(t, h, o) && forall other | OwnedBy(t, h, other) :: other == o
    {
      var o := if h in t.registry.Values then InRegistry else if h in t.inHand then InCapture
               else if h in t.closed then Closed else CloseFailed;
      hide Inv;
      assert OwnedBy(t, h, o);
      forall other | OwnedBy(t, h, other) ensures other == o {}
    }
  }

  /** The tree of such a run is the tree of a run without handles, so its confirmations mean the same. */
  lemma {:induction false} RunsTheTree(s: State, ms: seq<Move>, t: State) returns (es: seq<T.Event>)
    requires Reaches(s, ms, t)
    ensures T.Reaches(s.tree, es, t.tree)
    decreases |ms|
  {
    hide T.Enabled, T.Next;
    if ms == [] {
      es := [];
    } else {
      es := RunsTheTree(Next(s, ms[0]), ms[1..], t);
      match ms[0]
      case Tree(e) => T.First(s.tree, e, es, t.tree); es := [e] + es;
      case OpenMember(p, h) => T.First(s.tree, T.OpenNext(p), es, t.tree); es := [T.OpenNext(p)] + es;
      case Settle(after, closes, ok, error) =>
        var e := if ok then T.Register else T.CaptureFails(Kept(s, after), error);
        T.First(s.tree, e, es, t.tree);
        es := [e] + es;
      case _ =>
    }
  }

  // ---- the object's methods are such moves ----------------------------------------------

  /** What Track leaves is a settlement: whatever it did not register it closed or failed to close. */
  lemma TrackSettles(s: State, t: State, identify: Handle -> Option<T.Process>)
    requires OneOwner(s) && OneOwner(t) && t.everOpened == s.everOpened && t.inHand == map[]
    requires forall h | h in s.inHand :: identify(h).Some? ==> identify(h).value == s.inHand[h]
    requires Extends(s.registry, t.registry, s.inHand.Keys, identify)
    requires s.closed <= t.closed && s.failed <= t.failed
    ensures HandsOver(s, t.registry)
    ensures var closes := t.closed - s.closed;
      && closes <= Rest(s, t.registry) && t.closed == s.closed + closes
      && t.failed == s.failed + (Rest(s, t.registry) - closes)
  {
    forall h | h in s.registry.Values ensures h in t.registry.Values {
      var p :| p in s.registry && s.registry[p] == h;
      assert t.registry[p] == h;
    }
    forall h | h in t.registry.Values ensures h in s.registry.Values || h in s.inHand {
      var p :| p in t.registry && t.registry[p] == h;
      if p in s.registry { assert s.registry[p] == h; }
    }
  }
}
