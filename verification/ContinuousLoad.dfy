/**
 The writers of the continuous load. Each round, the start barrier releases every writer, each takes
 one slot, reads the recorded generation of the slot's scope, installs, and records a reported
 success; the done barrier closes the round. Any writer may leave at a barrier, the coordinator may
 stop at any time, and an install may fail or lose its answer.
 */
module ContinuousLoad {
  import opened Common
  import opened OracleDocuments
  import opened BackupOracle
  import opened LoadAuthority

  datatype Writer =
    | AtStart | Released
    | Holding(slot: nat)
    | Expecting(slot: nat, expected: int)
    | Answered(slot: nat, expected: int, ok: bool)
    | AtDone | Gone

  datatype Coordinator = Between | InRound | Stopped

  /** base and taken record which writer took which slot of the current round; hidden holds the
      scopes where a commit was reported as a failure. */
  datatype State = State(
    writers: seq<Writer>, coordinator: Coordinator, next: nat, cap: int,
    memory: map<Scope, int>, db: Authority,
    base: nat, taken: map<nat, nat>, hidden: set<Scope>)

  datatype Event =
    | TripStart | TripDone | Stop
    | Take(w: nat) | ReadGeneration(w: nat)
    | Install(w: nat, commit: bool, reported: bool, manifest: string, request: string)
    | Record(w: nat) | Leave(w: nat)

  function Recorded(memory: map<Scope, int>, scope: Scope): int {
    if scope in memory then memory[scope] else 0
  }

  predicate InFlight(x: Writer) { x.Holding? || x.Expecting? || x.Answered? }

  /** The install compares the expected generation with the scope's current one. */
  ghost predicate Enabled(s: State, e: Event) {
    match e
    case TripStart => s.coordinator.Between? && forall x | x in s.writers :: x.AtStart?
    case TripDone => s.coordinator.InRound? && forall x | x in s.writers :: x.AtDone?
    case Stop => true
    case Take(w) => w < |s.writers| && s.writers[w].Released?
    case ReadGeneration(w) => w < |s.writers| && s.writers[w].Holding?
    case Install(w, commit, reported, _, _) =>
      && w < |s.writers| && s.writers[w].Expecting?
      && (commit ==> s.writers[w].expected == Generation(s.db.current, ScopeFor(s.writers[w].slot)))
      && (reported ==> commit)
    case Record(w) => w < |s.writers| && s.writers[w].Answered?
    case Leave(w) => w < |s.writers| && (s.writers[w].AtStart? || s.writers[w].Released? || s.writers[w].AtDone?)
  }

  ghost function Next(s: State, e: Event): State
    requires Enabled(s, e)
  {
    match e
    case TripStart =>
      s.(writers := seq(|s.writers|, _ => Released), coordinator := InRound, base := s.next, taken := map[])
    case TripDone => s.(writers := seq(|s.writers|, _ => AtStart), coordinator := Between)
    case Stop => s.(coordinator := Stopped)
    case Take(w) =>
      if s.next > s.cap then s.(writers := s.writers[w := AtDone])
      else s.(writers := s.writers[w := Holding(s.next)], next := s.next + 1, taken := s.taken[w := s.next])
    case ReadGeneration(w) =>
      var slot := s.writers[w].slot;
      s.(writers := s.writers[w := Expecting(slot, Recorded(s.memory, ScopeFor(slot)))])
    case Install(w, commit, reported, manifest, request) =>
      var x := s.writers[w];
      s.(writers := s.writers[w := Answered(x.slot, x.expected, reported)],
         db := if commit then Commit(s.db, x.slot, manifest, request) else s.db,
         hidden := if commit && !reported then s.hidden + {ScopeFor(x.slot)} else s.hidden)
    case Record(w) =>
      var x := s.writers[w];
      s.(writers := s.writers[w := AtDone],
         memory := if x.ok then s.memory[ScopeFor(x.slot) := x.expected + 1] else s.memory)
    case Leave(w) => s.(writers := s.writers[w := Gone])
  }

  ghost predicate Reaches(s: State, es: seq<Event>, t: State)
    decreases |es|
  {
    if es == [] then s == t else Enabled(s, es[0]) && Reaches(Next(s, es[0]), es[1..], t)
  }

  // ---- where a window starts ------------------------------------------------------------

  /** The generations read from the current rows. */
  function AuthorityGenerations(current: seq<Current>): map<Scope, int> {
    if current == [] then map[]
    else AuthorityGenerations(current[1..])[CurrentScope(current[0]) := current[0].generation]
  }

  lemma {:induction false} AuthorityGenerationsAgree(current: seq<Current>, scope: Scope)
    ensures Recorded(AuthorityGenerations(current), scope) == Generation(current, scope)
  {
    if current != [] { AuthorityGenerationsAgree(current[1..], scope); }
  }

  ghost predicate DistinctReceipts(receipts: seq<Receipt>) {
    forall i, j | 0 <= i < j < |receipts| :: ReceiptIdentity(receipts[i]) != ReceiptIdentity(receipts[j])
  }

  /** Load.run: slots start past every stored key, generations come from the authority. */
  ghost predicate Starts(s: State) {
    && (forall x | x in s.writers :: x.AtStart?) && s.coordinator.Between?
    && Coherent(s.db) && DistinctReceipts(s.db.receipts)
    && s.next > MaxSlot(s.db.receipts)
    && s.memory == AuthorityGenerations(s.db.current)
    && s.base == s.next && s.taken == map[] && s.hidden == {}
  }

  // ---- what every step keeps ------------------------------------------------------------

  /** The slots of a round are consecutive, and each belongs to one writer. */
  ghost predicate RoundOk(s: State) {
    && s.base <= s.next && |s.taken| == s.next - s.base
    && (forall w | w in s.taken :: w < |s.writers| && s.base <= s.taken[w] < s.next)
    && (forall v, w | v in s.taken && w in s.taken && v != w :: s.taken[v] != s.taken[w])
  }

  ghost predicate WriterOk(s: State, w: nat)
    requires w < |s.writers|
  {
    var x := s.writers[w];
    && (x.Released? ==> w !in s.taken)
    && (InFlight(x) ==> w in s.taken && s.taken[w] == x.slot)
    && (s.coordinator.Between? ==> x.AtStart? || x.Gone?)
  }

  ghost predicate KeysOk(s: State) {
    && DistinctReceipts(s.db.receipts)
    && (forall slot: nat | slot >= s.next :: KeyUnused(s.db.receipts, slot))
    && (forall w: nat | w < |s.writers| && (s.writers[w].Holding? || s.writers[w].Expecting?) ::
          KeyUnused(s.db.receipts, s.writers[w].slot))
  }

  /** The recorded generation is the current one, one behind a success not yet recorded, or behind
      for good where an answer was lost. */
  ghost predicate MemoryOk(s: State, scope: Scope) {
    var current, recorded := Generation(s.db.current, scope), Recorded(s.memory, scope);
    && (forall w: nat | w < |s.writers| && s.writers[w].Expecting? && ScopeFor(s.writers[w].slot) == scope ::
          s.writers[w].expected == recorded)
    && (scope in s.hidden ==> recorded < current && !AwaitsRecord(s, scope))
    && (scope !in s.hidden && !AwaitsRecord(s, scope) ==> recorded == current)
    && (forall w: nat | w < |s.writers| && Awaits(s.writers[w], scope) ::
          s.writers[w].expected == recorded && recorded + 1 == current)
  }

  ghost predicate Awaits(x: Writer, scope: Scope) { x.Answered? && x.ok && ScopeFor(x.slot) == scope }

  ghost predicate AwaitsRecord(s: State, scope: Scope) {
    exists w: nat :: w < |s.writers| && Awaits(s.writers[w], scope)
  }

  ghost predicate Inv(s: State) {
    && RoundOk(s) && (forall w: nat | w < |s.writers| :: WriterOk(s, w))
    && Coherent(s.db) && KeysOk(s)
    && (|s.writers| <= 8 ==> forall scope :: MemoryOk(s, scope))
  }

  lemma {:induction false} RangeSize(n: nat, keys: set<nat>)
    requires forall k | k in keys :: k < n
    ensures |keys| <= n
  {
    if n == 0 {
      assert keys == {};
    } else {
      RangeSize(n - 1, keys - {n - 1});
    }
  }

  /** At most eight writers: two installs in flight never share a scope. */
  lemma InFlightApart(s: State, v: nat, w: nat)
    requires |s.writers| <= 8 && RoundOk(s)
    requires v < |s.writers| && w < |s.writers| && v != w && WriterOk(s, v) && WriterOk(s, w)
    requires InFlight(s.writers[v]) && InFlight(s.writers[w])
    ensures ScopeFor(s.writers[v].slot) != ScopeFor(s.writers[w].slot)
  {
    RangeSize(|s.writers|, s.taken.Keys);
    hide ScopeFor;
    assert |s.taken.Keys| == |s.taken|;
    var a, b := s.taken[v], s.taken[w];
    if a < b { NearSlotsApart(a, b); } else { NearSlotsApart(b, a); }
  }

  lemma StartKeeps(s: State)
    requires Starts(s)
    ensures Inv(s)
  {
    forall slot: nat | slot >= s.next ensures KeyUnused(s.db.receipts, slot) { LaterKeysUnused(s.db.receipts, slot); }
    StartWriters(s);
    hide MaxSlot, KeyUnused, Coherent, DistinctReceipts, AuthorityGenerations, MemoryOk, WriterOk;
    forall scope ensures MemoryOk(s, scope) { StartMemory(s, scope); }
    InvFrom(s);
  }

  lemma StartWriters(s: State)
    requires Starts(s)
    ensures forall w: nat | w < |s.writers| :: s.writers[w].AtStart? && WriterOk(s, w)
  {
    hide MaxSlot, Coherent, DistinctReceipts, AuthorityGenerations;
    forall w: nat | w < |s.writers| ensures s.writers[w].AtStart? { assert s.writers[w] in s.writers; }
  }

  lemma StartMemory(s: State, scope: Scope)
    requires forall w: nat | w < |s.writers| :: s.writers[w].AtStart?
    requires s.memory == AuthorityGenerations(s.db.current) && s.hidden == {}
    ensures MemoryOk(s, scope)
  {
    AuthorityGenerationsAgree(s.db.current, scope);
    hide Recorded, Generation, AuthorityGenerations, ScopeFor;
  }

  lemma TakeKeepsRound(s: State, w: nat)
    requires RoundOk(s) && w < |s.writers| && w !in s.taken
    ensures RoundOk(s.(writers := s.writers[w := Holding(s.next)], next := s.next + 1, taken := s.taken[w := s.next]))
  {
    assert |s.taken[w := s.next]| == |s.taken| + 1;
  }

  lemma StepKeepsRound(s: State, e: Event)
    requires Inv(s) && Enabled(s, e)
    ensures RoundOk(Next(s, e))
  {
    hide MemoryOk, Coherent, KeysOk, Commit, ScopeFor, Recorded, Generation;
    if e.Take? && s.next <= s.cap {
      assert WriterOk(s, e.w);
      TakeKeepsRound(s, e.w);
    }
  }

  lemma StepKeepsWriter(s: State, e: Event, w: nat)
    requires Enabled(s, e) && w < |s.writers| && WriterOk(s, w)
    requires e.TripStart? || e.TripDone? || e.Stop? || WriterOk(s, e.w)
    ensures |Next(s, e).writers| == |s.writers| && WriterOk(Next(s, e), w)
  {
    hide MemoryOk, Coherent, KeysOk, Commit, ScopeFor, Recorded, Generation, RoundOk;
  }

  lemma StepKeepsHistory(s: State, e: Event)
    requires Inv(s) && Enabled(s, e)
    ensures Coherent(Next(s, e).db) && KeysOk(Next(s, e))
  {
    hide MemoryOk, WriterOk, Coherent, Recorded, Generation, ScopeFor, RoundOk;
    if e.Install? && e.commit {
      CommitKeeps(s.db, s.writers[e.w].slot, e.manifest, e.request);
      CommitKeepsKeys(s, e);
    } else {
      hide KeyFor, DistinctReceipts, Commit;
      var t := Next(s, e);
      assert t.db == s.db && t.next >= s.next;
      if e.Take? && s.next <= s.cap { assert KeyUnused(s.db.receipts, s.next); }
      hide KeyUnused;
    }
  }

  lemma CommitKeepsKeys(s: State, e: Event)
    requires Inv(s) && Enabled(s, e) && e.Install? && e.commit
    ensures KeysOk(Next(s, e))
  {
    hide MemoryOk, Coherent, Recorded, Generation, ScopeFor;
    var t, slot := Next(s, e), s.writers[e.w].slot;
    var n := |s.db.receipts|;
    var row := t.db.receipts[n];
    assert t.db.receipts == s.db.receipts + [row] && row.key == KeyFor(slot);
    assert WriterOk(s, e.w);
    forall other: nat | other != slot && KeyUnused(s.db.receipts, other) ensures KeyUnused(t.db.receipts, other) {
      if KeyFor(other) == KeyFor(slot) { KeysInjective(other, slot); }
    }
    assert KeyUnused(s.db.receipts, slot);
    hide KeyFor, Commit;
    forall w: nat | w < |t.writers| && (t.writers[w].Holding? || t.writers[w].Expecting?)
      ensures KeyUnused(t.db.receipts, t.writers[w].slot)
    {
      assert WriterOk(s, w);
    }
    forall i, j | 0 <= i < j < n + 1 ensures ReceiptIdentity(t.db.receipts[i]) != ReceiptIdentity(t.db.receipts[j]) {
      if j == n { assert t.db.receipts[i] in s.db.receipts; }
    }
  }

  lemma StepKeepsMemory(s: State, e: Event, scope: Scope)
    requires Inv(s) && Enabled(s, e) && |s.writers| <= 8
    ensures MemoryOk(Next(s, e), scope)
  {
    assert MemoryOk(s, scope);
    match e
    case Install(w, _, _, _, _) => InstallKeepsMemory(s, e, scope);
    case Record(w) => RecordKeepsMemory(s, w, scope);
    case _ => QuietKeepsMemory(s, e, scope);
  }

  /** Steps that neither commit nor record. */
  lemma QuietKeepsMemory(s: State, e: Event, scope: Scope)
    requires Enabled(s, e) && !e.Install? && !e.Record? && MemoryOk(s, scope)
    ensures MemoryOk(Next(s, e), scope)
  {
    hide ScopeFor, Recorded, Generation;
    var t := Next(s, e);
    assert forall w: nat | w < |s.writers| && Awaits(s.writers[w], scope) :: Awaits(t.writers[w], scope) by {
      if e.TripStart? || e.TripDone? {
        forall w: nat | w < |s.writers| ensures !Awaits(s.writers[w], scope) { assert s.writers[w] in s.writers; }
      }
    }
    assert forall w: nat | w < |t.writers| && Awaits(t.writers[w], scope) :: Awaits(s.writers[w], scope);
  }

  predicate Concerns(x: Writer, scope: Scope) { InFlight(x) && ScopeFor(x.slot) == scope }

  /** A step of one writer changes nothing for the scopes it is not working on. */
  lemma OtherScopesKept(s: State, t: State, w: nat, scope: Scope)
    requires MemoryOk(s, scope) && w < |s.writers| && |t.writers| == |s.writers|
    requires forall v: nat | v < |s.writers| && v != w :: t.writers[v] == s.writers[v]
    requires !Concerns(s.writers[w], scope) && !Concerns(t.writers[w], scope)
    requires Recorded(t.memory, scope) == Recorded(s.memory, scope)
    requires Generation(t.db.current, scope) == Generation(s.db.current, scope)
    requires scope in s.hidden <==> scope in t.hidden
    ensures MemoryOk(t, scope)
  {
    hide Recorded, Generation, ScopeFor;
    if AwaitsRecord(s, scope) {
      var v: nat :| v < |s.writers| && Awaits(s.writers[v], scope);
      assert Awaits(t.writers[v], scope);
    }
  }

  /** Only writer w works on the scope. */
  ghost predicate Alone(s: State, w: nat, scope: Scope) {
    forall v: nat | v < |s.writers| && v != w :: !Concerns(s.writers[v], scope)
  }

  lemma AloneInScope(s: State, w: nat)
    requires Inv(s) && |s.writers| <= 8 && w < |s.writers| && InFlight(s.writers[w])
    ensures Alone(s, w, ScopeFor(s.writers[w].slot))
  {
    hide ScopeFor, Coherent, KeysOk, MemoryOk, RoundOk, WriterOk;
    forall v: nat | v < |s.writers| && v != w ensures !Concerns(s.writers[v], ScopeFor(s.writers[w].slot)) {
      if InFlight(s.writers[v]) {
        assert WriterOk(s, v) && WriterOk(s, w);
        InFlightApart(s, v, w);
      }
    }
  }

  lemma OwnScopeKept(t: State, w: nat, scope: Scope)
    requires w < |t.writers| && Alone(t, w, scope) && !t.writers[w].Expecting?
    requires if Awaits(t.writers[w], scope) then
               && t.writers[w].expected == Recorded(t.memory, scope) && scope !in t.hidden
               && Recorded(t.memory, scope) + 1 == Generation(t.db.current, scope)
             else if scope in t.hidden then Recorded(t.memory, scope) < Generation(t.db.current, scope)
             else Recorded(t.memory, scope) == Generation(t.db.current, scope)
    ensures MemoryOk(t, scope)
  {
    hide Recorded, Generation, ScopeFor;
    assert AwaitsRecord(t, scope) <==> Awaits(t.writers[w], scope) by {
      assert forall v: nat | v < |t.writers| && v != w :: !Awaits(t.writers[v], scope);
    }
  }

  lemma AwaitsOnly(s: State, w: nat, scope: Scope)
    requires w < |s.writers| && Alone(s, w, scope)
    ensures AwaitsRecord(s, scope) <==> Awaits(s.writers[w], scope)
  {
    hide ScopeFor;
    assert forall v: nat | v < |s.writers| && v != w :: !Awaits(s.writers[v], scope);
  }

  lemma InstallKeepsMemory(s: State, e: Event, scope: Scope)
    requires Inv(s) && Enabled(s, e) && |s.writers| <= 8 && e.Install? && MemoryOk(s, scope)
    ensures MemoryOk(Next(s, e), scope)
  {
    var w := e.w;
    CommitKeeps(s.db, s.writers[w].slot, e.manifest, e.request);
    AloneInScope(s, w);
    hide ScopeFor, Recorded, Generation, Commit, Coherent, KeysOk, RoundOk, WriterOk, Inv;
    if scope == ScopeFor(s.writers[w].slot) {
      AwaitsOnly(s, w, scope);
      OwnScopeKept(Next(s, e), w, scope);
    } else {
      OtherScopesKept(s, Next(s, e), w, scope);
    }
  }

  /** What memory says about the scope of a writer with an answer in hand. */
  lemma AnsweredKnows(s: State, w: nat, scope: Scope)
    requires MemoryOk(s, scope) && w < |s.writers| && s.writers[w].Answered? && Alone(s, w, scope)
    requires scope == ScopeFor(s.writers[w].slot)
    ensures scope in s.hidden ==> !s.writers[w].ok && Recorded(s.memory, scope) < Generation(s.db.current, scope)
    ensures scope !in s.hidden ==>
      Recorded(s.memory, scope) + (if s.writers[w].ok then 1 else 0) == Generation(s.db.current, scope)
    ensures s.writers[w].ok ==> s.writers[w].expected == Recorded(s.memory, scope)
  {
    AwaitsOnly(s, w, scope);
    hide ScopeFor, Recorded, Generation;
  }

  lemma ExpectingKnows(s: State, w: nat, scope: Scope)
    requires MemoryOk(s, scope) && w < |s.writers| && s.writers[w].Expecting?
    ensures scope == ScopeFor(s.writers[w].slot) ==> s.writers[w].expected == Recorded(s.memory, scope)
    ensures scope in s.hidden ==> Recorded(s.memory, scope) < Generation(s.db.current, scope)
  {
    hide ScopeFor, Recorded, Generation;
  }

  lemma RecordKeepsMemory(s: State, w: nat, scope: Scope)
    requires Inv(s) && Enabled(s, Record(w)) && |s.writers| <= 8 && MemoryOk(s, scope)
    ensures MemoryOk(Next(s, Record(w)), scope)
  {
    AloneInScope(s, w);
    hide ScopeFor, Generation, Coherent, KeysOk, RoundOk, WriterOk, Inv, MemoryOk;
    if scope == ScopeFor(s.writers[w].slot) {
      AnsweredKnows(s, w, scope);
      OwnScopeKept(Next(s, Record(w)), w, scope);
    } else {
      OtherScopesKept(s, Next(s, Record(w)), w, scope);
    }
  }

  lemma StepKeeps(s: State, e: Event)
    requires Inv(s) && Enabled(s, e)
    ensures Inv(Next(s, e))
  {
    StepKeepsRound(s, e);
    StepKeepsHistory(s, e);
    forall w: nat | w < |s.writers| ensures |Next(s, e).writers| == |s.writers| && WriterOk(Next(s, e), w) {
      StepKeepsWriter(s, e, w);
    }
    SameCount(s, e);
    hide *;
    if |s.writers| <= 8 {
      forall scope ensures MemoryOk(Next(s, e), scope) { StepKeepsMemory(s, e, scope); }
    }
    InvFrom(Next(s, e));
  }

  lemma SameCount(s: State, e: Event)
    requires Enabled(s, e)
    ensures |Next(s, e).writers| == |s.writers|
  {
    hide Recorded, Commit, ScopeFor, Generation;
  }

  lemma InvFrom(s: State)
    requires RoundOk(s) && (forall w: nat | w < |s.writers| :: WriterOk(s, w)) && Coherent(s.db) && KeysOk(s)
    requires |s.writers| <= 8 ==> forall scope :: MemoryOk(s, scope)
    ensures Inv(s)
  {
    hide RoundOk, WriterOk, Coherent, KeysOk, MemoryOk;
  }

  lemma {:induction false} RunKeeps(s: State, es: seq<Event>, t: State)
    requires Inv(s) && Reaches(s, es, t)
    ensures Inv(t) && |t.writers| == |s.writers| && s.next <= t.next && s.hidden <= t.hidden
    decreases |es|
  {
    hide Inv;
    if es != [] {
      StepKeeps(s, es[0]);
      RunKeeps(Next(s, es[0]), es[1..], t);
    }
  }

  // ---- the promises ---------------------------------------------------------------------

  /** Whatever the writers do, the oracle's history check holds in every reachable state, and no key
      is ever installed twice. */
  lemma HistoriesStayValid(s: State, es: seq<Event>, t: State)
    requires Starts(s) && Reaches(s, es, t)
    ensures GenerationsOk(t.db.receipts, t.db.current)
    ensures DistinctReceipts(t.db.receipts)
  {
    StartKeeps(s);
    RunKeeps(s, es, t);
    hide GenerationsOk, DistinctReceipts, Starts, Reaches;
  }

  /** With at most eight writers the generation a writer is about to send is the current one, unless
      an earlier answer in that scope was lost. */
  lemma NeverStale(s: State, es: seq<Event>, t: State, w: nat)
    requires Starts(s) && |s.writers| <= 8 && Reaches(s, es, t)
    requires w < |t.writers| && t.writers[w].Expecting?
    ensures t.writers[w].expected == Generation(t.db.current, ScopeFor(t.writers[w].slot))
        <==> ScopeFor(t.writers[w].slot) !in t.hidden
  {
    StartKeeps(s);
    RunKeeps(s, es, t);
    var scope := ScopeFor(t.writers[w].slot);
    hide Starts, Reaches, ScopeFor, Coherent, KeysOk;
    assert MemoryOk(t, scope);
    if AwaitsRecord(t, scope) {
      var v: nat :| v < |t.writers| && Awaits(t.writers[v], scope);
      assert WriterOk(t, v) && WriterOk(t, w);
      InFlightApart(t, v, w);
    }
  }

  /** Two installs in flight are for different scopes. */
  lemma NoSharedScope(s: State, es: seq<Event>, t: State, v: nat, w: nat)
    requires Starts(s) && |s.writers| <= 8 && Reaches(s, es, t)
    requires v < |t.writers| && w < |t.writers| && v != w && InFlight(t.writers[v]) && InFlight(t.writers[w])
    ensures ScopeFor(t.writers[v].slot) != ScopeFor(t.writers[w].slot)
  {
    StartKeeps(s);
    RunKeeps(s, es, t);
    hide Starts, Reaches, ScopeFor;
    assert WriterOk(t, v) && WriterOk(t, w);
    InFlightApart(t, v, w);
  }

  function Takes(from: nat, upTo: nat): seq<Event>
    requires from <= upTo
    decreases upTo - from
  {
    if from == upTo then [] else [Take(from)] + Takes(from + 1, upTo)
  }

  lemma {:induction false} TakesInOrder(s: State, from: nat, upTo: nat) returns (t: State)
    requires from <= upTo <= |s.writers| && s.next + (upTo - from) <= s.cap + 1
    requires forall w | from <= w < upTo :: s.writers[w].Released?
    ensures Reaches(s, Takes(from, upTo), t) && |t.writers| == |s.writers|
    ensures forall w | from <= w < upTo :: t.writers[w] == Holding(s.next + w - from)
    ensures forall w | 0 <= w < from :: t.writers[w] == s.writers[w]
    decreases upTo - from
  {
    if from == upTo {
      t := s;
    } else {
      var next := Next(s, Take(from));
      t := TakesInOrder(next, from + 1, upTo);
      assert t.writers[from] == Holding(s.next);
      assert Takes(from, upTo)[1..] == Takes(from + 1, upTo);
    }
  }

  lemma StartReleases(s: State)
    requires Starts(s)
    ensures Enabled(s, TripStart) && |Next(s, TripStart).writers| == |s.writers|
    ensures Next(s, TripStart).next == s.next && Next(s, TripStart).cap == s.cap
    ensures forall w | 0 <= w < |s.writers| :: Next(s, TripStart).writers[w].Released?
  {
    hide Coherent, MaxSlot, DistinctReceipts, AuthorityGenerations;
  }

  lemma HoldingFlies(x: Writer)
    ensures x.Holding? ==> InFlight(x)
  {
  }

  /** With nine writers, a round from slot 2 puts two installs of one scope in flight. */
  lemma NineWritersCollide(s: State) returns (es: seq<Event>, t: State)
    requires Starts(s) && |s.writers| >= 9 && s.next == 2 && s.cap >= 10
    ensures Reaches(s, es, t) && |t.writers| >= 9
    ensures InFlight(t.writers[0]) && InFlight(t.writers[8])
    ensures ScopeFor(t.writers[0].slot) == ScopeFor(t.writers[8].slot)
  {
    hide ScopeFor, Starts, Enabled, Next, InFlight;
    ScopeOfSlots(2, 10);
    StartReleases(s);
    var released := Next(s, TripStart);
    t := TakesInOrder(released, 0, 9);
    es := [TripStart] + Takes(0, 9);
    assert es[1..] == Takes(0, 9);
    HoldingFlies(t.writers[0]);
    HoldingFlies(t.writers[8]);
  }

  /** Between rounds, while the coordinator archives, every writer waits at the start barrier or is gone. */
  lemma QuietBetweenRounds(s: State, es: seq<Event>, t: State)
    requires Starts(s) && Reaches(s, es, t) && t.coordinator.Between?
    ensures forall x | x in t.writers :: x.AtStart? || x.Gone?
  {
    StartKeeps(s);
    RunKeeps(s, es, t);
    hide Starts, Reaches, Coherent, KeysOk, RoundOk, MemoryOk;
    forall x | x in t.writers ensures x.AtStart? || x.Gone? {
      var w :| 0 <= w < |t.writers| && t.writers[w] == x;
      assert WriterOk(t, w);
    }
  }

  /** One lost answer wedges its scope: no install there ever commits again. */
  lemma {:induction false} LostAnswerWedges(s: State, es: seq<Event>, t: State, scope: Scope)
    requires Inv(s) && |s.writers| <= 8 && Reaches(s, es, t) && scope in s.hidden
    ensures Generation(t.db.current, scope) == Generation(s.db.current, scope)
    decreases |es|
  {
    if es != [] {
      StepKeeps(s, es[0]);
      WedgedStep(s, es[0], scope);
      hide Inv, Generation;
      LostAnswerWedges(Next(s, es[0]), es[1..], t, scope);
    }
  }

  /** From any start, one committed install reported as failed reaches such a state: the generation
      has moved on, the writers' record of it has not, and it never moves again. */
  lemma LostAnswerHappens(s: State, w: nat, manifest: string, request: string, later: seq<Event>, u: State)
    returns (es: seq<Event>, t: State)
    requires Starts(s) && |s.writers| <= 8 && w < |s.writers| && s.next <= s.cap
    ensures var scope := ScopeFor(s.next);
      && Reaches(s, es, t) && scope in t.hidden
      && Generation(t.db.current, scope) == Generation(s.db.current, scope) + 1
      && Recorded(t.memory, scope) == Generation(s.db.current, scope)
      && (Reaches(t, later, u) ==> Generation(u.db.current, scope) == Generation(t.db.current, scope))
  {
    hide Coherent, MaxSlot, DistinctReceipts, AuthorityGenerations, ScopeFor, Commit, Generation, Recorded, Inv;
    var slot, scope := s.next, ScopeFor(s.next);
    StartKeeps(s);
    AuthorityGenerationsAgree(s.db.current, scope);
    var a := Next(s, TripStart);
    var b := Next(a, Take(w));
    var c := Next(b, ReadGeneration(w));
    var lost := Install(w, true, false, manifest, request);
    assert c.writers[w] == Expecting(slot, Generation(s.db.current, scope)) && c.db == s.db && c.memory == s.memory;
    t := Next(c, lost);
    es := [TripStart, Take(w), ReadGeneration(w), lost];
    FourSteps(s, es, a, b, c, t);
    CommitKeeps(s.db, slot, manifest, request);
    RunKeeps(s, es, t);
    assert |t.writers| == |s.writers|;
    if Reaches(t, later, u) {
      LostAnswerWedges(t, later, u, scope);
    }
  }

  lemma FourSteps(s: State, es: seq<Event>, a: State, b: State, c: State, t: State)
    requires |es| == 4 && Enabled(s, es[0]) && a == Next(s, es[0]) && Enabled(a, es[1]) && b == Next(a, es[1])
    requires Enabled(b, es[2]) && c == Next(b, es[2]) && Enabled(c, es[3]) && t == Next(c, es[3])
    ensures Reaches(s, es, t)
  {
    hide Enabled, Next;
    assert es[1..][0] == es[1] && es[1..][1..] == es[2..] && es[2..][1..] == es[3..] && es[3..][1..] == [];
    assert Reaches(t, [], t);
    assert Reaches(c, es[3..], t);
    assert Reaches(b, es[2..], t);
    assert Reaches(a, es[1..], t);
  }

  lemma WedgedStep(s: State, e: Event, scope: Scope)
    requires Inv(s) && |s.writers| <= 8 && Enabled(s, e) && scope in s.hidden
    ensures Generation(Next(s, e).db.current, scope) == Generation(s.db.current, scope) && scope in Next(s, e).hidden
    ensures |Next(s, e).writers| == |s.writers|
  {
    hide ScopeFor, Generation, Commit, Recorded, Coherent, KeysOk, RoundOk, WriterOk, MemoryOk;
    assert MemoryOk(s, scope);
    if e.Install? && e.commit {
      CommitKeeps(s.db, s.writers[e.w].slot, e.manifest, e.request);
      ExpectingKnows(s, e.w, scope);
    }
  }

  // ---- the allocator --------------------------------------------------------------------

  class SlotAllocator {
    var next: nat
    var cap: int
    var handedOut: nat

    constructor (start: nat, cap: int)
      ensures next == start && this.cap == cap && handedOut == 0
    {
      next, this.cap, handedOut := start, cap, 0;
    }

    /** Hands out next, next + 1, ... up to the cap. */
    method Take() returns (slot: Option<nat>)
      modifies this
      ensures cap == old(cap)
      ensures slot == if old(next) > cap then None else Some(old(next))
      ensures next == old(next) + (if slot.Some? then 1 else 0)
      ensures handedOut == old(handedOut) + (if slot.Some? then 1 else 0)
    {
      if next > cap {
        return None;
      }
      slot := Some(next);
      next := next + 1;
      handedOut := handedOut + 1;
    }
  }
}
