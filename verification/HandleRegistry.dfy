/**
 Who owns each native process handle. A capture moves handles of new identities into the registry and
 closes the rest, also when it fails halfway; closing the Job closes the registry's handles and keeps
 the ones that did not close.
 */
module HandleRegistry {
  import opened Common
  import opened JobTree

  type Handle = nat

  /** The handles a capture still holds: the entries not set to None. */
  ghost function InHand(handles: seq<Option<Handle>>): set<Handle> {
    set i | 0 <= i < |handles| && handles[i].Some? :: handles[i].value
  }

  ghost predicate Distinct(handles: seq<Option<Handle>>) {
    forall i, j | 0 <= i < j < |handles| && handles[i].Some? :: handles[i] != handles[j]
  }

  lemma InHandAt(handles: seq<Option<Handle>>, i: nat)
    requires i < |handles| && handles[i].Some? && Distinct(handles)
    ensures handles[i].value in InHand(handles)
    ensures InHand(handles[i := None]) == InHand(handles) - {handles[i].value} && Distinct(handles[i := None])
  {
    var after := handles[i := None];
    forall h ensures h in InHand(after) <==> h in InHand(handles) && h != handles[i].value {
      if Some(h) in handles && h != handles[i].value {
        var j :| 0 <= j < |handles| && handles[j] == Some(h);
        assert after[j] == Some(h);
      }
      if Some(h) in after {
        var j :| 0 <= j < |after| && after[j] == Some(h);
        assert handles[j] == Some(h) && j != i;
      }
    }
  }

  predicate Known(h: Handle, identify: Handle -> Option<Process>, identities: map<Process, Handle>) {
    identify(h).Some? && identify(h).value in identities
  }

  /** Old identities keep their handle; new ones have a given handle that identifies them. */
  ghost predicate Extends(
    before: map<Process, Handle>, after: map<Process, Handle>, given: set<Handle>, identify: Handle -> Option<Process>)
  {
    && (forall p | p in before :: p in after && after[p] == before[p])
    && (forall p | p in after && p !in before :: after[p] in given && identify(after[p]) == Some(p))
  }

  lemma ExtendsFurther(a: map<Process, Handle>, b: map<Process, Handle>, c: map<Process, Handle>, given: set<Handle>,
                       smaller: set<Handle>, identify: Handle -> Option<Process>)
    requires Extends(a, b, given, identify) && smaller <= given && Extends(b, c, smaller, identify)
    ensures Extends(a, c, given, identify)
  {
  }

  lemma ExtendsByOne(a: map<Process, Handle>, p: Process, h: Handle, given: set<Handle>,
                     identify: Handle -> Option<Process>)
    requires h in given && identify(h) == Some(p) && p !in a
    ensures Extends(a, a, given, identify) && Extends(a, a[p := h], given, identify)
    ensures |a[p := h]| == |a| + 1 && Known(h, identify, a[p := h])
  {
  }

  predicate KnownUpTo(handles: seq<Option<Handle>>, n: nat, identify: Handle -> Option<Process>,
                      identities: map<Process, Handle>)
    requires n <= |handles|
  {
    forall j | 0 <= j < n && handles[j].Some? :: Known(handles[j].value, identify, identities)
  }

  lemma KnownFurther(handles: seq<Option<Handle>>, n: nat, identify: Handle -> Option<Process>,
                     before: map<Process, Handle>, after: map<Process, Handle>, given: set<Handle>)
    requires n < |handles| && KnownUpTo(handles, n, identify, before) && Extends(before, after, given, identify)
    requires handles[n].Some? ==> Known(handles[n].value, identify, after)
    ensures KnownUpTo(handles, n + 1, identify, after)
  {
  }

  lemma AllKnown(handles: seq<Option<Handle>>, identify: Handle -> Option<Process>, identities: map<Process, Handle>)
    requires KnownUpTo(handles, |handles|, identify, identities)
    ensures forall h | h in InHand(handles) :: Known(h, identify, identities)
  {
  }

  /** The identities still to be visited, and those whose handle did not close. */
  function Remaining(given: map<Process, Handle>, members: set<Process>, closes: Handle -> bool): map<Process, Handle> {
    map p | p in given && (p in members || !closes(given[p])) :: given[p]
  }

  lemma RemainingWithout(given: map<Process, Handle>, members: set<Process>, p: Process, closes: Handle -> bool)
    requires p in members && p in given
    ensures p in Remaining(given, members, closes) && Remaining(given, members, closes)[p] == given[p]
    ensures Remaining(given, members - {p}, closes)
         == if closes(given[p]) then Remaining(given, members, closes) - {p} else Remaining(given, members, closes)
  {
  }

  lemma AllRemain(given: map<Process, Handle>, closes: Handle -> bool)
    ensures Remaining(given, given.Keys, closes) == given
  {
  }

  class HandleRegistry {
    var identities: map<Process, Handle>
    ghost var closed: set<Handle>
    ghost var closeFailed: set<Handle>

    /** Every handle in `all` is held by exactly one owner. */
    ghost predicate Partition(all: set<Handle>, inHand: set<Handle>)
      reads this
    {
      && all == identities.Values + closed + closeFailed + inHand
      && identities.Values !! closed !! closeFailed !! inHand
      && (forall p, q | p in identities && q in identities && identities[p] == identities[q] :: p == q)
    }

    constructor ()
      ensures Partition({}, {})
    {
      identities, closed, closeFailed := map[], {}, {};
    }

    method Adopt(p: Process, h: Handle, ghost all: set<Handle>, ghost inHand: set<Handle>)
      requires Partition(all, inHand) && h in inHand && p !in identities
      modifies this`identities
      ensures Partition(all, inHand - {h}) && identities == old(identities)[p := h]
    {
      ghost var before := identities;
      identities := identities[p := h];
      assert identities.Values == before.Values + {h} by {
        assert identities[p] == h;
        forall v | v in before.Values ensures v in identities.Values {
          var q :| q in before && before[q] == v;
          assert identities[q] == v;
        }
      }
    }

    /** CloseHandle, whose success is the caller's to observe. */
    method CloseOne(h: Handle, succeeds: bool, ghost all: set<Handle>, ghost inHand: set<Handle>)
      requires Partition(all, inHand) && h in inHand
      modifies this`closed, this`closeFailed
      ensures Partition(all, inHand - {h})
      ensures closed == old(closed) + (if succeeds then {h} else {})
      ensures closeFailed == old(closeFailed) + (if succeeds then {} else {h})
    {
      if succeeds { closed := closed + {h}; } else { closeFailed := closeFailed + {h}; }
    }

    /** Close whatever the capture still holds; false if some handle did not close. */
    method CloseRest(handles: seq<Option<Handle>>, closes: Handle -> bool, ghost all: set<Handle>) returns (ok: bool)
      requires Partition(all, InHand(handles)) && Distinct(handles)
      modifies this`closed, this`closeFailed
      ensures Partition(all, {})
      ensures ok <==> forall h | h in InHand(handles) :: closes(h)
      ensures closed == old(closed) + set h | h in InHand(handles) && closes(h)
      ensures closeFailed == old(closeFailed) + set h | h in InHand(handles) && !closes(h)
    {
      ok := true;
      var left := handles;
      hide Partition;
      for i := 0 to |handles|
        invariant |left| == |handles| && Partition(all, InHand(left)) && Distinct(left)
        invariant forall j | 0 <= j < i :: left[j].None?
        invariant InHand(left) <= InHand(handles)
        invariant ok <==> forall h | h in InHand(handles) - InHand(left) :: closes(h)
        invariant closed == old(closed) + set h | h in InHand(handles) - InHand(left) && closes(h)
        invariant closeFailed == old(closeFailed) + set h | h in InHand(handles) - InHand(left) && !closes(h)
      {
        if left[i].Some? {
          InHandAt(left, i);
          var h := left[i].value;
          CloseOne(h, closes(h), all, InHand(left));
          ok := ok && closes(h);
          left := left[i := None];
        }
      }
      assert InHand(left) == {};
    }

    /**
     The registering half of _capture_for_tracking: identify is the process behind a handle, None when
     the lookup fails. Stops at the first failure or when the registry is full, and closes the rest.
     */
    method Track(handles: seq<Option<Handle>>, identify: Handle -> Option<Process>, closes: Handle -> bool,
                 ghost all: set<Handle>)
      returns (ok: bool)
      requires Partition(all, InHand(handles)) && Distinct(handles) && |identities| <= MAX_TRACKED
      modifies this
      ensures Partition(all, {}) && |identities| <= MAX_TRACKED
      ensures Extends(old(identities), identities, InHand(handles), identify)
      ensures ok ==> forall h | h in InHand(handles) :: Known(h, identify, identities)
      ensures old(closed) <= closed && old(closeFailed) <= closeFailed && (ok ==> closeFailed == old(closeFailed))
    {
      hide Partition, InHand, Distinct, Extends, Known, KnownUpTo;
      var left;
      ok, left := TrackUntil(handles, identify, all);
      if ok { AllKnown(handles, identify, identities); }
      var closedAll := CloseRest(left, closes, all);
      ok := ok && closedAll;
    }

    method TrackUntil(handles: seq<Option<Handle>>, identify: Handle -> Option<Process>, ghost all: set<Handle>)
      returns (ok: bool, left: seq<Option<Handle>>)
      requires Partition(all, InHand(handles)) && Distinct(handles) && |identities| <= MAX_TRACKED
      modifies this`identities
      ensures Partition(all, InHand(left)) && Distinct(left) && |identities| <= MAX_TRACKED
      ensures Extends(old(identities), identities, InHand(handles), identify)
      ensures ok ==> KnownUpTo(handles, |handles|, identify, identities)
    {
      ok, left := true, handles;
      var i := 0;
      ghost var first := identities;
      assert Extends(first, identities, InHand(handles), identify) && KnownUpTo(handles, 0, identify, identities);
      hide Partition, InHand, Distinct, Extends, Known, KnownUpTo;
      while i < |handles| && ok
        invariant 0 <= i <= |handles| == |left|
        invariant Partition(all, InHand(left)) && Distinct(left) && InHand(left) <= InHand(handles)
        invariant |identities| <= MAX_TRACKED && Extends(first, identities, InHand(handles), identify)
        invariant forall j | i <= j < |handles| :: left[j] == handles[j]
        invariant ok ==> KnownUpTo(handles, i, identify, identities)
      {
        ghost var before, held := identities, InHand(left);
        ok, left := TrackOne(left, i, identify, all);
        ExtendsFurther(first, before, identities, InHand(handles), held, identify);
        if ok { KnownFurther(handles, i, identify, before, identities, held); }
        i := i + 1;
      }
    }

    /** One handle: registered, left for closing because its identity is known already, or a failure. */
    method TrackOne(handles: seq<Option<Handle>>, i: nat, identify: Handle -> Option<Process>, ghost all: set<Handle>)
      returns (ok: bool, left: seq<Option<Handle>>)
      requires Partition(all, InHand(handles)) && Distinct(handles) && |identities| <= MAX_TRACKED
      requires i < |handles|
      modifies this`identities
      ensures Partition(all, InHand(left)) && Distinct(left) && InHand(left) <= InHand(handles)
      ensures |identities| <= MAX_TRACKED && Extends(old(identities), identities, InHand(handles), identify)
      ensures |left| == |handles| && forall j | 0 <= j < |handles| && j != i :: left[j] == handles[j]
      ensures ok && handles[i].Some? ==> Known(handles[i].value, identify, identities)
      ensures !ok ==> left == handles && handles[i].Some?
      ensures !ok ==> identify(handles[i].value).None? || |identities| == MAX_TRACKED
    {
      ok, left := true, handles;
      if handles[i].None? {
        return;
      }
      InHandAt(handles, i);
      var h := handles[i].value;
      var p := identify(h);
      if p.None? || (p.value !in identities && |identities| >= MAX_TRACKED) {
        return false, handles;
      }
      hide Partition, InHand, Distinct;
      if p.value !in identities {
        ExtendsByOne(identities, p.value, h, InHand(handles), identify);
        hide Extends, Known;
        Adopt(p.value, h, all, InHand(handles));
        left := handles[i := None];
      }
    }

    /** close: each retained handle that closes leaves the registry, the others stay for a retry. */
    method CloseMembers(closes: Handle -> bool, ghost all: set<Handle>) returns (ok: bool)
      requires Partition(all, {})
      modifies this
      ensures Partition(all, {}) && closeFailed == old(closeFailed)
      ensures identities == Remaining(old(identities), {}, closes)
      ensures ok <==> forall p | p in old(identities) :: closes(old(identities)[p])
    {
      hide Partition, Remaining;
      AllRemain(identities, closes);
      ok := true;
      var members := identities.Keys;
      ghost var given := identities;
      while members != {}
        invariant Partition(all, {}) && closeFailed == old(closeFailed) && members <= given.Keys
        invariant identities == Remaining(given, members, closes)
        invariant ok <==> forall p | p in given.Keys - members :: closes(given[p])
        decreases |members|
      {
        var p :| p in members;
        RemainingWithout(given, members, p, closes);
        members := members - {p};
        var h := identities[p];
        if closes(h) {
          Release(p, all);
        } else {
          ok := false;
        }
      }
    }

    method Release(p: Process, ghost all: set<Handle>)
      requires Partition(all, {}) && p in identities
      modifies this`identities, this`closed
      ensures Partition(all, {}) && identities == old(identities) - {p} && closed == old(closed) + {old(identities)[p]}
    {
      ghost var before := identities;
      var h := identities[p];
      identities := identities - {p};
      closed := closed + {h};
      assert identities.Values == before.Values - {h} by {
        forall v | v in before.Values && v != h ensures v in identities.Values {
          var q :| q in before && before[q] == v;
          assert identities[q] == v;
        }
      }
    }
  }
}
