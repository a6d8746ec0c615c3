/**
 The ledger object: its fields are updated in place and the file is rewritten at the end of every
 operation, so the file always equals the books.
 */
module BudgetLedger {
  import opened Common
  import opened LedgerModel
  import opened LedgerBooks

  /** What the ledger file holds. */
  datatype Saved = Saved(
    committed: real, reserved: real, unknown: real, capStopped: bool, attempts: seq<Attempt>, cap: real)

  function Opened(file: Option<Saved>, cap: real, pricing: Pricing, maxOutput: nat): Ledger {
    match file
    case None => Fresh(cap, pricing, maxOutput)
    case Some(f) =>
      Reload(Ledger(f.committed, f.reserved, f.unknown, f.capStopped, f.attempts, 0, f.cap, pricing, maxOutput),
             cap, pricing, maxOutput)
  }

  function SavedOf(l: Ledger): Saved {
    Saved(l.committed, l.reserved, l.unknown, l.capStopped, l.attempts, l.cap)
  }

  /** Nothing but the file is needed: reopening it continues the same books, next id included. */
  lemma ReopeningContinues(l: Ledger, cap: real, pricing: Pricing, maxOutput: nat)
    requires Inv(l) && ValidPricing(pricing)
    ensures Opened(Some(SavedOf(l)), cap, pricing, maxOutput)
      == l.(cap := cap, pricing := pricing, maxOutput := maxOutput)
    ensures Inv(Opened(Some(SavedOf(l)), cap, pricing, maxOutput))
  {
    MaxIdIsCount(l.attempts);
  }

  function IdsOpenIn(attempts: seq<Attempt>, segment: string): seq<int> {
    if attempts == [] then []
    else
      var last := attempts[|attempts| - 1];
      IdsOpenIn(attempts[..|attempts| - 1], segment) + if OpenIn(last, segment) then [last.id] else []
  }

  class BudgetLedger {
    var committed: real
    var reserved: real
    var unknown: real
    var capStopped: bool
    var attempts: seq<Attempt>
    var nextId: int
    var cap: real
    var file: Saved
    const pricing: Pricing
    const maxOutput: nat

    ghost function View(): Ledger
      reads this
    {
      Ledger(committed, reserved, unknown, capStopped, attempts, nextId, cap, pricing, maxOutput)
    }

    ghost predicate OnDisk()
      reads this
    {
      file == Saved(committed, reserved, unknown, capStopped, attempts, cap)
    }

    /** load: open the campaign's file or start a new ledger, and save at once. */
    constructor Load(saved: Option<Saved>, cap: real, pricing: Pricing, maxOutput: nat)
      ensures View() == Opened(saved, cap, pricing, maxOutput) && OnDisk()
    {
      var f := if saved.Some? then saved.value else Saved(0.0, 0.0, 0.0, false, [], cap);
      committed, reserved, unknown, capStopped := f.committed, f.reserved, f.unknown, f.capStopped;
      attempts, this.cap, this.pricing, this.maxOutput := f.attempts, cap, pricing, maxOutput;
      file := f.(cap := cap);
      new;
      var top := GreatestId();
      nextId := top + 1;
    }

    method GreatestId() returns (top: int)
      ensures top == MaxId(attempts)
    {
      top := 0;
      for i := 0 to |attempts|
        invariant top == MaxId(attempts[..i])
      {
        assert attempts[..i + 1][..i] == attempts[..i];
        if i == 0 || attempts[i].id > top {
          top := attempts[i].id;
        }
      }
      assert attempts[..|attempts|] == attempts;
    }

    method Save()
      modifies this`file
      ensures OnDisk()
    {
      file := Saved(committed, reserved, unknown, capStopped, attempts, cap);
    }

    method Reserve(request: int, body: nat, segment: string) returns (id: Option<int>, estimate: real)
      modifies this
      ensures View() == LedgerModel.Reserve(old(View()), request, body, segment) && OnDisk()
      ensures estimate == EstimateNow(old(View()), body)
      ensures id == if Refuses(old(View()), body) then None else Some(old(nextId))
    {
      estimate := Estimate(pricing, body, maxOutput);
      var thisId := nextId;
      nextId := nextId + 1;
      hide Estimate;
      if capStopped || committed + reserved + unknown + estimate > cap {
        capStopped := true;
        attempts := attempts
          + [Attempt(thisId, request, segment, RejectedCap, 0.0, 0.0, estimate, 0, 0, CapRefusal, body, maxOutput)];
        id := None;
      } else {
        reserved := reserved + estimate;
        attempts := attempts
          + [Attempt(thisId, request, segment, Reserved, estimate, 0.0, estimate, 0, 0, Blank, body, maxOutput)];
        id := Some(thisId);
      }
      Save();
    }

    /** V5Ledger.reserve and CampaignLedger.reserve: the guard first, then the base reservation. */
    method GuardedReserve(c: Limits, now: int, spent: bool, request: int, body: nat, segment: string)
      returns (id: Option<int>, estimate: real)
      modifies this
      ensures View() == LedgerModel.GuardedReserve(old(View()), c, now, spent, request, body, segment) && OnDisk()
      ensures id.Some? ==> GuardReason(old(View()), c, now, spent, body).None? && !Refuses(old(View()), body)
    {
      var books := Ledger(committed, reserved, unknown, capStopped, attempts, nextId, cap, pricing, maxOutput);
      var reason := GuardReason(books, c, now, spent, body);
      hide GuardReason, Estimate;
      if reason.Some? {
        capStopped := true;
      }
      id, estimate := Reserve(request, body, segment);
      if reason.Some? {
        var last := |attempts| - 1;
        attempts := attempts[last := attempts[last].(detail := GuardRefusal(reason.value))];
        Save();
      }
    }

    method FindAttempt(id: int) returns (at: Option<nat>)
      ensures at == Find(attempts, id)
    {
      ghost var goal := Find(attempts, id);
      for i := 0 to |attempts|
        invariant goal == match Find(attempts[i..], id) case None => None case Some(k) => Some(i + k)
      {
        if attempts[i].id == id {
          return Some(i);
        }
        assert attempts[i..][1..] == attempts[i + 1..];
      }
      at := None;
    }

    method Settle(id: int, outcome: Outcome, usage: Option<Usage>, detail: string)
      requires OnDisk()
      modifies this
      ensures View() == LedgerModel.Settle(old(View()), id, outcome, usage, detail) && OnDisk()
      ensures |attempts| == |old(attempts)|
    {
      var at := FindAttempt(id);
      hide Find, Cost;
      if at.None? || !attempts[at.value].status.Reserved? {
        return;
      }
      var a := Detailed(attempts[at.value], detail);
      reserved := Clamp(reserved - a.reservedUsd);
      if outcome.Success? && usage.Some? {
        var cost := Cost(pricing, usage.value);
        committed := committed + cost;
        a := a.(status := Committed, settledUsd := cost, input := usage.value.input, output := usage.value.output);
      } else if outcome.RateLimit? {
        a := a.(status := RateLimited, settledUsd := 0.0);
      } else {
        unknown := unknown + a.reservedUsd;
        a := a.(status := Unknown, settledUsd := a.reservedUsd);
      }
      attempts := attempts[at.value := a];
      Save();
    }

    /** force_settle_segment: returns the ids it settled, in order. */
    method ForceSettleSegment(segment: string, detail: string) returns (forced: seq<int>)
      requires OnDisk() && Inv(View())
      modifies this
      ensures View() == Force(old(View()), segment, detail, |old(attempts)|) && OnDisk()
      ensures forced == IdsOpenIn(old(attempts), segment)
      ensures Inv(View()) && forall i | 0 <= i < |attempts| :: !OpenIn(attempts[i], segment)
    {
      hide Inv, LedgerModel.Settle, Occupied;
      forced := [];
      ghost var before := View();
      var n := |attempts|;
      for i := 0 to n
        invariant View() == Force(before, segment, detail, i) && OnDisk() && |attempts| == n
        invariant forced == IdsOpenIn(before.attempts[..i], segment)
      {
        ForceKeeps(before, segment, detail, i);
        assert attempts[i] == before.attempts[i];
        assert before.attempts[..i + 1][..i] == before.attempts[..i];
        if OpenIn(attempts[i], segment) {
          forced := forced + [attempts[i].id];
          Settle(attempts[i].id, Failure, None, detail);
        }
      }
      ForceKeeps(before, segment, detail, n);
      assert before.attempts[..n] == before.attempts;
    }
  }
}
