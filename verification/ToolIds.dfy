/**
 Giving an id to streamed tool calls that came without one. A response is its lines; an event line
 lists its tool-call deltas in reading order. A delta's group is its (choice index, tool index), None
 when either is not a usable index. An id that is present but not a non-empty string is malformed.
 */
module ToolIds {
  import opened Common
  import opened Decimals

  type Group = (nat, nat)

  datatype Id = Missing | Given(text: string) | Malformed

  datatype Delta = Delta(group: Option<Group>, id: Id, rest: string)

  datatype Line = Event(deltas: seq<Delta>, rest: string) | Other(raw: Bytes)

  predicate At(lines: seq<Line>, a: nat, b: nat) {
    a < |lines| && lines[a].Event? && b < |lines[a].deltas|
  }

  function DeltaAt(lines: seq<Line>, a: nat, b: nat): Delta
    requires At(lines, a, b)
  {
    lines[a].deltas[b]
  }

  predicate Before(a: nat, b: nat, i: nat, j: nat) { a < i || (a == i && b < j) }

  predicate InGroup(lines: seq<Line>, a: nat, b: nat, g: Group) {
    At(lines, a, b) && DeltaAt(lines, a, b).group == Some(g)
  }

  ghost predicate IsFirst(lines: seq<Line>, a: nat, b: nat, g: Group) {
    InGroup(lines, a, b, g) && forall c: nat, d: nat | Before(c, d, a, b) :: !InGroup(lines, c, d, g)
  }

  ghost predicate HasId(lines: seq<Line>, g: Group) {
    exists a: nat, b: nat :: InGroup(lines, a, b, g) && DeltaAt(lines, a, b).id.Given?
  }

  ghost predicate HasMalformedId(lines: seq<Line>, g: Group) {
    exists a: nat, b: nat :: InGroup(lines, a, b, g) && DeltaAt(lines, a, b).id.Malformed?
  }

  ghost predicate Appears(lines: seq<Line>, g: Group) { exists a: nat, b: nat :: InGroup(lines, a, b, g) }

  /** The groups to repair: seen, but never with an id of any kind. */
  ghost predicate NeedsId(lines: seq<Line>, g: Group) {
    Appears(lines, g) && !HasId(lines, g) && !HasMalformedId(lines, g)
  }

  /** The provider gave this id to some usable delta, however late in the response. */
  ghost predicate ProviderId(lines: seq<Line>, text: string) {
    exists a: nat, b: nat, g :: InGroup(lines, a, b, g) && DeltaAt(lines, a, b).id == Given(text)
  }

  /** An id anywhere in the response, on a usable delta or not. */
  ghost predicate AnyId(lines: seq<Line>, text: string) {
    exists a: nat, b: nat :: At(lines, a, b) && DeltaAt(lines, a, b).id == Given(text)
  }

  // ---- the repair as a relation ---------------------------------------------------------

  ghost function RepairDelta(lines: seq<Line>, a: nat, b: nat, ids: map<Group, string>): Delta
    requires At(lines, a, b)
  {
    var d := DeltaAt(lines, a, b);
    if d.group.Some? && d.group.value in ids && IsFirst(lines, a, b, d.group.value)
    then d.(id := Given(ids[d.group.value])) else d
  }

  ghost function RepairLine(lines: seq<Line>, a: nat, ids: map<Group, string>): Line
    requires a < |lines|
  {
    match lines[a]
    case Other(_) => lines[a]
    case Event(deltas, rest) =>
      Event(seq(|deltas|, b requires 0 <= b < |deltas| => RepairDelta(lines, a, b, ids)), rest)
  }

  /** Write each id at the first delta of its group, and change nothing else. */
  ghost function RepairAll(lines: seq<Line>, ids: map<Group, string>): seq<Line> {
    seq(|lines|, a requires 0 <= a < |lines| => RepairLine(lines, a, ids))
  }

  /** A drawn token: 24 hexadecimal digits. */
  predicate Token(text: string) {
    |text| == 24 && forall i | 0 <= i < |text| :: '0' <= text[i] <= '9' || 'a' <= text[i] <= 'f'
  }

  /** Synthetic ids carry the relay's prefix, a random token and the tool index. */
  ghost predicate Synthetic(text: string, g: Group) {
    exists token :: Token(token) && text == SyntheticId(token, g)
  }

  function SyntheticId(token: string, g: Group): string { "call_relay_" + token + "_" + Digits(g.1) }

  /** Distinct non-empty ids for exactly the groups that need one, none of them a provider id. */
  ghost predicate ValidIds(lines: seq<Line>, ids: map<Group, string>) {
    && (forall g :: g in ids <==> NeedsId(lines, g))
    && (forall g | g in ids :: Synthetic(ids[g], g) && !ProviderId(lines, ids[g]))
    && (forall g, h | g in ids && h in ids && ids[g] == ids[h] :: g == h)
  }

  // ---- what a repair gives --------------------------------------------------------------

  lemma RepairedAt(lines: seq<Line>, ids: map<Group, string>, a: nat, b: nat)
    ensures At(RepairAll(lines, ids), a, b) <==> At(lines, a, b)
    ensures At(lines, a, b) ==> DeltaAt(RepairAll(lines, ids), a, b) == RepairDelta(lines, a, b, ids)
    ensures forall g :: InGroup(RepairAll(lines, ids), a, b, g) <==> InGroup(lines, a, b, g)
  {
  }

  /** Line count and the lines that are not events are kept, and so is everything but the ids. */
  lemma RepairKeepsShape(lines: seq<Line>, ids: map<Group, string>)
    ensures |RepairAll(lines, ids)| == |lines|
    ensures forall a | 0 <= a < |lines| && lines[a].Other? :: RepairAll(lines, ids)[a] == lines[a]
    ensures forall a: nat, b: nat | At(lines, a, b) ::
      At(RepairAll(lines, ids), a, b) && DeltaAt(RepairAll(lines, ids), a, b).(id := Missing)
        == DeltaAt(lines, a, b).(id := Missing)
  {
    forall a: nat, b: nat | At(lines, a, b)
      ensures At(RepairAll(lines, ids), a, b)
      ensures DeltaAt(RepairAll(lines, ids), a, b).(id := Missing) == DeltaAt(lines, a, b).(id := Missing)
    {
      RepairedAt(lines, ids, a, b);
      hide IsFirst, RepairAll;
    }
  }

  lemma {:induction false} FirstExists(lines: seq<Line>, a: nat, b: nat, g: Group) returns (i: nat, j: nat)
    requires InGroup(lines, a, b, g)
    ensures IsFirst(lines, i, j, g)
    decreases a, b
  {
    if c: nat, d: nat :| Before(c, d, a, b) && InGroup(lines, c, d, g) {
      i, j := FirstExists(lines, c, d, g);
    } else {
      i, j := a, b;
    }
  }

  /** A repaired group has its id at its first delta and nowhere else; every other group is as it was. */
  lemma OneIdPerGroup(lines: seq<Line>, ids: map<Group, string>, a: nat, b: nat, g: Group)
    requires ValidIds(lines, ids) && InGroup(lines, a, b, g)
    ensures var after := RepairAll(lines, ids);
      && At(after, a, b)
      && if NeedsId(lines, g)
         then DeltaAt(after, a, b).id == if IsFirst(lines, a, b, g) then Given(ids[g]) else Missing
         else DeltaAt(after, a, b) == DeltaAt(lines, a, b)
  {
    RepairedAt(lines, ids, a, b);
    hide RepairAll, IsFirst;
    if NeedsId(lines, g) {
      assert DeltaAt(lines, a, b).id.Missing?;
    }
  }

  /** All ids of different groups differ, synthetic or provider's, unless the provider repeated one. */
  lemma NoNewClash(lines: seq<Line>, ids: map<Group, string>, a: nat, b: nat, c: nat, d: nat, g: Group, h: Group)
    requires ValidIds(lines, ids) && InGroup(lines, a, b, g) && InGroup(lines, c, d, h) && g != h
    requires var after := RepairAll(lines, ids);
      At(after, a, b) && At(after, c, d) && DeltaAt(after, a, b).id.Given?
        && DeltaAt(after, a, b).id == DeltaAt(after, c, d).id
    ensures DeltaAt(lines, a, b).id == DeltaAt(lines, c, d).id == DeltaAt(RepairAll(lines, ids), a, b).id
  {
    OneIdPerGroup(lines, ids, a, b, g);
    OneIdPerGroup(lines, ids, c, d, h);
    hide RepairAll, NeedsId, IsFirst;
    assert g in ids ==> !ProviderId(lines, ids[g]);
    assert h in ids ==> !ProviderId(lines, ids[h]);
  }

  /** A second pass finds nothing to repair, so it changes nothing. */
  lemma SecondPassRepairsNothing(lines: seq<Line>, ids: map<Group, string>, g: Group)
    requires ValidIds(lines, ids)
    ensures !NeedsId(RepairAll(lines, ids), g)
  {
    var after := RepairAll(lines, ids);
    if Appears(after, g) {
      var a: nat, b: nat :| InGroup(after, a, b, g);
      RepairedAt(lines, ids, a, b);
      if NeedsId(lines, g) {
        var i, j := FirstExists(lines, a, b, g);
        OneIdPerGroup(lines, ids, i, j, g);
        RepairedAt(lines, ids, i, j);
        hide RepairAll, IsFirst;
        assert InGroup(after, i, j, g) && DeltaAt(after, i, j).id.Given?;
      } else {
        StaysDecided(lines, ids, g);
      }
    }
  }

  /** So repairing the repaired lines writes no id at all. */
  lemma TwiceIsOnce(lines: seq<Line>, ids: map<Group, string>, again: map<Group, string>)
    requires ValidIds(lines, ids) && ValidIds(RepairAll(lines, ids), again)
    ensures again == map[]
  {
    forall g ensures g !in again { SecondPassRepairsNothing(lines, ids, g); }
  }

  lemma StaysDecided(lines: seq<Line>, ids: map<Group, string>, g: Group)
    requires ValidIds(lines, ids) && !NeedsId(lines, g) && Appears(lines, g)
    ensures !NeedsId(RepairAll(lines, ids), g)
  {
    var a: nat, b: nat :| InGroup(lines, a, b, g) && !DeltaAt(lines, a, b).id.Missing?;
    OneIdPerGroup(lines, ids, a, b, g);
    RepairedAt(lines, ids, a, b);
    hide RepairAll, IsFirst;
    assert InGroup(RepairAll(lines, ids), a, b, g);
  }

  // ---- the first pass -------------------------------------------------------------------

  datatype Survey = Survey(
    first: map<Group, (nat, nat)>, order: seq<Group>, providerIds: set<string>, hasId: set<Group>,
    malformed: set<Group>)

  ghost predicate FirstsOk(lines: seq<Line>, i: nat, j: nat, s: Survey) {
    && (forall g :: g in s.first <==> g in s.order)
    && (forall x, y | 0 <= x < y < |s.order| :: s.order[x] != s.order[y])
    && (forall g | g in s.first ::
         IsFirst(lines, s.first[g].0, s.first[g].1, g) && Before(s.first[g].0, s.first[g].1, i, j))
    && (forall a: nat, b: nat, g | InGroup(lines, a, b, g) && Before(a, b, i, j) :: g in s.first)
  }

  ghost predicate SeenWithId(lines: seq<Line>, i: nat, j: nat, g: Group) {
    exists a: nat, b: nat :: InGroup(lines, a, b, g) && Before(a, b, i, j) && DeltaAt(lines, a, b).id.Given?
  }

  ghost predicate SeenMalformed(lines: seq<Line>, i: nat, j: nat, g: Group) {
    exists a: nat, b: nat :: InGroup(lines, a, b, g) && Before(a, b, i, j) && DeltaAt(lines, a, b).id.Malformed?
  }

  ghost predicate SeenProviderId(lines: seq<Line>, i: nat, j: nat, text: string) {
    exists a: nat, b: nat, g :: InGroup(lines, a, b, g) && Before(a, b, i, j) && DeltaAt(lines, a, b).id == Given(text)
  }

  /** The survey of the deltas before position (i, j). */
  ghost predicate Surveyed(lines: seq<Line>, i: nat, j: nat, s: Survey) {
    && FirstsOk(lines, i, j, s)
    && (forall g :: g in s.hasId <==> SeenWithId(lines, i, j, g))
    && (forall g :: g in s.malformed <==> SeenMalformed(lines, i, j, g))
    && (forall text :: text in s.providerIds <==> SeenProviderId(lines, i, j, text))
  }

  function SurveyOne(s: Survey, a: nat, b: nat, d: Delta): Survey {
    match d.group
    case None => s
    case Some(g) =>
      var seen := if g in s.first then s else s.(first := s.first[g := (a, b)], order := s.order + [g]);
      match d.id
      case Given(text) => seen.(providerIds := seen.providerIds + {text}, hasId := seen.hasId + {g})
      case Malformed => seen.(malformed := seen.malformed + {g})
      case Missing => seen
  }
}
