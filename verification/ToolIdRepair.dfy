/** _repair_missing_tool_ids as it runs: survey the whole response first, then write the ids. */
module ToolIdRepair {
  import opened Common
  import opened SetSizes
  import opened ToolIds

  // ---- the survey -----------------------------------------------------------------------

  lemma NextPosition(a: nat, b: nat, i: nat, j: nat)
    ensures Before(a, b, i, j + 1) <==> Before(a, b, i, j) || (a == i && b == j)
  {
  }

  lemma FirstHere(lines: seq<Line>, i: nat, j: nat, s: Survey, g: Group)
    requires FirstsOk(lines, i, j, s) && InGroup(lines, i, j, g) && g !in s.first
    ensures IsFirst(lines, i, j, g)
  {
  }

  lemma FirstsStep(lines: seq<Line>, i: nat, j: nat, s: Survey)
    requires FirstsOk(lines, i, j, s) && At(lines, i, j)
    ensures FirstsOk(lines, i, j + 1, SurveyOne(s, i, j, DeltaAt(lines, i, j)))
  {
    hide IsFirst;
    var t := SurveyOne(s, i, j, DeltaAt(lines, i, j));
    forall a: nat, b: nat { NextPosition(a, b, i, j); }
    var d := DeltaAt(lines, i, j);
    if d.group.Some? && d.group.value !in s.first {
      var g := d.group.value;
      FirstHere(lines, i, j, s, g);
      assert t.order == s.order + [g] && t.first == s.first[g := (i, j)];
    } else {
      assert t.order == s.order && t.first == s.first;
    }
  }

  lemma IdsStep(lines: seq<Line>, i: nat, j: nat, s: Survey)
    requires Surveyed(lines, i, j, s) && At(lines, i, j)
    ensures var t := SurveyOne(s, i, j, DeltaAt(lines, i, j));
      && (forall g :: g in t.hasId <==> SeenWithId(lines, i, j + 1, g))
      && (forall g :: g in t.malformed <==> SeenMalformed(lines, i, j + 1, g))
      && (forall text :: text in t.providerIds <==> SeenProviderId(lines, i, j + 1, text))
  {
    hide FirstsOk;
    var d := DeltaAt(lines, i, j);
    var t := SurveyOne(s, i, j, d);
    forall g
      ensures SeenWithId(lines, i, j + 1, g) <==> SeenWithId(lines, i, j, g) || (d.group == Some(g) && d.id.Given?)
      ensures SeenMalformed(lines, i, j + 1, g) <==>
        SeenMalformed(lines, i, j, g) || (d.group == Some(g) && d.id.Malformed?)
    {
    }
    forall text
      ensures SeenProviderId(lines, i, j + 1, text) <==>
        SeenProviderId(lines, i, j, text) || (d.group.Some? && d.id == Given(text))
    {
      SeenIdStep(lines, i, j, text);
    }
    hide SeenWithId, SeenMalformed, SeenProviderId;
  }

  lemma SeenIdStep(lines: seq<Line>, i: nat, j: nat, text: string)
    requires At(lines, i, j)
    ensures var d := DeltaAt(lines, i, j);
      SeenProviderId(lines, i, j + 1, text) <==>
        SeenProviderId(lines, i, j, text) || (d.group.Some? && d.id == Given(text))
  {
    forall a: nat, b: nat { NextPosition(a, b, i, j); }
    hide Before;
    var d := DeltaAt(lines, i, j);
    if d.group.Some? { assert InGroup(lines, i, j, d.group.value); }
  }

  /** The end of one line is the start of the next. */
  lemma LineEnds(lines: seq<Line>, i: nat, s: Survey)
    requires i < |lines| && Surveyed(lines, i, if lines[i].Event? then |lines[i].deltas| else 0, s)
    ensures Surveyed(lines, i + 1, 0, s)
  {
  }

  lemma NothingSurveyed(lines: seq<Line>)
    ensures Surveyed(lines, 0, 0, Survey(map[], [], {}, {}, {}))
  {
  }

  method SurveyResponse(lines: seq<Line>) returns (s: Survey)
    ensures Surveyed(lines, |lines|, 0, s)
  {
    s := Survey(map[], [], {}, {}, {});
    NothingSurveyed(lines);
    hide Surveyed, SurveyOne;
    for i := 0 to |lines|
      invariant Surveyed(lines, i, 0, s)
    {
      if lines[i].Event? {
        var deltas := lines[i].deltas;
        for j := 0 to |deltas|
          invariant Surveyed(lines, i, j, s)
        {
          SurveyStep(lines, i, j, s);
          s := SurveyOne(s, i, j, deltas[j]);
        }
      }
      LineEnds(lines, i, s);
    }
  }

  lemma SurveyStep(lines: seq<Line>, i: nat, j: nat, s: Survey)
    requires Surveyed(lines, i, j, s) && At(lines, i, j)
    ensures Surveyed(lines, i, j + 1, SurveyOne(s, i, j, DeltaAt(lines, i, j)))
  {
    FirstsStep(lines, i, j, s);
    IdsStep(lines, i, j, s);
    hide FirstsOk, SurveyOne, SeenWithId, SeenMalformed, SeenProviderId;
  }

  /** A survey of the whole response decides which groups need an id. */
  lemma SurveyDecides(lines: seq<Line>, s: Survey)
    requires Surveyed(lines, |lines|, 0, s)
    ensures forall g :: NeedsId(lines, g) <==> g in s.first && g !in s.hasId && g !in s.malformed
    ensures forall text :: text in s.providerIds <==> ProviderId(lines, text)
    ensures forall g | g in s.first :: IsFirst(lines, s.first[g].0, s.first[g].1, g)
    ensures forall g :: g in s.first <==> g in s.order
    ensures forall x, y | 0 <= x < y < |s.order| :: s.order[x] != s.order[y]
  {
  }

  // ---- fresh ids ------------------------------------------------------------------------

  function Pow16(n: nat): nat { if n == 0 then 1 else 16 * Pow16(n - 1) }

  function HexDigit(v: nat): char
    requires v < 16
  {
    if v < 10 then (48 + v) as char else (87 + v) as char
  }

  /** k in n hexadecimal digits. */
  function Hex(k: nat, n: nat): (r: string)
    ensures |r| == n
    ensures forall i | 0 <= i < |r| :: '0' <= r[i] <= '9' || 'a' <= r[i] <= 'f'
  {
    if n == 0 then "" else Hex(k / 16, n - 1) + [HexDigit(k % 16)]
  }

  lemma {:induction false} HexInjective(k: nat, l: nat, n: nat)
    requires k < Pow16(n) && l < Pow16(n) && Hex(k, n) == Hex(l, n)
    ensures k == l
  {
    if n > 0 {
      assert Hex(k, n)[..n - 1] == Hex(k / 16, n - 1) && Hex(l, n)[..n - 1] == Hex(l / 16, n - 1);
      assert Hex(k, n)[n - 1] == HexDigit(k % 16) && Hex(l, n)[n - 1] == HexDigit(l % 16);
      HexInjective(k / 16, l / 16, n - 1);
    }
  }

  function Drawn(k: nat, g: Group): string { SyntheticId(Hex(k, 24), g) }

  lemma DrawnDistinct(k: nat, l: nat, g: Group)
    requires k < Pow16(24) && l < Pow16(24) && Drawn(k, g) == Drawn(l, g)
    ensures k == l
  {
    hide Hex, Pow16;
    assert Drawn(k, g)[11..35] == Hex(k, 24) && Drawn(l, g)[11..35] == Hex(l, 24);
    HexInjective(k, l, 24);
  }

  lemma {:induction false} DrawnCount(m: nat, g: Group)
    requires m <= Pow16(24)
    ensures |set k: nat | k < m :: Drawn(k, g)| == m
  {
    hide Drawn, Pow16;
    if m > 0 {
      DrawnCount(m - 1, g);
      assert (set k: nat | k < m :: Drawn(k, g)) == (set k: nat | k < m - 1 :: Drawn(k, g)) + {Drawn(m - 1, g)};
      if k: nat :| k < m - 1 && Drawn(k, g) == Drawn(m - 1, g) { DrawnDistinct(k, m - 1, g); }
    }
  }

  /** While fewer ids are taken than there are tokens, some token gives a free one. */
  lemma FreshTokenExists(used: set<string>, g: Group)
    requires |used| < Pow16(24)
    ensures exists token :: Token(token) && SyntheticId(token, g) !in used
  {
    var m := |used| + 1;
    hide Pow16, Hex;
    DrawnCount(m, g);
    if k: nat :| k < m && Drawn(k, g) !in used {
      assert Token(Hex(k, 24)) && SyntheticId(Hex(k, 24), g) !in used;
    } else {
      hide Drawn;
      SubsetSize(set k: nat | k < m :: Drawn(k, g), used);
    }
  }

  ghost function ProviderIds(lines: seq<Line>): (r: set<string>)
    ensures forall text :: text in r <==> ProviderId(lines, text)
  {
    var r := set a: nat, b: nat | a < |lines| && lines[a].Event? && b < |lines[a].deltas|
               && lines[a].deltas[b].id.Given? && ProviderId(lines, lines[a].deltas[b].id.text)
               :: lines[a].deltas[b].id.text;
    assert forall text | ProviderId(lines, text) :: text in r;
    r
  }

  ghost function Needy(lines: seq<Line>): (r: set<Group>)
    ensures forall g :: g in r <==> NeedsId(lines, g)
  {
    var r := set a: nat, b: nat | a < |lines| && lines[a].Event? && b < |lines[a].deltas|
               && lines[a].deltas[b].group.Some? && NeedsId(lines, lines[a].deltas[b].group.value)
               :: lines[a].deltas[b].group.value;
    assert forall g | NeedsId(lines, g) :: g in r;
    r
  }

  /** Fewer ids in play than there are tokens; otherwise drawing a free one might never end. */
  ghost predicate FewIds(lines: seq<Line>) { |ProviderIds(lines)| + |Needy(lines)| < Pow16(24) }

  // ---- writing the ids ------------------------------------------------------------------

  /** ids covers exactly the repairable groups among the first n of the order, with fresh distinct ids. */
  ghost predicate Assigned(lines: seq<Line>, s: Survey, n: nat, ids: map<Group, string>, used: set<string>)
    requires n <= |s.order|
  {
    && (forall g :: g in ids <==> NeedsId(lines, g) && g in s.order[..n])
    && (forall g | g in ids :: Synthetic(ids[g], g) && !ProviderId(lines, ids[g]) && ids[g] in used)
    && (forall g, h | g in ids && h in ids && ids[g] == ids[h] :: g == h)
    && (forall text | ProviderId(lines, text) :: text in used)
    && used == ProviderIds(lines) + ids.Values
  }

  lemma AssignSkips(lines: seq<Line>, s: Survey, n: nat, ids: map<Group, string>, used: set<string>)
    requires n < |s.order| && Assigned(lines, s, n, ids, used) && !NeedsId(lines, s.order[n])
    ensures Assigned(lines, s, n + 1, ids, used)
  {
  }

  lemma AssignOne(lines: seq<Line>, s: Survey, n: nat, ids: map<Group, string>, used: set<string>, token: string)
    requires n < |s.order| && Assigned(lines, s, n, ids, used) && NeedsId(lines, s.order[n])
    requires forall x, y | 0 <= x < y < |s.order| :: s.order[x] != s.order[y]
    requires Token(token) && SyntheticId(token, s.order[n]) !in used
    ensures s.order[n] !in ids
    ensures var text := SyntheticId(token, s.order[n]);
      Assigned(lines, s, n + 1, ids[s.order[n] := text], used + {text})
  {
    var g := s.order[n];
    assert Synthetic(SyntheticId(token, g), g);
    hide NeedsId, Synthetic, ProviderId, SyntheticId, Token, ProviderIds;
    assert g !in ids;
    var ids' := ids[g := SyntheticId(token, g)];
    assert ids'.Values == ids.Values + {SyntheticId(token, g)} by {
      assert forall h | h in ids :: h in ids' && ids'[h] == ids[h];
      assert g in ids';
    }
    assert s.order[..n + 1] == s.order[..n] + [g];
    assert g !in s.order[..n];
  }

  /** Writing one more id touches one delta. */
  lemma RepairOneMore(lines: seq<Line>, ids: map<Group, string>, g: Group, text: string, a: nat, b: nat)
    requires IsFirst(lines, a, b, g) && g !in ids
    ensures var out := RepairAll(lines, ids);
      && At(out, a, b) && out[a].deltas[b] == DeltaAt(lines, a, b)
      && RepairAll(lines, ids[g := text])
         == out[a := Event(out[a].deltas[b := DeltaAt(lines, a, b).(id := Given(text))], out[a].rest)]
  {
    var out, more := RepairAll(lines, ids), RepairAll(lines, ids[g := text]);
    forall c: nat, d: nat | At(lines, c, d)
      ensures RepairDelta(lines, c, d, ids[g := text])
        == if c == a && d == b then DeltaAt(lines, a, b).(id := Given(text)) else RepairDelta(lines, c, d, ids)
    {
    }
    hide IsFirst, RepairDelta;
    var target := Event(out[a].deltas[b := DeltaAt(lines, a, b).(id := Given(text))], out[a].rest);
    forall c | 0 <= c < |lines| ensures more[c] == if c == a then target else out[c] {
      if lines[c].Event? {
        assert more[c].deltas == if c == a then target.deltas else out[c].deltas;
      }
    }
    assert more == out[a := target];
    assert out[a].deltas[b] == RepairDelta(lines, a, b, ids);
    RepairedAt(lines, ids, a, b);
  }

  lemma {:induction false} ValuesAtMostKeys(ids: map<Group, string>)
    ensures |ids.Values| <= |ids.Keys|
    decreases |ids.Keys|
  {
    if g :| g in ids {
      var rest := ids - {g};
      ValuesAtMostKeys(rest);
      assert ids.Values == rest.Values + {ids[g]} by {
        assert forall h | h in rest :: h in ids && ids[h] == rest[h];
        forall v | v in ids.Values ensures v in rest.Values + {ids[g]} {
          var h :| h in ids && ids[h] == v;
          if h != g { assert h in rest && rest[h] == v; }
        }
      }
      assert rest.Keys == ids.Keys - {g};
    } else {
      assert ids == map[];
    }
  }

  lemma FewTaken(lines: seq<Line>, s: Survey, n: nat, ids: map<Group, string>, used: set<string>)
    requires n <= |s.order| && Assigned(lines, s, n, ids, used) && FewIds(lines)
    ensures |used| < Pow16(24)
  {
    hide Pow16;
    ValuesAtMostKeys(ids);
    SubsetSize(ids.Keys, Needy(lines));
    UnionSize(ProviderIds(lines), ids.Values);
  }

  lemma UnionSize<T>(a: set<T>, b: set<T>)
    ensures |a + b| <= |a| + |b|
  {
    assert a + b == a + (b - a) && a !! (b - a);
    SubsetSize(b - a, b);
  }

  /** Draw a free id for the n-th group of the survey and write it at the group's first delta. */
  method WriteId(lines: seq<Line>, s: Survey, n: nat, before: seq<Line>, ghost given: map<Group, string>,
                 taken: set<string>)
    returns (out: seq<Line>, ghost ids: map<Group, string>, used: set<string>)
    requires n < |s.order| && Assigned(lines, s, n, given, taken) && before == RepairAll(lines, given) && FewIds(lines)
    requires forall x, y | 0 <= x < y < |s.order| :: s.order[x] != s.order[y]
    requires s.order[n] in s.first && NeedsId(lines, s.order[n])
    requires IsFirst(lines, s.first[s.order[n]].0, s.first[s.order[n]].1, s.order[n])
    ensures Assigned(lines, s, n + 1, ids, used) && out == RepairAll(lines, ids) && |ids| == |given| + 1
  {
    var g := s.order[n];
    FewTaken(lines, s, n, given, taken);
    FreshTokenExists(taken, g);
    var token :| Token(token) && SyntheticId(token, g) !in taken;
    var text := SyntheticId(token, g);
    var (a, b) := s.first[g];
    AssignOne(lines, s, n, given, taken, token);
    RepairOneMore(lines, given, g, text, a, b);
    hide NeedsId, ProviderId, IsFirst, Synthetic, SyntheticId, Token, RepairAll, Assigned;
    used := taken + {text};
    out := before[a := Event(before[a].deltas[b := before[a].deltas[b].(id := Given(text))], before[a].rest)];
    ids := given[g := text];
  }

  /** One group of the survey: skipped, or given an id. */
  method RepairGroup(lines: seq<Line>, s: Survey, n: nat, before: seq<Line>, count: nat,
                     ghost given: map<Group, string>, taken: set<string>)
    returns (out: seq<Line>, repaired: nat, ghost ids: map<Group, string>, used: set<string>)
    requires n < |s.order| && FewIds(lines) && Surveyed(lines, |lines|, 0, s)
    requires Assigned(lines, s, n, given, taken) && before == RepairAll(lines, given) && count == |given|
    ensures Assigned(lines, s, n + 1, ids, used) && out == RepairAll(lines, ids) && repaired == |ids|
  {
    hide *;
    SurveyDecides(lines, s);
    out, repaired, ids, used := before, count, given, taken;
    var g := s.order[n];
    if g in s.hasId || g in s.malformed {
      AssignSkips(lines, s, n, ids, used);
    } else {
      out, ids, used := WriteId(lines, s, n, before, given, taken);
      repaired := count + 1;
    }
  }

  /** The repaired lines and how many ids were written; ids records which. */
  method RepairMissingToolIds(lines: seq<Line>) returns (out: seq<Line>, repaired: nat, ghost ids: map<Group, string>)
    requires FewIds(lines)
    ensures ValidIds(lines, ids) && out == RepairAll(lines, ids) && repaired == |ids|
    ensures repaired == 0 ==> out == lines
  {
    hide *;
    var s := SurveyResponse(lines);
    SurveyDecides(lines, s);
    var used := s.providerIds;
    ids, out, repaired := map[], lines, 0;
    NoIdsNoChange(lines);
    NoneAssigned(lines, s);
    for n := 0 to |s.order|
      invariant Assigned(lines, s, n, ids, used) && out == RepairAll(lines, ids) && repaired == |ids|
    {
      out, repaired, ids, used := RepairGroup(lines, s, n, out, repaired, ids, used);
    }
    EveryNeedOrdered(lines, s);
    AllAssigned(lines, s, ids, used);
    if repaired == 0 {
      assert ids == map[];
      NoIdsNoChange(lines);
    }
  }

  lemma EveryNeedOrdered(lines: seq<Line>, s: Survey)
    requires Surveyed(lines, |lines|, 0, s)
    ensures forall g | NeedsId(lines, g) :: g in s.order
  {
    SurveyDecides(lines, s);
    hide *;
  }

  lemma NoneAssigned(lines: seq<Line>, s: Survey)
    requires forall text :: text in s.providerIds <==> ProviderId(lines, text)
    ensures Assigned(lines, s, 0, map[], s.providerIds)
  {
  }

  lemma NoIdsNoChange(lines: seq<Line>)
    ensures RepairAll(lines, map[]) == lines
  {
    hide IsFirst;
    forall a | 0 <= a < |lines| ensures RepairLine(lines, a, map[]) == lines[a] {
      if lines[a].Event? {
        assert RepairLine(lines, a, map[]).deltas == lines[a].deltas;
      }
    }
  }

  lemma AllAssigned(lines: seq<Line>, s: Survey, ids: map<Group, string>, used: set<string>)
    requires Assigned(lines, s, |s.order|, ids, used)
    requires forall g | NeedsId(lines, g) :: g in s.order
    ensures ValidIds(lines, ids)
  {
  }

  // ---- ids the survey does not see ------------------------------------------------------

  /** An id on a delta without a usable index, of the form some group may draw. */
  ghost predicate Collidable(lines: seq<Line>, g: Group, text: string) {
    NeedsId(lines, g) && Synthetic(text, g) && AnyId(lines, text) && !ProviderId(lines, text)
  }

  /** A valid assignment for the groups in todo that gives one of them a chosen free id. */
  lemma {:induction false} AssignAround(lines: seq<Line>, todo: set<Group>, g: Group, text: string)
    returns (ids: map<Group, string>)
    requires FewIds(lines) && todo <= Needy(lines) && g in Needy(lines) && Synthetic(text, g)
      && !ProviderId(lines, text)
    ensures ids.Keys == todo && (g in ids ==> ids[g] == text)
    ensures forall h | h in ids :: Synthetic(ids[h], h) && !ProviderId(lines, ids[h]) && (h != g ==> ids[h] != text)
    ensures forall h, k | h in ids && k in ids && ids[h] == ids[k] :: h == k
    decreases |todo|
  {
    hide NeedsId, Synthetic, ProviderId, SyntheticId, Token, Pow16, Needy, ProviderIds;
    if todo == {} {
      ids := map[];
    } else {
      var h :| h in todo;
      var rest := AssignAround(lines, todo - {h}, g, text);
      if h == g {
        ids := rest[g := text];
      } else {
        var taken := ProviderIds(lines) + (rest.Values + {text});
        FewAround(lines, rest, h, g, text);
        FreshTokenExists(taken, h);
        var token :| Token(token) && SyntheticId(token, h) !in taken;
        SyntheticFrom(token, h);
        ids := rest[h := SyntheticId(token, h)];
        assert forall k | k in rest :: rest[k] in rest.Values;
      }
    }
  }

  lemma SyntheticFrom(token: string, g: Group)
    requires Token(token)
    ensures Synthetic(SyntheticId(token, g), g)
  {
  }

  lemma ValuesWith(ids: map<Group, string>, g: Group, text: string)
    requires g in ids ==> ids[g] == text
    ensures |ids.Values + {text}| <= |ids.Keys + {g}|
  {
    var more := ids[g := text];
    assert more.Keys == ids.Keys + {g};
    forall v | v in ids.Values + {text} ensures v in more.Values {
      if k :| k in ids && ids[k] == v {
        assert k in more && more[k] == v;
      } else {
        assert g in more && more[g] == v;
      }
    }
    ValuesAtMostKeys(more);
    SubsetSize(ids.Values + {text}, more.Values);
  }

  lemma FewAround(lines: seq<Line>, rest: map<Group, string>, h: Group, g: Group, text: string)
    requires FewIds(lines) && rest.Keys <= Needy(lines) - {h} && h != g && g in Needy(lines) && h in Needy(lines)
    requires g in rest ==> rest[g] == text
    ensures |ProviderIds(lines) + (rest.Values + {text})| < Pow16(24)
  {
    hide Pow16, Needy, ProviderIds;
    ValuesWith(rest, g, text);
    SubsetSize(rest.Keys + {g}, Needy(lines) - {h});
    UnionSize(ProviderIds(lines), rest.Values + {text});
  }

  /** Every possible outcome avoids every id in the response if and only if no delta without a usable
      index carries an id that a group in need could draw. */
  lemma AvoidsEveryIdExactly(lines: seq<Line>)
    requires FewIds(lines)
    ensures (forall ids, g | ValidIds(lines, ids) && g in ids :: !AnyId(lines, ids[g]))
      <==> !exists g, text :: Collidable(lines, g, text)
  {
    if g, text :| Collidable(lines, g, text) {
      var ids := AssignAround(lines, Needy(lines), g, text);
      hide NeedsId, Synthetic, ProviderId, AnyId, Pow16;
      assert ValidIds(lines, ids) && g in ids;
    } else {
      hide NeedsId, Synthetic, AnyId, ProviderId;
      forall ids, g | ValidIds(lines, ids) && g in ids ensures !AnyId(lines, ids[g]) {
        assert !Collidable(lines, g, ids[g]);
      }
    }
  }

  /** Then ids of different groups, or of deltas without one, coincide after the repair only where the
      provider had repeated one. */
  lemma NoClashAnywhere(lines: seq<Line>, ids: map<Group, string>, a: nat, b: nat, c: nat, d: nat)
    requires ValidIds(lines, ids) && At(lines, a, b) && At(lines, c, d)
    requires !exists g, text :: Collidable(lines, g, text)
    requires DeltaAt(lines, a, b).group != DeltaAt(lines, c, d).group
    requires var after := RepairAll(lines, ids);
      At(after, a, b) && At(after, c, d) && DeltaAt(after, a, b).id.Given?
        && DeltaAt(after, a, b).id == DeltaAt(after, c, d).id
    ensures DeltaAt(lines, a, b).id == DeltaAt(lines, c, d).id == DeltaAt(RepairAll(lines, ids), a, b).id
  {
    RepairedAt(lines, ids, a, b);
    RepairedAt(lines, ids, c, d);
    hide RepairAll, IsFirst, NeedsId, Synthetic, ProviderId;
    var x, y := DeltaAt(lines, a, b), DeltaAt(lines, c, d);
    forall g | g in ids ensures !AnyId(lines, ids[g]) {
      assert !Collidable(lines, g, ids[g]);
    }
  }

  /** A concrete response in which the drawn id may be one the provider used on an unusable delta. */
  lemma UnseenIdCollides() returns (lines: seq<Line>, ids: map<Group, string>)
    ensures ValidIds(lines, ids) && (0, 0) in ids && AnyId(lines, ids[(0, 0)])
  {
    var g: Group := (0, 0);
    var token := seq(24, _ => '0');
    var text := SyntheticId(token, g);
    SyntheticFrom(token, g);
    hide SyntheticId, Synthetic;
    lines := [Event([Delta(Some(g), Missing, ""), Delta(None, Given(text), "")], "")];
    ids := map[g := text];
    assert InGroup(lines, 0, 0, g) && At(lines, 0, 1);
    assert forall a: nat, b: nat, h | InGroup(lines, a, b, h) :: a == 0 && b == 0 && h == g;
  }
}
