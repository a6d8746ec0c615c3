/** Searching a stream for a byte string, one chunk at a time with an overlap kept between chunks. */
module NeedleSearch {
  import opened Common
  import opened Chunks

  ghost predicate Occurs(needle: Bytes, s: Bytes) {
    exists i :: OccursAt(needle, s, i)
  }

  predicate OccursAt(needle: Bytes, s: Bytes, i: int) {
    0 <= i <= |s| - |needle| && s[i..i + |needle|] == needle
  }

  /** The last k bytes, or everything when there are fewer. */
  function Suffix(s: Bytes, k: nat): Bytes { if |s| <= k then s else s[|s| - k..] }

  /** A new occurrence lies in the kept overlap and the new chunk, if the overlap is long enough. */
  lemma OnlyNewOccurrences(needle: Bytes, seen: Bytes, chunk: Bytes, keep: nat)
    requires needle != [] && |needle| - 1 <= keep
    ensures Occurs(needle, seen + chunk) <==> Occurs(needle, seen) || Occurs(needle, Suffix(seen, keep) + chunk)
  {
    var all, near := seen + chunk, Suffix(seen, keep) + chunk;
    var cut := |all| - |near|;
    assert near == all[cut..];
    if Occurs(needle, all) {
      var i :| OccursAt(needle, all, i);
      if i + |needle| <= |seen| {
        assert seen[i..i + |needle|] == all[i..i + |needle|];
        assert OccursAt(needle, seen, i);
      } else {
        assert near[i - cut..i - cut + |needle|] == all[i..i + |needle|];
        assert OccursAt(needle, near, i - cut);
      }
    }
    if Occurs(needle, seen) {
      var i :| OccursAt(needle, seen, i);
      assert seen[i..i + |needle|] == all[i..i + |needle|];
      assert OccursAt(needle, all, i);
    }
    if Occurs(needle, near) {
      var i :| OccursAt(needle, near, i);
      assert near[i..i + |needle|] == all[i + cut..i + cut + |needle|];
      assert OccursAt(needle, all, i + cut);
    }
  }

  lemma SuffixOfSuffix(seen: Bytes, chunk: Bytes, keep: nat)
    ensures Suffix(Suffix(seen, keep) + chunk, keep) == Suffix(seen + chunk, keep)
  {
  }

  lemma {:induction false} OccursInMore(needle: Bytes, chunks: seq<Bytes>, n: nat)
    requires n <= |chunks| && Occurs(needle, Concat(chunks[..n]))
    ensures Occurs(needle, Concat(chunks))
    decreases |chunks| - n
  {
    if n == |chunks| {
      assert chunks[..n] == chunks;
    } else {
      var s, more := Concat(chunks[..n]), Concat(chunks[..n + 1]);
      assert chunks[..n + 1][..n] == chunks[..n];
      assert more == s + chunks[n];
      var i :| OccursAt(needle, s, i);
      assert more[i..i + |needle|] == s[i..i + |needle|];
      assert OccursAt(needle, more, i);
      OccursInMore(needle, chunks, n + 1);
    }
  }

  /** needle in block. */
  method Within(needle: Bytes, block: Bytes) returns (found: bool)
    ensures found <==> Occurs(needle, block)
  {
    found := exists i | 0 <= i <= |block| :: OccursAt(needle, block, i);
    assert forall i | OccursAt(needle, block, i) :: 0 <= i <= |block|;
  }

  /** Reads are never empty before the end of the stream. */
  predicate Reads(chunks: seq<Bytes>) { forall i | 0 <= i < |chunks| :: chunks[i] != [] }

  /** The trial scan: keeps one byte less than the needle, nothing for a one-byte needle. */
  method ContainsBytes(chunks: seq<Bytes>, needle: Bytes) returns (found: bool)
    requires Reads(chunks)
    ensures needle != [] ==> (found <==> Occurs(needle, Concat(chunks)))
    ensures needle == [] ==> (found <==> chunks != [])
  {
    hide Occurs, Suffix, Concat;
    var overlap: Bytes := [];
    NothingRead(needle, chunks, |needle| - 1);
    for n := 0 to |chunks|
      invariant needle != [] ==> overlap == Suffix(Concat(chunks[..n]), |needle| - 1)
      invariant needle != [] ==> !Occurs(needle, Concat(chunks[..n]))
      invariant needle == [] ==> n == 0
    {
      var block := overlap + chunks[n];
      var here := Within(needle, block);
      EmptyOccurs(block);
      ChunkDecides(needle, chunks, n, |needle| - 1);
      if here {
        return true;
      }
      var keep := |needle| - 1;
      overlap := if keep > 0 then Suffix(block, keep) else [];
      if keep == 0 { NothingKept(block); }
    }
    assert chunks[..|chunks|] == chunks;
    found := false;
  }

  /** The credential check: keeps at least one byte. */
  method Contains(chunks: seq<Bytes>, needle: Bytes) returns (found: bool)
    requires Reads(chunks)
    ensures needle != [] ==> (found <==> Occurs(needle, Concat(chunks)))
    ensures needle == [] ==> (found <==> chunks != [])
  {
    var tail: Bytes := [];
    hide Occurs, Suffix, Concat;
    var keep := if |needle| - 1 > 1 then |needle| - 1 else 1;
    NothingRead(needle, chunks, keep);
    for n := 0 to |chunks|
      invariant tail == Suffix(Concat(chunks[..n]), keep)
      invariant needle != [] ==> !Occurs(needle, Concat(chunks[..n]))
      invariant needle == [] ==> n == 0
    {
      var block := tail + chunks[n];
      var here := Within(needle, block);
      EmptyOccurs(block);
      ChunkDecides(needle, chunks, n, keep);
      if here {
        return true;
      }
      tail := Suffix(block, keep);
    }
    assert chunks[..|chunks|] == chunks;
    found := false;
  }

  lemma NothingRead(needle: Bytes, chunks: seq<Bytes>, keep: int)
    ensures Concat(chunks[..0]) == []
    ensures keep >= 0 ==> Suffix(Concat(chunks[..0]), keep) == []
    ensures needle != [] ==> !Occurs(needle, Concat(chunks[..0]))
  {
  }

  lemma NothingKept(s: Bytes)
    ensures Suffix(s, 0) == []
  {
  }

  lemma EmptyOccurs(s: Bytes)
    ensures Occurs([], s)
  {
    assert OccursAt([], s, 0);
  }

  lemma ChunkDecides(needle: Bytes, chunks: seq<Bytes>, n: nat, keep: int)
    requires n < |chunks|
    ensures Concat(chunks[..n + 1]) == Concat(chunks[..n]) + chunks[n]
    ensures keep >= 0 ==>
      Suffix(Suffix(Concat(chunks[..n]), keep) + chunks[n], keep) == Suffix(Concat(chunks[..n + 1]), keep)
    ensures needle != [] && |needle| - 1 <= keep && !Occurs(needle, Concat(chunks[..n])) ==>
      (Occurs(needle, Concat(chunks[..n + 1])) <==> Occurs(needle, Suffix(Concat(chunks[..n]), keep) + chunks[n]))
    ensures Occurs(needle, Concat(chunks[..n + 1])) ==> Occurs(needle, Concat(chunks))
  {
    assert chunks[..n + 1][..n] == chunks[..n];
    if keep >= 0 { SuffixOfSuffix(Concat(chunks[..n]), chunks[n], keep); }
    if needle != [] && |needle| - 1 <= keep { OnlyNewOccurrences(needle, Concat(chunks[..n]), chunks[n], keep); }
    if Occurs(needle, Concat(chunks[..n + 1])) { OccursInMore(needle, chunks, n + 1); }
    hide Occurs, Suffix;
  }

  /** An overlap one byte too short misses a needle split across two chunks. */
  lemma ShorterOverlapMisses(needle: Bytes, keep: nat)
    requires |needle| >= 2 && keep == |needle| - 2
    ensures var seen, chunk := needle[..|needle| - 1], needle[|needle| - 1..];
      Occurs(needle, seen + chunk) && !Occurs(needle, seen) && !Occurs(needle, Suffix(seen, keep) + chunk)
  {
    var seen, chunk := needle[..|needle| - 1], needle[|needle| - 1..];
    assert seen + chunk == needle;
    assert OccursAt(needle, seen + chunk, 0);
  }
}
