/** The choice of the next track piece during procedural generation
    (`PickValidPiece` in Assets/Scripts/TrackSnapping.cs). The prefab is an
    opaque value of type `T`; the height change of a piece is the measured
    rise from its entry socket to its exit socket. The random draw is the
    input `roll`. */
module TrackSnapping {
  import opened Common

  /** One analysed prefab. */
  datatype Piece<T> = Piece(prefab: T, heightChange: real, endPitch: real)

  /** Appending the piece keeps the track within [minHeight, maxHeight]. */
  predicate KeepsInBounds<T>(p: Piece<T>, currentHeight: real, minHeight: real, maxHeight: real)
  {
    minHeight <= currentHeight + p.heightChange <= maxHeight
  }

  /** The pieces that keep the height within bounds, in analysis order. */
  function ValidOptions<T>(pieces: seq<Piece<T>>, currentHeight: real, minHeight: real, maxHeight: real): (r: seq<Piece<T>>)
    ensures |r| <= |pieces|
    ensures forall i :: 0 <= i < |r| ==> r[i] in pieces && KeepsInBounds(r[i], currentHeight, minHeight, maxHeight)
    ensures forall i :: 0 <= i < |pieces| && KeepsInBounds(pieces[i], currentHeight, minHeight, maxHeight) ==> pieces[i] in r
    decreases |pieces|
  {
    if |pieces| == 0 then []
    else
      var rest := ValidOptions(pieces[1..], currentHeight, minHeight, maxHeight);
      if KeepsInBounds(pieces[0], currentHeight, minHeight, maxHeight) then [pieces[0]] + rest else rest
  }

  /** `r` holds the pieces at the indices `idx`, in that order. */
  ghost predicate Picks<T>(r: seq<Piece<T>>, pieces: seq<Piece<T>>, idx: seq<nat>)
  {
    |idx| == |r| && forall k :: 0 <= k < |idx| ==> idx[k] < |pieces| && r[k] == pieces[idx[k]]
  }

  ghost predicate Increasing(idx: seq<nat>)
  {
    forall k, l :: 0 <= k < l < |idx| ==> idx[k] < idx[l]
  }

  /** `idx` holds exactly the indices of the in-bounds pieces. */
  ghost predicate SelectsInBounds<T>(pieces: seq<Piece<T>>, idx: seq<nat>, currentHeight: real, minHeight: real, maxHeight: real)
  {
    forall i :: 0 <= i < |pieces| ==> (KeepsInBounds(pieces[i], currentHeight, minHeight, maxHeight) <==> i in idx)
  }

  /** `r` is the order-preserving filter that LINQ's `Where` computes: the
      pieces at a strictly increasing list of indices that holds exactly the
      indices of the in-bounds pieces. */
  ghost predicate IsOrderedFilter<T>(r: seq<Piece<T>>, pieces: seq<Piece<T>>, idx: seq<nat>,
                                     currentHeight: real, minHeight: real, maxHeight: real)
  {
    Picks(r, pieces, idx) && Increasing(idx) && SelectsInBounds(pieces, idx, currentHeight, minHeight, maxHeight)
  }

  /** Every index moved one place on, for a list seen from its second element. */
  ghost function Shift(xs: seq<nat>): (r: seq<nat>)
    ensures |r| == |xs| && forall k :: 0 <= k < |xs| ==> r[k] == xs[k] + 1
  {
    seq(|xs|, k requires 0 <= k < |xs| => xs[k] + 1)
  }

  /** Picking from the tail is picking from the whole list at the shifted
      indices, with or without the head in front. */
  lemma PicksCons<T>(pieces: seq<Piece<T>>, rest: seq<Piece<T>>, tailIdx: seq<nat>)
    requires |pieces| > 0 && Picks(rest, pieces[1..], tailIdx)
    ensures Picks(rest, pieces, Shift(tailIdx))
    ensures Picks([pieces[0]] + rest, pieces, [0] + Shift(tailIdx))
  {
    var shifted := Shift(tailIdx);
    forall k | 0 <= k < |shifted|
      ensures shifted[k] < |pieces| && rest[k] == pieces[shifted[k]]
    {
      assert pieces[1..][tailIdx[k]] == pieces[shifted[k]];
    }
    var r, idx := [pieces[0]] + rest, [0] + shifted;
    forall k | 0 <= k < |idx|
      ensures idx[k] < |pieces| && r[k] == pieces[idx[k]]
    {
      if k > 0 {
        assert idx[k] == shifted[k - 1] && r[k] == rest[k - 1];
      }
    }
  }

  lemma IncreasingShift(tailIdx: seq<nat>)
    requires Increasing(tailIdx)
    ensures Increasing(Shift(tailIdx)) && Increasing([0] + Shift(tailIdx))
  {
    var shifted := Shift(tailIdx);
    var idx := [0] + shifted;
    forall k, l | 0 <= k < l < |idx|
      ensures idx[k] < idx[l]
    {
      assert idx[l] == shifted[l - 1];
      if k > 0 {
        assert idx[k] == shifted[k - 1];
      }
    }
  }

  /** The shifted tail indices select the in-bounds pieces of the whole list
      apart from the head, whose index 0 is added exactly when it fits. */
  lemma SelectsCons<T>(pieces: seq<Piece<T>>, tailIdx: seq<nat>, currentHeight: real, minHeight: real, maxHeight: real)
    requires |pieces| > 0 && SelectsInBounds(pieces[1..], tailIdx, currentHeight, minHeight, maxHeight)
    ensures KeepsInBounds(pieces[0], currentHeight, minHeight, maxHeight) ==>
              SelectsInBounds(pieces, [0] + Shift(tailIdx), currentHeight, minHeight, maxHeight)
    ensures !KeepsInBounds(pieces[0], currentHeight, minHeight, maxHeight) ==>
              SelectsInBounds(pieces, Shift(tailIdx), currentHeight, minHeight, maxHeight)
  {
    var shifted := Shift(tailIdx);
    forall i | 1 <= i < |pieces|
      ensures KeepsInBounds(pieces[i], currentHeight, minHeight, maxHeight) <==> i in shifted
    {
      assert pieces[1..][i - 1] == pieces[i];
      if i - 1 in tailIdx {
        var k :| 0 <= k < |tailIdx| && tailIdx[k] == i - 1;
        assert shifted[k] == i;
      }
    }
    assert 0 !in shifted;
    forall i | 0 <= i < |pieces|
      ensures i in [0] + shifted <==> i == 0 || i in shifted
    {
    }
  }

  /** The filter keeps the in-bounds pieces in analysis order, each once per
      occurrence, so the random draw indexes the same list as `Where`. */
  lemma {:induction false} ValidOptionsInOrder<T>(pieces: seq<Piece<T>>, currentHeight: real, minHeight: real, maxHeight: real)
    ensures exists idx :: IsOrderedFilter(ValidOptions(pieces, currentHeight, minHeight, maxHeight), pieces, idx,
                                          currentHeight, minHeight, maxHeight)
    decreases |pieces|
  {
    if |pieces| == 0 {
      assert IsOrderedFilter(ValidOptions(pieces, currentHeight, minHeight, maxHeight), pieces, [],
                             currentHeight, minHeight, maxHeight);
    } else {
      var rest := ValidOptions(pieces[1..], currentHeight, minHeight, maxHeight);
      ValidOptionsInOrder(pieces[1..], currentHeight, minHeight, maxHeight);
      var tailIdx :| IsOrderedFilter(rest, pieces[1..], tailIdx, currentHeight, minHeight, maxHeight);
      PicksCons(pieces, rest, tailIdx);
      IncreasingShift(tailIdx);
      SelectsCons(pieces, tailIdx, currentHeight, minHeight, maxHeight);
      if KeepsInBounds(pieces[0], currentHeight, minHeight, maxHeight) {
        assert IsOrderedFilter(ValidOptions(pieces, currentHeight, minHeight, maxHeight), pieces, [0] + Shift(tailIdx),
                               currentHeight, minHeight, maxHeight);
      } else {
        assert IsOrderedFilter(ValidOptions(pieces, currentHeight, minHeight, maxHeight), pieces, Shift(tailIdx),
                               currentHeight, minHeight, maxHeight);
      }
    }
  }

  /** Each in-bounds piece occurs in the filter as often as it was analysed,
      and no other piece occurs in it. */
  lemma {:induction false} ValidOptionsCounts<T>(pieces: seq<Piece<T>>, currentHeight: real, minHeight: real, maxHeight: real)
    ensures forall p :: multiset(ValidOptions(pieces, currentHeight, minHeight, maxHeight))[p]
                        == if KeepsInBounds(p, currentHeight, minHeight, maxHeight) then multiset(pieces)[p] else 0
    decreases |pieces|
  {
    if |pieces| > 0 {
      ValidOptionsCounts(pieces[1..], currentHeight, minHeight, maxHeight);
      assert pieces == [pieces[0]] + pieces[1..];
    }
  }

  /** The first piece of the stable ordering by |heightChange|, from index `i` on. */
  function LeastBadFrom<T>(pieces: seq<Piece<T>>, i: nat): (k: nat)
    requires i < |pieces|
    ensures i <= k < |pieces|
    ensures forall j :: i <= j < |pieces| ==> Abs(pieces[k].heightChange) <= Abs(pieces[j].heightChange)
    ensures forall j :: i <= j < k ==> Abs(pieces[k].heightChange) < Abs(pieces[j].heightChange)
    decreases |pieces| - i
  {
    if i == |pieces| - 1 then i
    else
      var k := LeastBadFrom(pieces, i + 1);
      if Abs(pieces[i].heightChange) <= Abs(pieces[k].heightChange) then i else k
  }

  /** The list the random draw picks from: the in-bounds pieces, or else the
      single least-bad piece, or nothing when no piece was analysed. */
  function Candidates<T>(pieces: seq<Piece<T>>, currentHeight: real, minHeight: real, maxHeight: real): (r: seq<Piece<T>>)
    ensures |r| == 0 <==> |pieces| == 0
    ensures forall i :: 0 <= i < |r| ==> r[i] in pieces
    ensures |ValidOptions(pieces, currentHeight, minHeight, maxHeight)| > 0 ==>
              r == ValidOptions(pieces, currentHeight, minHeight, maxHeight)
    ensures |ValidOptions(pieces, currentHeight, minHeight, maxHeight)| == 0 && |pieces| > 0 ==>
              r == [pieces[LeastBadFrom(pieces, 0)]]
  {
    var valid := ValidOptions(pieces, currentHeight, minHeight, maxHeight);
    if |valid| > 0 then valid
    else if |pieces| == 0 then []
    else [pieces[LeastBadFrom(pieces, 0)]]
  }

  /** The chosen prefab: `None` exactly when no piece was analysed; an
      in-bounds piece whenever one exists; otherwise the first piece of least
      |heightChange|. `roll` is `Random.Range(0, count)`, which lies in
      [0, count) for a non-empty candidate list. */
  function PickValidPiece<T>(pieces: seq<Piece<T>>, currentHeight: real, minHeight: real, maxHeight: real, roll: nat): (r: Option<T>)
    requires |Candidates(pieces, currentHeight, minHeight, maxHeight)| == 0
             || roll < |Candidates(pieces, currentHeight, minHeight, maxHeight)|
    ensures r.None? <==> |pieces| == 0
    ensures (exists i :: 0 <= i < |pieces| && KeepsInBounds(pieces[i], currentHeight, minHeight, maxHeight)) ==>
              exists p :: p in pieces && KeepsInBounds(p, currentHeight, minHeight, maxHeight) && r == Some(p.prefab)
    ensures |pieces| > 0 && (forall i :: 0 <= i < |pieces| ==> !KeepsInBounds(pieces[i], currentHeight, minHeight, maxHeight)) ==>
              exists k :: 0 <= k < |pieces| && r == Some(pieces[k].prefab)
                && (forall j :: 0 <= j < |pieces| ==> Abs(pieces[k].heightChange) <= Abs(pieces[j].heightChange))
                && (forall j :: 0 <= j < k ==> Abs(pieces[k].heightChange) < Abs(pieces[j].heightChange))
    // the draw indexes the candidate list
    ensures |pieces| > 0 ==> r == Some(Candidates(pieces, currentHeight, minHeight, maxHeight)[roll].prefab)
  {
    var candidates := Candidates(pieces, currentHeight, minHeight, maxHeight);
    if |candidates| == 0 then None
    else
      var valid := ValidOptions(pieces, currentHeight, minHeight, maxHeight);
      assert |valid| > 0 ==> KeepsInBounds(candidates[roll], currentHeight, minHeight, maxHeight);
      assert |valid| == 0 ==> forall i :: 0 <= i < |pieces| ==> !KeepsInBounds(pieces[i], currentHeight, minHeight, maxHeight);
      Some(candidates[roll].prefab)
  }

  /** Any roll in range yields a prefab of one of the candidates. */
  lemma PickIsACandidate<T>(pieces: seq<Piece<T>>, currentHeight: real, minHeight: real, maxHeight: real, roll: nat)
    requires roll < |Candidates(pieces, currentHeight, minHeight, maxHeight)|
    ensures exists p :: p in Candidates(pieces, currentHeight, minHeight, maxHeight)
                        && PickValidPiece(pieces, currentHeight, minHeight, maxHeight, roll) == Some(p.prefab)
  {
    var c := Candidates(pieces, currentHeight, minHeight, maxHeight);
    assert c[roll] in c;
  }

  /** Every in-bounds piece is drawn by some roll in range: the random pick
      can produce any piece that fits. */
  lemma EveryFitCanBeDrawn<T>(pieces: seq<Piece<T>>, currentHeight: real, minHeight: real, maxHeight: real, i: nat)
    requires i < |pieces| && KeepsInBounds(pieces[i], currentHeight, minHeight, maxHeight)
    ensures exists roll: nat :: roll < |Candidates(pieces, currentHeight, minHeight, maxHeight)|
              && PickValidPiece(pieces, currentHeight, minHeight, maxHeight, roll) == Some(pieces[i].prefab)
  {
    var valid := ValidOptions(pieces, currentHeight, minHeight, maxHeight);
    assert pieces[i] in valid;
    var k :| 0 <= k < |valid| && valid[k] == pieces[i];
    assert PickValidPiece(pieces, currentHeight, minHeight, maxHeight, k) == Some(pieces[i].prefab);
  }

  /** At the ceiling with only a 2-up ramp and a 1-down ramp, the in-bounds
      1-down ramp is the only choice; at the ceiling with two up-ramps, the
      smaller rise wins. */
  lemma PickExamples()
    ensures PickValidPiece([Piece("up", 2.0, 0.0), Piece("down", -1.0, 0.0)], 5.0, -5.0, 5.0, 0) == Some("down")
    ensures PickValidPiece([Piece("up2", 2.0, 0.0), Piece("up1", 1.0, 0.0)], 5.0, -5.0, 5.0, 0) == Some("up1")
  {
    var a := [Piece("up", 2.0, 0.0), Piece("down", -1.0, 0.0)];
    assert ValidOptions(a[1..], 5.0, -5.0, 5.0) == [a[1]];
    assert ValidOptions(a, 5.0, -5.0, 5.0) == [a[1]];
    var b := [Piece("up2", 2.0, 0.0), Piece("up1", 1.0, 0.0)];
    assert ValidOptions(b[1..], 5.0, -5.0, 5.0) == [];
    assert ValidOptions(b, 5.0, -5.0, 5.0) == [];
    assert LeastBadFrom(b, 0) == 1;
  }
}
