/** The trick catalog record and the direction enumeration (Assets/Scripts/TrickData.cs). */
module TrickData {

  /** The four stick directions a trick sequence is made of. */
  datatype Direction = Left | Right | Up | Down

  /** One catalog entry. `assetName` is the Unity object name of the asset
      (what the scoring code reads), `trickName` the designer-facing field.
      The animation clips are opaque to this model and omitted. A null
      catalog entry or a null direction list is represented by an entry with
      an empty direction list: both searches skip such entries alike. */
  datatype Trick = Trick(assetName: string, trickName: string, directions: seq<Direction>, trickTime: real)
}

/** Stick classification, the bounded direction buffer and the two catalog
    searches of the player controller. */
module TrickInput {
  import opened Common
  import opened TrickData

  /** Classifies a stick vector: `None` inside the deadzone, otherwise the
      dominant axis, ties going to the horizontal axis. */
  function MapInputToDirection(x: real, y: real, deadzone: real): (r: Option<Direction>)
    ensures r.None? <==> Abs(x) < deadzone && Abs(y) < deadzone
    ensures r == Some(Left) <==> r.Some? && Abs(x) >= Abs(y) && x < 0.0
    ensures r == Some(Right) <==> r.Some? && Abs(x) >= Abs(y) && x >= 0.0
    ensures r == Some(Down) <==> r.Some? && Abs(x) < Abs(y) && y < 0.0
    ensures r == Some(Up) <==> r.Some? && Abs(x) < Abs(y) && y >= 0.0
  {
    if Abs(x) < deadzone && Abs(y) < deadzone then None
    else if Abs(x) >= Abs(y) then (if x < 0.0 then Some(Left) else Some(Right))
    else if y < 0.0 then Some(Down) else Some(Up)
  }

  /** Whatever direction is reported, its own axis component reaches the
      deadzone and dominates the other component. */
  lemma ClassifiedAxisClearsDeadzone(x: real, y: real, deadzone: real)
    ensures MapInputToDirection(x, y, deadzone) == Some(Left) ==> x <= -deadzone && Abs(y) <= -x
    ensures MapInputToDirection(x, y, deadzone) == Some(Right) ==> x >= deadzone && Abs(y) <= x
    ensures MapInputToDirection(x, y, deadzone) == Some(Down) ==> y <= -deadzone && Abs(x) < -y
    ensures MapInputToDirection(x, y, deadzone) == Some(Up) ==> y >= deadzone && Abs(x) < y
  {
  }

  /** Appends `d`; with a positive capacity one element is evicted from the
      front once the length exceeds it. A capacity <= 0 means unbounded. */
  function BufferDirection(buffer: seq<Direction>, d: Direction, capacity: int): (r: seq<Direction>)
    ensures |r| > 0 && r[|r| - 1] == d
    ensures |r| <= |buffer| + 1 && r == (buffer + [d])[|buffer| + 1 - |r|..]
    ensures capacity <= 0 ==> |r| == |buffer| + 1
    ensures capacity > 0 && |buffer| < capacity ==> |r| == |buffer| + 1
    ensures capacity > 0 && |buffer| >= capacity ==> |r| == |buffer|
  {
    var added := buffer + [d];
    if |added| > capacity && capacity > 0 then added[1..] else added
  }

  /** The buffer after a series of new directions, one `BufferDirection` each. */
  function BufferAll(buffer: seq<Direction>, ds: seq<Direction>, capacity: int): seq<Direction>
    decreases |ds|
  {
    if |ds| == 0 then buffer else BufferAll(BufferDirection(buffer, ds[0], capacity), ds[1..], capacity)
  }

  /** With a positive capacity the buffer holds exactly the newest
      min(capacity, total) directions, oldest first, so it never outgrows
      the capacity. */
  lemma {:induction false} BufferAllKeepsNewest(buffer: seq<Direction>, ds: seq<Direction>, capacity: int)
    requires capacity > 0 && |buffer| <= capacity
    ensures var all := buffer + ds;
            var r := BufferAll(buffer, ds, capacity);
            |r| == MinInt(capacity, |all|) && r == all[|all| - |r|..]
    decreases |ds|
  {
    if |ds| > 0 {
      var b1 := BufferDirection(buffer, ds[0], capacity);
      BufferAllKeepsNewest(b1, ds[1..], capacity);
      var all := buffer + ds;
      var all1 := b1 + ds[1..];
      var r := BufferAll(buffer, ds, capacity);
      assert r == BufferAll(b1, ds[1..], capacity);
      // b1 is a suffix of buffer + [ds[0]], so all1 is a suffix of all
      var k := |buffer| + 1 - |b1|;
      assert all1 == all[k..] by {
        assert (buffer + [ds[0]]) + ds[1..] == all;
        assert b1 == (buffer + [ds[0]])[k..];
      }
      assert r == all1[|all1| - |r|..];
      assert all1[|all1| - |r|..] == all[k + |all1| - |r|..];
    }
  }

  /** With no capacity the buffer keeps every direction. */
  lemma {:induction false} BufferAllUnbounded(buffer: seq<Direction>, ds: seq<Direction>, capacity: int)
    requires capacity <= 0
    ensures BufferAll(buffer, ds, capacity) == buffer + ds
    decreases |ds|
  {
    if |ds| > 0 {
      BufferAllUnbounded(buffer + [ds[0]], ds[1..], capacity);
      assert (buffer + [ds[0]]) + ds[1..] == buffer + ds;
    }
  }

  /** `pattern` equals the last |pattern| elements of `buffer`. */
  predicate IsSuffix(pattern: seq<Direction>, buffer: seq<Direction>)
  {
    |pattern| <= |buffer| && buffer[|buffer| - |pattern|..] == pattern
  }

  /** The element-by-element suffix comparison of the controller. */
  method MatchesSuffix(buffer: seq<Direction>, pattern: seq<Direction>) returns (r: bool)
    requires |pattern| <= |buffer|
    ensures r <==> IsSuffix(pattern, buffer)
  {
    var len := |pattern|;
    var start := |buffer| - len;
    var i := 0;
    while i < len
      invariant 0 <= i <= len
      invariant forall k :: 0 <= k < i ==> buffer[start + k] == pattern[k]
    {
      if buffer[start + i] != pattern[i] {
        assert buffer[start..][i] != pattern[i];
        return false;
      }
      i := i + 1;
    }
    assert buffer[start..] == pattern;
    return true;
  }

  /** A catalog entry that the multi-direction search may select. */
  predicate Matches(t: Trick, buffer: seq<Direction>)
  {
    |t.directions| > 0 && IsSuffix(t.directions, buffer)
  }

  /** What the scan has established after looking at entries [0, i). */
  predicate SearchInvariant(catalog: seq<Trick>, buffer: seq<Direction>, i: nat, best: Option<nat>, bestLen: nat)
  {
    i <= |catalog| &&
    match best
    case None =>
      bestLen == 0 && forall j :: 0 <= j < i ==> !Matches(catalog[j], buffer)
    case Some(b) =>
      b < i && Matches(catalog[b], buffer) && bestLen == |catalog[b].directions|
      && (forall j :: 0 <= j < i && Matches(catalog[j], buffer) ==> |catalog[j].directions| <= bestLen)
      && (forall j :: 0 <= j < b && Matches(catalog[j], buffer) ==> |catalog[j].directions| < bestLen)
  }

  /** `r` is the earliest of the longest matching catalog entries, or `None`
      when nothing matches. */
  predicate IsBestTrick(catalog: seq<Trick>, buffer: seq<Direction>, r: Option<nat>)
  {
    match r
    case None => SearchInvariant(catalog, buffer, |catalog|, r, 0)
    case Some(b) => b < |catalog| && SearchInvariant(catalog, buffer, |catalog|, r, |catalog[b].directions|)
  }

  /** The foreach loop of the catalog search, from entry `i` on. */
  function SearchFrom(catalog: seq<Trick>, buffer: seq<Direction>, i: nat, best: Option<nat>, bestLen: nat): (r: Option<nat>)
    requires SearchInvariant(catalog, buffer, i, best, bestLen)
    ensures IsBestTrick(catalog, buffer, r)
    decreases |catalog| - i
  {
    if i == |catalog| then best
    else
      var len := |catalog[i].directions|;
      if len <= 0 || len > |buffer| || len <= bestLen then SearchFrom(catalog, buffer, i + 1, best, bestLen)
      else if IsSuffix(catalog[i].directions, buffer) then SearchFrom(catalog, buffer, i + 1, Some(i), len)
      else SearchFrom(catalog, buffer, i + 1, best, bestLen)
  }

  /** The longest catalog trick whose directions end the buffer; the first
      such trick in catalog order on a tie; `None` when none matches. */
  function FindBestTrickFromBuffer(catalog: seq<Trick>, buffer: seq<Direction>): (r: Option<nat>)
    ensures |catalog| == 0 || |buffer| == 0 ==> r == None
    ensures r.None? <==> forall j :: 0 <= j < |catalog| ==> !Matches(catalog[j], buffer)
    ensures r.Some? ==> r.value < |catalog| && Matches(catalog[r.value], buffer)
    ensures r.Some? ==> forall j :: 0 <= j < |catalog| && Matches(catalog[j], buffer) ==>
                          |catalog[j].directions| <= |catalog[r.value].directions|
    ensures r.Some? ==> forall j :: 0 <= j < r.value && Matches(catalog[j], buffer) ==>
                          |catalog[j].directions| < |catalog[r.value].directions|
  {
    if |catalog| == 0 || |buffer| == 0 then None
    else SearchFrom(catalog, buffer, 0, None, 0)
  }

  /** The first catalog entry from `i` on whose direction list is exactly [d]. */
  function FirstSingleFrom(catalog: seq<Trick>, d: Direction, i: nat): (r: Option<nat>)
    requires i <= |catalog|
    ensures r.Some? ==> i <= r.value < |catalog| && catalog[r.value].directions == [d]
                        && forall j :: i <= j < r.value ==> catalog[j].directions != [d]
    ensures r.None? ==> forall j :: i <= j < |catalog| ==> catalog[j].directions != [d]
    decreases |catalog| - i
  {
    if i == |catalog| then None
    else if |catalog[i].directions| == 1 && catalog[i].directions[0] == d then Some(i)
    else FirstSingleFrom(catalog, d, i + 1)
  }

  /** The quick-trick lookup: the first catalog entry made of the single
      direction `d`, independent of the buffer. */
  function SingleDirectionTrick(catalog: seq<Trick>, d: Direction): (r: Option<nat>)
    ensures r.Some? ==> r.value < |catalog| && catalog[r.value].directions == [d]
                        && forall j :: 0 <= j < r.value ==> catalog[j].directions != [d]
    ensures r.None? <==> forall j :: 0 <= j < |catalog| ==> catalog[j].directions != [d]
  {
    FirstSingleFrom(catalog, d, 0)
  }

  /** The worked example: with [Left, Up, Right] buffered, "flip" = [Up, Right]
      beats "kick" = [Right] because the longer suffix wins. */
  lemma LongestSuffixWins()
    ensures var kick := Trick("kick", "kick", [Right], 0.5);
            var flip := Trick("flip", "flip", [Up, Right], 0.5);
            FindBestTrickFromBuffer([kick, flip], [Left, Up, Right]) == Some(1)
  {
    var kick := Trick("kick", "kick", [Right], 0.5);
    var flip := Trick("flip", "flip", [Up, Right], 0.5);
    var buffer := [Left, Up, Right];
    assert Matches(flip, buffer) by {
      assert buffer[|buffer| - 2..] == [Up, Right];
    }
  }
}
