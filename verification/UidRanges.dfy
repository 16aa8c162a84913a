/** Expanding the answer to `UID SEARCH UID n:*` into the UIDs above n. */
module UidRanges {
  import opened Common

  const UINT32_MAX := 0xFFFF_FFFF

  type Uint32 = u: int | 0 <= u <= UINT32_MAX

  /** Bounds as the client library decodes them; a stop of 0 stands for "*". */
  datatype Range = Range(start: Uint32, stop: Uint32)

  function Increment(u: Uint32): Uint32
  {
    if u == UINT32_MAX then 0 else u + 1
  }

  /** The inner loop's variable after k rounds. */
  function Round(start: Uint32, k: nat): Uint32
  {
    if k == 0 then start else Increment(Round(start, k - 1))
  }

  /** The inner loop leaves through its condition exactly when the range stops short of
      the largest UID: there the 32-bit counter wraps to 0 and never exceeds the stop. */
  lemma InnerLoopEndsIff(r: Range)
    ensures (exists k: nat :: Round(r.start, k) > r.stop) <==> r.stop < 0xFFFF_FFFF
  {
    if r.stop == UINT32_MAX {
      forall k: nat ensures !(Round(r.start, k) > r.stop) {
        var u: Uint32 := Round(r.start, k);
      }
    } else {
      var k: nat := if r.start <= r.stop then r.stop + 1 - r.start else 0;
      RoundIs(r.start, k);
      assert Round(r.start, k) > r.stop;
    }
  }

  lemma {:induction false} RoundIs(start: Uint32, k: nat)
    requires start + k <= UINT32_MAX
    ensures Round(start, k) == start + k
  {
    if k > 0 {
      RoundIs(start, k - 1);
    }
  }

  predicate Names(r: Range, u: int)
  {
    r.stop != 0 && r.start <= u <= r.stop
  }

  /** UIDs a search result names, above a bound. */
  predicate Wanted(ranges: seq<Range>, since: int, u: int)
  {
    u > since && exists i :: 0 <= i < |ranges| && Names(ranges[i], u)
  }

  /** Ranges in ascending order without overlap, as a UID set is stored. */
  predicate Sorted(ranges: seq<Range>)
  {
    && (forall i :: 0 <= i < |ranges| ==> ranges[i].stop != 0 ==> ranges[i].start <= ranges[i].stop)
    && (forall i, j :: 0 <= i < j < |ranges| && ranges[j].stop != 0 ==> ranges[i].stop < ranges[j].start)
  }

  /** None when some range makes the loop run for ever; a range that ends in "*" is
      skipped. */
  method UidsAbove(ranges: seq<Range>, since: int) returns (r: Option<seq<int>>)
    ensures r.None? <==> exists i :: 0 <= i < |ranges| && ranges[i].stop == 0xFFFF_FFFF
    ensures r.Some? ==> forall u :: u in r.value <==>
      u > since && exists i :: 0 <= i < |ranges| && ranges[i].stop != 0 && ranges[i].start <= u <= ranges[i].stop
    ensures r.Some? && Sorted(ranges) ==> Ascending(r.value)
  {
    var out: seq<int> := [];
    for i := 0 to |ranges|
      invariant !ReachesMax(ranges[..i])
      invariant forall u :: u in out <==> Wanted(ranges[..i], since, u)
      invariant Sorted(ranges) ==> Ascending(out)
    {
      var stop := ranges[i].stop;
      WantedNext(ranges, i, since);
      if stop == UINT32_MAX {
        assert ranges[i].stop == UINT32_MAX;
        return None;
      }
      if stop != 0 {
        if Sorted(ranges) {
          EarlierBelow(ranges, i, since);
        }
        out := Expand(ranges[i], since, out);
      }
    }
    assert ranges[..|ranges|] == ranges;
    forall i, u | 0 <= i < |ranges| && ranges[i].stop != 0 && ranges[i].start <= u <= ranges[i].stop
      ensures Names(ranges[i], u)
    {
    }
    r := Some(out);
  }

  /** The inner loop. */
  method Expand(r: Range, since: int, before: seq<int>) returns (out: seq<int>)
    requires 0 < r.stop < UINT32_MAX
    ensures forall v :: v in out <==> v in before || (v > since && Names(r, v))
    ensures Ascending(before) && (forall v :: v in before ==> v < r.start) ==> Ascending(out)
  {
    out := before;
    var u: Uint32 := r.start;
    while u <= r.stop
      invariant if r.start <= r.stop then r.start <= u <= r.stop + 1 else u == r.start
      invariant forall v :: v in out <==> v in before || (v > since && r.start <= v < u)
      invariant Ascending(before) && (forall v :: v in before ==> v < r.start) ==> Ascending(out)
      decreases r.stop - u
    {
      if u > since {
        assert (forall v :: v in before ==> v < r.start) ==> forall i :: 0 <= i < |out| ==> out[i] in out && out[i] < u;
        out := out + [u];
      }
      u := Increment(u);
    }
  }

  lemma EarlierBelow(ranges: seq<Range>, i: nat, since: int)
    requires i < |ranges| && Sorted(ranges) && ranges[i].stop != 0
    ensures forall u :: Wanted(ranges[..i], since, u) ==> u < ranges[i].start
  {
    forall u | Wanted(ranges[..i], since, u) ensures u < ranges[i].start {
      var j :| 0 <= j < i && Names(ranges[..i][j], u);
      assert ranges[j].stop < ranges[i].start;
    }
  }

  /** A range reaches the largest UID. */
  predicate ReachesMax(ranges: seq<Range>)
  {
    exists i :: 0 <= i < |ranges| && ranges[i].stop == UINT32_MAX
  }

  lemma WantedNext(ranges: seq<Range>, i: nat, since: int)
    requires i < |ranges|
    ensures forall u :: Wanted(ranges[..i + 1], since, u) <==>
      Wanted(ranges[..i], since, u) || (u > since && Names(ranges[i], u))
    ensures ReachesMax(ranges[..i + 1]) <==> ReachesMax(ranges[..i]) || ranges[i].stop == UINT32_MAX
  {
    assert ranges[..i + 1] == ranges[..i] + [ranges[i]];
    forall u | Wanted(ranges[..i], since, u) ensures Wanted(ranges[..i + 1], since, u) {
      var j :| 0 <= j < i && Names(ranges[..i][j], u);
      assert Names(ranges[..i + 1][j], u);
    }
    forall u | u > since && Names(ranges[i], u) ensures Wanted(ranges[..i + 1], since, u) {
      assert Names(ranges[..i + 1][i], u);
    }
    if ReachesMax(ranges[..i]) {
      var j :| 0 <= j < i && ranges[..i][j].stop == UINT32_MAX;
      assert ranges[..i + 1][j].stop == UINT32_MAX;
    }
    assert ranges[..i + 1][i] == ranges[i];
  }
}
