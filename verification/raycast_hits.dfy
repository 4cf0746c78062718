/** Nearest and furthest hit selection over a raycast result buffer.

    A physics query writes `hitCount` hits into the front of a reusable buffer;
    the entries behind them are whatever an earlier query left there. The buffer
    itself may be null, modelled as `None`. */
module RaycastHits {
  import opened Results

  /** A raycast hit, reduced to what the selection looks at: how far along the
      ray it lies, and whether it is `default(RaycastHit)` rather than a hit the
      physics engine reported. */
  datatype Hit = Hit(distance: real, isDefault: bool)

  /** `default(RaycastHit)`: every field zero, no collider. */
  const DefaultHit: Hit := Hit(0.0, true)

  /** `float.MaxValue` as an exact real (2^128 - 2^104); `float.MinValue` is its negation. */
  const FloatMax: real := 340282346638528859811704183484516925440.0
  const FloatMin: real := -FloatMax

  /** The first k of the hits, or none of them for a negative count. */
  function ScanLength(count: int): nat {
    if count < 0 then 0 else count
  }

  /** `k` is the lowest index among hits[0..n) whose distance is the least there. */
  predicate IsFirstNearest(hits: seq<Hit>, n: nat, k: int)
    requires n <= |hits|
  {
    && 0 <= k < n
    && (forall j :: 0 <= j < n ==> hits[k].distance <= hits[j].distance)
    && (forall j :: 0 <= j < k ==> hits[k].distance < hits[j].distance)
  }

  /** `k` is the lowest index among hits[0..n) whose distance is the greatest there. */
  predicate IsFirstFurthest(hits: seq<Hit>, n: nat, k: int)
    requires n <= |hits|
  {
    && 0 <= k < n
    && (forall j :: 0 <= j < n ==> hits[j].distance <= hits[k].distance)
    && (forall j :: 0 <= j < k ==> hits[j].distance < hits[k].distance)
  }

  /** The loop state (outIndex, shortestDistance) of the nearest-hit search after
      its first n iterations: an entry replaces the candidate only when it is
      strictly closer, and nothing at or above `FloatMax` is ever taken. */
  function NearestScan(hits: seq<Hit>, n: nat): (r: (int, real))
    requires n <= |hits|
    ensures r.0 == -1 <==> (forall j :: 0 <= j < n ==> hits[j].distance >= FloatMax)
    ensures r.0 == -1 ==> r.1 == FloatMax
    ensures r.0 != -1 ==> IsFirstNearest(hits, n, r.0) && r.1 == hits[r.0].distance < FloatMax
  {
    if n == 0 then (-1, FloatMax)
    else
      var (k, shortest) := NearestScan(hits, n - 1);
      if hits[n - 1].distance >= shortest then (k, shortest)
      else (n - 1, hits[n - 1].distance)
  }

  /** The loop state (outIndex, largestDistance) of the furthest-hit search after
      its first n iterations: an entry replaces the candidate only when it is
      strictly further, and nothing at or below `FloatMin` is ever taken. */
  function FurthestScan(hits: seq<Hit>, n: nat): (r: (int, real))
    requires n <= |hits|
    ensures r.0 == -1 <==> (forall j :: 0 <= j < n ==> hits[j].distance <= FloatMin)
    ensures r.0 == -1 ==> r.1 == FloatMin
    ensures r.0 != -1 ==> IsFirstFurthest(hits, n, r.0) && FloatMin < r.1 == hits[r.0].distance
  {
    if n == 0 then (-1, FloatMin)
    else
      var (k, largest) := FurthestScan(hits, n - 1);
      if hits[n - 1].distance <= largest then (k, largest)
      else (n - 1, hits[n - 1].distance)
  }

  /** No early exit applies: a non-null, non-empty buffer and a count other than 0. */
  predicate Scannable(hits: Option<seq<Hit>>, hitCount: int) {
    hitCount != 0 && hits.Some? && |hits.value| != 0
  }

  /** The nearest search reads hits[0..hitCount) and so needs them to exist,
      unless an early exit (a null or empty buffer) returns before any read. */
  predicate NearestInBounds(hits: Option<seq<Hit>>, hitCount: int) {
    hits.None? || |hits.value| == 0 || hitCount <= |hits.value|
  }

  /** `GetNearestHit`: the closest of the first `hitCount` hits. */
  function GetNearestHit(hits: Option<seq<Hit>>, hitCount: int): (r: Hit)
    requires NearestInBounds(hits, hitCount)
    ensures !Scannable(hits, hitCount) ==> r == DefaultHit
    ensures Scannable(hits, hitCount) && hitCount == 1 ==> r == hits.value[0]
    ensures Scannable(hits, hitCount) && hitCount != 1 ==>
      if forall j :: 0 <= j < ScanLength(hitCount) ==> hits.value[j].distance >= FloatMax
      then r == DefaultHit
      else exists k :: IsFirstNearest(hits.value, hitCount, k) && r == hits.value[k]
  {
    if !Scannable(hits, hitCount) then DefaultHit
    else if hitCount == 1 then hits.value[0]
    else
      var (k, _) := NearestScan(hits.value, ScanLength(hitCount));
      if k < 0 then DefaultHit else hits.value[k]
  }

  /** `GetFurthestHit` as written: after the same early exits as the nearest
      search, it scans the WHOLE buffer rather than the first `hitCount` hits. */
  function GetFurthestHit(hits: Option<seq<Hit>>, hitCount: int): (r: Hit)
    ensures !Scannable(hits, hitCount) ==> r == DefaultHit
    ensures Scannable(hits, hitCount) && hitCount == 1 ==> r == hits.value[0]
    ensures Scannable(hits, hitCount) && hitCount != 1 ==>
      if forall j :: 0 <= j < |hits.value| ==> hits.value[j].distance <= FloatMin
      then r == DefaultHit
      else exists k :: IsFirstFurthest(hits.value, |hits.value|, k) && r == hits.value[k]
  {
    if !Scannable(hits, hitCount) then DefaultHit
    else if hitCount == 1 then hits.value[0]
    else
      var (k, _) := FurthestScan(hits.value, |hits.value|);
      if k < 0 then DefaultHit else hits.value[k]
  }

  /** The furthest search restricted to the reported hits, as the nearest search
      does it: the corrected counterpart of `GetFurthestHit`. */
  function GetFurthestHitWithin(hits: Option<seq<Hit>>, hitCount: int): (r: Hit)
    requires NearestInBounds(hits, hitCount)
    ensures !Scannable(hits, hitCount) ==> r == DefaultHit
    ensures Scannable(hits, hitCount) && hitCount == 1 ==> r == hits.value[0]
    ensures Scannable(hits, hitCount) && hitCount != 1 ==>
      if forall j :: 0 <= j < ScanLength(hitCount) ==> hits.value[j].distance <= FloatMin
      then r == DefaultHit
      else exists k :: IsFirstFurthest(hits.value, hitCount, k) && r == hits.value[k]
  {
    if !Scannable(hits, hitCount) then DefaultHit
    else if hitCount == 1 then hits.value[0]
    else
      var (k, _) := FurthestScan(hits.value, ScanLength(hitCount));
      if k < 0 then DefaultHit else hits.value[k]
  }

  /** Only the first n entries decide the nearest scan. */
  lemma {:induction false} NearestScanReadsPrefix(a: seq<Hit>, b: seq<Hit>, n: nat)
    requires n <= |a| && n <= |b|
    requires a[..n] == b[..n]
    ensures NearestScan(a, n) == NearestScan(b, n)
  {
    if n > 0 {
      assert a[..n - 1] == a[..n][..n - 1] && b[..n - 1] == b[..n][..n - 1];
      NearestScanReadsPrefix(a, b, n - 1);
      assert a[n - 1] == a[..n][n - 1] == b[..n][n - 1] == b[n - 1];
    }
  }

  /** Only the first n entries decide the furthest scan. */
  lemma {:induction false} FurthestScanReadsPrefix(a: seq<Hit>, b: seq<Hit>, n: nat)
    requires n <= |a| && n <= |b|
    requires a[..n] == b[..n]
    ensures FurthestScan(a, n) == FurthestScan(b, n)
  {
    if n > 0 {
      assert a[..n - 1] == a[..n][..n - 1] && b[..n - 1] == b[..n][..n - 1];
      FurthestScanReadsPrefix(a, b, n - 1);
      assert a[n - 1] == a[..n][n - 1] == b[..n][n - 1] == b[n - 1];
    }
  }

  /** Entries at or beyond `hitCount` never influence the nearest hit: replacing
      them with anything at all leaves the result unchanged. */
  lemma NearestIgnoresStaleEntries(hits: seq<Hit>, stale: seq<Hit>, hitCount: int)
    requires 0 <= hitCount <= |hits|
    ensures GetNearestHit(Some(hits), hitCount) == GetNearestHit(Some(hits[..hitCount] + stale), hitCount)
  {
    var other := hits[..hitCount] + stale;
    if hitCount >= 2 {
      assert other[..hitCount] == hits[..hitCount];
      NearestScanReadsPrefix(hits, other, hitCount);
    } else if hitCount == 1 {
      assert other[0] == hits[0];
    }
  }

  /** The corrected furthest search also ignores entries at or beyond `hitCount`. */
  lemma FurthestWithinIgnoresStaleEntries(hits: seq<Hit>, stale: seq<Hit>, hitCount: int)
    requires 0 <= hitCount <= |hits|
    ensures GetFurthestHitWithin(Some(hits), hitCount) == GetFurthestHitWithin(Some(hits[..hitCount] + stale), hitCount)
  {
    var other := hits[..hitCount] + stale;
    if hitCount >= 2 {
      assert other[..hitCount] == hits[..hitCount];
      FurthestScanReadsPrefix(hits, other, hitCount);
    } else if hitCount == 1 {
      assert other[0] == hits[0];
    }
  }

  /** An empty buffer gives the default hit whatever the count, before any entry
      is read. */
  lemma EmptyBufferGivesDefault(hitCount: int)
    ensures GetNearestHit(Some([]), hitCount) == DefaultHit
    ensures GetFurthestHit(Some([]), hitCount) == DefaultHit
    ensures GetFurthestHitWithin(Some([]), hitCount) == DefaultHit
  {
  }

  /** `GetFurthestHit` as written can return a stale entry: with two reported
      hits at distances 1 and 2 and a leftover hit at distance 5 behind them, it
      returns the leftover one. */
  lemma FurthestReturnsStaleEntry()
    ensures GetFurthestHit(Some([Hit(1.0, false), Hit(2.0, false), Hit(5.0, false)]), 2) == Hit(5.0, false)
    ensures GetFurthestHitWithin(Some([Hit(1.0, false), Hit(2.0, false), Hit(5.0, false)]), 2) == Hit(2.0, false)
  {
  }
}
