/** The uniform spatial grid (`UG`) and its flattened export (`Packed_UG`).

    The grid covers the cube [-size, size]^3 with binCount^3 buckets. A bucket
    slot is addressed by the flat index `ix + iy*bc + iz*bc*bc`; `binsIndices`
    holds, per slot, 0 for "no bucket yet" or a 1-based index into `bins`,
    whose entry 0 is a permanently empty placeholder. Ids are the source's
    `uint` values, modelled as naturals. */
module UniformGrid {
  import opened Vec
  import ErrorHandling

  /** An integer bucket coordinate (`ivec3`). */
  datatype Idx3 = Idx3(x: int, y: int, z: int)

  /** The inclusive range of bucket coordinates `[lo, hi]` an extent covers. */
  datatype Box = Box(lo: Idx3, hi: Idx3)

  /** `Packed_UG`: (offset, count) per slot, then all ids after a leading 0. */
  datatype PackedUG = PackedUG(arenaTable: seq<nat>, ids: seq<nat>)

  function Slots(binCount: nat): nat {
    binCount * binCount * binCount
  }

  // ---------------------------------------------------------------------
  // From positions to bucket coordinates

  /** Float-to-int conversion as done by `ivec3(v)`: truncation toward zero. */
  function Trunc(r: real): int {
    if r >= 0.0 then r.Floor else -((-r).Floor)
  }

  /** `bin_size = 2 * size / bin_count`. */
  function BinSize(size: real, binCount: nat): real
    requires size > 0.0 && binCount > 0
  {
    (2.0 * size) / (binCount as real)
  }

  /** The bucket coordinate of one axis value v: `int((v + size) / bin_size)`.
      With no bins the bin size is infinite and every quotient is 0. */
  function BinCoord(size: real, binCount: nat, v: real): int
    requires size > 0.0
  {
    if binCount == 0 then 0 else Trunc((v + size) / BinSize(size, binCount))
  }

  /** The coordinate box of the extent `pos ± radius` (`min_ids`, `max_ids`). */
  function BinBox(size: real, binCount: nat, pos: Vec3, radius: real): Box
    requires size > 0.0
  {
    Box(Idx3(BinCoord(size, binCount, pos.x - radius),
             BinCoord(size, binCount, pos.y - radius),
             BinCoord(size, binCount, pos.z - radius)),
        Idx3(BinCoord(size, binCount, pos.x + radius),
             BinCoord(size, binCount, pos.y + radius),
             BinCoord(size, binCount, pos.z + radius)))
  }

  /** The point lies within `[-size - radius, size + radius]` on every axis:
      `put` panics otherwise and `traverse` returns nothing. */
  predicate WithinBound(size: real, pos: Vec3, radius: real) {
    && -size - radius <= pos.x <= size + radius
    && -size - radius <= pos.y <= size + radius
    && -size - radius <= pos.z <= size + radius
  }

  // ---------------------------------------------------------------------
  // Flat slot indices

  predicate InRange(c: Idx3, binCount: nat) {
    0 <= c.x < binCount && 0 <= c.y < binCount && 0 <= c.z < binCount
  }

  predicate InBox(box: Box, c: Idx3) {
    && box.lo.x <= c.x <= box.hi.x
    && box.lo.y <= c.y <= box.hi.y
    && box.lo.z <= c.z <= box.hi.z
  }

  function Flat(c: Idx3, binCount: nat): int {
    c.x + c.y * binCount + c.z * binCount * binCount
  }

  /** The coordinate a flat slot index stands for. */
  function Coord(k: nat, binCount: nat): Idx3
    requires binCount > 0
  {
    Idx3(k % binCount, (k / binCount) % binCount, k / (binCount * binCount))
  }

  /** Slot k lies in the coordinate box. */
  predicate SlotInBox(box: Box, binCount: nat, k: nat) {
    binCount > 0 && InBox(box, Coord(k, binCount))
  }

  lemma BelowSquare(a: nat, b: nat, n: nat)
    requires a < n && b < n
    ensures a + b * n < n * n
  {
    ErrorHandling.MulLe(b, n - 1, n);
    assert (n - 1) * n == n * n - n;
  }

  /** Flattening an in-range coordinate gives a slot that decodes back to it. */
  lemma CoordOfFlat(c: Idx3, n: nat)
    requires InRange(c, n)
    ensures 0 <= Flat(c, n) < Slots(n)
    ensures Coord(Flat(c, n), n) == c
  {
    var k := Flat(c, n);
    var low := c.x + c.y * n;
    var nn := n * n;
    BelowSquare(c.x, c.y, n);
    assert c.z * n * n == c.z * nn;
    ErrorHandling.DivModUnique(k, nn, c.z, low);
    Regroup(c.z, c.y, c.x, n);
    ErrorHandling.DivModUnique(k, n, c.z * n + c.y, c.x);
    ErrorHandling.DivModUnique(c.z * n + c.y, n, c.z, c.y);
    assert Coord(k, n) == Idx3(k % n, (k / n) % n, k / nn);
    ErrorHandling.MulLe(c.z, n - 1, nn);
    assert (n - 1) * nn + nn == Slots(n);
  }

  lemma Regroup(q2: int, r2: int, r1: int, n: int)
    ensures (q2 * n + r2) * n + r1 == q2 * (n * n) + (r1 + r2 * n)
  {
  }

  lemma QuotBelow(k: nat, m: nat, n: nat)
    requires m > 0 && k < n * m
    ensures k / m < n
  {
    if k / m >= n {
      ErrorHandling.MulLe(n, k / m, m);
    }
  }

  /** Dividing by n twice is dividing by n * n. */
  lemma DivDiv(k: nat, n: nat)
    requires n > 0
    ensures k / (n * n) == (k / n) / n
    ensures k % n + ((k / n) % n) * n + (k / (n * n)) * (n * n) == k
  {
    var q1, r1 := k / n, k % n;
    var q2, r2 := q1 / n, q1 % n;
    assert k == q1 * n + r1;
    assert q1 == q2 * n + r2;
    Regroup(q2, r2, r1, n);
    BelowSquare(r1, r2, n);
    ErrorHandling.DivModUnique(k, n * n, q2, r1 + r2 * n);
  }

  /** Every slot is the flattening of exactly one in-range coordinate. */
  lemma FlatOfCoord(k: nat, n: nat)
    requires n > 0 && k < Slots(n)
    ensures InRange(Coord(k, n), n)
    ensures Flat(Coord(k, n), n) == k
  {
    DivDiv(k, n);
    assert Slots(n) == n * (n * n);
    QuotBelow(k, n * n, n);
    var c := Coord(k, n);
    assert c.z * n * n == c.z * (n * n);
  }

  /** Distinct slots decode to distinct coordinates. */
  lemma SlotIsCoord(k: nat, c: Idx3, n: nat)
    requires n > 0 && k < Slots(n) && InRange(c, n)
    ensures Coord(k, n) == c <==> k == Flat(c, n)
  {
    FlatOfCoord(k, n);
    CoordOfFlat(c, n);
  }

  // ---------------------------------------------------------------------
  // The triple loop over a box visits coordinates in (x, y, z) order.

  /** Coordinate c of the box has already been visited when the loops stand at cur. */
  predicate Visited(box: Box, c: Idx3, cur: Idx3) {
    InBox(box, c) &&
    (c.x < cur.x || (c.x == cur.x && (c.y < cur.y || (c.y == cur.y && c.z < cur.z))))
  }

  predicate SlotVisited(box: Box, n: nat, k: nat, cur: Idx3) {
    n > 0 && Visited(box, Coord(k, n), cur)
  }

  /** Buckets after `id` has been appended to every visited slot. */
  ghost function Partial(b: seq<seq<nat>>, n: nat, box: Box, cur: Idx3, id: nat): (r: seq<seq<nat>>)
    ensures |r| == |b|
  {
    seq(|b|, k requires 0 <= k < |b| => if SlotVisited(box, n, k, cur) then b[k] + [id] else b[k])
  }

  /** Buckets after `id` has been appended to every in-range slot of the box. */
  ghost function Inserted(b: seq<seq<nat>>, n: nat, box: Box, id: nat): (r: seq<seq<nat>>)
    ensures |r| == |b|
    ensures forall k :: 0 <= k < |b| && !SlotInBox(box, n, k) ==> r[k] == b[k]
    ensures forall k :: 0 <= k < |b| && SlotInBox(box, n, k) ==> r[k] == b[k] + [id]
  {
    seq(|b|, k requires 0 <= k < |b| => if SlotInBox(box, n, k) then b[k] + [id] else b[k])
  }

  /** Ids held by the visited slots. */
  ghost function Collected(b: seq<seq<nat>>, n: nat, box: Box, cur: Idx3): set<nat> {
    set k, id | 0 <= k < |b| && SlotVisited(box, n, k, cur) && id in b[k] :: id
  }

  /** Ids held by the in-range slots of the box. */
  ghost function BoxIds(b: seq<seq<nat>>, n: nat, box: Box): set<nat> {
    set k, id | 0 <= k < |b| && SlotInBox(box, n, k) && id in b[k] :: id
  }

  /** Visiting the in-range coordinate cur adds exactly its slot. */
  lemma VisitStep(box: Box, n: nat, k: nat, cur: Idx3)
    requires InRange(cur, n) && InBox(box, cur) && k < Slots(n)
    ensures SlotVisited(box, n, k, cur.(z := cur.z + 1))
        <==> SlotVisited(box, n, k, cur) || k == Flat(cur, n)
  {
    SlotIsCoord(k, cur, n);
  }

  /** Visiting an out-of-range coordinate adds no slot. */
  lemma SkipStep(box: Box, n: nat, k: nat, cur: Idx3)
    requires !InRange(cur, n) && k < Slots(n)
    ensures SlotVisited(box, n, k, cur.(z := cur.z + 1)) <==> SlotVisited(box, n, k, cur)
  {
    if n > 0 {
      FlatOfCoord(k, n);
    }
  }

  lemma PartialStep(b: seq<seq<nat>>, n: nat, box: Box, cur: Idx3, id: nat)
    requires |b| == Slots(n)
    ensures InRange(cur, n) && InBox(box, cur) ==>
      var f := Flat(cur, n);
      0 <= f < |b| &&
      Partial(b, n, box, cur.(z := cur.z + 1), id)
        == Partial(b, n, box, cur, id)[f := Partial(b, n, box, cur, id)[f] + [id]]
    ensures !InRange(cur, n) ==>
      Partial(b, n, box, cur.(z := cur.z + 1), id) == Partial(b, n, box, cur, id)
  {
    var next := cur.(z := cur.z + 1);
    if InRange(cur, n) && InBox(box, cur) {
      var f := Flat(cur, n);
      CoordOfFlat(cur, n);
      forall k | 0 <= k < |b|
        ensures Partial(b, n, box, next, id)[k]
             == Partial(b, n, box, cur, id)[f := Partial(b, n, box, cur, id)[f] + [id]][k]
      {
        VisitStep(box, n, k, cur);
      }
    } else if !InRange(cur, n) {
      forall k | 0 <= k < |b|
        ensures Partial(b, n, box, next, id)[k] == Partial(b, n, box, cur, id)[k]
      {
        SkipStep(box, n, k, cur);
      }
    }
  }

  lemma CollectedStep(b: seq<seq<nat>>, n: nat, box: Box, cur: Idx3)
    requires |b| == Slots(n)
    ensures InRange(cur, n) && InBox(box, cur) ==>
      var f := Flat(cur, n);
      0 <= f < |b| &&
      Collected(b, n, box, cur.(z := cur.z + 1))
        == Collected(b, n, box, cur) + (set id | id in b[f])
    ensures !InRange(cur, n) ==>
      Collected(b, n, box, cur.(z := cur.z + 1)) == Collected(b, n, box, cur)
  {
    var next := cur.(z := cur.z + 1);
    if InRange(cur, n) && InBox(box, cur) {
      var f := Flat(cur, n);
      CoordOfFlat(cur, n);
      forall id | id in Collected(b, n, box, next)
        ensures id in Collected(b, n, box, cur) + (set id | id in b[f])
      {
        var k :| 0 <= k < |b| && SlotVisited(box, n, k, next) && id in b[k];
        VisitStep(box, n, k, cur);
      }
      forall id | id in b[f]
        ensures id in Collected(b, n, box, next)
      {
        VisitStep(box, n, f, cur);
      }
      forall id | id in Collected(b, n, box, cur)
        ensures id in Collected(b, n, box, next)
      {
        var k :| 0 <= k < |b| && SlotVisited(box, n, k, cur) && id in b[k];
        VisitStep(box, n, k, cur);
      }
    } else if !InRange(cur, n) {
      forall id | id in Collected(b, n, box, next)
        ensures id in Collected(b, n, box, cur)
      {
        var k :| 0 <= k < |b| && SlotVisited(box, n, k, next) && id in b[k];
        SkipStep(box, n, k, cur);
      }
      forall id | id in Collected(b, n, box, cur)
        ensures id in Collected(b, n, box, next)
      {
        var k :| 0 <= k < |b| && SlotVisited(box, n, k, cur) && id in b[k];
        SkipStep(box, n, k, cur);
      }
    }
  }

  /** Leaving the innermost loop moves on to the next row. */
  lemma CarryZ(box: Box, c: Idx3, ix: int, iy: int, iz: int)
    requires iz > box.hi.z
    ensures Visited(box, c, Idx3(ix, iy, iz)) == Visited(box, c, Idx3(ix, iy + 1, box.lo.z))
  {
  }

  /** Leaving the middle loop moves on to the next plane. */
  lemma CarryY(box: Box, c: Idx3, ix: int, iy: int)
    requires iy > box.hi.y
    ensures Visited(box, c, Idx3(ix, iy, box.lo.z)) == Visited(box, c, Idx3(ix + 1, box.lo.y, box.lo.z))
  {
  }

  /** Leaving the outer loop has visited the whole box. */
  lemma CarryX(box: Box, c: Idx3, ix: int)
    requires ix > box.hi.x
    ensures Visited(box, c, Idx3(ix, box.lo.y, box.lo.z)) == InBox(box, c)
  {
  }

  lemma PartialCarryZ(b: seq<seq<nat>>, n: nat, box: Box, ix: int, iy: int, iz: int, id: nat)
    requires iz > box.hi.z
    ensures Partial(b, n, box, Idx3(ix, iy, iz), id) == Partial(b, n, box, Idx3(ix, iy + 1, box.lo.z), id)
  {
    if n > 0 {
      forall k | 0 <= k < |b|
        ensures SlotVisited(box, n, k, Idx3(ix, iy, iz)) == SlotVisited(box, n, k, Idx3(ix, iy + 1, box.lo.z))
      {
        CarryZ(box, Coord(k, n), ix, iy, iz);
      }
    }
  }

  lemma PartialCarryY(b: seq<seq<nat>>, n: nat, box: Box, ix: int, iy: int, id: nat)
    requires iy > box.hi.y
    ensures Partial(b, n, box, Idx3(ix, iy, box.lo.z), id) == Partial(b, n, box, Idx3(ix + 1, box.lo.y, box.lo.z), id)
  {
    if n > 0 {
      forall k | 0 <= k < |b|
        ensures SlotVisited(box, n, k, Idx3(ix, iy, box.lo.z)) == SlotVisited(box, n, k, Idx3(ix + 1, box.lo.y, box.lo.z))
      {
        CarryY(box, Coord(k, n), ix, iy);
      }
    }
  }

  lemma PartialCarryX(b: seq<seq<nat>>, n: nat, box: Box, ix: int, id: nat)
    requires ix > box.hi.x
    ensures Partial(b, n, box, Idx3(ix, box.lo.y, box.lo.z), id) == Inserted(b, n, box, id)
  {
    if n > 0 {
      forall k | 0 <= k < |b|
        ensures SlotVisited(box, n, k, Idx3(ix, box.lo.y, box.lo.z)) == SlotInBox(box, n, k)
      {
        CarryX(box, Coord(k, n), ix);
      }
    }
  }

  lemma CollectedCarryZ(b: seq<seq<nat>>, n: nat, box: Box, ix: int, iy: int, iz: int)
    requires iz > box.hi.z
    ensures Collected(b, n, box, Idx3(ix, iy, iz)) == Collected(b, n, box, Idx3(ix, iy + 1, box.lo.z))
  {
    if n > 0 {
      forall k | 0 <= k < |b|
        ensures SlotVisited(box, n, k, Idx3(ix, iy, iz)) == SlotVisited(box, n, k, Idx3(ix, iy + 1, box.lo.z))
      {
        CarryZ(box, Coord(k, n), ix, iy, iz);
      }
    }
  }

  lemma CollectedCarryY(b: seq<seq<nat>>, n: nat, box: Box, ix: int, iy: int)
    requires iy > box.hi.y
    ensures Collected(b, n, box, Idx3(ix, iy, box.lo.z)) == Collected(b, n, box, Idx3(ix + 1, box.lo.y, box.lo.z))
  {
    if n > 0 {
      forall k | 0 <= k < |b|
        ensures SlotVisited(box, n, k, Idx3(ix, iy, box.lo.z)) == SlotVisited(box, n, k, Idx3(ix + 1, box.lo.y, box.lo.z))
      {
        CarryY(box, Coord(k, n), ix, iy);
      }
    }
  }

  lemma CollectedCarryX(b: seq<seq<nat>>, n: nat, box: Box, ix: int)
    requires ix > box.hi.x
    ensures Collected(b, n, box, Idx3(ix, box.lo.y, box.lo.z)) == BoxIds(b, n, box)
  {
    if n > 0 {
      forall k | 0 <= k < |b|
        ensures SlotVisited(box, n, k, Idx3(ix, box.lo.y, box.lo.z)) == SlotInBox(box, n, k)
      {
        CarryX(box, Coord(k, n), ix);
      }
    }
  }

  /** Visiting starts with nothing visited. */
  lemma NothingVisitedYet(b: seq<seq<nat>>, n: nat, box: Box, id: nat)
    ensures Partial(b, n, box, box.lo, id) == b
    ensures Collected(b, n, box, box.lo) == {}
  {
  }

  // ---------------------------------------------------------------------
  // Packed form

  /** Total number of ids over all buckets. */
  function TotalSize(b: seq<seq<nat>>): nat {
    if b == [] then 0 else TotalSize(b[..|b| - 1]) + |b[|b| - 1]|
  }

  function Offset(p: PackedUG, k: nat): nat
    requires 2 * k + 1 < |p.arenaTable|
  {
    p.arenaTable[2 * k]
  }

  function Count(p: PackedUG, k: nat): nat
    requires 2 * k + 1 < |p.arenaTable|
  {
    p.arenaTable[2 * k + 1]
  }

  /** Every (offset, count) pair of the n slots addresses a range of `ids`. */
  predicate WellFormed(p: PackedUG, n: nat) {
    && |p.arenaTable| == 2 * n
    && |p.ids| >= 1
    && forall k :: 0 <= k < n ==> Offset(p, k) + Count(p, k) <= |p.ids|
  }

  /** The ids a reader of the packed form finds for slot k. */
  function Unpack(p: PackedUG, n: nat, k: nat): seq<nat>
    requires WellFormed(p, n) && k < n
  {
    p.ids[Offset(p, k)..Offset(p, k) + Count(p, k)]
  }

  /** Slot j of the packed form addresses `bucket`, as (0, 0) when the slot
      has no bucket and at an offset past the leading 0 otherwise. */
  predicate SlotPacked(p: PackedUG, j: nat, inUse: bool, bucket: seq<nat>)
    requires 2 * j + 1 < |p.arenaTable|
  {
    && Offset(p, j) + Count(p, j) <= |p.ids|
    && p.ids[Offset(p, j)..Offset(p, j) + Count(p, j)] == bucket
    && (if inUse then Offset(p, j) >= 1 && Count(p, j) == |bucket|
        else Offset(p, j) == 0 && Count(p, j) == 0)
  }

  /** Appending to both tables keeps what earlier slots address. */
  lemma SlotPackedExtend(p: PackedUG, pair: seq<nat>, more: seq<nat>, j: nat, inUse: bool, bucket: seq<nat>)
    requires 2 * j + 1 < |p.arenaTable|
    requires SlotPacked(p, j, inUse, bucket)
    ensures SlotPacked(PackedUG(p.arenaTable + pair, p.ids + more), j, inUse, bucket)
  {
    var q := PackedUG(p.arenaTable + pair, p.ids + more);
    assert Offset(q, j) == Offset(p, j) && Count(q, j) == Count(p, j);
    assert q.ids[Offset(p, j)..Offset(p, j) + Count(p, j)] == p.ids[Offset(p, j)..Offset(p, j) + Count(p, j)];
  }

  /** Offsets of the slots that have a bucket increase with the slot. */
  predicate OffsetsIncrease(p: PackedUG, indices: seq<nat>, n: nat)
    requires 2 * n <= |p.arenaTable| && n <= |indices|
  {
    forall j1, j2 :: 0 <= j1 < j2 < n && indices[j1] != 0 && indices[j2] != 0 ==>
      Offset(p, j1) < Offset(p, j2)
  }

  /** The packed form after slot k has been emitted. */
  function Emit(p: PackedUG, inUse: bool, bucket: seq<nat>): PackedUG {
    if inUse then PackedUG(p.arenaTable + [|p.ids|, |bucket|], p.ids + bucket)
    else PackedUG(p.arenaTable + [0, 0], p.ids)
  }

  /** Emitting slot k keeps the earlier slots and addresses slot k's bucket. */
  lemma EmitStep(p: PackedUG, k: nat, indices: seq<nat>, b: seq<seq<nat>>)
    requires |p.arenaTable| == 2 * k && |p.ids| >= 1 && k < |indices| == |b|
    requires forall j :: 0 <= j <= k ==> (indices[j] == 0 <==> b[j] == [])
    requires forall j :: 0 <= j < k ==> SlotPacked(p, j, indices[j] != 0, b[j])
    requires OffsetsIncrease(p, indices, k)
    ensures var q := Emit(p, indices[k] != 0, b[k]);
      && |q.arenaTable| == 2 * (k + 1) && |q.ids| == |p.ids| + |b[k]| && q.ids[0] == p.ids[0]
      && (forall j :: 0 <= j <= k ==> SlotPacked(q, j, indices[j] != 0, b[j]))
      && OffsetsIncrease(q, indices, k + 1)
  {
    var q := Emit(p, indices[k] != 0, b[k]);
    var pair := q.arenaTable[2 * k..];
    var more := q.ids[|p.ids|..];
    assert q == PackedUG(p.arenaTable + pair, p.ids + more);
    forall j | 0 <= j < k
      ensures SlotPacked(q, j, indices[j] != 0, b[j])
    {
      SlotPackedExtend(p, pair, more, j, indices[j] != 0, b[j]);
    }
    forall j | 0 <= j < k && indices[j] != 0 && indices[k] != 0
      ensures Offset(q, j) < Offset(q, k)
    {
      assert SlotPacked(p, j, true, b[j]);
      assert Offset(q, j) == Offset(p, j) && Count(p, j) == |b[j]| >= 1;
      assert Offset(q, k) == |p.ids|;
    }
  }

  /** The packed form of the first k slots, emitted in flat order. */
  function PackPrefix(indices: seq<nat>, b: seq<seq<nat>>, k: nat): PackedUG
    requires k <= |indices| == |b|
  {
    if k == 0 then PackedUG([], [0])
    else Emit(PackPrefix(indices, b, k - 1), indices[k - 1] != 0, b[k - 1])
  }

  /** The k-slot prefix has two table entries per slot and one id per
      bucket entry after the leading 0. */
  lemma {:induction false} PackPrefixShape(indices: seq<nat>, b: seq<seq<nat>>, k: nat)
    requires k <= |indices| == |b|
    requires forall j :: 0 <= j < |b| ==> (indices[j] == 0 <==> b[j] == [])
    ensures |PackPrefix(indices, b, k).arenaTable| == 2 * k
    ensures |PackPrefix(indices, b, k).ids| == 1 + TotalSize(b[..k])
    ensures PackPrefix(indices, b, k).ids[0] == 0
  {
    if k > 0 {
      var prev := PackPrefix(indices, b, k - 1);
      PackPrefixShape(indices, b, k - 1);
      assert b[..k][..k - 1] == b[..k - 1] && b[..k][k - 1] == b[k - 1];
      assert TotalSize(b[..k]) == TotalSize(b[..k - 1]) + |b[k - 1]|;
      assert PackPrefix(indices, b, k).ids[0] == prev.ids[0];
    }
  }

  /** Every prefix of the packed form addresses exactly its slots' buckets. */
  lemma {:induction false} PackPrefixAddresses(indices: seq<nat>, b: seq<seq<nat>>, k: nat)
    requires k <= |indices| == |b|
    requires forall j :: 0 <= j < |b| ==> (indices[j] == 0 <==> b[j] == [])
    ensures |PackPrefix(indices, b, k).arenaTable| == 2 * k
    ensures forall j :: 0 <= j < k ==> SlotPacked(PackPrefix(indices, b, k), j, indices[j] != 0, b[j])
    ensures OffsetsIncrease(PackPrefix(indices, b, k), indices, k)
  {
    PackPrefixShape(indices, b, k);
    if k > 0 {
      var prev := PackPrefix(indices, b, k - 1);
      PackPrefixAddresses(indices, b, k - 1);
      PackPrefixShape(indices, b, k - 1);
      EmitStep(prev, k - 1, indices, b);
    }
  }

  /** A packed form whose first n slots all address their buckets is well
      formed and reads every bucket back. */
  lemma ReadsBack(p: PackedUG, n: nat, indices: seq<nat>, b: seq<seq<nat>>)
    requires |p.arenaTable| == 2 * n && |p.ids| >= 1 && |indices| == n && |b| == n
    requires forall j :: 0 <= j < n ==> SlotPacked(p, j, indices[j] != 0, b[j])
    ensures WellFormed(p, n)
    ensures forall j :: 0 <= j < n ==> Unpack(p, n, j) == b[j]
  {
    forall j | 0 <= j < n
      ensures Offset(p, j) + Count(p, j) <= |p.ids|
    {
      assert SlotPacked(p, j, indices[j] != 0, b[j]);
    }
  }

  /** Lists the members of a set once each, in no particular order (the
      copy of a hash set into a vector). */
  method SetToSeq(s: set<nat>) returns (out: seq<nat>)
    ensures forall i, j :: 0 <= i < j < |out| ==> out[i] != out[j]
    ensures forall id :: id in out <==> id in s
  {
    out := [];
    var rest := s;
    while rest != {}
      invariant rest <= s
      invariant forall id :: id in out <==> id in s && id !in rest
      invariant forall i, j :: 0 <= i < j < |out| ==> out[i] != out[j]
      decreases rest
    {
      var id :| id in rest;
      out := out + [id];
      rest := rest - {id};
    }
  }

  /** The slot table points into the bucket list; bucket 0 is the shared
      empty placeholder, every other bucket belongs to exactly one slot and
      holds at least one id. */
  ghost predicate TablesValid(indices: seq<nat>, bins: seq<seq<nat>>) {
    && |bins| >= 1 && bins[0] == []
    && (forall k :: 0 <= k < |indices| ==> indices[k] < |bins|)
    && (forall k1, k2 ::
          (0 <= k1 < |indices| && 0 <= k2 < |indices| &&
           indices[k1] != 0 && indices[k1] == indices[k2]) ==> k1 == k2)
    && (forall b :: 1 <= b < |bins| ==> bins[b] != [])
  }

  /** The bucket each slot reads. */
  ghost function BucketsOf(indices: seq<nat>, bins: seq<seq<nat>>): (bs: seq<seq<nat>>)
    requires TablesValid(indices, bins)
    ensures |bs| == |indices|
    ensures forall k :: 0 <= k < |bs| ==> (bs[k] == [] <==> indices[k] == 0)
  {
    seq(|indices|, k requires 0 <= k < |indices| => bins[indices[k]])
  }

  /** Appending to an allocated slot's bucket changes that slot only. */
  lemma AppendAllocated(indices: seq<nat>, bins: seq<seq<nat>>, flat: nat, index: nat)
    requires TablesValid(indices, bins) && flat < |indices| && indices[flat] != 0
    ensures var bins' := bins[indices[flat] := bins[indices[flat]] + [index]];
      && TablesValid(indices, bins')
      && BucketsOf(indices, bins') == BucketsOf(indices, bins)[flat := BucketsOf(indices, bins)[flat] + [index]]
  {
    var b := indices[flat];
    var bins' := bins[b := bins[b] + [index]];
    assert TablesValid(indices, bins');
    var before, after := BucketsOf(indices, bins), BucketsOf(indices, bins');
    forall k | 0 <= k < |indices|
      ensures after[k] == before[flat := before[flat] + [index]][k]
    {
      if k != flat {
        assert indices[k] != b;
      }
    }
  }

  /** Allocating a fresh bucket for an unallocated slot changes that slot only. */
  lemma AppendFresh(indices: seq<nat>, bins: seq<seq<nat>>, flat: nat, index: nat)
    requires TablesValid(indices, bins) && flat < |indices| && indices[flat] == 0
    ensures var indices', bins' := indices[flat := |bins|], bins + [[index]];
      && TablesValid(indices', bins')
      && BucketsOf(indices', bins') == BucketsOf(indices, bins)[flat := BucketsOf(indices, bins)[flat] + [index]]
  {
    var indices', bins' := indices[flat := |bins|], bins + [[index]];
    assert TablesValid(indices', bins');
    var before, after := BucketsOf(indices, bins), BucketsOf(indices', bins');
    assert before[flat] == [];
    forall k | 0 <= k < |indices|
      ensures after[k] == before[flat := before[flat] + [index]][k]
    {
    }
  }

  // ---------------------------------------------------------------------
  // Properties of the box computation

  lemma TruncMonotone(a: real, b: real)
    requires a <= b
    ensures Trunc(a) <= Trunc(b)
  {
    if a < 0.0 && b < 0.0 {
      assert (-b).Floor <= (-a).Floor;
    }
  }

  /** Dividing by the (positive) bin size keeps the order of values. */
  lemma QuotientMonotone(x: real, y: real, d: real)
    requires x <= y && d > 0.0
    ensures x / d <= y / d
  {
    assert y / d - x / d == (y - x) / d;
  }

  /** A larger axis value never falls in a lower bucket. */
  lemma BinCoordMonotone(size: real, binCount: nat, u: real, v: real)
    requires size > 0.0 && u <= v
    ensures BinCoord(size, binCount, u) <= BinCoord(size, binCount, v)
  {
    if binCount > 0 {
      QuotientMonotone(u + size, v + size, BinSize(size, binCount));
      TruncMonotone((u + size) / BinSize(size, binCount), (v + size) / BinSize(size, binCount));
    }
  }

  /** A value of the half-open interval [-size, size) falls in one of the
      binCount buckets of its axis. */
  lemma BinCoordInRange(size: real, binCount: nat, v: real)
    requires size > 0.0 && binCount > 0
    requires -size <= v < size
    ensures 0 <= BinCoord(size, binCount, v) < binCount
  {
    var d := BinSize(size, binCount);
    var q := (v + size) / d;
    assert d * (binCount as real) == 2.0 * size;
    assert q * d == v + size;
    assert q < binCount as real;
    assert 0.0 <= q;
  }

  /** A value exactly on the upper face `+size` gets coordinate binCount,
      one past the last bucket. */
  lemma BinCoordUpperFace(size: real, binCount: nat)
    requires size > 0.0 && binCount > 0
    ensures BinCoord(size, binCount, size) == binCount
  {
    var d := BinSize(size, binCount);
    assert d * (binCount as real) == 2.0 * size;
    assert (size + size) / d == binCount as real;
  }

  /** `put` of a point on the upper face with radius 0 passes the bound
      check but changes no bucket: its box lies past the last bucket. */
  lemma UpperFaceDropped(b: seq<seq<nat>>, size: real, binCount: nat, pos: Vec3, id: nat)
    requires size > 0.0 && |b| == Slots(binCount)
    requires pos.x == size && -size <= pos.y <= size && -size <= pos.z <= size
    ensures WithinBound(size, pos, 0.0)
    ensures Inserted(b, binCount, BinBox(size, binCount, pos, 0.0), id) == b
  {
    var box := BinBox(size, binCount, pos, 0.0);
    if binCount > 0 {
      BinCoordUpperFace(size, binCount);
      assert box.lo.x == binCount;
      forall k | 0 <= k < |b|
        ensures !SlotInBox(box, binCount, k)
      {
        assert Coord(k, binCount).x < binCount;
      }
    }
    assert Inserted(b, binCount, box, id) == b;
  }

  /** A point strictly inside the cube that was put with radius 0 is found
      by every query around it, whatever its radius (`put` then `traverse`). */
  lemma PutThenTraverse(b: seq<seq<nat>>, size: real, binCount: nat, pos: Vec3, radius: real, id: nat)
    requires size > 0.0 && binCount > 0 && |b| == Slots(binCount) && radius >= 0.0
    requires -size <= pos.x < size && -size <= pos.y < size && -size <= pos.z < size
    ensures WithinBound(size, pos, 0.0) && WithinBound(size, pos, radius)
    ensures id in BoxIds(Inserted(b, binCount, BinBox(size, binCount, pos, 0.0), id), binCount,
                         BinBox(size, binCount, pos, radius))
  {
    var c := Idx3(BinCoord(size, binCount, pos.x), BinCoord(size, binCount, pos.y), BinCoord(size, binCount, pos.z));
    BinCoordInRange(size, binCount, pos.x);
    BinCoordInRange(size, binCount, pos.y);
    BinCoordInRange(size, binCount, pos.z);
    CoordOfFlat(c, binCount);
    var k := Flat(c, binCount);
    var put := BinBox(size, binCount, pos, 0.0);
    var query := BinBox(size, binCount, pos, radius);
    assert put == Box(c, c);
    BinCoordMonotone(size, binCount, pos.x - radius, pos.x);
    BinCoordMonotone(size, binCount, pos.y - radius, pos.y);
    BinCoordMonotone(size, binCount, pos.z - radius, pos.z);
    BinCoordMonotone(size, binCount, pos.x, pos.x + radius);
    BinCoordMonotone(size, binCount, pos.y, pos.y + radius);
    BinCoordMonotone(size, binCount, pos.z, pos.z + radius);
    var after := Inserted(b, binCount, put, id);
    assert SlotInBox(put, binCount, k) && SlotInBox(query, binCount, k);
    assert id in after[k];
  }

  /** Every id stored in the buckets is below `bound`. */
  predicate IdsBelow(b: seq<seq<nat>>, bound: nat) {
    forall k, id :: 0 <= k < |b| && id in b[k] ==> id < bound
  }

  /** Putting ids 0, 1, ... in turn keeps every stored id below the next one. */
  lemma InsertedIdsBelow(b: seq<seq<nat>>, n: nat, box: Box, id: nat)
    requires IdsBelow(b, id)
    ensures IdsBelow(Inserted(b, n, box, id), id + 1)
  {
  }

  /** A query only reports stored ids. */
  lemma BoxIdsBelow(b: seq<seq<nat>>, n: nat, box: Box, bound: nat)
    requires IdsBelow(b, bound)
    ensures forall id :: id in BoxIds(b, n, box) ==> id < bound
  {
  }

  /** Putting another id loses none: every id a query found before, it
      still finds. */
  lemma InsertedKeepsIds(b: seq<seq<nat>>, n: nat, box: Box, id: nat, query: Box)
    ensures BoxIds(b, n, query) <= BoxIds(Inserted(b, n, box, id), n, query)
  {
    var after := Inserted(b, n, box, id);
    forall x | x in BoxIds(b, n, query)
      ensures x in BoxIds(after, n, query)
    {
      var k :| 0 <= k < |b| && SlotInBox(query, n, k) && x in b[k];
      assert x in after[k];
    }
  }

  // ---------------------------------------------------------------------
  // The grid

  class UG {
    const size: real
    const binCount: nat
    var bins: seq<seq<nat>>
    var binsIndices: seq<nat>

    /** Slot-table well-formedness. */
    ghost predicate Valid()
      reads this
    {
      |binsIndices| == Slots(binCount) && TablesValid(binsIndices, bins)
    }

    /** The contents of every slot in flat order; an unallocated slot reads
        as the empty placeholder. */
    ghost function Buckets(): (bs: seq<seq<nat>>)
      reads this
      requires Valid()
      ensures |bs| == |binsIndices|
      ensures forall k :: 0 <= k < |bs| ==> (bs[k] == [] <==> binsIndices[k] == 0)
    {
      BucketsOf(binsIndices, bins)
    }

    /** The ids a query around pos finds. */
    ghost function QueryIds(pos: Vec3, radius: real): set<nat>
      reads this
      requires Valid() && size > 0.0
    {
      if !WithinBound(size, pos, radius) then {}
      else BoxIds(Buckets(), binCount, BinBox(size, binCount, pos, radius))
    }

    /** `UG(size, bin_count)`: bin_count^3 empty slots and the placeholder bucket. */
    constructor (size: real, binCount: nat)
      ensures Valid()
      ensures this.size == size && this.binCount == binCount
      ensures bins == [[]]
      ensures binsIndices == seq(Slots(binCount), _ => 0)
      ensures forall k :: 0 <= k < |Buckets()| ==> Buckets()[k] == []
    {
      this.size := size;
      this.binCount := binCount;
      bins := [[]];
      var indices: seq<nat> := [];
      var i := 0;
      while i < binCount * binCount * binCount
        invariant 0 <= i <= Slots(binCount)
        invariant indices == seq(i, _ => 0)
      {
        indices := indices + [0];
        i := i + 1;
      }
      binsIndices := indices;
    }

    /** Appends `index` to the bucket of slot `flat`, allocating the bucket on
        first write (the body of the loops in `put`). */
    method AppendToSlot(flat: nat, index: nat)
      requires Valid() && flat < |binsIndices|
      modifies this
      ensures Valid()
      ensures Buckets() == old(Buckets())[flat := old(Buckets())[flat] + [index]]
    {
      var b := binsIndices[flat];
      if b == 0 {
        AppendFresh(binsIndices, bins, flat, index);
        // a fresh bucket at the end of the bucket list, holding index
        b := |bins|;
        bins := bins + [[index]];
        binsIndices := binsIndices[flat := b];
      } else {
        AppendAllocated(binsIndices, bins, flat, index);
        bins := bins[b := bins[b] + [index]];
      }
    }

    /** `put(pos, radius, index)`: appends `index` once to every in-range
        bucket of the coordinate box of `pos ± radius`. */
    method Put(pos: Vec3, radius: real, index: nat)
      requires Valid() && size > 0.0
      requires WithinBound(size, pos, radius)
      modifies this
      ensures Valid()
      ensures Buckets() == Inserted(old(Buckets()), binCount, BinBox(size, binCount, pos, radius), index)
    {
      ghost var b0 := Buckets();
      var box := BinBox(size, binCount, pos, radius);
      NothingVisitedYet(b0, binCount, box, index);
      var ix := box.lo.x;
      while ix <= box.hi.x
        invariant Valid()
        invariant box.lo.x <= ix
        invariant Buckets() == Partial(b0, binCount, box, Idx3(ix, box.lo.y, box.lo.z), index)
      {
        var iy := box.lo.y;
        while iy <= box.hi.y
          invariant Valid()
          invariant box.lo.y <= iy
          invariant Buckets() == Partial(b0, binCount, box, Idx3(ix, iy, box.lo.z), index)
        {
          var iz := box.lo.z;
          while iz <= box.hi.z
            invariant Valid()
            invariant box.lo.z <= iz
            invariant Buckets() == Partial(b0, binCount, box, Idx3(ix, iy, iz), index)
          {
            PartialStep(b0, binCount, box, Idx3(ix, iy, iz), index);
            // Boundary check
            if ix < 0 || iy < 0 || iz < 0 || ix >= binCount || iy >= binCount || iz >= binCount {
              iz := iz + 1;
              continue;
            }
            var flatId := ix + iy * binCount + iz * binCount * binCount;
            assert flatId == Flat(Idx3(ix, iy, iz), binCount);
            AppendToSlot(flatId, index);
            iz := iz + 1;
          }
          PartialCarryZ(b0, binCount, box, ix, iy, iz, index);
          iy := iy + 1;
        }
        PartialCarryY(b0, binCount, box, ix, iy, index);
        ix := ix + 1;
      }
      PartialCarryX(b0, binCount, box, ix, index);
      assert Buckets() == Inserted(b0, binCount, box, index);
    }

    /** `traverse(pos, radius)`: the ids of every in-range bucket of the
        coordinate box, each once, or none when the point is out of bounds. */
    method Traverse(pos: Vec3, radius: real) returns (out: seq<nat>)
      requires Valid() && size > 0.0
      ensures forall i, j :: 0 <= i < j < |out| ==> out[i] != out[j]
      ensures forall id :: id in out <==> id in QueryIds(pos, radius)
    {
      if !WithinBound(size, pos, radius) {
        return [];
      }
      ghost var b := Buckets();
      var box := BinBox(size, binCount, pos, radius);
      NothingVisitedYet(b, binCount, box, 0);
      var found: set<nat> := {};
      var ix := box.lo.x;
      while ix <= box.hi.x
        invariant box.lo.x <= ix
        invariant found == Collected(b, binCount, box, Idx3(ix, box.lo.y, box.lo.z))
      {
        var iy := box.lo.y;
        while iy <= box.hi.y
          invariant box.lo.y <= iy
          invariant found == Collected(b, binCount, box, Idx3(ix, iy, box.lo.z))
        {
          var iz := box.lo.z;
          while iz <= box.hi.z
            invariant box.lo.z <= iz
            invariant found == Collected(b, binCount, box, Idx3(ix, iy, iz))
          {
            CollectedStep(b, binCount, box, Idx3(ix, iy, iz));
            // Boundary check
            if ix < 0 || iy < 0 || iz < 0 || ix >= binCount || iy >= binCount || iz >= binCount {
              iz := iz + 1;
              continue;
            }
            var flatId := ix + iy * binCount + iz * binCount * binCount;
            var binId := binsIndices[flatId];
            assert b[flatId] == bins[binId];
            if binId != 0 {
              found := found + (set item | item in bins[binId]);
            }
            iz := iz + 1;
          }
          CollectedCarryZ(b, binCount, box, ix, iy, iz);
          iy := iy + 1;
        }
        CollectedCarryY(b, binCount, box, ix, iy);
        ix := ix + 1;
      }
      CollectedCarryX(b, binCount, box, ix);
      assert found == QueryIds(pos, radius);
      // copy the set into the output vector
      out := SetToSeq(found);
    }

    /** `pack()`: one (offset, count) pair per slot in flat order, (0, 0) for
        an empty slot, and the buckets' ids concatenated after a leading 0. */
    method Pack() returns (out: PackedUG)
      requires Valid()
      ensures WellFormed(out, |binsIndices|)
      ensures out.ids[0] == 0
      ensures |out.ids| == 1 + TotalSize(Buckets())
      ensures forall k :: 0 <= k < |binsIndices| ==> SlotPacked(out, k, binsIndices[k] != 0, Buckets()[k])
      ensures forall k :: 0 <= k < |binsIndices| ==> Unpack(out, |binsIndices|, k) == Buckets()[k]
      ensures OffsetsIncrease(out, binsIndices, |binsIndices|)
    {
      ghost var b := Buckets();
      out := PackedUG([], [0]);
      var k := 0;
      while k < |binsIndices|
        invariant 0 <= k <= |binsIndices|
        invariant out == PackPrefix(binsIndices, b, k)
      {
        var binIndex := binsIndices[k];
        if binIndex > 0 {
          var bin := bins[binIndex];
          // every id of the bucket, in the bucket's order
          out := PackedUG(out.arenaTable + [|out.ids|, |bin|], out.ids + bin);
        } else {
          out := PackedUG(out.arenaTable + [0, 0], out.ids);
        }
        k := k + 1;
      }
      PackPrefixShape(binsIndices, b, k);
      PackPrefixAddresses(binsIndices, b, k);
      assert b[..k] == b;
      ReadsBack(out, k, binsIndices, b);
    }
  }
}
