/** The greedy box merger. It scans a voxel grid x outermost, y, z innermost; at each
    cell not yet tested it marks the cell tested and, if the voxel is active, starts a
    1 x 1 x 1 box there and grows it one slab at a time along x, then y, then z, round
    after round, as long as the next slab along an axis lies inside the grid and is
    untested and active. Every cell a box takes is marked tested, so no later box can
    start in it or grow into it. */
module ColliderGen {
  import opened VoxelTypes

  /** A box: its first cell and its extent along each axis. */
  datatype CBox = CBox(start: Index, size: Index)

  datatype Axis = X | Y | Z

  /** The component of i along an axis. */
  function Coord(i: Index, axis: Axis): int
  {
    match axis
    case X => i.x
    case Y => i.y
    case Z => i.z
  }

  /** The extent of a grid along an axis. */
  function Ext<T>(a: array3<T>, axis: Axis): int
  {
    match axis
    case X => a.Length0
    case Y => a.Length1
    case Z => a.Length2
  }

  /** The outer and the inner axis of a slab scan: TrySpreadX walks y then z,
      TrySpreadY x then z, TrySpreadZ x then y. */
  function OuterAxis(axis: Axis): Axis
  {
    match axis
    case X => Y
    case Y => X
    case Z => X
  }

  function InnerAxis(axis: Axis): Axis
  {
    match axis
    case X => Z
    case Y => Z
    case Z => Y
  }

  /** The cell at coordinate n along the axis, u along its outer and v along its inner axis. */
  function Cell(axis: Axis, n: int, u: int, v: int): Index
  {
    match axis
    case X => Index(n, u, v)
    case Y => Index(u, n, v)
    case Z => Index(u, v, n)
  }

  /** The size one larger along the axis. */
  function Grow(size: Index, axis: Axis): Index
  {
    match axis
    case X => size.(x := size.x + 1)
    case Y => size.(y := size.y + 1)
    case Z => size.(z := size.z + 1)
  }

  /** The cell c lies inside the box. */
  predicate InBox(b: CBox, c: Index)
  {
    b.start.x <= c.x < b.start.x + b.size.x
    && b.start.y <= c.y < b.start.y + b.size.y
    && b.start.z <= c.z < b.start.z + b.size.z
  }

  /** The box is non-empty along every axis and lies inside the grid. */
  predicate Fits<T>(a: array3<T>, b: CBox)
  {
    0 <= b.start.x && 1 <= b.size.x && b.start.x + b.size.x <= a.Length0
    && 0 <= b.start.y && 1 <= b.size.y && b.start.y + b.size.y <= a.Length1
    && 0 <= b.start.z && 1 <= b.size.z && b.start.z + b.size.z <= a.Length2
  }

  /** The slab a box would take by growing one step along the axis. */
  predicate InSlab(b: CBox, axis: Axis, c: Index)
  {
    var u, v := OuterAxis(axis), InnerAxis(axis);
    Coord(c, axis) == Coord(b.start, axis) + Coord(b.size, axis)
    && Coord(b.start, u) <= Coord(c, u) < Coord(b.start, u) + Coord(b.size, u)
    && Coord(b.start, v) <= Coord(c, v) < Coord(b.start, v) + Coord(b.size, v)
  }

  /** Growing a box along an axis adds exactly the slab. */
  lemma GrowAddsSlab(b: CBox, axis: Axis, c: Index)
    requires Coord(b.size, axis) >= 0
    ensures InBox(CBox(b.start, Grow(b.size, axis)), c) <==> InBox(b, c) || InSlab(b, axis, c)
  {
  }

  /** One cell of a slab passes the test TrySpreadA makes: it lies inside the grid
      along the growth axis, and it is untested and active. */
  predicate Free(tested: array3<bool>, voxels: array3<Voxel>, c: Index)
    reads tested, voxels
  {
    InGrid(tested, c.x, c.y, c.z) && InGrid(voxels, c.x, c.y, c.z)
    && !tested[c.x, c.y, c.z] && voxels[c.x, c.y, c.z].active
  }

  /** Every cell of the slab along the axis passes the test. */
  ghost predicate SlabFree(tested: array3<bool>, voxels: array3<Voxel>, b: CBox, axis: Axis)
    reads tested, voxels
  {
    forall c :: InSlab(b, axis, c) ==> Free(tested, voxels, c)
  }

  /** The cell lies in the part of the slab a scan of its rows (outer coordinate) and
      columns (inner coordinate) has passed before reaching row u, column v. */
  predicate SlabBefore(b: CBox, axis: Axis, u: int, v: int, c: Index)
  {
    InSlab(b, axis, c)
    && (Coord(c, OuterAxis(axis)) < u || (Coord(c, OuterAxis(axis)) == u && Coord(c, InnerAxis(axis)) < v))
  }

  /** A cell is determined by its coordinate along an axis and along that axis's outer
      and inner axes. */
  lemma CellCoords(axis: Axis, n: int, u: int, v: int, c: Index)
    ensures Coord(Cell(axis, n, u, v), axis) == n
    ensures Coord(Cell(axis, n, u, v), OuterAxis(axis)) == u && Coord(Cell(axis, n, u, v), InnerAxis(axis)) == v
    ensures c == Cell(axis, Coord(c, axis), Coord(c, OuterAxis(axis)), Coord(c, InnerAxis(axis)))
  {
  }

  /** The two grids have the same shape. */
  predicate SameShape(tested: array3<bool>, voxels: array3<Voxel>)
  {
    tested.Length0 == voxels.Length0 && tested.Length1 == voxels.Length1 && tested.Length2 == voxels.Length2
  }

  /** TrySpreadX, TrySpreadY and TrySpreadZ: when canSpread holds, tests every cell of
      the slab beyond the box along the axis; if all pass, marks the slab tested and grows
      the box by one along the axis. The result is canSpread and the outcome of the test;
      on success exactly the slab becomes tested and only the size along the axis grows,
      on failure nothing changes. */
  method TrySpread(axis: Axis, canSpread: bool, tested: array3<bool>, boxStart: Index, boxSize: Index,
                   voxels: array3<Voxel>) returns (spread: bool, newSize: Index)
    requires SameShape(tested, voxels) && Fits(voxels, CBox(boxStart, boxSize))
    modifies tested
    ensures spread == (canSpread && old(SlabFree(tested, voxels, CBox(boxStart, boxSize), axis)))
    ensures newSize == if spread then Grow(boxSize, axis) else boxSize
    ensures forall x, y, z :: InGrid(tested, x, y, z) ==>
              (tested[x, y, z] <==> old(tested[x, y, z]) || (spread && InSlab(CBox(boxStart, boxSize), axis, Index(x, y, z))))
    ensures forall a :: !old(SlabFree(tested, voxels, CBox(boxStart, boxSize), a)) && (a != axis || !spread)
              ==> !SlabFree(tested, voxels, CBox(boxStart, newSize), a)
  {
    spread := TestSlab(axis, canSpread, tested, boxStart, boxSize, voxels);
    newSize := boxSize;
    if spread {
      MarkSlab(axis, tested, boxStart, boxSize, voxels);
      newSize := Grow(boxSize, axis);
    }
    ghost var b := CBox(boxStart, boxSize);
    forall a | !old(SlabFree(tested, voxels, b, a)) && (a != axis || !spread)
      ensures !SlabFree(tested, voxels, CBox(boxStart, newSize), a)
    {
      var c :| InSlab(b, a, c) && !old(Free(tested, voxels, c));
      if spread {
        SlabAfterGrow(b, axis, a, c);
      }
      assert InSlab(CBox(boxStart, newSize), a, c) && !Free(tested, voxels, c);
    }
  }

  /** Growing a box along one axis only widens its slab along another: a cell of the old
      slab lies in the new one. */
  lemma SlabAfterGrow(b: CBox, grown: Axis, axis: Axis, c: Index)
    requires grown != axis && Coord(b.size, grown) >= 0 && InSlab(b, axis, c)
    ensures InSlab(CBox(b.start, Grow(b.size, grown)), axis, c)
  {
  }

  /** The test phase of TrySpreadA: the slab's rows along the outer axis, each row's cells
      along the inner axis, stopping at the first row that holds a failing cell. It
      passes exactly when canSpread holds and every cell of the slab is free. */
  method TestSlab(axis: Axis, canSpread: bool, tested: array3<bool>, boxStart: Index, boxSize: Index,
                  voxels: array3<Voxel>) returns (spread: bool)
    requires SameShape(tested, voxels) && Fits(voxels, CBox(boxStart, boxSize))
    ensures spread == (canSpread && SlabFree(tested, voxels, CBox(boxStart, boxSize), axis))
  {
    ghost var b := CBox(boxStart, boxSize);
    var ou, iv := OuterAxis(axis), InnerAxis(axis);
    var uLimit := Coord(boxStart, ou) + Coord(boxSize, ou);
    var vLimit := Coord(boxStart, iv) + Coord(boxSize, iv);
    spread := canSpread;
    var u := Coord(boxStart, ou);
    while u < uLimit && spread
      invariant Coord(boxStart, ou) <= u <= uLimit
      invariant spread == (canSpread && forall c :: SlabBefore(b, axis, u, Coord(b.start, iv), c) ==> Free(tested, voxels, c))
    {
      var v := Coord(boxStart, iv);
      while v < vLimit
        invariant Coord(boxStart, iv) <= v <= vLimit
        invariant spread == forall c :: SlabBefore(b, axis, u, v, c) ==> Free(tested, voxels, c)
      {
        var n := Coord(boxStart, axis) + Coord(boxSize, axis);
        var c := Cell(axis, n, u, v);
        forall c' ensures SlabBefore(b, axis, u, v + 1, c') <==> SlabBefore(b, axis, u, v, c') || c' == c {
          CellCoords(axis, n, u, v, c');
        }
        assert Free(tested, voxels, c) <==> !(n >= Ext(voxels, axis) || tested[c.x, c.y, c.z] || !voxels[c.x, c.y, c.z].active);
        if n >= Ext(voxels, axis) || tested[c.x, c.y, c.z] || !voxels[c.x, c.y, c.z].active {
          spread := false;
        }
        v := v + 1;
      }
      forall c' ensures SlabBefore(b, axis, u + 1, Coord(b.start, iv), c') <==> SlabBefore(b, axis, u, vLimit, c') {
      }
      u := u + 1;
    }
    if spread {
      forall c | InSlab(b, axis, c) ensures Free(tested, voxels, c) {
        assert SlabBefore(b, axis, u, Coord(b.start, iv), c);
      }
    }
  }

  /** The marking phase of TrySpreadA: marks every cell of the slab tested, row by row
      along the outer axis. */
  method MarkSlab(axis: Axis, tested: array3<bool>, boxStart: Index, boxSize: Index, voxels: array3<Voxel>)
    requires SameShape(tested, voxels) && Fits(voxels, CBox(boxStart, boxSize))
    requires SlabFree(tested, voxels, CBox(boxStart, boxSize), axis)
    modifies tested
    ensures forall x, y, z :: InGrid(tested, x, y, z) ==>
              (tested[x, y, z] <==> old(tested[x, y, z]) || InSlab(CBox(boxStart, boxSize), axis, Index(x, y, z)))
  {
    var b := CBox(boxStart, boxSize);
    var ou, iv := OuterAxis(axis), InnerAxis(axis);
    var uLimit := Coord(boxStart, ou) + Coord(boxSize, ou);
    assert forall c :: InSlab(b, axis, c) ==> InGrid(tested, c.x, c.y, c.z);
    for u := Coord(boxStart, ou) to uLimit
      invariant forall x, y, z :: InGrid(tested, x, y, z) ==>
                  (tested[x, y, z] <==> old(tested[x, y, z]) || SlabBefore(b, axis, u, Coord(b.start, iv), Index(x, y, z)))
    {
      MarkRow(axis, tested, b, u);
    }
  }

  /** The cell lies in row u of the slab, before column v. */
  predicate RowBefore(b: CBox, axis: Axis, u: int, v: int, c: Index)
  {
    InSlab(b, axis, c) && Coord(c, OuterAxis(axis)) == u && Coord(c, InnerAxis(axis)) < v
  }

  /** The inner loop of the marking phase: marks the cells of row u of the slab. */
  method MarkRow(axis: Axis, tested: array3<bool>, b: CBox, u: int)
    requires forall c :: InSlab(b, axis, c) ==> InGrid(tested, c.x, c.y, c.z)
    requires Fits(tested, b)
    requires Coord(b.start, OuterAxis(axis)) <= u < Coord(b.start, OuterAxis(axis)) + Coord(b.size, OuterAxis(axis))
    modifies tested
    ensures forall x, y, z :: InGrid(tested, x, y, z) ==>
              (tested[x, y, z] <==> old(tested[x, y, z]) || (InSlab(b, axis, Index(x, y, z)) && Coord(Index(x, y, z), OuterAxis(axis)) == u))
  {
    var iv := InnerAxis(axis);
    var vLimit := Coord(b.start, iv) + Coord(b.size, iv);
    var n := Coord(b.start, axis) + Coord(b.size, axis);
    for v := Coord(b.start, iv) to vLimit
      invariant forall x, y, z :: InGrid(tested, x, y, z) ==>
                  (tested[x, y, z] <==> old(tested[x, y, z]) || RowBefore(b, axis, u, v, Index(x, y, z)))
    {
      var c := Cell(axis, n, u, v);
      CellCoords(axis, n, u, v, c);
      assert InSlab(b, axis, c);
      forall c' ensures RowBefore(b, axis, u, v + 1, c') <==> RowBefore(b, axis, u, v, c') || c' == c {
        CellCoords(axis, n, u, v, c');
      }
      tested[c.x, c.y, c.z] := true;
    }
  }

  // ---------------------------------------------------------------------------
  // The scan

  /** a comes before b in the scan order: x outermost, then y, then z. */
  predicate ScanLess(a: Index, b: Index)
  {
    a.x < b.x || (a.x == b.x && (a.y < b.y || (a.y == b.y && a.z < b.z)))
  }

  /** The scan has reached c before pos: c comes first in scan order and its z lies
      below the bound of the scan's z loop. */
  predicate ScannedBefore(c: Index, pos: Index, zBound: int)
  {
    0 <= c.z < zBound && ScanLess(c, pos)
  }

  /** Some box of the list holds the cell. */
  ghost predicate Covered(boxes: seq<CBox>, c: Index)
  {
    exists i :: 0 <= i < |boxes| && InBox(boxes[i], c)
  }

  /** Every cell of the box lies inside the grid and is active. */
  ghost predicate AllActive(voxels: array3<Voxel>, b: CBox)
    reads voxels
  {
    forall c :: InBox(b, c) ==> InGrid(voxels, c.x, c.y, c.z) && voxels[c.x, c.y, c.z].active
  }

  /** Every box fits the grid, is non-empty and holds only active cells. */
  ghost predicate Sound(voxels: array3<Voxel>, boxes: seq<CBox>)
    reads voxels
  {
    forall i :: 0 <= i < |boxes| ==> Fits(voxels, boxes[i]) && AllActive(voxels, boxes[i])
  }

  /** No two boxes share a cell. */
  ghost predicate Disjoint(boxes: seq<CBox>)
  {
    forall i, j, c :: 0 <= i < j < |boxes| && InBox(boxes[i], c) ==> !InBox(boxes[j], c)
  }

  /** Box starts strictly increase in scan order. */
  ghost predicate StartsInScanOrder(boxes: seq<CBox>)
  {
    forall i, j :: 0 <= i < j < |boxes| ==> ScanLess(boxes[i].start, boxes[j].start)
  }

  /** Each box starts at the first active cell, in scan order below the z bound, that
      no earlier box holds. */
  ghost predicate GreedyStarts(voxels: array3<Voxel>, boxes: seq<CBox>, zBound: int)
    reads voxels
  {
    forall i, x, y, z :: 0 <= i < |boxes| && InGrid(voxels, x, y, z) && voxels[x, y, z].active
                         && ScannedBefore(Index(x, y, z), boxes[i].start, zBound)
                         ==> Covered(boxes[..i], Index(x, y, z))
  }

  /** The boxes so far are sound, pairwise disjoint, greedy, and start at cells the scan
      has passed before pos, in scan order. */
  ghost predicate BoxesSoFar(voxels: array3<Voxel>, boxes: seq<CBox>, pos: Index, zBound: int)
    reads voxels
  {
    Sound(voxels, boxes) && Disjoint(boxes) && StartsInScanOrder(boxes) && GreedyStarts(voxels, boxes, zBound)
    && (forall i :: 0 <= i < |boxes| ==> ScannedBefore(boxes[i].start, pos, zBound))
  }

  /** A cell is tested exactly when the scan has passed it before pos or a box holds it. */
  ghost predicate TestedAt(tested: array3<bool>, boxes: seq<CBox>, pos: Index, zBound: int)
    reads tested
  {
    forall x, y, z :: InGrid(tested, x, y, z) ==>
      (tested[x, y, z] <==> ScannedBefore(Index(x, y, z), pos, zBound) || Covered(boxes, Index(x, y, z)))
  }

  /** Every active cell the scan has passed before pos is in a box. */
  ghost predicate PassedCovered(voxels: array3<Voxel>, boxes: seq<CBox>, pos: Index, zBound: int)
    reads voxels
  {
    forall x, y, z :: InGrid(voxels, x, y, z) && voxels[x, y, z].active && ScannedBefore(Index(x, y, z), pos, zBound)
      ==> Covered(boxes, Index(x, y, z))
  }

  /** What the scan knows when it reaches pos. */
  ghost predicate ScanInv(voxels: array3<Voxel>, tested: array3<bool>, boxes: seq<CBox>, pos: Index, zBound: int)
    reads voxels, tested
  {
    SameShape(tested, voxels) && BoxesSoFar(voxels, boxes, pos, zBound)
    && TestedAt(tested, boxes, pos, zBound) && PassedCovered(voxels, boxes, pos, zBound)
  }

  /** What the scan knows while it grows box b from the cell pos = b.start: a cell is
      tested exactly when the scan has passed it before pos or a box, b included, holds
      it; b fits the grid, holds only active cells and shares none with an earlier box. */
  ghost predicate GrowInv(voxels: array3<Voxel>, tested: array3<bool>, boxes: seq<CBox>, b: CBox, zBound: int)
    reads voxels, tested
  {
    var pos := b.start;
    SameShape(tested, voxels) && BoxesSoFar(voxels, boxes, pos, zBound)
    && 0 <= pos.z < zBound && Fits(voxels, b) && AllActive(voxels, b) && Unclaimed(boxes, b)
    && TestedGrowing(tested, boxes, b, zBound) && PassedCovered(voxels, boxes, pos, zBound)
  }

  /** No earlier box holds a cell of b. */
  ghost predicate Unclaimed(boxes: seq<CBox>, b: CBox)
  {
    forall c :: InBox(b, c) ==> !Covered(boxes, c)
  }

  /** While b grows, a cell is tested exactly when the scan has passed it before b's
      start or a box, b included, holds it. */
  ghost predicate TestedGrowing(tested: array3<bool>, boxes: seq<CBox>, b: CBox, zBound: int)
    reads tested
  {
    forall x, y, z :: InGrid(tested, x, y, z) ==>
      (tested[x, y, z] <==> ScannedBefore(Index(x, y, z), b.start, zBound) || Covered(boxes, Index(x, y, z))
                            || InBox(b, Index(x, y, z)))
  }

  /** The number of grid cells still available to the box along the three axes. */
  function Room(voxels: array3<Voxel>, b: CBox): int
  {
    (voxels.Length0 - b.start.x - b.size.x) + (voxels.Length1 - b.start.y - b.size.y)
    + (voxels.Length2 - b.start.z - b.size.z)
  }

  /** One call of TrySpreadA inside the growth loop, with the growth invariant carried
      across it: on success the box grows into the slab, on failure the flag drops. */
  method SpreadBox(axis: Axis, canSpread: bool, tested: array3<bool>, boxStart: Index, boxSize: Index,
                   voxels: array3<Voxel>, ghost boxes: seq<CBox>, ghost zBound: int)
    returns (spread: bool, newSize: Index)
    requires GrowInv(voxels, tested, boxes, CBox(boxStart, boxSize), zBound)
    modifies tested
    ensures GrowInv(voxels, tested, boxes, CBox(boxStart, newSize), zBound)
    ensures spread == (canSpread && old(SlabFree(tested, voxels, CBox(boxStart, boxSize), axis)))
    ensures newSize == if spread then Grow(boxSize, axis) else boxSize
    ensures forall a :: !old(SlabFree(tested, voxels, CBox(boxStart, boxSize), a)) && (a != axis || !spread)
              ==> !SlabFree(tested, voxels, CBox(boxStart, newSize), a)
    ensures Room(voxels, CBox(boxStart, newSize)) <= Room(voxels, CBox(boxStart, boxSize))
  {
    ghost var b := CBox(boxStart, boxSize);
    ghost var b' := CBox(boxStart, Grow(boxSize, axis));
    if canSpread && SlabFree(tested, voxels, b, axis) {
      GrowFree(voxels, tested, boxes, b, axis, zBound);
    }
    spread, newSize := TrySpread(axis, canSpread, tested, boxStart, boxSize, voxels);
    if spread {
      forall c ensures InBox(b', c) <==> InBox(b, c) || InSlab(b, axis, c) {
        GrowAddsSlab(b, axis, c);
      }
    }
  }

  /** Growing b into a free slab keeps it inside the grid, all active and unclaimed. */
  lemma GrowFree(voxels: array3<Voxel>, tested: array3<bool>, boxes: seq<CBox>, b: CBox, axis: Axis, zBound: int)
    requires GrowInv(voxels, tested, boxes, b, zBound) && SlabFree(tested, voxels, b, axis)
    ensures Fits(voxels, CBox(b.start, Grow(b.size, axis))) && AllActive(voxels, CBox(b.start, Grow(b.size, axis)))
    ensures Unclaimed(boxes, CBox(b.start, Grow(b.size, axis)))
  {
    var ou, iv := OuterAxis(axis), InnerAxis(axis);
    var w := Cell(axis, Coord(b.start, axis) + Coord(b.size, axis), Coord(b.start, ou), Coord(b.start, iv));
    CellCoords(axis, Coord(b.start, axis) + Coord(b.size, axis), Coord(b.start, ou), Coord(b.start, iv), w);
    assert InSlab(b, axis, w);
    forall c ensures InBox(CBox(b.start, Grow(b.size, axis)), c) <==> InBox(b, c) || InSlab(b, axis, c) {
      GrowAddsSlab(b, axis, c);
    }
  }

  /** The body of the scan at cell (x, y, z): an untested cell is marked tested; if it
      is active, a 1 x 1 x 1 box starts there and grows along x, y and z in turn, round
      after round, until no axis can grow; the box is then appended. */
  method VisitCell(voxels: array3<Voxel>, tested: array3<bool>, boxes: seq<CBox>, x: int, y: int, z: int,
                   ghost zBound: int) returns (boxes': seq<CBox>)
    requires ScanInv(voxels, tested, boxes, Index(x, y, z), zBound)
    requires InGrid(voxels, x, y, z) && z < zBound
    requires Maximal(voxels, boxes)
    modifies tested
    ensures ScanInv(voxels, tested, boxes', Index(x, y, z + 1), zBound)
    ensures Maximal(voxels, boxes')
    ensures boxes' == boxes || (|boxes'| == |boxes| + 1 && boxes'[..|boxes|] == boxes && boxes'[|boxes|].start == Index(x, y, z))
  {
    boxes' := boxes;
    if !tested[x, y, z] {
      boxes' := VisitUntested(voxels, tested, boxes, x, y, z, zBound);
    } else {
      PassTested(voxels, tested, boxes, Index(x, y, z), zBound);
    }
  }

  /** VisitCell at a cell not yet tested. */
  method VisitUntested(voxels: array3<Voxel>, tested: array3<bool>, boxes: seq<CBox>, x: int, y: int, z: int,
                       ghost zBound: int) returns (boxes': seq<CBox>)
    requires ScanInv(voxels, tested, boxes, Index(x, y, z), zBound)
    requires InGrid(voxels, x, y, z) && z < zBound && !tested[x, y, z]
    requires Maximal(voxels, boxes)
    modifies tested
    ensures ScanInv(voxels, tested, boxes', Index(x, y, z + 1), zBound)
    ensures Maximal(voxels, boxes')
    ensures boxes' == boxes || (|boxes'| == |boxes| + 1 && boxes'[..|boxes|] == boxes && boxes'[|boxes|].start == Index(x, y, z))
  {
    boxes' := boxes;
    ghost var pos := Index(x, y, z);
    ScannedBeforeNext(pos, zBound);
    assert !Covered(boxes, pos);
    tested[x, y, z] := true;
    assert TestedAt(tested, boxes, Index(x, y, z + 1), zBound);
    if voxels[x, y, z].active {
      OpenBox(voxels, tested, boxes, pos, zBound);
      var boxStart := Index(x, y, z);
      var boxSize := GrowBox(voxels, tested, boxes, boxStart, zBound);
      boxes' := boxes + [CBox(boxStart, boxSize)];
    } else {
      PassInactive(voxels, boxes, pos, zBound);
      BoxesSoFarNext(voxels, boxes, pos, zBound);
    }
  }

  /** Marking an active cell no box holds tested starts a 1 x 1 x 1 box there. */
  lemma OpenBox(voxels: array3<Voxel>, tested: array3<bool>, boxes: seq<CBox>, pos: Index, zBound: int)
    requires SameShape(tested, voxels) && BoxesSoFar(voxels, boxes, pos, zBound)
    requires TestedAt(tested, boxes, Index(pos.x, pos.y, pos.z + 1), zBound) && PassedCovered(voxels, boxes, pos, zBound)
    requires InGrid(voxels, pos.x, pos.y, pos.z) && voxels[pos.x, pos.y, pos.z].active && pos.z < zBound
    requires !Covered(boxes, pos)
    ensures GrowInv(voxels, tested, boxes, CBox(pos, Index(1, 1, 1)), zBound)
  {
    ScannedBeforeNext(pos, zBound);
    assert forall c :: InBox(CBox(pos, Index(1, 1, 1)), c) <==> c == pos;
  }

  /** The boxes' facts at pos hold at the next cell too. */
  lemma BoxesSoFarNext(voxels: array3<Voxel>, boxes: seq<CBox>, pos: Index, zBound: int)
    requires BoxesSoFar(voxels, boxes, pos, zBound) && 0 <= pos.z < zBound
    ensures BoxesSoFar(voxels, boxes, Index(pos.x, pos.y, pos.z + 1), zBound)
  {
  }

  /** Passing an inactive cell keeps every passed active cell covered. */
  lemma PassInactive(voxels: array3<Voxel>, boxes: seq<CBox>, pos: Index, zBound: int)
    requires PassedCovered(voxels, boxes, pos, zBound) && 0 <= pos.z < zBound
    requires InGrid(voxels, pos.x, pos.y, pos.z) && !voxels[pos.x, pos.y, pos.z].active
    ensures PassedCovered(voxels, boxes, Index(pos.x, pos.y, pos.z + 1), zBound)
  {
    ScannedBeforeNext(pos, zBound);
  }

  /** A tested cell the scan reaches is already in a box, so the scan passes it with
      nothing to do. */
  lemma PassTested(voxels: array3<Voxel>, tested: array3<bool>, boxes: seq<CBox>, pos: Index, zBound: int)
    requires ScanInv(voxels, tested, boxes, pos, zBound) && 0 <= pos.z < zBound
    requires InGrid(tested, pos.x, pos.y, pos.z) && tested[pos.x, pos.y, pos.z]
    ensures ScanInv(voxels, tested, boxes, Index(pos.x, pos.y, pos.z + 1), zBound)
  {
    ScannedBeforeNext(pos, zBound);
    BoxesSoFarNext(voxels, boxes, pos, zBound);
    assert Covered(boxes, pos);
  }

  /** Passing pos adds pos, and nothing else, to the cells the scan has passed. */
  lemma ScannedBeforeNext(pos: Index, zBound: int)
    requires 0 <= pos.z < zBound
    ensures forall c :: ScannedBefore(c, Index(pos.x, pos.y, pos.z + 1), zBound) <==> ScannedBefore(c, pos, zBound) || c == pos
  {
  }

  /** Appending the grown box turns the growth invariant into the scan invariant at the
      next cell. */
  lemma CloseBox(voxels: array3<Voxel>, tested: array3<bool>, boxes: seq<CBox>, b: CBox, zBound: int)
    requires GrowInv(voxels, tested, boxes, b, zBound)
    ensures ScanInv(voxels, tested, boxes + [b], Index(b.start.x, b.start.y, b.start.z + 1), zBound)
  {
    AppendBox(voxels, boxes, b, zBound);
    CloseTested(tested, boxes, b, zBound);
    ClosePassed(voxels, boxes, b, zBound);
  }

  /** Once b is appended, the tested cells are those passed before the next cell or
      held by a box. */
  lemma CloseTested(tested: array3<bool>, boxes: seq<CBox>, b: CBox, zBound: int)
    requires TestedGrowing(tested, boxes, b, zBound) && 0 <= b.start.z < zBound && InBox(b, b.start)
    ensures TestedAt(tested, boxes + [b], Index(b.start.x, b.start.y, b.start.z + 1), zBound)
  {
    ScannedBeforeNext(b.start, zBound);
    CoveredAppend(boxes, b);
  }

  /** Once b, which holds its start, is appended, every active cell passed before the
      next cell is covered. */
  lemma ClosePassed(voxels: array3<Voxel>, boxes: seq<CBox>, b: CBox, zBound: int)
    requires PassedCovered(voxels, boxes, b.start, zBound) && 0 <= b.start.z < zBound && InBox(b, b.start)
    ensures PassedCovered(voxels, boxes + [b], Index(b.start.x, b.start.y, b.start.z + 1), zBound)
  {
    ScannedBeforeNext(b.start, zBound);
    CoveredAppend(boxes, b);
  }

  /** A cell is covered by the extended list exactly when the old list or the new box
      holds it. */
  lemma CoveredAppend(boxes: seq<CBox>, b: CBox)
    ensures forall c :: Covered(boxes + [b], c) <==> Covered(boxes, c) || InBox(b, c)
  {
    var boxes' := boxes + [b];
    forall c ensures Covered(boxes', c) <==> Covered(boxes, c) || InBox(b, c) {
      if Covered(boxes, c) {
        var i :| 0 <= i < |boxes| && InBox(boxes[i], c);
        assert boxes'[i] == boxes[i];
      }
      if InBox(b, c) {
        assert boxes'[|boxes|] == b;
      }
      if Covered(boxes', c) {
        var i :| 0 <= i < |boxes'| && InBox(boxes'[i], c);
        if i < |boxes| {
          assert boxes'[i] == boxes[i];
        }
      }
    }
  }

  /** Appending a grown box, which starts at the cell the scan has reached, keeps the
      boxes' facts, now for the next cell. */
  lemma AppendBox(voxels: array3<Voxel>, boxes: seq<CBox>, b: CBox, zBound: int)
    requires BoxesSoFar(voxels, boxes, b.start, zBound) && 0 <= b.start.z < zBound
    requires Fits(voxels, b) && AllActive(voxels, b) && Unclaimed(boxes, b)
    requires PassedCovered(voxels, boxes, b.start, zBound)
    ensures BoxesSoFar(voxels, boxes + [b], Index(b.start.x, b.start.y, b.start.z + 1), zBound)
  {
    ScannedBeforeNext(b.start, zBound);
    var boxes' := boxes + [b];
    assert forall i :: 0 <= i < |boxes| ==> boxes'[i] == boxes[i];
    assert boxes'[|boxes|] == b;
    forall i, j, c | 0 <= i < j < |boxes'| && InBox(boxes'[i], c)
      ensures !InBox(boxes'[j], c)
    {
      if j == |boxes| {
        assert Covered(boxes, c);
      }
    }
    GreedyAppend(voxels, boxes, b, zBound);
  }

  /** A box whose start has every earlier active cell covered by the boxes before it
      keeps the list greedy. */
  lemma GreedyAppend(voxels: array3<Voxel>, boxes: seq<CBox>, b: CBox, zBound: int)
    requires GreedyStarts(voxels, boxes, zBound)
    requires PassedCovered(voxels, boxes, b.start, zBound)
    ensures GreedyStarts(voxels, boxes + [b], zBound)
  {
    var boxes' := boxes + [b];
    assert boxes'[..|boxes|] == boxes;
    assert forall i :: 0 <= i < |boxes| ==> boxes'[..i] == boxes[..i] && boxes'[i] == boxes[i];
  }

  /** The growth loop of the scan: starting from a 1 x 1 x 1 box at boxStart, tries x,
      then y, then z, round after round, until every axis has failed once. The box it
      closes cannot grow along any axis. */
  method GrowBox(voxels: array3<Voxel>, tested: array3<bool>, ghost boxes: seq<CBox>, boxStart: Index,
                 ghost zBound: int) returns (boxSize: Index)
    requires GrowInv(voxels, tested, boxes, CBox(boxStart, Index(1, 1, 1)), zBound)
    requires Maximal(voxels, boxes)
    modifies tested
    ensures ScanInv(voxels, tested, boxes + [CBox(boxStart, boxSize)], Index(boxStart.x, boxStart.y, boxStart.z + 1), zBound)
    ensures forall a :: !SlabFree(tested, voxels, CBox(boxStart, boxSize), a)
    ensures Maximal(voxels, boxes + [CBox(boxStart, boxSize)])
  {
    boxSize := Index(1, 1, 1);
    var canSpreadX, canSpreadY, canSpreadZ := true, true, true;
    while canSpreadX || canSpreadY || canSpreadZ
      invariant GrowInv(voxels, tested, boxes, CBox(boxStart, boxSize), zBound)
      invariant FlagsBlocked(tested, voxels, CBox(boxStart, boxSize), canSpreadX, canSpreadY, canSpreadZ)
      decreases Flags(canSpreadX, canSpreadY, canSpreadZ) + Room(voxels, CBox(boxStart, boxSize))
    {
      canSpreadX, canSpreadY, canSpreadZ, boxSize :=
        GrowRound(voxels, tested, boxes, boxStart, boxSize, canSpreadX, canSpreadY, canSpreadZ, zBound);
    }
    MaximalAppend(voxels, tested, boxes, CBox(boxStart, boxSize), zBound);
    CloseBox(voxels, tested, boxes, CBox(boxStart, boxSize), zBound);
  }

  /** The number of axes still marked as able to grow. */
  function Flags(canSpreadX: bool, canSpreadY: bool, canSpreadZ: bool): int
  {
    (if canSpreadX then 1 else 0) + (if canSpreadY then 1 else 0) + (if canSpreadZ then 1 else 0)
  }

  /** An axis whose flag has dropped cannot grow: its slab fails the test. */
  ghost predicate FlagsBlocked(tested: array3<bool>, voxels: array3<Voxel>, b: CBox,
                               canSpreadX: bool, canSpreadY: bool, canSpreadZ: bool)
    reads tested, voxels
  {
    (!canSpreadX ==> !SlabFree(tested, voxels, b, X))
    && (!canSpreadY ==> !SlabFree(tested, voxels, b, Y))
    && (!canSpreadZ ==> !SlabFree(tested, voxels, b, Z))
  }

  /** One round of the growth loop: TrySpreadX, then TrySpreadY, then TrySpreadZ. A
      flag drops only when its slab fails the test, a dropped flag's slab stays
      blocked, and the round either grows the box or drops a flag. */
  method GrowRound(voxels: array3<Voxel>, tested: array3<bool>, ghost boxes: seq<CBox>, boxStart: Index,
                   boxSize: Index, canSpreadX: bool, canSpreadY: bool, canSpreadZ: bool, ghost zBound: int)
    returns (canX: bool, canY: bool, canZ: bool, newSize: Index)
    requires GrowInv(voxels, tested, boxes, CBox(boxStart, boxSize), zBound)
    requires FlagsBlocked(tested, voxels, CBox(boxStart, boxSize), canSpreadX, canSpreadY, canSpreadZ)
    modifies tested
    ensures GrowInv(voxels, tested, boxes, CBox(boxStart, newSize), zBound)
    ensures FlagsBlocked(tested, voxels, CBox(boxStart, newSize), canX, canY, canZ)
    ensures canSpreadX || canSpreadY || canSpreadZ ==>
              Flags(canX, canY, canZ) + Room(voxels, CBox(boxStart, newSize))
              < Flags(canSpreadX, canSpreadY, canSpreadZ) + Room(voxels, CBox(boxStart, boxSize))
  {
    newSize := boxSize;
    canX, newSize := SpreadBox(X, canSpreadX, tested, boxStart, newSize, voxels, boxes, zBound);
    canY, newSize := SpreadBox(Y, canSpreadY, tested, boxStart, newSize, voxels, boxes, zBound);
    canZ, newSize := SpreadBox(Z, canSpreadZ, tested, boxStart, newSize, voxels, boxes, zBound);
  }

  /** Every cell of the slab along the axis lies inside the grid, is active and is held
      by none of the earlier boxes: the box could take it. */
  ghost predicate SlabOpen(voxels: array3<Voxel>, earlier: seq<CBox>, b: CBox, axis: Axis)
    reads voxels
  {
    forall c :: InSlab(b, axis, c) ==> InGrid(voxels, c.x, c.y, c.z) && voxels[c.x, c.y, c.z].active && !Covered(earlier, c)
  }

  /** No box could have grown along any axis when it was closed: each slab beyond it
      holds a cell outside the grid, an inactive cell or a cell of an earlier box. */
  ghost predicate Maximal(voxels: array3<Voxel>, boxes: seq<CBox>)
    reads voxels
  {
    forall i, axis :: 0 <= i < |boxes| ==> !SlabOpen(voxels, boxes[..i], boxes[i], axis)
  }

  /** A box that no axis can grow into stays maximal once appended: a blocked slab cell
      is outside the grid, inactive, or tested, and a tested cell outside the box was
      either passed by the scan, so an active one is in an earlier box, or already is. */
  lemma MaximalAppend(voxels: array3<Voxel>, tested: array3<bool>, boxes: seq<CBox>, b: CBox, zBound: int)
    requires GrowInv(voxels, tested, boxes, b, zBound) && Maximal(voxels, boxes)
    requires forall a :: !SlabFree(tested, voxels, b, a)
    ensures Maximal(voxels, boxes + [b])
  {
    forall a ensures !SlabOpen(voxels, boxes, b, a) {
      BlockedSlabClosed(voxels, tested, boxes, b, a, zBound);
    }
    var boxes' := boxes + [b];
    assert boxes'[..|boxes|] == boxes && boxes'[|boxes|] == b;
    assert forall i :: 0 <= i < |boxes| ==> boxes'[..i] == boxes[..i] && boxes'[i] == boxes[i];
  }

  /** A slab that fails the test while b grows is not open to b. */
  lemma BlockedSlabClosed(voxels: array3<Voxel>, tested: array3<bool>, boxes: seq<CBox>, b: CBox, axis: Axis, zBound: int)
    requires SameShape(tested, voxels) && TestedGrowing(tested, boxes, b, zBound)
    requires PassedCovered(voxels, boxes, b.start, zBound)
    requires !SlabFree(tested, voxels, b, axis)
    ensures !SlabOpen(voxels, boxes, b, axis)
  {
    var c :| InSlab(b, axis, c) && !Free(tested, voxels, c);
    assert !InBox(b, c);
    if InGrid(voxels, c.x, c.y, c.z) && voxels[c.x, c.y, c.z].active {
      assert Covered(boxes, c);
    }
  }

  /** The scan of the box merger, with the bound of its z loop as a parameter: x from 0
      below Length0, y from 0 below Length1, z from 0 below zBound. The z loop indexes
      the grid, so a bound beyond Length2 is only safe when the y loop never runs. The
      boxes are sound and pairwise disjoint, start below the z bound in scan order, and
      cover every active cell below the z bound. */
  method ScanGrid(voxels: array3<Voxel>, zBound: int) returns (boxes: seq<CBox>)
    requires 0 <= zBound && (voxels.Length1 == 0 || zBound <= voxels.Length2)
    ensures Sound(voxels, boxes) && Disjoint(boxes) && StartsInScanOrder(boxes) && GreedyStarts(voxels, boxes, zBound)
    ensures Maximal(voxels, boxes)
    ensures forall i :: 0 <= i < |boxes| ==> boxes[i].start.z < zBound
    ensures forall x, y, z :: InGrid(voxels, x, y, z) && z < zBound && voxels[x, y, z].active
              ==> Covered(boxes, Index(x, y, z))
  {
    boxes := [];
    var tested := new bool[voxels.Length0, voxels.Length1, voxels.Length2]((_, _, _) => false);
    for x := 0 to tested.Length0
      invariant ScanInv(voxels, tested, boxes, Index(x, 0, 0), zBound)
      invariant Maximal(voxels, boxes)
    {
      boxes := ScanSlice(voxels, tested, boxes, x, zBound);
    }
    FinishScan(voxels, tested, boxes, zBound);
  }

  /** The y loop of the scan over slice x. */
  method ScanSlice(voxels: array3<Voxel>, tested: array3<bool>, boxes: seq<CBox>, x: int, zBound: int)
    returns (boxes': seq<CBox>)
    requires ScanInv(voxels, tested, boxes, Index(x, 0, 0), zBound) && 0 <= x < tested.Length0
    requires 0 <= zBound && (voxels.Length1 == 0 || zBound <= voxels.Length2)
    requires Maximal(voxels, boxes)
    modifies tested
    ensures ScanInv(voxels, tested, boxes', Index(x + 1, 0, 0), zBound)
    ensures Maximal(voxels, boxes')
  {
    boxes' := boxes;
    for y := 0 to tested.Length1
      invariant ScanInv(voxels, tested, boxes', Index(x, y, 0), zBound)
      invariant Maximal(voxels, boxes')
    {
      boxes' := ScanRow(voxels, tested, boxes', x, y, zBound);
    }
    NextSlice(voxels, tested, boxes', x, zBound);
  }

  /** The z loop of the scan over row (x, y). */
  method ScanRow(voxels: array3<Voxel>, tested: array3<bool>, boxes: seq<CBox>, x: int, y: int, zBound: int)
    returns (boxes': seq<CBox>)
    requires ScanInv(voxels, tested, boxes, Index(x, y, 0), zBound)
    requires 0 <= x < tested.Length0 && 0 <= y < tested.Length1 && 0 <= zBound <= tested.Length2
    requires Maximal(voxels, boxes)
    modifies tested
    ensures ScanInv(voxels, tested, boxes', Index(x, y + 1, 0), zBound)
    ensures Maximal(voxels, boxes')
  {
    boxes' := boxes;
    for z := 0 to zBound
      invariant ScanInv(voxels, tested, boxes', Index(x, y, z), zBound)
      invariant Maximal(voxels, boxes')
    {
      boxes' := VisitCell(voxels, tested, boxes', x, y, z, zBound);
    }
    NextRow(voxels, tested, boxes', x, y, zBound);
  }

  /** Finishing the z loop of row (x, y) is starting row (x, y + 1). */
  lemma NextRow(voxels: array3<Voxel>, tested: array3<bool>, boxes: seq<CBox>, x: int, y: int, zBound: int)
    requires ScanInv(voxels, tested, boxes, Index(x, y, zBound), zBound)
    ensures ScanInv(voxels, tested, boxes, Index(x, y + 1, 0), zBound)
  {
    assert forall c :: ScannedBefore(c, Index(x, y, zBound), zBound) <==> ScannedBefore(c, Index(x, y + 1, 0), zBound);
  }

  /** Finishing the y loop of slice x is starting slice x + 1. */
  lemma NextSlice(voxels: array3<Voxel>, tested: array3<bool>, boxes: seq<CBox>, x: int, zBound: int)
    requires ScanInv(voxels, tested, boxes, Index(x, voxels.Length1, 0), zBound)
    ensures ScanInv(voxels, tested, boxes, Index(x + 1, 0, 0), zBound)
  {
    assert forall c: Index :: 0 <= c.y < voxels.Length1 ==>
      (ScannedBefore(c, Index(x, voxels.Length1, 0), zBound) <==> ScannedBefore(c, Index(x + 1, 0, 0), zBound));
  }

  /** After the last slice every cell below the z bound has been passed. */
  lemma FinishScan(voxels: array3<Voxel>, tested: array3<bool>, boxes: seq<CBox>, zBound: int)
    requires ScanInv(voxels, tested, boxes, Index(voxels.Length0, 0, 0), zBound)
    ensures forall i :: 0 <= i < |boxes| ==> boxes[i].start.z < zBound
    ensures forall x, y, z :: InGrid(voxels, x, y, z) && z < zBound && voxels[x, y, z].active
              ==> Covered(boxes, Index(x, y, z))
  {
    assert forall x, y, z :: InGrid(voxels, x, y, z) && z < zBound ==> ScannedBefore(Index(x, y, z), Index(voxels.Length0, 0, 0), zBound);
  }

  // ---------------------------------------------------------------------------
  // The entry point

  /** The boxes partition the active cells of the grid: they are sound and pairwise
      disjoint, and every active cell lies in one of them. */
  ghost predicate Partition(voxels: array3<Voxel>, boxes: seq<CBox>)
    reads voxels
  {
    Sound(voxels, boxes) && Disjoint(boxes)
    && forall x, y, z :: InGrid(voxels, x, y, z) && voxels[x, y, z].active ==> Covered(boxes, Index(x, y, z))
  }

  /** Under a partition a cell is covered exactly when it is an active cell of the grid,
      and then by exactly one box. */
  lemma PartitionCoversExactly(voxels: array3<Voxel>, boxes: seq<CBox>, c: Index)
    requires Partition(voxels, boxes)
    ensures Covered(boxes, c) <==> InGrid(voxels, c.x, c.y, c.z) && voxels[c.x, c.y, c.z].active
    ensures forall i, j :: 0 <= i < |boxes| && 0 <= j < |boxes| && InBox(boxes[i], c) && InBox(boxes[j], c) ==> i == j
  {
    if Covered(boxes, c) {
      var i :| 0 <= i < |boxes| && InBox(boxes[i], c);
      assert AllActive(voxels, boxes[i]);
    }
  }

  /** Sound boxes hold at least their start cell, which is active: a grid without an
      active cell gets no box. */
  lemma NoActiveCellNoBoxes(voxels: array3<Voxel>, boxes: seq<CBox>)
    requires Sound(voxels, boxes)
    requires forall x, y, z :: InGrid(voxels, x, y, z) ==> !voxels[x, y, z].active
    ensures boxes == []
  {
    if boxes != [] {
      assert InBox(boxes[0], boxes[0].start);
    }
  }

  /** GenerateCollisionBoxes as written: its z loop runs up to the grid's x extent
      (Length0) rather than its z extent. The loop indexes the grid, so the grid must
      be at least as deep as it is wide whenever it has a row at all; otherwise the
      call fails with an index error. The boxes are sound, disjoint, greedy and in scan
      order; they cover every active cell below depth Length0, and they partition the
      active cells when the grid is as deep as it is wide. Active cells at depth
      Length0 or more are never box starts. The dimensions argument is unused. */
  method GenerateCollisionBoxes(voxels: array3<Voxel>, dimensions: Index) returns (boxes: seq<CBox>)
    requires voxels.Length1 == 0 || voxels.Length0 <= voxels.Length2
    ensures Sound(voxels, boxes) && Disjoint(boxes) && StartsInScanOrder(boxes)
    ensures GreedyStarts(voxels, boxes, voxels.Length0) && Maximal(voxels, boxes)
    ensures forall i :: 0 <= i < |boxes| ==> boxes[i].start.z < voxels.Length0
    ensures forall x, y, z :: InGrid(voxels, x, y, z) && z < voxels.Length0 && voxels[x, y, z].active
              ==> Covered(boxes, Index(x, y, z))
    ensures voxels.Length0 == voxels.Length2 ==> Partition(voxels, boxes)
  {
    boxes := ScanGrid(voxels, voxels.Length0);
  }

  /** The merger with its z loop bounded by the grid's z extent, as evidently intended:
      on every grid the boxes partition the active cells, are greedy and in scan order. */
  method GenerateCollisionBoxesCorrected(voxels: array3<Voxel>, dimensions: Index) returns (boxes: seq<CBox>)
    ensures Partition(voxels, boxes) && StartsInScanOrder(boxes)
    ensures GreedyStarts(voxels, boxes, voxels.Length2) && Maximal(voxels, boxes)
  {
    boxes := ScanGrid(voxels, voxels.Length2);
  }

  /** On a 2 x 1 x 1 grid of two active voxels, a greedy and maximal partition is the
      single box over both: the first box starts at (0, 0, 0), a 1 x 1 x 1 box there
      could still grow along x, and a second box would share a cell with the first. */
  lemma ActivePairIsOneBox(voxels: array3<Voxel>, boxes: seq<CBox>)
    requires voxels.Length0 == 2 && voxels.Length1 == 1 && voxels.Length2 == 1
    requires voxels[0, 0, 0].active && voxels[1, 0, 0].active
    requires Partition(voxels, boxes) && GreedyStarts(voxels, boxes, 1) && Maximal(voxels, boxes)
    ensures boxes == [CBox(Index(0, 0, 0), Index(2, 1, 1))]
  {
    var o := Index(0, 0, 0);
    assert Covered(boxes, o);
    assert Fits(voxels, boxes[0]) && boxes[..0] == [];
    assert !Covered([], o);
    assert boxes[0].start == o by {
      assert ScannedBefore(o, Index(1, 0, 0), 1);
    }
    var unit := CBox(o, Index(1, 1, 1));
    forall c | InSlab(unit, X, c)
      ensures InGrid(voxels, c.x, c.y, c.z) && voxels[c.x, c.y, c.z].active && !Covered([], c)
    {
      assert c == Index(1, 0, 0);
    }
    assert SlabOpen(voxels, [], unit, X);
    assert !SlabOpen(voxels, boxes[..0], boxes[0], X);
    assert boxes[0].size == Index(2, 1, 1);
    var last := |boxes| - 1;
    assert Fits(voxels, boxes[last]);
    assert InBox(boxes[last], boxes[last].start) && InBox(boxes[0], boxes[last].start);
    assert last == 0;
  }

  /** The corrected merger on two adjacent active voxels yields one 2 x 1 x 1 box. */
  method ActivePairMerges() returns (boxes: seq<CBox>)
    ensures boxes == [CBox(Index(0, 0, 0), Index(2, 1, 1))]
  {
    var white := Rgba(1.0, 1.0, 1.0, 1.0);
    var voxels := new Voxel[2, 1, 1]((_, _, _) => Voxel(white, true));
    assert voxels[0, 0, 0].active && voxels[1, 0, 0].active;
    boxes := GenerateCollisionBoxesCorrected(voxels, Index(2, 1, 1));
    ActivePairIsOneBox(voxels, boxes);
  }

  /** A 1 x 1 x 3 grid whose voxels (0, 0, 0) and (0, 0, 2) are active and (0, 0, 1) is
      not: the merger as written scans z only below 1, so no box starts at (0, 0, 2),
      and no box from (0, 0, 0) can reach it across the inactive cell. That voxel gets
      no collision box, while the corrected merger covers it. */
  method ZBoundMissesCell() returns (written: seq<CBox>, corrected: seq<CBox>)
    ensures !Covered(written, Index(0, 0, 2)) && Covered(corrected, Index(0, 0, 2))
  {
    var white := Rgba(1.0, 1.0, 1.0, 1.0);
    var voxels := new Voxel[1, 1, 3]((_, _, z) => Voxel(white, z != 1));
    assert !voxels[0, 0, 1].active && voxels[0, 0, 2].active;
    written := GenerateCollisionBoxes(voxels, Index(1, 1, 3));
    forall i | 0 <= i < |written|
      ensures !InBox(written[i], Index(0, 0, 2))
    {
      assert InBox(written[i], Index(0, 0, 2)) ==> InBox(written[i], Index(0, 0, 1));
    }
    corrected := GenerateCollisionBoxesCorrected(voxels, Index(1, 1, 3));
  }
}
