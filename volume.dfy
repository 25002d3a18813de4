/** The voxel volume: a dense voxel store of volumeXWidth x volumeYHeight x volumeZDepth
    cells cut into chunks of chunkXWidth x chunkYHeight x chunkZDepth cells. Every
    accepted write marks the chunk holding the written coordinate dirty in a
    duplicate-free register; once per frame the register is drained, each entry handed
    to UpdateChunk in order, which passes a snapshot of that chunk's voxels on to the
    chunk's mesh and collider generation. */
module Volumes {
  import opened VoxelTypes
  import VoxelTools
  import opened VoxelDataManagers

  /** The volume extent and the chunk extent a volume starts with on every axis. */
  const DefaultVolumeSize := 16
  const DefaultChunkSize := 8

  /** C#'s integer division by a positive divisor: it truncates toward zero, so for a
      negative dividend the quotient is the ceiling rather than the floor. */
  function TruncDiv(a: int, b: int): (q: int)
    requires b > 0
    ensures a >= 0 ==> b * q <= a < b * q + b
    ensures a < 0 ==> a <= b * q < a + b
    ensures a >= 0 ==> q >= 0
    ensures a < 0 ==> q <= 0
  {
    if a >= 0 then
      var q := a / b;
      assert a == b * q + a % b && 0 <= a % b < b;
      q
    else
      var m := (-a) / b;
      assert -a == b * m + (-a) % b && 0 <= (-a) % b < b;
      assert b * (-m) == -(b * m);
      -m
  }

  /** Truncation is symmetric about zero, unlike Dafny's Euclidean division. */
  lemma TruncDivOdd(a: int, b: int)
    requires b > 0
    ensures TruncDiv(-a, b) == -TruncDiv(a, b)
  {
    if a == 0 {
    } else if a > 0 {
      assert -a < 0;
    }
  }

  /** Every coordinate strictly between -b and b truncates to 0, so the first column of
      cells on each side of zero falls into chunk 0. */
  lemma TruncDivNearZero(a: int, b: int)
    requires b > 0 && -b < a < b
    ensures TruncDiv(a, b) == 0
  {
  }

  /** The ceiling of a / b for a positive b: the least q with q * b >= a. It is the
      number of chunks per axis, which the source computes as a float ceiling. */
  function CeilDiv(a: int, b: int): (q: int)
    requires b > 0
    ensures q * b >= a && (q - 1) * b < a
  {
    var q := (a + b - 1) / b;
    assert (a + b - 1) == q * b + (a + b - 1) % b;
    q
  }

  /** With no duplicates: each element occurs once. */
  ghost predicate NoDuplicates(s: seq<Index>)
  {
    forall i, j :: 0 <= i < j < |s| ==> s[i] != s[j]
  }

  /** Marking chunk c dirty: appended when the register does not already hold it. */
  function Mark(register: seq<Index>, c: Index): (r: seq<Index>)
    ensures forall d :: d in r <==> d in register || d == c
    ensures register <= r && |r| <= |register| + 1
    ensures NoDuplicates(register) ==> NoDuplicates(r)
  {
    if c in register then register else register + [c]
  }

  /** Marking a chunk a second time changes nothing. */
  lemma MarkIdempotent(register: seq<Index>, c: Index)
    ensures Mark(Mark(register, c), c) == Mark(register, c)
  {
  }

  /** Marking a chunk the register already holds changes nothing, however many times. */
  lemma MarkMarked(register: seq<Index>, c: Index)
    requires c in register
    ensures Mark(register, c) == register
  {
  }

  /** The register after marking the chunks of cs one after another, as a run of
      voxel writes does. It keeps what the register held in place, adds exactly the
      marked chunks, and keeps a duplicate-free register duplicate-free, so each chunk
      is held once however often it was marked. */
  function MarkAll(register: seq<Index>, cs: seq<Index>): (r: seq<Index>)
    ensures register <= r
    ensures forall d :: d in r <==> d in register || d in cs
    ensures NoDuplicates(register) ==> NoDuplicates(r)
    decreases |cs|
  {
    if cs == [] then register
    else
      assert forall d :: d in cs <==> d == cs[0] || d in cs[1..];
      MarkAll(Mark(register, cs[0]), cs[1..])
  }

  /** Marking the same chunk n times adds it at most once. */
  lemma {:induction false} MarkRepeated(register: seq<Index>, c: Index, n: nat)
    ensures MarkAll(register, seq(n, _ => c)) == (if n == 0 then register else Mark(register, c))
    decreases n
  {
    if n > 0 {
      var cs := seq(n, _ => c);
      assert cs[0] == c && cs[1..] == seq(n - 1, _ => c);
      MarkRepeated(Mark(register, c), c, n - 1);
      if n > 1 {
        MarkIdempotent(register, c);
      }
    }
  }

  /** p comes before q when the cells are visited x outermost, then y, then z. */
  predicate Before(p: Index, q: Index)
  {
    p.x < q.x || (p.x == q.x && (p.y < q.y || (p.y == q.y && p.z < q.z)))
  }

  class Volume {
    /** The voxel store; null until the volume is set up. */
    var voxelDataManager: BasicVoxelDataManager?
    /** The chunk grid: true where a chunk node exists, false where the slot is null.
        The grid itself is null until the chunks are created. */
    var chunks: array3?<bool>
    const volumeXWidth: int
    const volumeYHeight: int
    const volumeZDepth: int
    const chunkXWidth: int
    const chunkYHeight: int
    const chunkZDepth: int
    /** The chunks marked dirty since the last drain, in marking order. */
    var dirtyChunkRegister: seq<Index>
    /** Every chunk index handed to UpdateChunk, in order. */
    ghost var requested: seq<Index>
    /** Every chunk index whose voxels UpdateChunk handed on for regeneration, in order. */
    ghost var generated: seq<Index>

    /** The chunk extents are positive (they divide voxel coordinates), the volume
        extents are not negative, the register holds no chunk twice, and a store, once
        present, has one slot per cell of the volume. */
    ghost predicate Valid()
      reads this
    {
      0 < chunkXWidth && 0 < chunkYHeight && 0 < chunkZDepth
      && 0 <= volumeXWidth && 0 <= volumeYHeight && 0 <= volumeZDepth
      && NoDuplicates(dirtyChunkRegister)
      && (voxelDataManager != null ==>
            voxelDataManager.Valid() && voxelDataManager.width == volumeXWidth
            && voxelDataManager.height == volumeYHeight && voxelDataManager.depth == volumeZDepth)
    }

    /** A new volume has no store, no chunk grid and an empty register. */
    constructor (volumeXWidth: int, volumeYHeight: int, volumeZDepth: int,
                 chunkXWidth: int, chunkYHeight: int, chunkZDepth: int)
      requires 0 < chunkXWidth && 0 < chunkYHeight && 0 < chunkZDepth
      requires 0 <= volumeXWidth && 0 <= volumeYHeight && 0 <= volumeZDepth
      ensures Valid()
      ensures voxelDataManager == null && chunks == null && dirtyChunkRegister == []
      ensures this.volumeXWidth == volumeXWidth && this.volumeYHeight == volumeYHeight
      ensures this.volumeZDepth == volumeZDepth && this.chunkXWidth == chunkXWidth
      ensures this.chunkYHeight == chunkYHeight && this.chunkZDepth == chunkZDepth
      ensures requested == [] && generated == []
    {
      this.volumeXWidth := volumeXWidth;
      this.volumeYHeight := volumeYHeight;
      this.volumeZDepth := volumeZDepth;
      this.chunkXWidth := chunkXWidth;
      this.chunkYHeight := chunkYHeight;
      this.chunkZDepth := chunkZDepth;
      voxelDataManager := null;
      chunks := null;
      dirtyChunkRegister := [];
      requested := [];
      generated := [];
    }

    /** The store's backing array, the one object a voxel write changes. */
    ghost function StoreArrays(): set<object>
      reads this
    {
      if voxelDataManager == null then {} else {voxelDataManager.voxels}
    }

    /** The cell lies inside the volume. */
    predicate InVolume(p: Index)
    {
      0 <= p.x < volumeXWidth && 0 <= p.y < volumeYHeight && 0 <= p.z < volumeZDepth
    }

    /** The index of the chunk holding voxel coordinate `index`: each component
        divided, truncating, by the chunk extent. A non-negative component lies in the
        chunk: at or after its start and before the next chunk's start. Truncation
        sends a negative component to a chunk at or below 0 whose start is at or above
        the component. */
    function GetChunkIndexAtVoxelIndex(index: Index): (c: Index)
      requires 0 < chunkXWidth && 0 < chunkYHeight && 0 < chunkZDepth
      ensures 0 <= index.x ==> 0 <= c.x && chunkXWidth * c.x <= index.x < chunkXWidth * c.x + chunkXWidth
      ensures 0 <= index.y ==> 0 <= c.y && chunkYHeight * c.y <= index.y < chunkYHeight * c.y + chunkYHeight
      ensures 0 <= index.z ==> 0 <= c.z && chunkZDepth * c.z <= index.z < chunkZDepth * c.z + chunkZDepth
      ensures index.x < 0 ==> c.x <= 0 && index.x <= chunkXWidth * c.x
      ensures index.y < 0 ==> c.y <= 0 && index.y <= chunkYHeight * c.y
      ensures index.z < 0 ==> c.z <= 0 && index.z <= chunkZDepth * c.z
    {
      Index(TruncDiv(index.x, chunkXWidth), TruncDiv(index.y, chunkYHeight), TruncDiv(index.z, chunkZDepth))
    }

    /** The first voxel coordinate of chunk c. */
    function ChunkStart(c: Index): Index
    {
      Index(c.x * chunkXWidth, c.y * chunkYHeight, c.z * chunkZDepth)
    }

    /** The chunk indices whose chunks hold at least one cell of the volume. */
    predicate InChunkGrid(c: Index)
      requires 0 < chunkXWidth && 0 < chunkYHeight && 0 < chunkZDepth
    {
      0 <= c.x < CeilDiv(volumeXWidth, chunkXWidth)
      && 0 <= c.y < CeilDiv(volumeYHeight, chunkYHeight)
      && 0 <= c.z < CeilDiv(volumeZDepth, chunkZDepth)
    }

    /** The voxel at a coordinate: None without a store, else what the store gives. */
    function GetVoxelAtVoxelPosition(index: Index): (r: Option<Voxel>)
      reads this, StoreArrays()
      ensures voxelDataManager == null || !voxelDataManager.ContainsIndex(index) ==> r == None
      ensures voxelDataManager != null && voxelDataManager.ContainsIndex(index) ==>
                r == voxelDataManager.voxels[voxelDataManager.FlatIndexOf(index)]
    {
      if voxelDataManager == null then None else voxelDataManager.GetVoxel(index)
    }

    /** A voxel write. It fails, changing nothing, when the voxel is null, when there
        is no store or no chunk grid, or when the store rejects the coordinate. On
        success the store slot of the coordinate holds the voxel and the chunk holding
        the coordinate is marked dirty. */
    method SetVoxelAtVoxelIndex(index: Index, voxel: Option<Voxel>) returns (ok: bool)
      requires Valid()
      modifies this`dirtyChunkRegister, StoreArrays()
      ensures Valid()
      ensures ok == (voxel.Some? && voxelDataManager != null && chunks != null
                     && voxelDataManager.ContainsIndex(index))
      ensures ok ==> voxelDataManager.voxels[..]
                     == old(voxelDataManager.voxels[..])[voxelDataManager.FlatIndexOf(index) := voxel]
      ensures ok ==> GetVoxelAtVoxelPosition(index) == voxel
      ensures ok ==> dirtyChunkRegister == Mark(old(dirtyChunkRegister), GetChunkIndexAtVoxelIndex(index))
      ensures !ok ==> dirtyChunkRegister == old(dirtyChunkRegister)
      ensures !ok && voxelDataManager != null ==> voxelDataManager.voxels[..] == old(voxelDataManager.voxels[..])
    {
      if voxel.None? || voxelDataManager == null || chunks == null {
        return false;
      }
      ok := voxelDataManager.SetVoxel(index, voxel);
      if !ok {
        return;
      }
      var i := GetChunkIndexAtVoxelIndex(index);
      if i !in dirtyChunkRegister {
        dirtyChunkRegister := dirtyChunkRegister + [i];
      }
    }

    /** Voxel writes reach the store: there is a store and a chunk grid. */
    predicate Live()
      reads this
    {
      voxelDataManager != null && chunks != null
    }

    /** The flat index of a cell of the volume; it is the store's flat index. */
    function Flat(p: Index): int
    {
      VoxelTools.GetFlatIndexFromXYZ5(volumeXWidth, volumeYHeight, p.x, p.y, p.z)
    }

    /** A voxel coordinate with no negative component lies inside its chunk: between
        the chunk's start and the start of the next chunk on each axis. The chunk of a
        cell of the volume lies in the chunk grid. */
    lemma VoxelInItsChunk(p: Index)
      requires 0 < chunkXWidth && 0 < chunkYHeight && 0 < chunkZDepth
      requires 0 <= p.x && 0 <= p.y && 0 <= p.z
      ensures var s := ChunkStart(GetChunkIndexAtVoxelIndex(p));
              s.x <= p.x < s.x + chunkXWidth && s.y <= p.y < s.y + chunkYHeight && s.z <= p.z < s.z + chunkZDepth
      ensures InVolume(p) ==> InChunkGrid(GetChunkIndexAtVoxelIndex(p))
    {
      var c := GetChunkIndexAtVoxelIndex(p);
      if InVolume(p) {
        ChunkBelowCount(p.x, volumeXWidth, chunkXWidth);
        ChunkBelowCount(p.y, volumeYHeight, chunkYHeight);
        ChunkBelowCount(p.z, volumeZDepth, chunkZDepth);
      }
    }

    /** Every chunk of the chunk grid starts at a cell of the volume, and that cell's
        chunk is the chunk itself. */
    lemma ChunkStartInVolume(c: Index)
      requires 0 < chunkXWidth && 0 < chunkYHeight && 0 < chunkZDepth
      requires InChunkGrid(c)
      ensures InVolume(ChunkStart(c)) && GetChunkIndexAtVoxelIndex(ChunkStart(c)) == c
    {
      StartBelowExtent(c.x, volumeXWidth, chunkXWidth);
      StartBelowExtent(c.y, volumeYHeight, chunkYHeight);
      StartBelowExtent(c.z, volumeZDepth, chunkZDepth);
    }

    /** The slots of the cells visited before pos hold the fill voxel; the others are
        as they were. */
    ghost predicate StoreFilled(store: seq<Option<Voxel>>, before: seq<Option<Voxel>>, pos: Index, val: Voxel)
    {
      |store| == |before|
      && forall p :: InVolume(p) ==>
           0 <= Flat(p) < |store| && store[Flat(p)] == if Before(p, pos) then Some(val) else before[Flat(p)]
    }

    /** The register keeps its earlier entries in place, gains only chunks of the chunk
        grid, and holds the chunk of every cell visited before pos. */
    ghost predicate RegisterFilled(register: seq<Index>, before: seq<Index>, pos: Index)
      requires 0 < chunkXWidth && 0 < chunkYHeight && 0 < chunkZDepth
    {
      before <= register
      && (forall c :: c in register ==> c in before || InChunkGrid(c))
      && (forall p :: InVolume(p) && Before(p, pos) ==> GetChunkIndexAtVoxelIndex(p) in register)
    }

    /** What FillVoxels knows when it reaches pos: with a store and a chunk grid, the
        cells before pos are filled and their chunks marked; otherwise nothing changed. */
    ghost predicate FillInv(pos: Index, before: seq<Option<Voxel>>, beforeRegister: seq<Index>, val: Voxel)
      reads this, StoreArrays()
    {
      Valid()
      && (Live() ==> StoreFilled(voxelDataManager.voxels[..], before, pos, val)
                     && RegisterFilled(dirtyChunkRegister, beforeRegister, pos))
      && (!Live() ==> dirtyChunkRegister == beforeRegister
                      && (voxelDataManager != null ==> voxelDataManager.voxels[..] == before))
    }

    /** Writes a voxel of the given colour and state to every cell of the volume, x
        outermost, then y, then z. With a store and a chunk grid, every cell then holds
        that voxel and the register gains exactly the chunks of the chunk grid not
        already in it; otherwise every write fails and nothing changes. */
    method FillVoxels(color: Color, state: bool)
      requires Valid()
      modifies this`dirtyChunkRegister, StoreArrays()
      ensures Valid()
      ensures Live() ==> forall p :: InVolume(p) ==> GetVoxelAtVoxelPosition(p) == Some(Voxel(color, state))
      ensures Live() ==> old(dirtyChunkRegister) <= dirtyChunkRegister
      ensures Live() ==> forall c :: c in dirtyChunkRegister <==> c in old(dirtyChunkRegister) || InChunkGrid(c)
      ensures !Live() ==> dirtyChunkRegister == old(dirtyChunkRegister)
      ensures !Live() && voxelDataManager != null ==> voxelDataManager.voxels[..] == old(voxelDataManager.voxels[..])
    {
      ghost var before := if voxelDataManager == null then [] else voxelDataManager.voxels[..];
      var val := Voxel(color, state);
      if voxelDataManager != null {
        StoreFilledAtStart(before, val);
      }
      for x := 0 to volumeXWidth
        invariant FillInv(Index(x, 0, 0), before, old(dirtyChunkRegister), val)
      {
        FillSlice(x, val, before, old(dirtyChunkRegister));
      }
      if Live() {
        FinishFill(before, old(dirtyChunkRegister), val);
      }
    }

    /** The y loop of FillVoxels over slice x. */
    method FillSlice(x: int, val: Voxel, ghost before: seq<Option<Voxel>>, ghost beforeRegister: seq<Index>)
      requires FillInv(Index(x, 0, 0), before, beforeRegister, val) && 0 <= x < volumeXWidth
      modifies this`dirtyChunkRegister, StoreArrays()
      ensures FillInv(Index(x + 1, 0, 0), before, beforeRegister, val)
    {
      for y := 0 to volumeYHeight
        invariant FillInv(Index(x, y, 0), before, beforeRegister, val)
      {
        FillRow(x, y, val, before, beforeRegister);
      }
      if Live() {
        assert forall p :: InVolume(p) ==> (Before(p, Index(x, volumeYHeight, 0)) <==> Before(p, Index(x + 1, 0, 0)));
      }
    }

    /** The z loop of FillVoxels over row (x, y). */
    method FillRow(x: int, y: int, val: Voxel, ghost before: seq<Option<Voxel>>, ghost beforeRegister: seq<Index>)
      requires FillInv(Index(x, y, 0), before, beforeRegister, val)
      requires 0 <= x < volumeXWidth && 0 <= y < volumeYHeight
      modifies this`dirtyChunkRegister, StoreArrays()
      ensures FillInv(Index(x, y + 1, 0), before, beforeRegister, val)
    {
      for z := 0 to volumeZDepth
        invariant FillInv(Index(x, y, z), before, beforeRegister, val)
      {
        ghost var store := if voxelDataManager == null then [] else voxelDataManager.voxels[..];
        ghost var register := dirtyChunkRegister;
        if voxelDataManager != null {
          assert voxelDataManager.ContainsIndex(Index(x, y, z));
        }
        var _ := SetVoxelAtVoxelIndex(Index(x, y, z), Some(val));
        if Live() {
          FillStep(store, before, register, beforeRegister, Index(x, y, z), val);
        }
      }
      if Live() {
        assert forall p :: InVolume(p) ==> (Before(p, Index(x, y, volumeZDepth)) <==> Before(p, Index(x, y + 1, 0)));
      }
    }

    /** Writing the fill voxel at pos and marking its chunk moves the fill on by one
        cell along z. */
    lemma FillStep(store: seq<Option<Voxel>>, before: seq<Option<Voxel>>, register: seq<Index>,
                   beforeRegister: seq<Index>, pos: Index, val: Voxel)
      requires 0 < chunkXWidth && 0 < chunkYHeight && 0 < chunkZDepth && InVolume(pos)
      requires StoreFilled(store, before, pos, val) && RegisterFilled(register, beforeRegister, pos)
      ensures var next := Index(pos.x, pos.y, pos.z + 1);
              StoreFilled(store[Flat(pos) := Some(val)], before, next, val)
              && RegisterFilled(Mark(register, GetChunkIndexAtVoxelIndex(pos)), beforeRegister, next)
    {
      var size := Index(volumeXWidth, volumeYHeight, volumeZDepth);
      forall p | InVolume(p) && p != pos
        ensures Flat(p) != Flat(pos)
      {
        if Flat(p) == Flat(pos) {
          VoxelTools.FlatIndexInjective(size, p, pos);
        }
      }
      VoxelInItsChunk(pos);
    }

    /** Before the first write no cell is filled and every cell has its slot. */
    lemma StoreFilledAtStart(store: seq<Option<Voxel>>, val: Voxel)
      requires |store| == volumeXWidth * volumeYHeight * volumeZDepth
      ensures StoreFilled(store, store, Index(0, 0, 0), val)
    {
      forall p | InVolume(p)
        ensures 0 <= Flat(p) < |store|
      {
        VoxelTools.FlatIndexInRange(Index(volumeXWidth, volumeYHeight, volumeZDepth), p);
      }
    }

    /** After the last slice every cell of the volume has been visited, and every chunk
        of the chunk grid has been marked. */
    lemma FinishFill(before: seq<Option<Voxel>>, beforeRegister: seq<Index>, val: Voxel)
      requires FillInv(Index(volumeXWidth, 0, 0), before, beforeRegister, val) && Live()
      ensures forall p :: InVolume(p) ==> GetVoxelAtVoxelPosition(p) == Some(val)
      ensures forall c :: c in dirtyChunkRegister <==> c in beforeRegister || InChunkGrid(c)
    {
      forall p | InVolume(p)
        ensures GetVoxelAtVoxelPosition(p) == Some(val)
      {
        assert voxelDataManager.ContainsIndex(p);
        assert Before(p, Index(volumeXWidth, 0, 0));
      }
      forall c | InChunkGrid(c)
        ensures c in dirtyChunkRegister
      {
        ChunkStartInVolume(c);
        assert Before(ChunkStart(c), Index(volumeXWidth, 0, 0));
      }
    }

    /** A cell one past the x extent is accepted by the store and reads the voxel of cell
        (0, 1, 0), so a chunk snapshot that reaches past the volume's x edge holds that
        voxel there rather than null. */
    lemma EdgeCellReadsAliasedVoxel()
      requires Valid() && voxelDataManager != null
      requires 0 < volumeXWidth && 1 < volumeYHeight && 0 < volumeZDepth
      ensures voxelDataManager.ContainsIndex(Index(volumeXWidth, 0, 0))
      ensures GetVoxelAtVoxelPosition(Index(volumeXWidth, 0, 0)) == GetVoxelAtVoxelPosition(Index(0, 1, 0))
    {
      OutOfVolumeAliases(voxelDataManager);
    }

    /** A write the store accepts at a coordinate outside the volume lands in the slot
        of another cell, while the chunk marked dirty is computed from the coordinate
        itself: (-1, 1, 0) is the slot of cell (volumeXWidth - 1, 0, 0), yet the chunk
        it marks lies at x <= 0, while that cell's chunk lies at x >= 1. */
    lemma AliasedWriteMarksOtherChunk()
      requires Valid() && voxelDataManager != null
      requires chunkXWidth < volumeXWidth && 1 < volumeYHeight && 0 < volumeZDepth
      ensures voxelDataManager.ContainsIndex(Index(-1, 1, 0))
      ensures voxelDataManager.FlatIndexOf(Index(-1, 1, 0))
              == voxelDataManager.FlatIndexOf(Index(volumeXWidth - 1, 0, 0))
      ensures GetChunkIndexAtVoxelIndex(Index(-1, 1, 0)).x <= 0
      ensures GetChunkIndexAtVoxelIndex(Index(volumeXWidth - 1, 0, 0)).x >= 1
    {
      assert voxelDataManager.ContainsIndex(Index(volumeXWidth - 1, 0, 0));
      assert TruncDiv(volumeXWidth - 1, chunkXWidth) >= 1 by {
        var q := TruncDiv(volumeXWidth - 1, chunkXWidth);
        assert chunkXWidth * q + chunkXWidth > chunkXWidth;
        assert chunkXWidth * q > 0;
      }
    }

    /** The chunk-grid allocation: CeilDiv(volume, chunk) slots per axis, all null. */
    method AllocateChunks()
      requires Valid()
      modifies this`chunks
      ensures chunks != null && fresh(chunks)
      ensures chunks.Length0 == CeilDiv(volumeXWidth, chunkXWidth)
      ensures chunks.Length1 == CeilDiv(volumeYHeight, chunkYHeight)
      ensures chunks.Length2 == CeilDiv(volumeZDepth, chunkZDepth)
      ensures forall x, y, z :: InGrid(chunks, x, y, z) ==> !chunks[x, y, z]
    {
      chunks := new bool[CeilDiv(volumeXWidth, chunkXWidth), CeilDiv(volumeYHeight, chunkYHeight),
                         CeilDiv(volumeZDepth, chunkZDepth)]((_, _, _) => false);
    }

    /** The as-written chunk creation never fails: its z loop, bounded by the chunk
        count along x, stays inside the grid, or the y loop never runs. */
    predicate CreateChunksSafe()
      requires 0 < chunkXWidth && 0 < chunkYHeight && 0 < chunkZDepth
    {
      CeilDiv(volumeXWidth, chunkXWidth) == 0 || CeilDiv(volumeYHeight, chunkYHeight) == 0
      || CeilDiv(volumeXWidth, chunkXWidth) <= CeilDiv(volumeZDepth, chunkZDepth)
    }

    /** CreateChunks as written (the destroy pass aside): it allocates the chunk grid and
        creates a chunk at every index whose z lies below the chunk count along x
        (Length0), not along z. A grid with fewer chunks along z than along x makes the
        loop index past the grid; one with more keeps its slots at z >= Length0 null. */
    method CreateChunks()
      requires Valid() && CreateChunksSafe()
      modifies this`chunks
      ensures Valid() && chunks != null && fresh(chunks)
      ensures chunks.Length0 == CeilDiv(volumeXWidth, chunkXWidth)
      ensures chunks.Length1 == CeilDiv(volumeYHeight, chunkYHeight)
      ensures chunks.Length2 == CeilDiv(volumeZDepth, chunkZDepth)
      ensures forall x, y, z :: InGrid(chunks, x, y, z) ==> (chunks[x, y, z] <==> z < chunks.Length0)
    {
      AllocateChunks();
      CreateChunkLayers(chunks, chunks.Length0);
    }

    /** The chunk creation with its z loop bounded by the chunk count along z, as
        evidently intended: every slot of the chunk grid gets a chunk. */
    method CreateChunksCorrected()
      requires Valid()
      modifies this`chunks
      ensures Valid() && chunks != null && fresh(chunks)
      ensures chunks.Length0 == CeilDiv(volumeXWidth, chunkXWidth)
      ensures chunks.Length1 == CeilDiv(volumeYHeight, chunkYHeight)
      ensures chunks.Length2 == CeilDiv(volumeZDepth, chunkZDepth)
      ensures forall x, y, z :: InGrid(chunks, x, y, z) ==> chunks[x, y, z]
    {
      AllocateChunks();
      CreateChunkLayers(chunks, chunks.Length2);
    }

    /** Once every slot of a CeilDiv-sized chunk grid holds a chunk and a store is
        present, the chunk of every cell of the volume passes UpdateChunk's checks. */
    lemma CompleteChunkGridRegeneratesAll(p: Index)
      requires Valid() && Live() && InVolume(p)
      requires chunks.Length0 == CeilDiv(volumeXWidth, chunkXWidth)
      requires chunks.Length1 == CeilDiv(volumeYHeight, chunkYHeight)
      requires chunks.Length2 == CeilDiv(volumeZDepth, chunkZDepth)
      requires forall x, y, z :: InGrid(chunks, x, y, z) ==> chunks[x, y, z]
      ensures WillRegenerate(GetChunkIndexAtVoxelIndex(p))
    {
      VoxelInItsChunk(p);
    }

    /** _Ready (lines 48 to 50): a store sized to the volume, the chunk grid as written,
        and a white fill. Afterwards every cell holds a white voxel in the given state and
        every chunk of the chunk grid is marked dirty. */
    method Ready(fillVoxelState: bool)
      requires Valid() && CreateChunksSafe()
      modifies this`voxelDataManager, this`chunks, this`dirtyChunkRegister
      ensures Valid() && Live() && fresh(voxelDataManager) && fresh(chunks)
      ensures forall x, y, z :: InGrid(chunks, x, y, z) ==> (chunks[x, y, z] <==> z < chunks.Length0)
      ensures chunks.Length0 == CeilDiv(volumeXWidth, chunkXWidth)
      ensures chunks.Length1 == CeilDiv(volumeYHeight, chunkYHeight)
      ensures chunks.Length2 == CeilDiv(volumeZDepth, chunkZDepth)
      ensures forall p :: InVolume(p) ==> GetVoxelAtVoxelPosition(p) == Some(Voxel(Rgba(1.0, 1.0, 1.0, 1.0), fillVoxelState))
      ensures forall c :: c in dirtyChunkRegister <==> c in old(dirtyChunkRegister) || InChunkGrid(c)
    {
      VoxelTools.MulNonNegative(volumeXWidth, volumeYHeight);
      VoxelTools.MulNonNegative(volumeXWidth * volumeYHeight, volumeZDepth);
      voxelDataManager := new BasicVoxelDataManager(volumeXWidth, volumeYHeight, volumeZDepth);
      CreateChunks();
      FillVoxels(Rgba(1.0, 1.0, 1.0, 1.0), fillVoxelState);
    }

    /** The chunk grid is the one CreateChunks allocates: on each axis it holds the
        ceiling of the volume extent over the chunk extent. */
    predicate SizedChunkGrid()
      reads this`chunks
    {
      0 < chunkXWidth && 0 < chunkYHeight && 0 < chunkZDepth && chunks != null
      && chunks.Length0 == CeilDiv(volumeXWidth, chunkXWidth)
      && chunks.Length1 == CeilDiv(volumeYHeight, chunkYHeight)
      && chunks.Length2 == CeilDiv(volumeZDepth, chunkZDepth)
    }

    /** The chunk index lies inside the chunk grid: the bounds guard of UpdateChunk. On
        the grid CreateChunks allocates it accepts exactly the chunks that hold a cell
        of the volume. */
    predicate ChunkInRange(index: Index)
      reads this`chunks
      ensures SizedChunkGrid() ==> (ChunkInRange(index) <==> InChunkGrid(index))
    {
      chunks != null
      && !(index.x < 0 || index.y < 0 || index.z < 0
           || index.x >= chunks.Length0 || index.y >= chunks.Length1 || index.z >= chunks.Length2)
    }

    /** UpdateChunk hands the chunk on for regeneration: there is a store and a chunk
        grid, the index passes the bounds guard, and a chunk exists at it. With a store
        and a sized grid whose every slot holds a chunk, these are exactly the chunks
        that hold a cell of the volume. */
    predicate WillRegenerate(index: Index)
      reads this`voxelDataManager, this`chunks, chunks
      ensures voxelDataManager != null && SizedChunkGrid() && (forall x, y, z :: InGrid(chunks, x, y, z) ==> chunks[x, y, z])
              ==> (WillRegenerate(index) <==> InChunkGrid(index))
    {
      voxelDataManager != null && ChunkInRange(index) && chunks[index.x, index.y, index.z]
    }

    /** The entries of a register that UpdateChunk hands on, in order. */
    function Regenerated(register: seq<Index>): (r: seq<Index>)
      reads this`voxelDataManager, this`chunks, chunks
      ensures |r| <= |register|
    {
      if register == [] then []
      else
        Regenerated(register[..|register| - 1])
        + (if WillRegenerate(register[|register| - 1]) then [register[|register| - 1]] else [])
    }

    /** A chunk is regenerated by a drain exactly when it is in the register and passes
        UpdateChunk's checks; a duplicate-free register regenerates each chunk once. */
    lemma {:induction false} RegeneratedMembers(register: seq<Index>)
      ensures forall d :: d in Regenerated(register) <==> d in register && WillRegenerate(d)
      ensures NoDuplicates(register) ==> NoDuplicates(Regenerated(register))
      decreases |register|
    {
      if register != [] {
        var front := register[..|register| - 1];
        RegeneratedMembers(front);
        assert register == front + [register[|register| - 1]];
        if NoDuplicates(register) {
          assert NoDuplicates(front);
          assert register[|register| - 1] !in front;
        }
      }
    }

    /** When UpdateChunk's checks pass, takes a snapshot of the chunk's voxels and
        records the index as handed on for regeneration; otherwise does nothing. The
        log keeps the index only: what the mesh and collider generation make of the
        snapshot is their own contract. */
    method UpdateChunk(index: Index)
      requires Valid()
      modifies this`requested, this`generated
      ensures requested == old(requested) + [index]
      ensures generated == old(generated) + (if WillRegenerate(index) then [index] else [])
    {
      requested := requested + [index];
      if voxelDataManager == null || chunks == null {
        return;
      }
      if index.x < 0 || index.y < 0 || index.z < 0
         || index.x >= chunks.Length0 || index.y >= chunks.Length1 || index.z >= chunks.Length2 {
        return;
      }
      if !chunks[index.x, index.y, index.z] {
        return;
      }
      var snapshot := GetChunkVoxels(index);
      generated := generated + [index];
    }

    /** The per-frame drain: every register entry goes to UpdateChunk once, in marking
        order, and the register is left empty. */
    method Process()
      requires Valid()
      modifies this`dirtyChunkRegister, this`requested, this`generated
      ensures Valid()
      ensures dirtyChunkRegister == []
      ensures requested == old(requested) + old(dirtyChunkRegister)
      ensures generated == old(generated) + Regenerated(old(dirtyChunkRegister))
    {
      if |dirtyChunkRegister| > 0 {
        for k := 0 to |dirtyChunkRegister|
          invariant dirtyChunkRegister == old(dirtyChunkRegister)
          invariant requested == old(requested) + dirtyChunkRegister[..k]
          invariant generated == old(generated) + Regenerated(dirtyChunkRegister[..k])
        {
          UpdateChunk(dirtyChunkRegister[k]);
          assert dirtyChunkRegister[..k + 1][..k] == dirtyChunkRegister[..k];
        }
        assert dirtyChunkRegister[..|dirtyChunkRegister|] == dirtyChunkRegister;
        dirtyChunkRegister := [];
      }
    }

    /** A snapshot of chunk `index`: a fresh chunk-sized array whose cell (i, j, k) is
        the voxel at ChunkStart(index) + (i, j, k), None where the store gives none. */
    method GetChunkVoxels(index: Index) returns (voxels: array3<Option<Voxel>>)
      requires Valid()
      ensures fresh(voxels)
      ensures voxels.Length0 == chunkXWidth && voxels.Length1 == chunkYHeight && voxels.Length2 == chunkZDepth
      ensures forall i, j, k :: InGrid(voxels, i, j, k) ==>
                voxels[i, j, k] == GetVoxelAtVoxelPosition(Index(ChunkStart(index).x + i, ChunkStart(index).y + j, ChunkStart(index).z + k))
    {
      var indexStart := ChunkStart(index);
      var indexEnd := Index(indexStart.x + chunkXWidth - 1, indexStart.y + chunkYHeight - 1,
                            indexStart.z + chunkZDepth - 1);
      voxels := new Option<Voxel>[(indexEnd.x - indexStart.x) + 1, (indexEnd.y - indexStart.y) + 1,
                                  (indexEnd.z - indexStart.z) + 1];
      var x := indexStart.x;
      while x <= indexEnd.x
        invariant indexStart.x <= x <= indexEnd.x + 1
        invariant forall i, j, k :: InGrid(voxels, i, j, k) && i < x - indexStart.x ==>
                    voxels[i, j, k] == GetVoxelAtVoxelPosition(Index(indexStart.x + i, indexStart.y + j, indexStart.z + k))
      {
        CopySlice(voxels, indexStart, x);
        x := x + 1;
      }
    }

    /** The y loop of GetChunkVoxels over slice x. */
    method CopySlice(voxels: array3<Option<Voxel>>, indexStart: Index, x: int)
      requires voxels !in StoreArrays()
      requires 0 <= x - indexStart.x < voxels.Length0
      modifies voxels
      ensures forall i, j, k :: InGrid(voxels, i, j, k) ==>
                voxels[i, j, k] == if i == x - indexStart.x
                                   then GetVoxelAtVoxelPosition(Index(indexStart.x + i, indexStart.y + j, indexStart.z + k))
                                   else old(voxels[i, j, k])
    {
      var y := indexStart.y;
      while y <= indexStart.y + voxels.Length1 - 1
        invariant indexStart.y <= y <= indexStart.y + voxels.Length1
        invariant forall i, j, k :: InGrid(voxels, i, j, k) ==>
                    voxels[i, j, k] == if i == x - indexStart.x && j < y - indexStart.y
                                       then GetVoxelAtVoxelPosition(Index(indexStart.x + i, indexStart.y + j, indexStart.z + k))
                                       else old(voxels[i, j, k])
      {
        CopyRow(voxels, indexStart, x, y);
        y := y + 1;
      }
    }

    /** The z loop of GetChunkVoxels over row (x, y). */
    method CopyRow(voxels: array3<Option<Voxel>>, indexStart: Index, x: int, y: int)
      requires voxels !in StoreArrays()
      requires 0 <= x - indexStart.x < voxels.Length0 && 0 <= y - indexStart.y < voxels.Length1
      modifies voxels
      ensures forall i, j, k :: InGrid(voxels, i, j, k) ==>
                voxels[i, j, k] == if i == x - indexStart.x && j == y - indexStart.y
                                   then GetVoxelAtVoxelPosition(Index(indexStart.x + i, indexStart.y + j, indexStart.z + k))
                                   else old(voxels[i, j, k])
    {
      var z := indexStart.z;
      while z <= indexStart.z + voxels.Length2 - 1
        invariant indexStart.z <= z <= indexStart.z + voxels.Length2
        invariant forall i, j, k :: InGrid(voxels, i, j, k) ==>
                    voxels[i, j, k] == if i == x - indexStart.x && j == y - indexStart.y && k < z - indexStart.z
                                       then GetVoxelAtVoxelPosition(Index(indexStart.x + i, indexStart.y + j, indexStart.z + k))
                                       else old(voxels[i, j, k])
      {
        voxels[x - indexStart.x, y - indexStart.y, z - indexStart.z] := GetVoxelAtVoxelPosition(Index(x, y, z));
        z := z + 1;
      }
    }
  }

  /** The creation loops over the chunk grid, x from 0, y from 0, z from 0 below zBound:
      CreateChunkAt puts a chunk at every index visited. The z loop indexes the grid, so
      zBound may only exceed Length2 when the y loop never runs. */
  method CreateChunkLayers(chunks: array3<bool>, zBound: int)
    requires 0 <= zBound && (chunks.Length0 == 0 || chunks.Length1 == 0 || zBound <= chunks.Length2)
    modifies chunks
    ensures forall x, y, z :: InGrid(chunks, x, y, z) ==> chunks[x, y, z] == (z < zBound || old(chunks[x, y, z]))
  {
    for x := 0 to chunks.Length0
      invariant forall i, j, k :: InGrid(chunks, i, j, k) ==>
                  chunks[i, j, k] == ((i < x && k < zBound) || old(chunks[i, j, k]))
    {
      CreateChunkSlice(chunks, x, zBound);
    }
  }

  /** The y loop of the chunk creation over slice x. */
  method CreateChunkSlice(chunks: array3<bool>, x: int, zBound: int)
    requires 0 <= x < chunks.Length0 && 0 <= zBound && (chunks.Length1 == 0 || zBound <= chunks.Length2)
    modifies chunks
    ensures forall i, j, k :: InGrid(chunks, i, j, k) ==>
              chunks[i, j, k] == ((i == x && k < zBound) || old(chunks[i, j, k]))
  {
    for y := 0 to chunks.Length1
      invariant forall i, j, k :: InGrid(chunks, i, j, k) ==>
                  chunks[i, j, k] == ((i == x && j < y && k < zBound) || old(chunks[i, j, k]))
    {
      CreateChunkRow(chunks, x, y, zBound);
    }
  }

  /** The z loop of the chunk creation over row (x, y). */
  method CreateChunkRow(chunks: array3<bool>, x: int, y: int, zBound: int)
    requires 0 <= x < chunks.Length0 && 0 <= y < chunks.Length1 && 0 <= zBound <= chunks.Length2
    modifies chunks
    ensures forall i, j, k :: InGrid(chunks, i, j, k) ==>
              chunks[i, j, k] == ((i == x && j == y && k < zBound) || old(chunks[i, j, k]))
  {
    for z := 0 to zBound
      invariant forall i, j, k :: InGrid(chunks, i, j, k) ==>
                  chunks[i, j, k] == ((i == x && j == y && k < z) || old(chunks[i, j, k]))
    {
      chunks[x, y, z] := true;
    }
  }

  /** An 8 x 8 x 16 volume of 8 x 8 x 8 chunks has a 1 x 1 x 2 chunk grid, and the chunk
      creation as written only fills the slot at z = 0. After set-up every cell, the
      cell (0, 0, 8) included, is written and its chunk (0, 0, 1) marked dirty, but the
      drain hands only chunk (0, 0, 0) on for regeneration: the second chunk is never
      meshed. With the corrected creation the same chunk passes UpdateChunk's checks. */
  method ChunkZBoundSkipsChunk() returns (v: Volume, w: Volume)
    ensures v.InVolume(Index(0, 0, 8)) && v.Valid()
    ensures v.GetChunkIndexAtVoxelIndex(Index(0, 0, 8)) == Index(0, 0, 1)
    ensures Index(0, 0, 1) in v.requested && Index(0, 0, 1) !in v.generated
    ensures Index(0, 0, 0) in v.generated
    ensures w.Valid() && w.WillRegenerate(w.GetChunkIndexAtVoxelIndex(Index(0, 0, 8)))
  {
    v := new Volume(8, 8, 16, 8, 8, 8);
    assert CeilDiv(8, 8) == 1 && CeilDiv(16, 8) == 2;
    v.Ready(true);
    assert v.InChunkGrid(Index(0, 0, 1)) && v.InChunkGrid(Index(0, 0, 0));
    ghost var register := v.dirtyChunkRegister;
    v.Process();
    v.RegeneratedMembers(register);
    assert !v.WillRegenerate(Index(0, 0, 1)) && v.WillRegenerate(Index(0, 0, 0));

    w := new Volume(8, 8, 16, 8, 8, 8);
    w.voxelDataManager := new BasicVoxelDataManager(8, 8, 16);
    w.CreateChunksCorrected();
    w.CompleteChunkGridRegeneratesAll(Index(0, 0, 8));
  }

  /** With the default extents the chunk grid is 2 x 2 x 2, as deep as it is wide, so
      the chunk creation as written fills every slot: the defaults hide its z bound. */
  method DefaultVolumeCreatesEveryChunk() returns (v: Volume)
    ensures v.Valid() && v.chunks != null
    ensures v.chunks.Length0 == 2 && v.chunks.Length1 == 2 && v.chunks.Length2 == 2
    ensures forall x, y, z :: InGrid(v.chunks, x, y, z) ==> v.chunks[x, y, z]
  {
    v := new Volume(DefaultVolumeSize, DefaultVolumeSize, DefaultVolumeSize,
                    DefaultChunkSize, DefaultChunkSize, DefaultChunkSize);
    assert CeilDiv(DefaultVolumeSize, DefaultChunkSize) == 2;
    v.CreateChunks();
  }

  /** A cell below the extent lies in a chunk below the chunk count. */
  lemma ChunkBelowCount(a: int, extent: int, b: int)
    requires b > 0 && 0 <= a < extent
    ensures 0 <= TruncDiv(a, b) < CeilDiv(extent, b)
  {
    var q, n := TruncDiv(a, b), CeilDiv(extent, b);
    assert b * q < n * b;
    assert b * (n - q) > 0;
  }

  /** A chunk below the chunk count starts below the extent, and its start truncates
      back to the chunk. */
  lemma StartBelowExtent(c: int, extent: int, b: int)
    requires b > 0 && 0 <= c < CeilDiv(extent, b)
    ensures 0 <= c * b < extent && TruncDiv(c * b, b) == c
  {
    var n := CeilDiv(extent, b);
    assert c * b <= (n - 1) * b by {
      assert (n - 1 - c) * b >= 0;
    }
    VoxelTools.DivModOf(c * b, b, c, 0);
  }
}
