/** The dense voxel store: one slot per cell of a width x height x depth volume,
    addressed through the flat index. Reads and writes fail softly: an address whose
    flat index falls outside the array gives None or false. Only the flat index is
    checked, so a coordinate outside the volume that still flattens into the array
    addresses some other cell. */
module VoxelDataManagers {
  import opened VoxelTypes
  import VoxelTools

  class BasicVoxelDataManager {
    /** The backing array; it is allocated once, by the constructor. */
    const voxels: array<Option<Voxel>>
    const width: int
    const height: int
    const depth: int

    /** The backing array holds exactly one slot per cell of the volume. */
    predicate Valid()
    {
      voxels.Length == width * height * depth
    }

    /** Allocates width * height * depth empty slots. A negative product would make the
        array allocation throw, so it is excluded. */
    constructor (width: int, height: int, depth: int)
      requires width * height * depth >= 0
      ensures Valid()
      ensures this.width == width && this.height == height && this.depth == depth
      ensures fresh(voxels)
      ensures forall i :: 0 <= i < voxels.Length ==> voxels[i] == None
    {
      this.width := width;
      this.height := height;
      this.depth := depth;
      this.voxels := new Option<Voxel>[width * height * depth](_ => None);
    }

    /** The flat index the store computes for an address. */
    function FlatIndexOf(index: Index): int
    {
      VoxelTools.GetFlatIndexFromXYZ5(width, height, index.x, index.y, index.z)
    }

    /** The range check shared by GetVoxel, SetVoxel and ContainsIndex: the flat index
        is neither negative nor past the last slot. Every coordinate inside the volume
        passes it, so GetVoxel reads and SetVoxel writes its slot. */
    predicate ContainsIndex(index: Index)
      ensures Valid() && 0 <= index.x < width && 0 <= index.y < height && 0 <= index.z < depth
              ==> ContainsIndex(index)
    {
      var flatIndex := FlatIndexOf(index);
      if Valid() && 0 <= index.x < width && 0 <= index.y < height && 0 <= index.z < depth then
        VoxelTools.FlatIndexInRange(Index(width, height, depth), index);
        !(flatIndex < 0 || flatIndex > voxels.Length - 1)
      else
        !(flatIndex < 0 || flatIndex > voxels.Length - 1)
    }

    /** The stored voxel at an address, or None when the range check fails (an
        accepted address whose slot was never written also gives None). */
    function GetVoxel(index: Index): (r: Option<Voxel>)
      reads voxels
      ensures !ContainsIndex(index) ==> r == None
      ensures ContainsIndex(index) ==> 0 <= FlatIndexOf(index) < voxels.Length && r == voxels[FlatIndexOf(index)]
    {
      var flatIndex := FlatIndexOf(index);
      if flatIndex < 0 || flatIndex > voxels.Length - 1 then None else voxels[flatIndex]
    }

    /** Writes one slot. It succeeds exactly when ContainsIndex does; on success only
        the slot at the flat index changes and reading the address back gives the
        voxel written; on failure nothing changes. */
    method SetVoxel(index: Index, voxel: Option<Voxel>) returns (ok: bool)
      modifies voxels
      ensures ok == ContainsIndex(index)
      ensures ok ==> voxels[..] == old(voxels[..])[FlatIndexOf(index) := voxel]
      ensures ok ==> GetVoxel(index) == voxel
      ensures !ok ==> voxels[..] == old(voxels[..])
    {
      var flatIndex := VoxelTools.GetFlatIndexFromXYZ5(width, height, index.x, index.y, index.z);
      if flatIndex < 0 || flatIndex > voxels.Length - 1 {
        return false;
      }
      voxels[flatIndex] := voxel;
      return true;
    }
  }

  /** Two distinct coordinates inside the volume address distinct slots, so writing
      one never disturbs the other. */
  lemma InVolumeSlotsDistinct(m: BasicVoxelDataManager, p: Index, q: Index)
    requires 0 <= p.x < m.width && 0 <= p.y < m.height && 0 <= p.z < m.depth
    requires 0 <= q.x < m.width && 0 <= q.y < m.height && 0 <= q.z < m.depth
    requires p != q
    ensures m.FlatIndexOf(p) != m.FlatIndexOf(q)
  {
    var size := Index(m.width, m.height, m.depth);
    if m.FlatIndexOf(p) == m.FlatIndexOf(q) {
      VoxelTools.FlatIndexInjective(size, p, q);
    }
  }

  /** Only the flat index is checked: (width, 0, 0), one past the x extent, is the same
      address as (0, 1, 0); it is accepted whenever the volume has a second row. */
  lemma OutOfVolumeAliases(m: BasicVoxelDataManager)
    requires m.Valid()
    ensures m.FlatIndexOf(Index(m.width, 0, 0)) == m.FlatIndexOf(Index(0, 1, 0))
    ensures m.ContainsIndex(Index(m.width, 0, 0)) == m.ContainsIndex(Index(0, 1, 0))
    ensures m.GetVoxel(Index(m.width, 0, 0)) == m.GetVoxel(Index(0, 1, 0))
    ensures 0 < m.width && 1 < m.height && 0 < m.depth ==> m.ContainsIndex(Index(m.width, 0, 0))
  {
    var size := Index(m.width, m.height, m.depth);
    VoxelTools.FlatIndexAliases(size, Index(0, 0, 0));
  }
}
