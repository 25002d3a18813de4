/** Value types shared by the voxel store, the mesher, the box merger and the volume. */
module VoxelTypes {

  /** An RGBA colour. The model never computes with it: a voxel's colour is only
      copied onto the faces the voxel emits. */
  datatype Color = Rgba(r: real, g: real, b: real, a: real)

  /** A voxel: an active flag and a colour. Writers replace a voxel wholesale. */
  datatype Voxel = Voxel(color: Color, active: bool)

  /** An integer triple. It is used as a grid coordinate (of a voxel or of a chunk)
      and as an extent (a grid size or a box size). */
  datatype Index = Index(x: int, y: int, z: int)

  /** A possibly missing value; `None` stands for a null reference. */
  datatype Option<T> = None | Some(value: T)

  /** (x, y, z) addresses a cell of the three-dimensional array `a`. */
  predicate InGrid<T>(a: array3<T>, x: int, y: int, z: int)
  {
    0 <= x < a.Length0 && 0 <= y < a.Length1 && 0 <= z < a.Length2
  }
}
