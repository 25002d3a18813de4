/** The culled-face mesher. For every active voxel of a grid it emits one quad
    (two triangles, six vertices) per side whose neighbour is missing: outside the
    grid or inactive. Each quad is recorded in three parallel lists: its colour, its
    normal and its six vertices. */
module Meshing {
  import opened VoxelTypes

  /** An integer 3-vector: vertex positions, normals and the per-axis voxel scale. */
  datatype Vec3 = Vec3(x: int, y: int, z: int)

  function Plus(a: Vec3, b: Vec3): Vec3
  {
    Vec3(a.x + b.x, a.y + b.y, a.z + b.z)
  }

  /** Component-wise product: how a position is scaled by the voxel scale. */
  function Times(a: Vec3, b: Vec3): Vec3
  {
    Vec3(a.x * b.x, a.y * b.y, a.z * b.z)
  }

  /** The eight corners of the unit cube, in the order of the source's corner table. */
  const VertList: seq<Vec3> := [
    Vec3(0, 0, 0), Vec3(1, 0, 0),
    Vec3(1, 0, 1), Vec3(0, 0, 1),
    Vec3(0, 1, 0), Vec3(1, 1, 0),
    Vec3(1, 1, 1), Vec3(0, 1, 1)
  ]

  /** A position in the corner table. */
  type Corner = c: nat | c < 8

  /** The six sides of a voxel, named after the source's neighbour flags: Top is +y,
      Right +x, Left -x, Front +z, Back -z and Bottom -y. */
  datatype Side = Top | Right | Left | Front | Back | Bottom

  /** The order in which a voxel's faces are emitted. */
  const EmitOrder: seq<Side> := [Top, Right, Left, Front, Back, Bottom]

  /** The neighbour of (x, y, z) across side s. */
  function Neighbour(s: Side, x: int, y: int, z: int): Index
  {
    match s
    case Top => Index(x, y + 1, z)
    case Right => Index(x + 1, y, z)
    case Left => Index(x - 1, y, z)
    case Front => Index(x, y, z + 1)
    case Back => Index(x, y, z - 1)
    case Bottom => Index(x, y - 1, z)
  }

  /** The step from a voxel to its neighbour across side s. */
  function Direction(s: Side): Vec3
  {
    var n := Neighbour(s, 0, 0, 0);
    Vec3(n.x, n.y, n.z)
  }

  /** The normal recorded for a face, as the source writes it: a unit vector along the
      side's axis that points out of the voxel, toward the neighbour, for the y sides
      and into it, away from the neighbour, for the x and z sides. */
  function Normal(s: Side): (n: Vec3)
    ensures s == Top || s == Bottom ==> n == Direction(s)
    ensures s != Top && s != Bottom ==> n == Vec3(-Direction(s).x, -Direction(s).y, -Direction(s).z)
  {
    match s
    case Top => Vec3(0, 1, 0)
    case Right => Vec3(-1, 0, 0)
    case Left => Vec3(1, 0, 0)
    case Front => Vec3(0, 0, -1)
    case Back => Vec3(0, 0, 1)
    case Bottom => Vec3(0, -1, 0)
  }

  /** The corners of the two triangles of a face, in emission order: six entries of
      the corner table, each on the cube face toward s. */
  function Corners(s: Side): (cs: seq<Corner>)
    ensures |cs| == 6
    ensures forall k :: 0 <= k < 6 ==> OnSide(s, VertList[cs[k]])
  {
    match s
    case Top => [4, 5, 7, 5, 6, 7]
    case Right => [2, 5, 1, 2, 6, 5]
    case Left => [0, 7, 3, 0, 4, 7]
    case Front => [3, 6, 2, 3, 7, 6]
    case Back => [0, 1, 5, 5, 4, 0]
    case Bottom => [1, 3, 2, 1, 0, 3]
  }

  /** A corner of the table lies on the unit-cube face toward side s. */
  predicate OnSide(s: Side, c: Vec3)
  {
    match s
    case Top => c.y == 1
    case Right => c.x == 1
    case Left => c.x == 0
    case Front => c.z == 1
    case Back => c.z == 0
    case Bottom => c.y == 0
  }

  /** The position of corner c of the voxel at offset, after scaling. */
  function Vertex(c: Corner, offset: Vec3, scale: Vec3): Vec3
  {
    Times(Plus(VertList[c], offset), scale)
  }

  /** A point lies in the plane of the face toward s of the voxel at offset, after
      scaling. */
  predicate OnFacePlane(s: Side, offset: Vec3, scale: Vec3, v: Vec3)
  {
    match s
    case Top => v.y == (offset.y + 1) * scale.y
    case Right => v.x == (offset.x + 1) * scale.x
    case Left => v.x == offset.x * scale.x
    case Front => v.z == (offset.z + 1) * scale.z
    case Back => v.z == offset.z * scale.z
    case Bottom => v.y == offset.y * scale.y
  }

  /** The six vertices of the face toward s of the voxel at offset: all of them lie in
      the plane of that face. */
  function FaceVertices(s: Side, offset: Vec3, scale: Vec3): (vs: seq<Vec3>)
    ensures |vs| == 6
    ensures forall k :: 0 <= k < 6 ==> OnFacePlane(s, offset, scale, vs[k])
  {
    var c := Corners(s);
    [Vertex(c[0], offset, scale), Vertex(c[1], offset, scale), Vertex(c[2], offset, scale),
     Vertex(c[3], offset, scale), Vertex(c[4], offset, scale), Vertex(c[5], offset, scale)]
  }

  /** One emitted face. */
  datatype Quad = Quad(colour: Color, normal: Vec3, vertices: seq<Vec3>)

  /** The mesher's output: three lists that advance in lock step, one entry per face. */
  datatype MeshResults = MeshResults(colours: seq<Color>, normals: seq<Vec3>, vertices: seq<seq<Vec3>>)

  /** The three parallel lists recording a sequence of faces, built the way the mesher
      builds them: one entry appended to each list per face. */
  function Flatten(quads: seq<Quad>): (mr: MeshResults)
    ensures |mr.colours| == |quads| && |mr.normals| == |quads| && |mr.vertices| == |quads|
  {
    if quads == [] then MeshResults([], [], [])
    else
      var m := Flatten(quads[..|quads| - 1]);
      var q := quads[|quads| - 1];
      MeshResults(m.colours + [q.colour], m.normals + [q.normal], m.vertices + [q.vertices])
  }

  /** The neighbour across side s exists and is active: the face is hidden. */
  predicate Occluded(voxels: array3<Voxel>, s: Side, x: int, y: int, z: int)
    reads voxels
  {
    var n := Neighbour(s, x, y, z);
    InGrid(voxels, n.x, n.y, n.z) && voxels[n.x, n.y, n.z].active
  }

  /** The face toward s of the voxel at (x, y, z), in the voxel's colour. */
  function QuadAt(voxels: array3<Voxel>, x: int, y: int, z: int, s: Side, scale: Vec3): Quad
    reads voxels
    requires InGrid(voxels, x, y, z)
  {
    Quad(voxels[x, y, z].color, Normal(s), FaceVertices(s, Vec3(x, y, z), scale))
  }

  /** The face toward s if it is exposed, nothing if it is hidden. */
  function SideQuads(voxels: array3<Voxel>, x: int, y: int, z: int, s: Side, scale: Vec3): seq<Quad>
    reads voxels
    requires InGrid(voxels, x, y, z)
  {
    if Occluded(voxels, s, x, y, z) then [] else [QuadAt(voxels, x, y, z, s, scale)]
  }

  /** The faces toward each of `sides` that is exposed, in order. */
  function SidesQuads(voxels: array3<Voxel>, x: int, y: int, z: int, sides: seq<Side>, scale: Vec3): seq<Quad>
    reads voxels
    requires InGrid(voxels, x, y, z)
  {
    if sides == [] then [] else SideQuads(voxels, x, y, z, sides[0], scale) + SidesQuads(voxels, x, y, z, sides[1..], scale)
  }

  /** The faces one voxel emits: nothing when it is inactive, otherwise its exposed
      faces in emission order, top first and bottom last. */
  function VoxelQuads(voxels: array3<Voxel>, x: int, y: int, z: int, scale: Vec3): seq<Quad>
    reads voxels
    requires InGrid(voxels, x, y, z)
  {
    if !voxels[x, y, z].active then [] else SidesQuads(voxels, x, y, z, EmitOrder, scale)
  }

  /** The faces of the cells (x, y, 0) .. (x, y, z - 1), in scan order. */
  function ColumnQuads(voxels: array3<Voxel>, x: int, y: int, z: int, scale: Vec3): seq<Quad>
    reads voxels
    requires 0 <= x < voxels.Length0 && 0 <= y < voxels.Length1 && 0 <= z <= voxels.Length2
    decreases z
  {
    if z == 0 then [] else ColumnQuads(voxels, x, y, z - 1, scale) + VoxelQuads(voxels, x, y, z - 1, scale)
  }

  /** The faces of the columns (x, 0) .. (x, y - 1), in scan order. */
  function SliceQuads(voxels: array3<Voxel>, x: int, y: int, scale: Vec3): seq<Quad>
    reads voxels
    requires 0 <= x < voxels.Length0 && 0 <= y <= voxels.Length1
    decreases y
  {
    if y == 0 then [] else SliceQuads(voxels, x, y - 1, scale) + ColumnQuads(voxels, x, y - 1, voxels.Length2, scale)
  }

  /** The faces of the slices 0 .. x - 1, in scan order. */
  function GridQuads(voxels: array3<Voxel>, x: int, scale: Vec3): seq<Quad>
    reads voxels
    requires 0 <= x <= voxels.Length0
    decreases x
  {
    if x == 0 then [] else GridQuads(voxels, x - 1, scale) + SliceQuads(voxels, x - 1, voxels.Length1, scale)
  }

  /** Every face of the grid, x outermost and z innermost. */
  function MeshQuads(voxels: array3<Voxel>, scale: Vec3): seq<Quad>
    reads voxels
  {
    GridQuads(voxels, voxels.Length0, scale)
  }

  /** The three lists advance in lock step: entry i of each list is the colour, the
      normal and the vertices of face i. */
  lemma {:induction false} FlattenLockStep(quads: seq<Quad>, i: int)
    requires 0 <= i < |quads|
    ensures Flatten(quads).colours[i] == quads[i].colour
    ensures Flatten(quads).normals[i] == quads[i].normal
    ensures Flatten(quads).vertices[i] == quads[i].vertices
  {
    if i < |quads| - 1 {
      FlattenLockStep(quads[..|quads| - 1], i);
    }
  }

  lemma ConcatAssoc<T>(a: seq<T>, b: seq<T>, c: seq<T>)
    ensures (a + b) + c == a + (b + c)
  {
  }

  lemma ConcatEmpty<T>(a: seq<T>)
    ensures a + [] == a
  {
  }

  /** Appending one face to a face sequence appends one entry to each of the three lists. */
  lemma FlattenPush(quads: seq<Quad>, q: Quad)
    ensures Flatten(quads + [q])
         == MeshResults(Flatten(quads).colours + [q.colour], Flatten(quads).normals + [q.normal],
                        Flatten(quads).vertices + [q.vertices])
  {
    assert (quads + [q])[..|quads|] == quads;
  }

  /** GenerateMesh: scans the grid x outermost, y, z innermost and appends the faces of
      each voxel. The result records exactly the faces of MeshQuads. */
  method GenerateMesh(voxels: array3<Voxel>, voxelScale: Vec3) returns (meshResults: MeshResults)
    ensures meshResults == Flatten(MeshQuads(voxels, voxelScale))
  {
    meshResults := MeshResults([], [], []);
    for x := 0 to voxels.Length0
      invariant meshResults == Flatten(GridQuads(voxels, x, voxelScale))
    {
      meshResults := EmitSlice(voxels, x, voxelScale, meshResults, GridQuads(voxels, x, voxelScale));
    }
  }

  /** The y loop of the mesher's scan over slice x. */
  method EmitSlice(voxels: array3<Voxel>, x: int, voxelScale: Vec3, meshResults: MeshResults, ghost quads: seq<Quad>)
    returns (out: MeshResults)
    requires 0 <= x < voxels.Length0
    requires meshResults == Flatten(quads)
    ensures out == Flatten(quads + SliceQuads(voxels, x, voxels.Length1, voxelScale))
  {
    out := meshResults;
    ConcatEmpty(quads);
    for y := 0 to voxels.Length1
      invariant out == Flatten(quads + SliceQuads(voxels, x, y, voxelScale))
    {
      out := EmitColumn(voxels, x, y, voxelScale, out, quads + SliceQuads(voxels, x, y, voxelScale));
      ConcatAssoc(quads, SliceQuads(voxels, x, y, voxelScale), ColumnQuads(voxels, x, y, voxels.Length2, voxelScale));
    }
  }

  /** The z loop of the mesher's scan over column (x, y). */
  method EmitColumn(voxels: array3<Voxel>, x: int, y: int, voxelScale: Vec3, meshResults: MeshResults,
                    ghost quads: seq<Quad>) returns (out: MeshResults)
    requires 0 <= x < voxels.Length0 && 0 <= y < voxels.Length1
    requires meshResults == Flatten(quads)
    ensures out == Flatten(quads + ColumnQuads(voxels, x, y, voxels.Length2, voxelScale))
  {
    out := meshResults;
    ConcatEmpty(quads);
    for z := 0 to voxels.Length2
      invariant out == Flatten(quads + ColumnQuads(voxels, x, y, z, voxelScale))
    {
      out := EmitVoxel(voxels, x, y, z, voxelScale, out, quads + ColumnQuads(voxels, x, y, z, voxelScale));
      ConcatAssoc(quads, ColumnQuads(voxels, x, y, z, voxelScale), VoxelQuads(voxels, x, y, z, voxelScale));
    }
  }

  /** The body of the mesher's scan for the voxel at (x, y, z): skips an inactive voxel
      and one whose six neighbours are all present and active; otherwise appends the
      colour, normal and vertices of each exposed face, top first and bottom last. */
  method EmitVoxel(voxels: array3<Voxel>, x: int, y: int, z: int, voxelScale: Vec3,
                   meshResults: MeshResults, ghost quads: seq<Quad>) returns (out: MeshResults)
    requires InGrid(voxels, x, y, z)
    requires meshResults == Flatten(quads)
    ensures out == Flatten(quads + VoxelQuads(voxels, x, y, z, voxelScale))
  {
    out := meshResults;
    if !voxels[x, y, z].active {
      ConcatEmpty(quads);
      return;
    }
    var left, right, back, front, top, bottom := NeighbourFlags(voxels, x, y, z);
    if left && right && top && bottom && front && back {
      HiddenVoxelEmitsNothing(voxels, x, y, z, voxelScale);
      ConcatEmpty(quads);
      return;
    }
    VoxelQuadsBySide(voxels, x, y, z, voxelScale, quads);
    out := EmitFaces(voxels, x, y, z, left, right, back, front, top, bottom, voxelScale, out, quads);
  }

  /** The six emission blocks of the mesher's scan, top first and bottom last. */
  method EmitFaces(voxels: array3<Voxel>, x: int, y: int, z: int,
                   left: bool, right: bool, back: bool, front: bool, top: bool, bottom: bool,
                   voxelScale: Vec3, meshResults: MeshResults, ghost quads: seq<Quad>) returns (out: MeshResults)
    requires InGrid(voxels, x, y, z)
    requires left == Occluded(voxels, Left, x, y, z) && right == Occluded(voxels, Right, x, y, z)
    requires back == Occluded(voxels, Back, x, y, z) && front == Occluded(voxels, Front, x, y, z)
    requires top == Occluded(voxels, Top, x, y, z) && bottom == Occluded(voxels, Bottom, x, y, z)
    requires meshResults == Flatten(quads)
    ensures out == Flatten(quads + SideQuads(voxels, x, y, z, Top, voxelScale) + SideQuads(voxels, x, y, z, Right, voxelScale)
                           + SideQuads(voxels, x, y, z, Left, voxelScale) + SideQuads(voxels, x, y, z, Front, voxelScale)
                           + SideQuads(voxels, x, y, z, Back, voxelScale) + SideQuads(voxels, x, y, z, Bottom, voxelScale))
  {
    ghost var done := quads;
    var vOffset := Vec3(x, y, z);
    out := EmitFace(voxels, x, y, z, Top, top, vOffset, voxelScale, meshResults, done);
    done := done + SideQuads(voxels, x, y, z, Top, voxelScale);
    out := EmitFace(voxels, x, y, z, Right, right, vOffset, voxelScale, out, done);
    done := done + SideQuads(voxels, x, y, z, Right, voxelScale);
    out := EmitFace(voxels, x, y, z, Left, left, vOffset, voxelScale, out, done);
    done := done + SideQuads(voxels, x, y, z, Left, voxelScale);
    out := EmitFace(voxels, x, y, z, Front, front, vOffset, voxelScale, out, done);
    done := done + SideQuads(voxels, x, y, z, Front, voxelScale);
    out := EmitFace(voxels, x, y, z, Back, back, vOffset, voxelScale, out, done);
    done := done + SideQuads(voxels, x, y, z, Back, voxelScale);
    out := EmitFace(voxels, x, y, z, Bottom, bottom, vOffset, voxelScale, out, done);
  }

  /** The six neighbour flags of the mesher's scan: a flag is set exactly when the
      neighbour on that side lies inside the grid and is active. */
  method NeighbourFlags(voxels: array3<Voxel>, x: int, y: int, z: int)
    returns (left: bool, right: bool, back: bool, front: bool, top: bool, bottom: bool)
    requires InGrid(voxels, x, y, z)
    ensures left == Occluded(voxels, Left, x, y, z) && right == Occluded(voxels, Right, x, y, z)
    ensures back == Occluded(voxels, Back, x, y, z) && front == Occluded(voxels, Front, x, y, z)
    ensures top == Occluded(voxels, Top, x, y, z) && bottom == Occluded(voxels, Bottom, x, y, z)
  {
    left := false;
    if x > 0 { left := voxels[x - 1, y, z].active; }
    right := false;
    if x < voxels.Length0 - 1 { right := voxels[x + 1, y, z].active; }
    back := false;
    if z > 0 { back := voxels[x, y, z - 1].active; }
    front := false;
    if z < voxels.Length2 - 1 { front := voxels[x, y, z + 1].active; }
    top := false;
    if y < voxels.Length1 - 1 { top := voxels[x, y + 1, z].active; }
    bottom := false;
    if y > 0 { bottom := voxels[x, y - 1, z].active; }
  }

  /** Appending the faces of an active voxel is appending its six sides one by one. */
  lemma VoxelQuadsBySide(voxels: array3<Voxel>, x: int, y: int, z: int, scale: Vec3, quads: seq<Quad>)
    requires InGrid(voxels, x, y, z) && voxels[x, y, z].active
    ensures quads + VoxelQuads(voxels, x, y, z, scale)
         == quads + SideQuads(voxels, x, y, z, Top, scale) + SideQuads(voxels, x, y, z, Right, scale)
            + SideQuads(voxels, x, y, z, Left, scale) + SideQuads(voxels, x, y, z, Front, scale)
            + SideQuads(voxels, x, y, z, Back, scale) + SideQuads(voxels, x, y, z, Bottom, scale)
  {
    var e := EmitOrder;
    assert e[1..][1..] == e[2..] && e[2..][1..] == e[3..] && e[3..][1..] == e[4..];
    assert e[4..][1..] == e[5..] && e[5..][1..] == [];
    ghost var s1, s2, s3 := SideQuads(voxels, x, y, z, Top, scale), SideQuads(voxels, x, y, z, Right, scale),
      SideQuads(voxels, x, y, z, Left, scale);
    ghost var s4, s5, s6 := SideQuads(voxels, x, y, z, Front, scale), SideQuads(voxels, x, y, z, Back, scale),
      SideQuads(voxels, x, y, z, Bottom, scale);
    assert SidesQuads(voxels, x, y, z, e[5..], scale) == s6 + [];
    assert SidesQuads(voxels, x, y, z, e[4..], scale) == s5 + SidesQuads(voxels, x, y, z, e[5..], scale);
    assert SidesQuads(voxels, x, y, z, e[3..], scale) == s4 + SidesQuads(voxels, x, y, z, e[4..], scale);
    assert SidesQuads(voxels, x, y, z, e[2..], scale) == s3 + SidesQuads(voxels, x, y, z, e[3..], scale);
    assert SidesQuads(voxels, x, y, z, e[1..], scale) == s2 + SidesQuads(voxels, x, y, z, e[2..], scale);
    assert SidesQuads(voxels, x, y, z, e, scale) == s1 + SidesQuads(voxels, x, y, z, e[1..], scale);
    ConcatSix(quads, s1, s2, s3, s4, s5, s6 + []);
    ConcatEmpty(s6);
  }

  /** Concatenating six pieces nested to the right is concatenating them in a row. */
  lemma ConcatSix<T>(q: seq<T>, a: seq<T>, b: seq<T>, c: seq<T>, d: seq<T>, e: seq<T>, f: seq<T>)
    ensures q + (a + (b + (c + (d + (e + f))))) == q + a + b + c + d + e + f
  {
  }

  /** One of the six emission blocks of the mesher's scan: when the neighbour across
      side s is not occluding, appends the voxel's colour, the side's normal and the six
      scaled corners of the side's face to the three lists. */
  method EmitFace(voxels: array3<Voxel>, x: int, y: int, z: int, s: Side, occluded: bool,
                  vOffset: Vec3, voxelScale: Vec3, meshResults: MeshResults, ghost quads: seq<Quad>)
    returns (out: MeshResults)
    requires InGrid(voxels, x, y, z)
    requires occluded == Occluded(voxels, s, x, y, z) && vOffset == Vec3(x, y, z)
    requires meshResults == Flatten(quads)
    ensures out == Flatten(quads + SideQuads(voxels, x, y, z, s, voxelScale))
  {
    if !occluded {
      var tempV := FaceVertices(s, vOffset, voxelScale);
      out := MeshResults(meshResults.colours + [voxels[x, y, z].color], meshResults.normals + [Normal(s)],
                         meshResults.vertices + [tempV]);
      FlattenPush(quads, QuadAt(voxels, x, y, z, s, voxelScale));
    } else {
      ConcatEmpty(quads);
      out := meshResults;
    }
  }

  // ---------------------------------------------------------------------------
  // Properties of the emitted mesh

  /** The sides among `sides` whose neighbour does not occlude, in the given order. */
  function ExposedSides(voxels: array3<Voxel>, x: int, y: int, z: int, sides: seq<Side>): seq<Side>
    reads voxels
  {
    if sides == [] then []
    else (if Occluded(voxels, sides[0], x, y, z) then [] else [sides[0]]) + ExposedSides(voxels, x, y, z, sides[1..])
  }

  /** The faces toward each of `sides`, in order. */
  function QuadsOfSides(voxels: array3<Voxel>, x: int, y: int, z: int, sides: seq<Side>, scale: Vec3): seq<Quad>
    reads voxels
    requires InGrid(voxels, x, y, z)
  {
    if sides == [] then [] else [QuadAt(voxels, x, y, z, sides[0], scale)] + QuadsOfSides(voxels, x, y, z, sides[1..], scale)
  }

  /** The exposed sides are exactly the listed sides whose neighbour is missing or inactive. */
  lemma {:induction false} ExposedSidesMembers(voxels: array3<Voxel>, x: int, y: int, z: int, sides: seq<Side>)
    ensures forall s :: s in ExposedSides(voxels, x, y, z, sides) <==> s in sides && !Occluded(voxels, s, x, y, z)
  {
    if sides != [] {
      ExposedSidesMembers(voxels, x, y, z, sides[1..]);
      assert forall s :: s in sides <==> s == sides[0] || s in sides[1..];
    }
  }

  /** With no occluding neighbour among `sides`, every listed side is exposed. */
  lemma {:induction false} ExposedSidesAll(voxels: array3<Voxel>, x: int, y: int, z: int, sides: seq<Side>)
    requires forall s :: s in sides ==> !Occluded(voxels, s, x, y, z)
    ensures ExposedSides(voxels, x, y, z, sides) == sides
  {
    if sides != [] {
      assert sides[0] in sides;
      assert forall s :: s in sides[1..] ==> s in sides;
      ExposedSidesAll(voxels, x, y, z, sides[1..]);
    }
  }

  /** Entry i of the reference list is the face toward side i. */
  lemma {:induction false} QuadsOfSidesIndex(voxels: array3<Voxel>, x: int, y: int, z: int, sides: seq<Side>, scale: Vec3)
    requires InGrid(voxels, x, y, z)
    ensures |QuadsOfSides(voxels, x, y, z, sides, scale)| == |sides|
    ensures forall i :: 0 <= i < |sides| ==> QuadsOfSides(voxels, x, y, z, sides, scale)[i] == QuadAt(voxels, x, y, z, sides[i], scale)
  {
    if sides != [] {
      QuadsOfSidesIndex(voxels, x, y, z, sides[1..], scale);
    }
  }

  /** The side-by-side emission agrees with the reference: the faces toward the exposed
      sides, in the same order. */
  lemma {:induction false} SidesQuadsReference(voxels: array3<Voxel>, x: int, y: int, z: int, sides: seq<Side>, scale: Vec3)
    requires InGrid(voxels, x, y, z)
    ensures SidesQuads(voxels, x, y, z, sides, scale) == QuadsOfSides(voxels, x, y, z, ExposedSides(voxels, x, y, z, sides), scale)
  {
    if sides != [] {
      SidesQuadsReference(voxels, x, y, z, sides[1..], scale);
      var rest := ExposedSides(voxels, x, y, z, sides[1..]);
      if !Occluded(voxels, sides[0], x, y, z) {
        assert ExposedSides(voxels, x, y, z, sides) == [sides[0]] + rest;
        assert ([sides[0]] + rest)[1..] == rest;
      } else {
        assert ExposedSides(voxels, x, y, z, sides) == [] + rest == rest;
      }
    }
  }

  /** Every side occurs in the emission order. */
  lemma EverySideEmitted(s: Side)
    ensures s in EmitOrder
  {
    match s
    case Top => assert EmitOrder[0] == s;
    case Right => assert EmitOrder[1] == s;
    case Left => assert EmitOrder[2] == s;
    case Front => assert EmitOrder[3] == s;
    case Back => assert EmitOrder[4] == s;
    case Bottom => assert EmitOrder[5] == s;
  }

  /** An active voxel emits, in emission order, exactly the faces toward its exposed
      sides: the number of faces is the number of non-occluding neighbours. */
  lemma VoxelQuadsAreExposedFaces(voxels: array3<Voxel>, x: int, y: int, z: int, scale: Vec3)
    requires InGrid(voxels, x, y, z) && voxels[x, y, z].active
    ensures VoxelQuads(voxels, x, y, z, scale)
         == QuadsOfSides(voxels, x, y, z, ExposedSides(voxels, x, y, z, EmitOrder), scale)
    ensures |VoxelQuads(voxels, x, y, z, scale)| == |ExposedSides(voxels, x, y, z, EmitOrder)|
    ensures forall s :: s in ExposedSides(voxels, x, y, z, EmitOrder) <==> !Occluded(voxels, s, x, y, z)
  {
    SidesQuadsReference(voxels, x, y, z, EmitOrder, scale);
    QuadsOfSidesIndex(voxels, x, y, z, ExposedSides(voxels, x, y, z, EmitOrder), scale);
    ExposedSidesMembers(voxels, x, y, z, EmitOrder);
    forall s: Side ensures s in EmitOrder {
      EverySideEmitted(s);
    }
  }

  /** A voxel emits nothing exactly when it is inactive or all six of its neighbours
      are present and active. */
  lemma VoxelQuadsEmpty(voxels: array3<Voxel>, x: int, y: int, z: int, scale: Vec3)
    requires InGrid(voxels, x, y, z)
    ensures VoxelQuads(voxels, x, y, z, scale) == []
        <==> !voxels[x, y, z].active || forall s: Side :: Occluded(voxels, s, x, y, z)
  {
    if voxels[x, y, z].active {
      VoxelQuadsAreExposedFaces(voxels, x, y, z, scale);
      var e := ExposedSides(voxels, x, y, z, EmitOrder);
      if e != [] {
        assert e[0] in e;
      }
    }
  }

  /** The mesher's skip test: a voxel whose six neighbour flags are all set emits nothing. */
  lemma HiddenVoxelEmitsNothing(voxels: array3<Voxel>, x: int, y: int, z: int, scale: Vec3)
    requires InGrid(voxels, x, y, z)
    requires Occluded(voxels, Top, x, y, z) && Occluded(voxels, Right, x, y, z) && Occluded(voxels, Left, x, y, z)
    requires Occluded(voxels, Front, x, y, z) && Occluded(voxels, Back, x, y, z) && Occluded(voxels, Bottom, x, y, z)
    ensures VoxelQuads(voxels, x, y, z, scale) == []
  {
    forall s: Side ensures Occluded(voxels, s, x, y, z) {
      match s
      case Top =>
      case Right =>
      case Left =>
      case Front =>
      case Back =>
      case Bottom =>
    }
    VoxelQuadsEmpty(voxels, x, y, z, scale);
  }

  /** A voxel with no active neighbour inside the grid emits all six faces. */
  lemma IsolatedVoxelSixFaces(voxels: array3<Voxel>, x: int, y: int, z: int, scale: Vec3)
    requires InGrid(voxels, x, y, z) && voxels[x, y, z].active
    requires forall s: Side :: !Occluded(voxels, s, x, y, z)
    ensures |VoxelQuads(voxels, x, y, z, scale)| == 6
  {
    VoxelQuadsAreExposedFaces(voxels, x, y, z, scale);
    ExposedSidesAll(voxels, x, y, z, EmitOrder);
  }

  /** An active voxel with exactly one occluding neighbour emits five faces. */
  lemma OneHiddenSideFiveFaces(voxels: array3<Voxel>, x: int, y: int, z: int, h: Side, scale: Vec3)
    requires InGrid(voxels, x, y, z) && voxels[x, y, z].active
    requires Occluded(voxels, h, x, y, z)
    requires forall s: Side :: s != h ==> !Occluded(voxels, s, x, y, z)
    ensures |VoxelQuads(voxels, x, y, z, scale)| == 5
  {
    VoxelQuadsBySide(voxels, x, y, z, scale, []);
    assert |SideQuads(voxels, x, y, z, h, scale)| == 0;
    assert forall s: Side :: s != h ==> |SideQuads(voxels, x, y, z, s, scale)| == 1;
  }

  /** q is the face toward an exposed side s of an active voxel of the grid. */
  ghost predicate IsFace(voxels: array3<Voxel>, scale: Vec3, q: Quad)
    reads voxels
  {
    exists x, y, z, s :: InGrid(voxels, x, y, z) && voxels[x, y, z].active && !Occluded(voxels, s, x, y, z)
                         && q == QuadAt(voxels, x, y, z, s, scale)
  }

  lemma VoxelQuadsAreFaces(voxels: array3<Voxel>, x: int, y: int, z: int, scale: Vec3)
    requires InGrid(voxels, x, y, z)
    ensures forall q :: q in VoxelQuads(voxels, x, y, z, scale) ==> IsFace(voxels, scale, q)
  {
    if voxels[x, y, z].active {
      VoxelQuadsAreExposedFaces(voxels, x, y, z, scale);
      var e := ExposedSides(voxels, x, y, z, EmitOrder);
      QuadsOfSidesIndex(voxels, x, y, z, e, scale);
      forall q | q in VoxelQuads(voxels, x, y, z, scale) ensures IsFace(voxels, scale, q) {
        var i :| 0 <= i < |e| && q == VoxelQuads(voxels, x, y, z, scale)[i];
        assert e[i] in e;
        assert q == QuadAt(voxels, x, y, z, e[i], scale);
      }
    }
  }

  lemma {:induction false} ColumnQuadsAreFaces(voxels: array3<Voxel>, x: int, y: int, z: int, scale: Vec3)
    requires 0 <= x < voxels.Length0 && 0 <= y < voxels.Length1 && 0 <= z <= voxels.Length2
    ensures forall q :: q in ColumnQuads(voxels, x, y, z, scale) ==> IsFace(voxels, scale, q)
  {
    if z > 0 {
      ColumnQuadsAreFaces(voxels, x, y, z - 1, scale);
      VoxelQuadsAreFaces(voxels, x, y, z - 1, scale);
      FacesConcat(voxels, scale, ColumnQuads(voxels, x, y, z - 1, scale), VoxelQuads(voxels, x, y, z - 1, scale),
                  ColumnQuads(voxels, x, y, z, scale));
    }
  }

  lemma {:induction false} SliceQuadsAreFaces(voxels: array3<Voxel>, x: int, y: int, scale: Vec3)
    requires 0 <= x < voxels.Length0 && 0 <= y <= voxels.Length1
    ensures forall q :: q in SliceQuads(voxels, x, y, scale) ==> IsFace(voxels, scale, q)
  {
    if y > 0 {
      SliceQuadsAreFaces(voxels, x, y - 1, scale);
      ColumnQuadsAreFaces(voxels, x, y - 1, voxels.Length2, scale);
      FacesConcat(voxels, scale, SliceQuads(voxels, x, y - 1, scale), ColumnQuads(voxels, x, y - 1, voxels.Length2, scale),
                  SliceQuads(voxels, x, y, scale));
    }
  }

  lemma {:induction false} GridQuadsAreFaces(voxels: array3<Voxel>, x: int, scale: Vec3)
    requires 0 <= x <= voxels.Length0
    ensures forall q :: q in GridQuads(voxels, x, scale) ==> IsFace(voxels, scale, q)
  {
    if x > 0 {
      GridQuadsAreFaces(voxels, x - 1, scale);
      SliceQuadsAreFaces(voxels, x - 1, voxels.Length1, scale);
      FacesConcat(voxels, scale, GridQuads(voxels, x - 1, scale), SliceQuads(voxels, x - 1, voxels.Length1, scale),
                  GridQuads(voxels, x, scale));
    }
  }

  lemma FacesConcat(voxels: array3<Voxel>, scale: Vec3, a: seq<Quad>, b: seq<Quad>, c: seq<Quad>)
    requires forall q :: q in a ==> IsFace(voxels, scale, q)
    requires forall q :: q in b ==> IsFace(voxels, scale, q)
    requires c == a + b
    ensures forall q :: q in c ==> IsFace(voxels, scale, q)
  {
  }

  /** Every one of the four cube corners on a side is used by that side's face. */
  lemma FaceCornersOnSide(s: Side)
    ensures forall c: Corner :: OnSide(s, VertList[c]) ==> c in Corners(s)
  {
    forall c: Corner | OnSide(s, VertList[c]) ensures c in Corners(s) {
      var e := [Vec3(0, 0, 0), Vec3(1, 0, 0), Vec3(1, 0, 1), Vec3(0, 0, 1),
                Vec3(0, 1, 0), Vec3(1, 1, 0), Vec3(1, 1, 1), Vec3(0, 1, 1)];
      assert VertList == e;
      assert c == 0 || c == 1 || c == 2 || c == 3 || c == 4 || c == 5 || c == 6 || c == 7;
    }
  }

  /** Entry i of the mesher's three lists describes one exposed face of one active
      voxel: the voxel's colour, the side's normal and six scaled corners of the voxel,
      each on the cube face toward that side. */
  lemma MeshEntry(voxels: array3<Voxel>, scale: Vec3, i: int)
    requires 0 <= i < |Flatten(MeshQuads(voxels, scale)).colours|
    ensures var mr := Flatten(MeshQuads(voxels, scale));
      |mr.normals| == |mr.colours| && |mr.vertices| == |mr.colours| && |mr.vertices[i]| == 6
      && (exists x, y, z, s :: InGrid(voxels, x, y, z) && voxels[x, y, z].active && !Occluded(voxels, s, x, y, z)
            && mr.colours[i] == voxels[x, y, z].color && mr.normals[i] == Normal(s)
            && mr.vertices[i] == FaceVertices(s, Vec3(x, y, z), scale)
            && (forall k :: 0 <= k < 6 ==> OnSide(s, VertList[Corners(s)[k]])))
  {
    var quads := MeshQuads(voxels, scale);
    GridQuadsAreFaces(voxels, voxels.Length0, scale);
    FlattenLockStep(quads, i);
    assert quads[i] in quads;
    var x, y, z, s :| InGrid(voxels, x, y, z) && voxels[x, y, z].active && !Occluded(voxels, s, x, y, z)
                      && quads[i] == QuadAt(voxels, x, y, z, s, scale);
    FaceCornersOnSide(s);
  }

  /** A non-empty mesh has an active voxel; so a grid without an active voxel gives an
      empty mesh. */
  lemma NonEmptyMeshHasActiveVoxel(voxels: array3<Voxel>, scale: Vec3)
    ensures MeshQuads(voxels, scale) != [] ==> exists x, y, z :: InGrid(voxels, x, y, z) && voxels[x, y, z].active
  {
    GridQuadsAreFaces(voxels, voxels.Length0, scale);
    if MeshQuads(voxels, scale) != [] {
      assert MeshQuads(voxels, scale)[0] in MeshQuads(voxels, scale);
    }
  }

  /** One active voxel alone in a 1 x 1 x 1 grid gives six faces. */
  lemma SingleVoxelSixFaces(voxels: array3<Voxel>, scale: Vec3)
    requires voxels.Length0 == 1 && voxels.Length1 == 1 && voxels.Length2 == 1 && voxels[0, 0, 0].active
    ensures |MeshQuads(voxels, scale)| == 6
  {
    assert ColumnQuads(voxels, 0, 0, 1, scale) == [] + VoxelQuads(voxels, 0, 0, 0, scale);
    assert SliceQuads(voxels, 0, 1, scale) == [] + ColumnQuads(voxels, 0, 0, 1, scale);
    assert GridQuads(voxels, 1, scale) == [] + SliceQuads(voxels, 0, 1, scale);
    IsolatedVoxelSixFaces(voxels, 0, 0, 0, scale);
  }

  /** Two active voxels side by side along x in a 2 x 1 x 1 grid give ten faces: the
      shared face is hidden on both. */
  lemma PairOfVoxelsTenFaces(voxels: array3<Voxel>, scale: Vec3)
    requires voxels.Length0 == 2 && voxels.Length1 == 1 && voxels.Length2 == 1
    requires voxels[0, 0, 0].active && voxels[1, 0, 0].active
    ensures |MeshQuads(voxels, scale)| == 10
  {
    assert ColumnQuads(voxels, 0, 0, 1, scale) == [] + VoxelQuads(voxels, 0, 0, 0, scale);
    assert ColumnQuads(voxels, 1, 0, 1, scale) == [] + VoxelQuads(voxels, 1, 0, 0, scale);
    assert SliceQuads(voxels, 0, 1, scale) == [] + ColumnQuads(voxels, 0, 0, 1, scale);
    assert SliceQuads(voxels, 1, 1, scale) == [] + ColumnQuads(voxels, 1, 0, 1, scale);
    assert GridQuads(voxels, 1, scale) == [] + SliceQuads(voxels, 0, 1, scale);
    assert GridQuads(voxels, 2, scale) == GridQuads(voxels, 1, scale) + SliceQuads(voxels, 1, 1, scale);
    OneHiddenSideFiveFaces(voxels, 0, 0, 0, Right, scale);
    OneHiddenSideFiveFaces(voxels, 1, 0, 0, Left, scale);
  }
}
