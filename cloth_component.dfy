/**
 * The cloth mesh component: it owns the mesh buffers, rebuilds them as a
 * single flat quad of the configured size, keeps a local bounding box of
 * the vertices, and converts vertices into the renderer's vertex format.
 */
module ClothComponent {
  import opened Vectors
  import opened ClothData

  /**
   * The renderer's dynamic mesh vertex (FDynamicMeshVertex); only the
   * fields the cloth code touches or leaves alone are kept.
   */
  datatype DynMeshVertex = DynMeshVertex(
    Position: Vec3, TextureCoordinate: Vec2, TangentX: Vec3, TangentZ: Vec3, Color: Rgba)

  /**
   * Writes the cloth vertex's position and colour into the render vertex;
   * every other field of the render vertex keeps what it held.
   */
  method ConvertClothMeshToDynMeshVertex(outVert: DynMeshVertex, inVert: Vertex)
    returns (r: DynMeshVertex)
    ensures r.Position == inVert.Position && r.Color == inVert.Color
    ensures r.TextureCoordinate == outVert.TextureCoordinate
    ensures r.TangentX == outVert.TangentX && r.TangentZ == outVert.TangentZ
  {
    r := outVert;
    r := r.(Position := inVert.Position);
    r := r.(Color := inVert.Color);
  }

  /**
   * The corners of the cloth rectangle: a 2 x 2 lattice in row-major order
   * with cell size equal to the cloth size, in the z = 0 plane.
   */
  function QuadCorners(size: Vec2): seq<Vec3>
  {
    [Vec3(0.0, 0.0, 0.0), Vec3(size.X, 0.0, 0.0), Vec3(0.0, size.Y, 0.0), Vec3(size.X, size.Y, 0.0)]
  }

  /** The quad's triangle list: two whole triangles over the four corners. */
  function QuadIndices(): (indices: seq<uint32>)
    ensures |indices| == 6 && |indices| % 3 == 0
    ensures forall i :: 0 <= i < |indices| ==> indices[i] < 4
    ensures forall t :: 0 <= t < 2 ==>
      indices[3 * t] != indices[3 * t + 1] && indices[3 * t + 1] != indices[3 * t + 2]
      && indices[3 * t] != indices[3 * t + 2]
  {
    [0, 2, 1, 1, 2, 3]
  }

  /** Twice the signed area of triangle (p, q, r) seen from +Z. */
  function SignedArea2(p: Vec3, q: Vec3, r: Vec3): real {
    (q.X - p.X) * (r.Y - p.Y) - (q.Y - p.Y) * (r.X - p.X)
  }

  /**
   * Both triangles of the quad wind the same way, and their areas add up to
   * the area of the W x H rectangle.
   */
  lemma QuadTrianglesAgree(size: Vec2)
    ensures var c, ix := QuadCorners(size), QuadIndices();
      && SignedArea2(c[ix[0]], c[ix[1]], c[ix[2]]) == -(size.X * size.Y)
      && SignedArea2(c[ix[3]], c[ix[4]], c[ix[5]]) == -(size.X * size.Y)
  {
    var c, ix := QuadCorners(size), QuadIndices();
    assert c[ix[0]] == Vec3(0.0, 0.0, 0.0) && c[ix[1]] == Vec3(0.0, size.Y, 0.0);
    assert c[ix[2]] == Vec3(size.X, 0.0, 0.0);
    assert c[ix[3]] == Vec3(size.X, 0.0, 0.0) && c[ix[4]] == Vec3(0.0, size.Y, 0.0);
    assert c[ix[5]] == Vec3(size.X, size.Y, 0.0);
  }

  /** The positions of a sequence of vertices, in order. */
  function Positions(vs: seq<Vertex>): (ps: seq<Vec3>)
    reads vs
    ensures |ps| == |vs|
    ensures forall i :: 0 <= i < |vs| ==> ps[i] == vs[i].Position
  {
    if vs == [] then [] else Positions(vs[..|vs| - 1]) + [vs[|vs| - 1].Position]
  }

  /** Four vertices placed at the quad's corners have the quad's corners as positions. */
  lemma QuadPositions(vb: seq<Vertex>, size: Vec2)
    requires |vb| == 4
    requires vb[0].Position == Vec3(0.0, 0.0, 0.0) && vb[1].Position == Vec3(size.X, 0.0, 0.0)
    requires vb[2].Position == Vec3(0.0, size.Y, 0.0) && vb[3].Position == Vec3(size.X, size.Y, 0.0)
    ensures Positions(vb) == QuadCorners(size)
  {
  }

  /**
   * The box that folding the points one by one into FBox(ForceInit) gives:
   * valid exactly when there is a point, the zero box when there is none,
   * and containing every point.
   */
  function BoxOf(ps: seq<Vec3>): (r: Box)
    ensures r.IsValid <==> ps != []
    ensures ps == [] ==> r == EmptyBox
    ensures forall i :: 0 <= i < |ps| ==> Contains(r, ps[i])
  {
    if ps == [] then EmptyBox
    else
      var init := ps[..|ps| - 1];
      assert forall i :: 0 <= i < |init| ==> ps[i] == init[i];
      AddPoint(BoxOf(init), ps[|ps| - 1])
  }

  /** The box's corners are the componentwise minimum and maximum of the points. */
  ghost predicate IsTightBox(b: Box, ps: seq<Vec3>) {
    && (exists i :: 0 <= i < |ps| && b.Min.X == ps[i].X)
    && (exists i :: 0 <= i < |ps| && b.Min.Y == ps[i].Y)
    && (exists i :: 0 <= i < |ps| && b.Min.Z == ps[i].Z)
    && (exists i :: 0 <= i < |ps| && b.Max.X == ps[i].X)
    && (exists i :: 0 <= i < |ps| && b.Max.Y == ps[i].Y)
    && (exists i :: 0 <= i < |ps| && b.Max.Z == ps[i].Z)
  }

  /** Each of the six faces of the folded box of some points touches one of them. */
  lemma {:induction false} BoxOfIsTight(ps: seq<Vec3>)
    requires ps != []
    ensures IsTightBox(BoxOf(ps), ps)
  {
    var n := |ps| - 1;
    var init, p := ps[..n], ps[n];
    assert BoxOf(ps) == AddPoint(BoxOf(init), p);
    assert init + [p] == ps;
    if n == 0 {
      TightSingleton(p);
    } else {
      BoxOfIsTight(init);
      TightAfterAdd(init, p, BoxOf(init));
    }
  }

  /** The box of a single point is tight around it. */
  lemma TightSingleton(p: Vec3)
    ensures IsTightBox(AddPoint(EmptyBox, p), [] + [p])
  {
    var ps := [] + [p];
    assert ps[0] == p;
  }

  /** Adding a point to the tight box of some points gives the tight box of them all. */
  lemma TightAfterAdd(init: seq<Vec3>, p: Vec3, b: Box)
    requires b.IsValid && IsTightBox(b, init)
    ensures IsTightBox(AddPoint(b, p), init + [p])
  {
    var r, ps := AddPoint(b, p), init + [p];
    var n := |init|;
    assert ps[n] == p;
    var i0 :| 0 <= i0 < n && b.Min.X == init[i0].X;
    var i1 :| 0 <= i1 < n && b.Min.Y == init[i1].Y;
    var i2 :| 0 <= i2 < n && b.Min.Z == init[i2].Z;
    var i3 :| 0 <= i3 < n && b.Max.X == init[i3].X;
    var i4 :| 0 <= i4 < n && b.Max.Y == init[i4].Y;
    var i5 :| 0 <= i5 < n && b.Max.Z == init[i5].Z;
    assert ps[i0] == init[i0] && ps[i1] == init[i1] && ps[i2] == init[i2];
    assert ps[i3] == init[i3] && ps[i4] == init[i4] && ps[i5] == init[i5];
    assert r.Min.X == ps[if b.Min.X <= p.X then i0 else n].X;
    assert r.Min.Y == ps[if b.Min.Y <= p.Y then i1 else n].Y;
    assert r.Min.Z == ps[if b.Min.Z <= p.Z then i2 else n].Z;
    assert r.Max.X == ps[if b.Max.X <= p.X then n else i3].X;
    assert r.Max.Y == ps[if b.Max.Y <= p.Y then n else i4].Y;
    assert r.Max.Z == ps[if b.Max.Z <= p.Z then n else i5].Z;
  }

  /** The quad's box spans min(0, W)..max(0, W) by min(0, H)..max(0, H) in the z = 0 plane. */
  lemma QuadBox(size: Vec2)
    ensures BoxOf(QuadCorners(size))
         == Box(Vec3(Min(0.0, size.X), Min(0.0, size.Y), 0.0),
                Vec3(Max(0.0, size.X), Max(0.0, size.Y), 0.0), true)
  {
    var c := QuadCorners(size);
    assert c[..3][..2][..1] == [c[0]];
    assert BoxOf(c[..1]) == Box(c[0], c[0], true);
    assert c[..3][..2] == c[..2];
    assert c[..3] == c[..2] + [c[2]];
    assert BoxOf(c[..2]) == AddPoint(BoxOf(c[..1]), c[1]);
    assert BoxOf(c[..3]) == AddPoint(BoxOf(c[..2]), c[2]);
    assert BoxOf(c) == AddPoint(BoxOf(c[..3]), c[3]);
  }

  /**
   * What the fold of a vertex buffer's positions gives: a box containing
   * every vertex, valid and tight when there are vertices, and the zero box
   * when there are none.
   */
  lemma FoldedBounds(vb: seq<Vertex>, b: Box)
    requires b == BoxOf(Positions(vb))
    ensures forall i :: 0 <= i < |vb| ==> Contains(b, vb[i].Position)
    ensures vb != [] ==> b.IsValid && IsTightBox(b, Positions(vb))
    ensures vb == [] ==> b == EmptyBox
  {
    if vb != [] {
      BoxOfIsTight(Positions(vb));
    }
  }

  /**
   * A freshly built quad mesh: four distinct vertices created at the corners
   * (0, 0), (W, 0), (0, H) and (W, H) of the size rectangle, and the quad's
   * two triangles.
   */
  ghost predicate IsQuadMesh(mesh: ClothMeshData, size: Vec2)
    reads mesh, mesh.VertexBuffer
  {
    var vb := mesh.VertexBuffer;
    && |vb| == 4
    && vb[0] != vb[1] && vb[0] != vb[2] && vb[0] != vb[3]
    && vb[1] != vb[2] && vb[1] != vb[3] && vb[2] != vb[3]
    && IsNewVertexAt(vb[0], Vec3(0.0, 0.0, 0.0))
    && IsNewVertexAt(vb[1], Vec3(size.X, 0.0, 0.0))
    && IsNewVertexAt(vb[2], Vec3(0.0, size.Y, 0.0))
    && IsNewVertexAt(vb[3], Vec3(size.X, size.Y, 0.0))
    && mesh.IndexBuffer == QuadIndices()
    && mesh.WellFormed()
  }

  /** The bounds of a freshly built quad span the same range as the box of its corners. */
  lemma QuadMeshBounds(mesh: ClothMeshData, size: Vec2)
    requires IsQuadMesh(mesh, size)
    ensures BoxOf(Positions(mesh.VertexBuffer))
         == Box(Vec3(Min(0.0, size.X), Min(0.0, size.Y), 0.0),
                Vec3(Max(0.0, size.X), Max(0.0, size.Y), 0.0), true)
  {
    QuadPositions(mesh.VertexBuffer, size);
    QuadBox(size);
  }

  /**
   * A rebuild does not depend on what the buffers held before: two meshes
   * rebuilt for the same size agree index for index and vertex for vertex.
   */
  lemma QuadMeshIsDeterminedBySize(m1: ClothMeshData, m2: ClothMeshData, size: Vec2)
    requires IsQuadMesh(m1, size) && IsQuadMesh(m2, size)
    ensures m1.IndexBuffer == m2.IndexBuffer
    ensures |m1.VertexBuffer| == |m2.VertexBuffer|
    ensures Positions(m1.VertexBuffer) == Positions(m2.VertexBuffer)
    ensures forall i :: 0 <= i < |m1.VertexBuffer| ==>
      var u, v := m1.VertexBuffer[i], m2.VertexBuffer[i];
      && u.Normal == v.Normal && u.Color == v.Color
      && u.Velocity == v.Velocity && u.DisablePhys == v.DisablePhys
  {
    QuadPositions(m1.VertexBuffer, size);
    QuadPositions(m2.VertexBuffer, size);
  }

  class ClothMeshComponent {
    const ClothMesh: ClothMeshData
    var ClothSize: Vec2
    var LocalBounds: Box

    /**
     * The in-class defaults: empty buffers and a 10 x 10 cloth. The bounds
     * hold no meaningful value until the first rebuild.
     */
    constructor ()
      ensures fresh(ClothMesh)
      ensures ClothMesh.VertexBuffer == [] && ClothMesh.IndexBuffer == []
      ensures ClothSize == Vec2(10.0, 10.0)
    {
      ClothMesh := new ClothMeshData();
      ClothSize := Vec2(10.0, 10.0);
      LocalBounds := EmptyBox;
    }

    /** Rebuilds the mesh data. */
    method RecreateMesh()
      modifies this`LocalBounds, ClothMesh
      ensures ClothSize == old(ClothSize)
      ensures |ClothMesh.VertexBuffer| == 4
      ensures IsQuadMesh(ClothMesh, ClothSize)
      ensures LocalBounds == Box(Vec3(Min(0.0, ClothSize.X), Min(0.0, ClothSize.Y), 0.0),
                                 Vec3(Max(0.0, ClothSize.X), Max(0.0, ClothSize.Y), 0.0), true)
    {
      RecreateMeshData();
      QuadMeshBounds(ClothMesh, ClothSize);
    }

    /**
     * Discards the old buffers, then appends the four corners of the
     * ClothSize rectangle and the quad's six indices, and refreshes the bounds.
     */
    method RecreateMeshData()
      modifies this`LocalBounds, ClothMesh
      ensures ClothSize == old(ClothSize)
      ensures |ClothMesh.VertexBuffer| == 4
      ensures IsQuadMesh(ClothMesh, ClothSize)
      ensures LocalBounds == BoxOf(Positions(ClothMesh.VertexBuffer))
    {
      ClothMesh.Reset();
      var width := ClothSize.X;
      var height := ClothSize.Y;

      var v0 := ClothMesh.AddVertex(Vec3(0.0, 0.0, 0.0));
      var v1 := ClothMesh.AddVertex(Vec3(width, 0.0, 0.0));
      var v2 := ClothMesh.AddVertex(Vec3(0.0, height, 0.0));
      var v3 := ClothMesh.AddVertex(Vec3(width, height, 0.0));
      assert ClothMesh.VertexBuffer == [v0, v1, v2, v3];
      ClothMesh.IndexBuffer := ClothMesh.IndexBuffer + [0, 2, 1, 1, 2, 3];
      assert IsQuadMesh(ClothMesh, ClothSize);
      UpdateLocalBounds();
    }

    /**
     * Folds every vertex position into a box that starts as FBox(ForceInit);
     * a valid box becomes the bounds, and no vertices give the zero box.
     */
    method UpdateLocalBounds()
      modifies this`LocalBounds
      ensures LocalBounds == BoxOf(Positions(ClothMesh.VertexBuffer))
      ensures forall i :: 0 <= i < |ClothMesh.VertexBuffer| ==>
        Contains(LocalBounds, ClothMesh.VertexBuffer[i].Position)
      ensures ClothMesh.VertexBuffer != [] ==>
        LocalBounds.IsValid && IsTightBox(LocalBounds, Positions(ClothMesh.VertexBuffer))
      ensures ClothMesh.VertexBuffer == [] ==> LocalBounds == EmptyBox
    {
      ghost var ps := Positions(ClothMesh.VertexBuffer);
      var localBox := EmptyBox;
      var i := 0;
      while i < |ClothMesh.VertexBuffer|
        invariant 0 <= i <= |ClothMesh.VertexBuffer|
        invariant localBox == BoxOf(ps[..i])
      {
        var pos := ClothMesh.VertexBuffer[i].Position;
        assert ps[..i + 1][..i] == ps[..i];
        localBox := AddPoint(localBox, pos);
        i := i + 1;
      }
      assert ps[..i] == ps;
      LocalBounds := if localBox.IsValid then localBox else EmptyBox;
      FoldedBounds(ClothMesh.VertexBuffer, LocalBounds);
    }
  }
}
