/**
 * The conversion of a render mesh into an acoustic mesh
 * (`impl TryFrom<Mesh> for AudioMesh` in src/source.rs).
 *
 * The index list, widened to 32 bits, is grouped into triangles according to
 * the mesh's primitive topology: consecutive triples for a triangle list,
 * overlapping windows of three for a triangle strip, with the first two
 * corners of every odd triangle swapped so that all triangles face the same
 * way. The vertex positions are copied, and every triangle gets the one
 * generic material. Vertex positions are values of an arbitrary type.
 */
module AudioMeshes {
  import opened Wrappers

  newtype uint16 = x: int | 0 <= x < 0x1_0000
  newtype uint32 = x: int | 0 <= x < 0x1_0000_0000

  /** A mesh's index buffer, in one of its two widths. */
  datatype Indices = U16(narrow: seq<uint16>) | U32(wide: seq<uint32>)

  /** How a mesh's indices are to be read. */
  datatype PrimitiveTopology = PointList | LineList | LineStrip | TriangleList | TriangleStrip

  /** The position attribute: the three-float layout, or any other layout. */
  datatype VertexAttributeValues<V> = Float32x3(positions: seq<V>) | OtherLayout

  /** The parts of a render mesh the conversion reads. */
  datatype Mesh<V> = Mesh(
    topology: PrimitiveTopology,
    indices: Option<Indices>,
    position: Option<VertexAttributeValues<V>>)

  /** Three vertex indices. */
  datatype Triangle = Triangle(i0: uint32, i1: uint32, i2: uint32)

  /** An acoustic material; only the generic one is used. */
  datatype Material = Generic

  const GENERIC: Material := Generic

  /** The acoustic mesh: vertices, triangles, materials and a material index per triangle. */
  datatype AudioMesh<V> = AudioMesh(
    vertices: seq<V>,
    triangles: seq<Triangle>,
    materials: seq<Material>,
    materialIndices: seq<uint32>)

  datatype AudioMeshError = NoVertices | NonTrianglePrimitiveTopology(topology: PrimitiveTopology)

  /** The index values, whatever their width. */
  function IndexValues(ix: Indices): seq<int>
  {
    match ix
    case U16(narrow) => seq(|narrow|, i requires 0 <= i < |narrow| => narrow[i] as int)
    case U32(wide) => seq(|wide|, i requires 0 <= i < |wide| => wide[i] as int)
  }

  /** The index list as 32-bit indices: same length, same values. */
  function Widened(ix: Indices): (r: seq<uint32>)
    ensures |r| == |IndexValues(ix)|
    ensures forall i :: 0 <= i < |r| ==> r[i] as int == IndexValues(ix)[i]
  {
    match ix
    case U16(narrow) => seq(|narrow|, i requires 0 <= i < |narrow| => narrow[i] as uint32)
    case U32(wide) => wide
  }

  /** `chunks_exact(3)`: one triangle per complete triple, leftovers dropped. */
  function ListTriangles(ix: seq<uint32>): seq<Triangle>
  {
    if |ix| < 3 then [] else [Triangle(ix[0], ix[1], ix[2])] + ListTriangles(ix[3..])
  }

  /** `windows(3)`: one triangle per run of three consecutive indices. */
  function Windows(ix: seq<uint32>): seq<Triangle>
  {
    if |ix| < 3 then [] else [Triangle(ix[0], ix[1], ix[2])] + Windows(ix[1..])
  }

  /** A triangle with its first two corners exchanged: the opposite winding. */
  function Swapped(t: Triangle): Triangle
  {
    Triangle(t.i1, t.i0, t.i2)
  }

  /** The strip winding fix: the triangle at every odd position is swapped. */
  function Rewound(ts: seq<Triangle>): seq<Triangle>
  {
    seq(|ts|, j requires 0 <= j < |ts| => if (j + 1) % 2 == 0 then Swapped(ts[j]) else ts[j])
  }

  /** The triangles of a strip. */
  function StripTriangles(ix: seq<uint32>): seq<Triangle>
  {
    Rewound(Windows(ix))
  }

  /**
   * The triangle part of the conversion: no indices give no triangles; with
   * indices, a list or a strip is grouped, any other topology is an error.
   */
  function Triangulate<V>(mesh: Mesh<V>): (r: Result<seq<Triangle>, AudioMeshError>)
    ensures r.Err? <==> mesh.indices.Some? && !(mesh.topology.TriangleList? || mesh.topology.TriangleStrip?)
    ensures r.Err? ==> r.error == NonTrianglePrimitiveTopology(mesh.topology)
    ensures mesh.indices.None? ==> r == Ok([])
  {
    match mesh.indices
    case None => Ok([])
    case Some(ix) =>
      match mesh.topology
      case TriangleList => Ok(ListTriangles(Widened(ix)))
      case TriangleStrip => Ok(StripTriangles(Widened(ix)))
      case _ => Err(NonTrianglePrimitiveTopology(mesh.topology))
  }

  /** One zero material index (the generic material) per triangle. */
  function GenericIndices(n: nat): seq<uint32>
  {
    seq(n, _ => 0)
  }

  /**
   * `AudioMesh::try_from`. The topology error takes precedence over a missing
   * or malformed position attribute; on success the positions are kept in
   * order, the one material is the generic one and every triangle refers to it.
   */
  function Convert<V>(mesh: Mesh<V>): (r: Result<AudioMesh<V>, AudioMeshError>)
    ensures r.Ok? <==> Triangulate(mesh).Ok? && mesh.position.Some? && mesh.position.value.Float32x3?
    ensures Triangulate(mesh).Err? ==> r == Err(Triangulate(mesh).error)
    ensures Triangulate(mesh).Ok? && !(mesh.position.Some? && mesh.position.value.Float32x3?) ==> r == Err(NoVertices)
    ensures r.Ok? ==>
      r.value.vertices == mesh.position.value.positions &&
      r.value.triangles == Triangulate(mesh).value &&
      r.value.materials == [GENERIC] &&
      |r.value.materialIndices| == |r.value.triangles| &&
      forall j :: 0 <= j < |r.value.materialIndices| ==> r.value.materialIndices[j] == 0
  {
    match Triangulate(mesh)
    case Err(e) => Err(e)
    case Ok(triangles) =>
      match mesh.position
      case Some(Float32x3(vertices)) =>
        Ok(AudioMesh(vertices, triangles, [GENERIC], GenericIndices(|triangles|)))
      case _ => Err(NoVertices)
  }

  /** A triangle list of `k` indices gives `k / 3` triangles, triangle `j` being indices `3j`, `3j+1`, `3j+2`. */
  lemma {:induction false} ListTrianglesShape(ix: seq<uint32>)
    ensures |ListTriangles(ix)| == |ix| / 3
    ensures forall j :: 0 <= j < |ix| / 3 ==>
      ListTriangles(ix)[j] == Triangle(ix[3 * j], ix[3 * j + 1], ix[3 * j + 2])
  {
    if |ix| >= 3 {
      ListTrianglesShape(ix[3..]);
      forall j | 0 <= j < |ix| / 3
        ensures ListTriangles(ix)[j] == Triangle(ix[3 * j], ix[3 * j + 1], ix[3 * j + 2])
      {
        if j > 0 {
          assert ListTriangles(ix)[j] == ListTriangles(ix[3..])[j - 1];
        }
      }
    }
  }

  /** `k` indices give `max(k - 2, 0)` windows, window `j` being indices `j`, `j+1`, `j+2`. */
  lemma {:induction false} WindowsShape(ix: seq<uint32>)
    ensures |Windows(ix)| == if |ix| >= 2 then |ix| - 2 else 0
    ensures forall j :: 0 <= j < |Windows(ix)| ==>
      Windows(ix)[j] == Triangle(ix[j], ix[j + 1], ix[j + 2])
  {
    if |ix| >= 3 {
      WindowsShape(ix[1..]);
      forall j | 0 <= j < |Windows(ix)|
        ensures Windows(ix)[j] == Triangle(ix[j], ix[j + 1], ix[j + 2])
      {
        if j > 0 {
          assert Windows(ix)[j] == Windows(ix[1..])[j - 1];
        }
      }
    }
  }

  /**
   * A triangle strip of `k` indices gives `max(k - 2, 0)` triangles; triangle
   * `j` is indices `j`, `j+1`, `j+2` when `j` is even and `j+1`, `j`, `j+2`
   * when `j` is odd.
   */
  lemma StripTrianglesShape(ix: seq<uint32>)
    ensures |StripTriangles(ix)| == if |ix| >= 2 then |ix| - 2 else 0
    ensures forall j :: 0 <= j < |StripTriangles(ix)| && j % 2 == 0 ==>
      StripTriangles(ix)[j] == Triangle(ix[j], ix[j + 1], ix[j + 2])
    ensures forall j :: 0 <= j < |StripTriangles(ix)| && j % 2 == 1 ==>
      StripTriangles(ix)[j] == Triangle(ix[j + 1], ix[j], ix[j + 2])
  {
    WindowsShape(ix);
  }

  /**
   * The whole conversion of a triangle list of `k` indices: `k / 3`
   * triangles, triangle `j` made of the widened indices `3j`, `3j+1`, `3j+2`.
   */
  lemma ConvertTriangleList<V>(mesh: Mesh<V>)
    requires mesh.topology == TriangleList && mesh.indices.Some?
    requires mesh.position.Some? && mesh.position.value.Float32x3?
    ensures var ix := Widened(mesh.indices.value);
      Convert(mesh).Ok? &&
      |Convert(mesh).value.triangles| == |ix| / 3 &&
      forall j :: 0 <= j < |ix| / 3 ==>
        Convert(mesh).value.triangles[j] == Triangle(ix[3 * j], ix[3 * j + 1], ix[3 * j + 2])
  {
    ListTrianglesShape(Widened(mesh.indices.value));
  }

  /**
   * The whole conversion of a triangle strip of `k` indices: `max(k - 2, 0)`
   * triangles of consecutive widened indices, odd ones with their first two
   * corners swapped.
   */
  lemma ConvertTriangleStrip<V>(mesh: Mesh<V>)
    requires mesh.topology == TriangleStrip && mesh.indices.Some?
    requires mesh.position.Some? && mesh.position.value.Float32x3?
    ensures var ix := Widened(mesh.indices.value);
      Convert(mesh).Ok? &&
      |Convert(mesh).value.triangles| == (if |ix| >= 2 then |ix| - 2 else 0) &&
      (forall j :: 0 <= j < |Convert(mesh).value.triangles| && j % 2 == 0 ==>
        Convert(mesh).value.triangles[j] == Triangle(ix[j], ix[j + 1], ix[j + 2])) &&
      (forall j :: 0 <= j < |Convert(mesh).value.triangles| && j % 2 == 1 ==>
        Convert(mesh).value.triangles[j] == Triangle(ix[j + 1], ix[j], ix[j + 2]))
  {
    StripTrianglesShape(Widened(mesh.indices.value));
  }

  /** The strip winding fix, in place: the `iter_mut().enumerate()` loop. */
  method RewindInPlace(a: array<Triangle>)
    modifies a
    ensures a[..] == Rewound(old(a[..]))
  {
    var index := 0;
    while index < a.Length
      invariant 0 <= index <= a.Length
      invariant forall j :: 0 <= j < index ==>
        a[j] == if (j + 1) % 2 == 0 then Swapped(old(a[j])) else old(a[j])
      invariant forall j :: index <= j < a.Length ==> a[j] == old(a[j])
    {
      if (index + 1) % 2 == 0 {
        a[index] := Swapped(a[index]);
      }
      index := index + 1;
    }
  }

  /** `AudioMesh::try_from` as the source runs it, the strip collected into a buffer and fixed in place. */
  method TryFrom<V>(mesh: Mesh<V>) returns (r: Result<AudioMesh<V>, AudioMeshError>)
    ensures r == Convert(mesh)
  {
    var triangles: seq<Triangle> := [];
    if mesh.indices.Some? {
      var indices := Widened(mesh.indices.value);
      match mesh.topology {
        case TriangleList =>
          triangles := ListTriangles(indices);
        case TriangleStrip =>
          var windows := Windows(indices);
          var buffer := new Triangle[|windows|](j requires 0 <= j < |windows| => windows[j]);
          assert buffer[..] == windows;
          RewindInPlace(buffer);
          triangles := buffer[..];
        case _ =>
          return Err(NonTrianglePrimitiveTopology(mesh.topology));
      }
    }
    assert Triangulate(mesh) == Ok(triangles);
    match mesh.position {
      case Some(Float32x3(vertices)) =>
        r := Ok(AudioMesh(vertices, triangles, [GENERIC], GenericIndices(|triangles|)));
      case _ =>
        r := Err(NoVertices);
    }
  }
}
