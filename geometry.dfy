/**
 * The geometric value types: `vec3`/`vec4`, the three vertex shapes, the three face shapes
 * and the mesh aggregate. The C++ picks a shape at compile time through template
 * parameters; here the shape is a value (`ColorShape`, `VertexShape`) and each aggregate
 * is a datatype with one constructor per shape.
 */
module Vectors {

  /** Which vector template: `vec3` or `vec4`. */
  datatype Arity = Three | Four

  /** `VecT::size`. */
  function Size(a: Arity): (n: nat)
    ensures n == 3 <==> a == Three
    ensures n == 4 <==> a == Four
  {
    match a
    case Three => 3
    case Four => 4
  }

  /** `vec3<T>` and `vec4<T>`, with integer components. */
  datatype Vec = Vec3(x: int, y: int, z: int) | Vec4(x: int, y: int, z: int, w: int)

  function ArityOf(v: Vec): Arity
  {
    if v.Vec3? then Three else Four
  }

  /** `nth<I>(v)`: component I, which exists only when I < size (so `w` only for `vec4`). */
  function Nth(v: Vec, i: nat): (c: int)
    requires i < Size(ArityOf(v))
    ensures i < 3 ==> c == [v.x, v.y, v.z][i]
    ensures i == 3 ==> v.Vec4? && c == v.w
  {
    if i == 0 then v.x else if i == 1 then v.y else if i == 2 then v.z else v.w
  }

  /** Assigning through the reference `nth<I>(v)` returns: component I changes, nothing else. */
  function WithNth(v: Vec, i: nat, c: int): (r: Vec)
    requires i < Size(ArityOf(v))
    ensures ArityOf(r) == ArityOf(v)
    ensures Nth(r, i) == c
    ensures forall j | 0 <= j < Size(ArityOf(v)) && j != i :: Nth(r, j) == Nth(v, j)
  {
    if i == 0 then v.(x := c)
    else if i == 1 then v.(y := c)
    else if i == 2 then v.(z := c)
    else v.(w := c)
  }

  /** The components `nth<0>` .. `nth<size-1>`, in index order. */
  function Components(v: Vec): (s: seq<int>)
    ensures |s| == Size(ArityOf(v))
    ensures forall i | 0 <= i < |s| :: s[i] == Nth(v, i)
  {
    match v
    case Vec3(x, y, z) => [x, y, z]
    case Vec4(x, y, z, w) => [x, y, z, w]
  }

  /** `std::make_from_tuple<VecT>(buffer)`: the vector whose components are `s`, in order. */
  function FromComponents(a: Arity, s: seq<int>): (v: Vec)
    requires |s| == Size(a)
    ensures ArityOf(v) == a
    ensures Components(v) == s
  {
    match a
    case Three => Vec3(s[0], s[1], s[2])
    case Four => Vec4(s[0], s[1], s[2], s[3])
  }

  /** The value of `VecT result;` before its components are read (never observed). */
  function Zero(a: Arity): (v: Vec)
    ensures ArityOf(v) == a
  {
    match a
    case Three => Vec3(0, 0, 0)
    case Four => Vec4(0, 0, 0, 0)
  }

  /** A vector is determined by its arity and its components. */
  lemma ComponentsRoundTrip(v: Vec)
    ensures FromComponents(ArityOf(v), Components(v)) == v
  {
  }

  /** Writing component `i` replaces element `i` of the component sequence. */
  lemma ComponentsWithNth(v: Vec, i: nat, c: int)
    requires i < Size(ArityOf(v))
    ensures Components(WithNth(v, i, c)) == Components(v)[i := c]
  {
  }

  /** Two vectors of one arity that agree on every `nth` are equal. */
  lemma NthExtensionality(u: Vec, v: Vec)
    requires ArityOf(u) == ArityOf(v)
    requires forall i | 0 <= i < Size(ArityOf(u)) :: Nth(u, i) == Nth(v, i)
    ensures u == v
  {
    assert Nth(u, 0) == Nth(v, 0) && Nth(u, 1) == Nth(v, 1) && Nth(u, 2) == Nth(v, 2);
    if u.Vec4? {
      assert Nth(u, 3) == Nth(v, 3);
    }
  }
}

module Vertices {
  import opened Wrappers
  import opened Vectors

  /**
   * How a record carries colour: not at all (`vertex`, `face`), always (`colored_vertex`,
   * `colored_face`) or when the line supplies it (`optional_colored_vertex`,
   * `optional_colored_face`), with a colour vector of the given arity.
   */
  datatype ColorShape = Plain | Colored(channels: Arity) | OptColored(channels: Arity)

  /** The template arguments of a vertex type: the position vector and the colour shape. */
  datatype VertexShape = VertexShape(position: Arity, color: ColorShape)

  /** `vertex`, `colored_vertex` and `optional_colored_vertex`; every shape has a position. */
  datatype Vertex =
    | PlainVertex(position: Vec)
    | ColoredVertex(position: Vec, color: Vec)
    | OptionalColoredVertex(position: Vec, maybeColor: Option<Vec>)

  /** `v` is a value of the vertex type that `shape` names. */
  predicate VertexHasShape(v: Vertex, shape: VertexShape)
  {
    && ArityOf(v.position) == shape.position
    && match shape.color
       case Plain => v.PlainVertex?
       case Colored(a) => v.ColoredVertex? && ArityOf(v.color) == a
       case OptColored(a) =>
         v.OptionalColoredVertex? && (v.maybeColor.Some? ==> ArityOf(v.maybeColor.value) == a)
  }

  /** Every vertex of `vs` has the vertex type `shape` names. */
  predicate AllVerticesHaveShape(vs: seq<Vertex>, shape: VertexShape)
  {
    forall v | v in vs :: VertexHasShape(v, shape)
  }
}

module Faces {
  import opened Wrappers
  import opened Vectors
  import opened Vertices

  /** `face`, `colored_face` and `optional_colored_face`: an ordered list of vertex indices. */
  datatype Face =
    | PlainFace(vertexIndices: seq<nat>)
    | ColoredFace(vertexIndices: seq<nat>, color: Vec)
    | OptionalColoredFace(vertexIndices: seq<nat>, maybeColor: Option<Vec>)

  /** `f` is a value of the face type that `shape` names. */
  predicate FaceHasShape(f: Face, shape: ColorShape)
  {
    match shape
    case Plain => f.PlainFace?
    case Colored(a) => f.ColoredFace? && ArityOf(f.color) == a
    case OptColored(a) =>
      f.OptionalColoredFace? && (f.maybeColor.Some? ==> ArityOf(f.maybeColor.value) == a)
  }

  /** Every face of `fs` has the face type `shape` names. */
  predicate AllFacesHaveShape(fs: seq<Face>, shape: ColorShape)
  {
    forall f | f in fs :: FaceHasShape(f, shape)
  }
}

module Meshes {
  import opened Vertices
  import opened Faces

  /** `mesh<VertexT, FaceT>`: the vertices, the faces and the declared edge count. */
  datatype Mesh = Mesh(vertices: seq<Vertex>, faces: seq<Face>, nEdges: nat)

  /** Every vertex has the one vertex type and every face the one face type of the mesh. */
  predicate MeshHasShapes(m: Mesh, vertexShape: VertexShape, faceShape: ColorShape)
  {
    AllVerticesHaveShape(m.vertices, vertexShape) && AllFacesHaveShape(m.faces, faceShape)
  }
}
