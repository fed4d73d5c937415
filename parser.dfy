/**
 * The OFF reader of `include/off_parser/parser.hpp`.
 *
 * The first half gives, as functions of the text still to be read, what each step of the
 * reader consumes and produces (`Scan...`, `Skip...`). The repeated reads carry what has
 * been read so far (`acc`), as the reader's loops do. The second half is the reader itself,
 * methods over an `InputStream` that peek, ignore and extract as the C++ does, each proved
 * to agree with its function. A failed extraction (the C++ stream's failbit) makes the
 * whole read fail (`None`).
 */
module Parser {
  import opened Wrappers
  import opened Vectors
  import opened Vertices
  import opened Faces
  import opened Meshes
  import opened Istream

  /** The three numbers of the counts line. */
  datatype Counts = Counts(nVertices: nat, nFaces: nat, nEdges: nat)

  // ---------------------------------------------------------------------------------------
  // What the reader does, as functions of the remaining text
  // ---------------------------------------------------------------------------------------

  /**
   * `ignore_comment_or_empty_lines`: consumes lone newlines and whole `#` lines, and stops,
   * consuming nothing more, at the end of the text or at any other character.
   */
  function SkipCommentOrEmptyLines(s: seq<char>): (r: seq<char>)
    ensures IsSuffix(r, s)
    ensures r == [] || (r[0] != '\n' && r[0] != '#')
    decreases |s|
  {
    if s == [] then []
    else if s[0] == '\n' then
      var r := SkipCommentOrEmptyLines(s[1..]);
      assert s[1..][|s| - 1 - |r|..] == s[|s| - |r|..];
      r
    else if s[0] == '#' then
      var t := SkipPast(s, '\n');
      var r := SkipCommentOrEmptyLines(t);
      assert t[|t| - |r|..] == s[|s| - |r|..];
      r
    else s
  }

  /** `acc` followed by `n` more whitespace-delimited integers; newlines count as whitespace. */
  function ScanInts(s: seq<char>, n: nat, acc: seq<int>): (r: Option<Parsed<seq<int>>>)
    ensures r.Some? ==> |r.value.value| == |acc| + n && r.value.value[..|acc|] == acc
    decreases n
  {
    if n == 0 then Some(Parsed(acc, s))
    else
      match ScanInt(s)
      case None => None
      case Some(Parsed(x, t)) =>
        var r := ScanInts(t, n - 1, acc + [x]);
        assert r.Some? ==> r.value.value[..|acc|] == (acc + [x])[..|acc|];
        r
  }

  /** `parse_vec<VecT>`: `VecT::size` integers become components 0 .. size-1, in order. */
  function ScanVec(s: seq<char>, a: Arity): (r: Option<Parsed<Vec>>)
    ensures r.Some? ==> ArityOf(r.value.value) == a
  {
    match ScanInts(s, Size(a), [])
    case None => None
    case Some(Parsed(xs, t)) => Some(Parsed(FromComponents(a, xs), t))
  }

  /**
   * The buffer loop of `parse_vec_within_line`: before each of the `n` remaining integers
   * the next character is peeked, and a newline there ends the read with no value.
   */
  function ScanIntsWithinLine(s: seq<char>, n: nat, acc: seq<int>): (r: Option<Parsed<Option<seq<int>>>>)
    ensures r.Some? && r.value.value.Some? ==> |r.value.value.value| == |acc| + n
    ensures r.Some? && r.value.value.None? ==> Peeked(r.value.rest) == Some('\n')
    decreases n
  {
    if n == 0 then Some(Parsed(Some(acc), s))
    else if Peeked(s) == Some('\n') then Some(Parsed(None, s))
    else
      match ScanInt(s)
      case None => None
      case Some(Parsed(x, t)) => ScanIntsWithinLine(t, n - 1, acc + [x])
  }

  /** `parse_vec_within_line<VecT>`: a vector, or no vector when a newline comes first. */
  function ScanVecWithinLine(s: seq<char>, a: Arity): (r: Option<Parsed<Option<Vec>>>)
    ensures r.Some? && r.value.value.Some? ==> ArityOf(r.value.value.value) == a
    ensures r.Some? && r.value.value.None? ==> Peeked(r.value.rest) == Some('\n')
  {
    match ScanIntsWithinLine(s, Size(a), [])
    case None => None
    case Some(Parsed(None, t)) => Some(Parsed(None, t))
    case Some(Parsed(Some(xs), t)) => Some(Parsed(Some(FromComponents(a, xs)), t))
  }

  /**
   * The index loop of a face record: `acc` followed by up to `n` more indices, stopping
   * early when the next character is a newline.
   */
  function ScanIndices(s: seq<char>, n: nat, acc: seq<nat>): (r: Option<Parsed<seq<nat>>>)
    ensures r.Some? ==> |acc| <= |r.value.value| <= |acc| + n && r.value.value[..|acc|] == acc
    ensures r.Some? && |r.value.value| < |acc| + n ==> Peeked(r.value.rest) == Some('\n')
    decreases n
  {
    if n == 0 || Peeked(s) == Some('\n') then Some(Parsed(acc, s))
    else
      match ScanNat(s)
      case None => None
      case Some(Parsed(i, t)) =>
        var r := ScanIndices(t, n - 1, acc + [i]);
        assert r.Some? ==> r.value.value[..|acc|] == (acc + [i])[..|acc|];
        r
  }

  /** One trip through the vertex loop of `parse`. */
  function ScanVertex(s: seq<char>, shape: VertexShape): (r: Option<Parsed<Vertex>>)
    ensures r.Some? ==> VertexHasShape(r.value.value, shape)
  {
    match ScanVec(SkipCommentOrEmptyLines(s), shape.position)
    case None => None
    case Some(Parsed(position, t)) =>
      match shape.color
      case Plain => Some(Parsed(PlainVertex(position), SkipPast(t, '\n')))
      case Colored(a) =>
        (match ScanVec(t, a)
         case None => None
         case Some(Parsed(color, u)) => Some(Parsed(ColoredVertex(position, color), SkipPast(u, '\n'))))
      case OptColored(a) =>
        (match ScanVecWithinLine(t, a)
         case None => None
         case Some(Parsed(color, u)) => Some(Parsed(OptionalColoredVertex(position, color), SkipPast(u, '\n'))))
  }

  /** The vertex loop of `parse`: `acc` followed by `n` more vertex records, in file order. */
  function ScanVertices(s: seq<char>, n: nat, shape: VertexShape, acc: seq<Vertex>): (r: Option<Parsed<seq<Vertex>>>)
    ensures r.Some? ==> |r.value.value| == |acc| + n
    ensures r.Some? && AllVerticesHaveShape(acc, shape) ==> AllVerticesHaveShape(r.value.value, shape)
    decreases n
  {
    if n == 0 then Some(Parsed(acc, s))
    else
      match ScanVertex(s, shape)
      case None => None
      case Some(Parsed(v, t)) => ScanVertices(t, n - 1, shape, acc + [v])
  }

  /** One trip through the face loop of `parse`. */
  function ScanFace(s: seq<char>, shape: ColorShape): (r: Option<Parsed<Face>>)
    ensures r.Some? ==> FaceHasShape(r.value.value, shape)
  {
    match ScanNat(SkipCommentOrEmptyLines(s))
    case None => None
    case Some(Parsed(count, t)) =>
      match ScanIndices(t, count, [])
      case None => None
      case Some(Parsed(indices, u)) =>
        match shape
        case Plain => Some(Parsed(PlainFace(indices), SkipPast(u, '\n')))
        case Colored(a) =>
          (match ScanVec(u, a)
           case None => None
           case Some(Parsed(color, w)) => Some(Parsed(ColoredFace(indices, color), SkipPast(w, '\n'))))
        case OptColored(a) =>
          (match ScanVecWithinLine(u, a)
           case None => None
           case Some(Parsed(color, w)) => Some(Parsed(OptionalColoredFace(indices, color), SkipPast(w, '\n'))))
  }

  /** The face loop of `parse`: `acc` followed by `n` more face records, in file order. */
  function ScanFaces(s: seq<char>, n: nat, shape: ColorShape, acc: seq<Face>): (r: Option<Parsed<seq<Face>>>)
    ensures r.Some? ==> |r.value.value| == |acc| + n
    ensures r.Some? && AllFacesHaveShape(acc, shape) ==> AllFacesHaveShape(r.value.value, shape)
    decreases n
  {
    if n == 0 then Some(Parsed(acc, s))
    else
      match ScanFace(s, shape)
      case None => None
      case Some(Parsed(f, t)) => ScanFaces(t, n - 1, shape, acc + [f])
  }

  /** `input >> n_vertices >> n_faces >> mesh.n_edges`. */
  function ScanCounts(s: seq<char>): Option<Parsed<Counts>>
  {
    match ScanNat(s)
    case None => None
    case Some(Parsed(nv, t)) =>
      match ScanNat(t)
      case None => None
      case Some(Parsed(nf, u)) =>
        match ScanNat(u)
        case None => None
        case Some(Parsed(ne, w)) => Some(Parsed(Counts(nv, nf, ne), w))
  }

  /**
   * The counts line is three unsigned extractions in turn: it fails exactly when one of
   * them fails, and otherwise stops right after the third number.
   */
  lemma ScanCountsReadsThree(s: seq<char>)
    ensures ScanCounts(s).Some? <==>
      && ScanNat(s).Some?
      && ScanNat(ScanNat(s).value.rest).Some?
      && ScanNat(ScanNat(ScanNat(s).value.rest).value.rest).Some?
    ensures ScanCounts(s).Some? ==>
      var rest := ScanCounts(s).value.rest;
      IsSuffix(rest, s) && |rest| < |s| && (rest == [] || !IsDigit(rest[0]))
  {
    if ScanCounts(s).Some? {
      var t := ScanNat(s).value.rest;
      var u := ScanNat(t).value.rest;
      ScanNatIsMaximal(s);
      ScanNatIsMaximal(t);
      ScanNatIsMaximal(u);
      SuffixTransitive(u, t, s);
      SuffixTransitive(ScanCounts(s).value.rest, u, s);
    }
  }

  /** Where the counts are read: after the header line and any comment or empty lines. */
  function CountsStart(s: seq<char>): (r: seq<char>)
    ensures IsSuffix(r, s)
    ensures '\n' !in s ==> r == []
    ensures r != [] ==> '\n' in s[..|s| - |r|] && r[0] != '\n' && r[0] != '#'
  {
    SkipCommentOrEmptyLines(SkipPast(s, '\n'))
  }

  /**
   * `parse<MeshT>`: the mesh an OFF text denotes for the given vertex and face types. When
   * every read succeeds, the mesh has exactly the declared numbers of vertices and faces,
   * all of the chosen types, and the declared edge count.
   */
  function ParseText(s: seq<char>, vertexShape: VertexShape, faceShape: ColorShape): (r: Option<Mesh>)
    ensures r.Some? ==> MeshHasShapes(r.value, vertexShape, faceShape)
    ensures r.Some? ==>
      && ScanCounts(CountsStart(s)).Some?
      && var counts := ScanCounts(CountsStart(s)).value.value;
      && |r.value.vertices| == counts.nVertices
      && |r.value.faces| == counts.nFaces
      && r.value.nEdges == counts.nEdges
  {
    match ScanCounts(CountsStart(s))
    case None => None
    case Some(Parsed(counts, t)) =>
      match ScanVertices(SkipPast(t, '\n'), counts.nVertices, vertexShape, [])
      case None => None
      case Some(Parsed(vertices, u)) =>
        match ScanFaces(u, counts.nFaces, faceShape, [])
        case None => None
        case Some(Parsed(faces, _)) => Some(Mesh(vertices, faces, counts.nEdges))
  }

  // ---------------------------------------------------------------------------------------
  // The reader
  // ---------------------------------------------------------------------------------------

  /** `ignore_until_newline`. */
  method IgnoreUntilNewline(input: InputStream)
    requires input.Valid()
    modifies input
    ensures input.Valid()
    ensures input.Rest() == SkipPast(old(input.Rest()), '\n')
  {
    input.IgnoreThrough('\n');
  }

  /** `ignore_comment_or_empty_lines`. */
  method IgnoreCommentOrEmptyLines(input: InputStream)
    requires input.Valid()
    modifies input
    ensures input.Valid()
    ensures input.Rest() == SkipCommentOrEmptyLines(old(input.Rest()))
  {
    var eof := input.Eof();
    while !eof
      invariant input.Valid()
      invariant eof <==> input.Rest() == []
      invariant SkipCommentOrEmptyLines(input.Rest()) == SkipCommentOrEmptyLines(old(input.Rest()))
      decreases |input.Rest()|
    {
      var c := input.Peek();
      if c == Some('\n') {
        input.Ignore();
      } else if c == Some('#') {
        IgnoreUntilNewline(input);
      } else {
        return;
      }
      eof := input.Eof();
    }
  }

  /**
   * `parse_vec<VecT>`: the fold `input >> nth<0>(result) >> ... >> nth<size-1>(result)`,
   * one extraction per component index in increasing order.
   */
  method ParseVec(input: InputStream, a: Arity) returns (r: Option<Vec>)
    requires input.Valid()
    modifies input
    ensures input.Valid()
    ensures Agrees(r, ScanVec(old(input.Rest()), a), input.Rest())
  {
    hide ScanInt, Components, WithNth;
    ghost var whole := ScanInts(input.Rest(), Size(a), []);
    var result := Zero(a);
    var i := 0;
    assert Components(result)[..0] == [];
    while i < Size(a)
      invariant input.Valid()
      invariant 0 <= i <= Size(a) && ArityOf(result) == a
      invariant whole == ScanInts(input.Rest(), Size(a) - i, Components(result)[..i])
    {
      var c := input.ReadInt();
      if c.None? {
        return None;
      }
      ComponentsWithNth(result, i, c.value);
      UpdatedPrefix(Components(result), i, c.value);
      result := WithNth(result, i, c.value);
      i := i + 1;
    }
    assert Components(result)[..Size(a)] == Components(result);
    ComponentsRoundTrip(result);
    r := Some(result);
  }

  /** Writing element `i` of a sequence and keeping the first `i + 1` elements. */
  lemma UpdatedPrefix<T>(s: seq<T>, i: nat, x: T)
    requires i < |s|
    ensures s[i := x][..i + 1] == s[..i] + [x]
  {
  }

  /** `parse_vec_within_line<VecT>`: fills `buffer` unless a newline is peeked first. */
  method ParseVecWithinLine(input: InputStream, a: Arity) returns (r: Option<Option<Vec>>)
    requires input.Valid()
    modifies input
    ensures input.Valid()
    ensures Agrees(r, ScanVecWithinLine(old(input.Rest()), a), input.Rest())
  {
    hide ScanInt;
    ghost var whole := ScanIntsWithinLine(input.Rest(), Size(a), []);
    var buffer := new int[Size(a)];
    var i := 0;
    while i < buffer.Length
      invariant input.Valid()
      invariant 0 <= i <= buffer.Length == Size(a)
      invariant whole == ScanIntsWithinLine(input.Rest(), Size(a) - i, buffer[..i])
    {
      var c := input.Peek();
      if c == Some('\n') {
        return Some(None);
      }
      ghost var done := buffer[..i];
      var x := input.ReadInt();
      if x.None? {
        return None;
      }
      buffer[i] := x.value;
      assert buffer[..i + 1] == done + [x.value];
      i := i + 1;
    }
    assert buffer[..i] == buffer[..];
    r := Some(Some(FromComponents(a, buffer[..])));
  }

  /** The body of the vertex loop of `parse`: one vertex record. */
  method ParseVertex(input: InputStream, shape: VertexShape) returns (r: Option<Vertex>)
    requires input.Valid()
    modifies input
    ensures input.Valid()
    ensures Agrees(r, ScanVertex(old(input.Rest()), shape), input.Rest())
  {
    hide ScanVec, ScanVecWithinLine, SkipPast, SkipCommentOrEmptyLines;
    IgnoreCommentOrEmptyLines(input);
    var position := ParseVec(input, shape.position);
    if position.None? {
      return None;
    }
    // Each branch ends with the rest-of-line skip that follows the `if constexpr` chain.
    match shape.color
    case Plain =>
      IgnoreUntilNewline(input);
      r := Some(PlainVertex(position.value));
    case Colored(a) =>
      var color := ParseVec(input, a);
      if color.None? {
        return None;
      }
      IgnoreUntilNewline(input);
      r := Some(ColoredVertex(position.value, color.value));
    case OptColored(a) =>
      var color := ParseVecWithinLine(input, a);
      if color.None? {
        return None;
      }
      IgnoreUntilNewline(input);
      r := Some(OptionalColoredVertex(position.value, color.value));
  }

  /** The index loop of a face record: stops after `count` indices or before a newline. */
  method ParseIndices(input: InputStream, count: nat) returns (r: Option<seq<nat>>)
    requires input.Valid()
    modifies input
    ensures input.Valid()
    ensures Agrees(r, ScanIndices(old(input.Rest()), count, []), input.Rest())
  {
    hide ScanNat;
    ghost var whole := ScanIndices(input.Rest(), count, []);
    var indices: seq<nat> := [];
    var j := 0;
    var next := input.Peek();
    while j < count && next != Some('\n')
      invariant input.Valid()
      invariant 0 <= j <= count && |indices| == j
      invariant next == Peeked(input.Rest())
      invariant whole == ScanIndices(input.Rest(), count - j, indices)
      decreases count - j
    {
      var index := input.ReadNat();
      if index.None? {
        return None;
      }
      indices := indices + [index.value];
      j := j + 1;
      next := input.Peek();
    }
    r := Some(indices);
  }

  /** The body of the face loop of `parse`: one face record. */
  method ParseFace(input: InputStream, shape: ColorShape) returns (r: Option<Face>)
    requires input.Valid()
    modifies input
    ensures input.Valid()
    ensures Agrees(r, ScanFace(old(input.Rest()), shape), input.Rest())
  {
    hide ScanNat, ScanIndices, ScanVec, ScanVecWithinLine, SkipPast, SkipCommentOrEmptyLines;
    IgnoreCommentOrEmptyLines(input);
    var count := input.ReadNat();
    if count.None? {
      return None;
    }
    var indices := ParseIndices(input, count.value);
    if indices.None? {
      return None;
    }
    // Each branch ends with the rest-of-line skip that follows the `if constexpr` chain.
    match shape
    case Plain =>
      IgnoreUntilNewline(input);
      r := Some(PlainFace(indices.value));
    case Colored(a) =>
      var color := ParseVec(input, a);
      if color.None? {
        return None;
      }
      IgnoreUntilNewline(input);
      r := Some(ColoredFace(indices.value, color.value));
    case OptColored(a) =>
      var color := ParseVecWithinLine(input, a);
      if color.None? {
        return None;
      }
      IgnoreUntilNewline(input);
      r := Some(OptionalColoredFace(indices.value, color.value));
  }

  /** The vertex loop of `parse`. */
  method ParseVertices(input: InputStream, n: nat, shape: VertexShape) returns (r: Option<seq<Vertex>>)
    requires input.Valid()
    modifies input
    ensures input.Valid()
    ensures Agrees(r, ScanVertices(old(input.Rest()), n, shape, []), input.Rest())
  {
    hide ScanVertex;
    ghost var whole := ScanVertices(input.Rest(), n, shape, []);
    var vertices: seq<Vertex> := [];
    var i := 0;
    while i < n
      invariant input.Valid()
      invariant 0 <= i <= n
      invariant whole == ScanVertices(input.Rest(), n - i, shape, vertices)
    {
      var vertex := ParseVertex(input, shape);
      if vertex.None? {
        return None;
      }
      vertices := vertices + [vertex.value];
      i := i + 1;
    }
    r := Some(vertices);
  }

  /** The face loop of `parse`. */
  method ParseFaces(input: InputStream, n: nat, shape: ColorShape) returns (r: Option<seq<Face>>)
    requires input.Valid()
    modifies input
    ensures input.Valid()
    ensures Agrees(r, ScanFaces(old(input.Rest()), n, shape, []), input.Rest())
  {
    hide ScanFace;
    ghost var whole := ScanFaces(input.Rest(), n, shape, []);
    var faces: seq<Face> := [];
    var i := 0;
    while i < n
      invariant input.Valid()
      invariant 0 <= i <= n
      invariant whole == ScanFaces(input.Rest(), n - i, shape, faces)
    {
      var face := ParseFace(input, shape);
      if face.None? {
        return None;
      }
      faces := faces + [face.value];
      i := i + 1;
    }
    r := Some(faces);
  }

  /**
   * `parse<MeshT>`: skips the header line and any comment or empty lines, reads the three
   * counts, skips the rest of their line, then reads the vertex and the face records.
   */
  method Parse(input: InputStream, vertexShape: VertexShape, faceShape: ColorShape) returns (r: Option<Mesh>)
    requires input.Valid()
    modifies input
    ensures input.Valid()
    ensures r == ParseText(old(input.Rest()), vertexShape, faceShape)
  {
    ghost var text := input.Rest();
    IgnoreUntilNewline(input);
    IgnoreCommentOrEmptyLines(input);
    var nVertices := input.ReadNat();
    if nVertices.None? {
      return None;
    }
    var nFaces := input.ReadNat();
    if nFaces.None? {
      return None;
    }
    var nEdges := input.ReadNat();
    if nEdges.None? {
      return None;
    }
    assert ScanCounts(CountsStart(text))
        == Some(Parsed(Counts(nVertices.value, nFaces.value, nEdges.value), input.Rest()));
    IgnoreUntilNewline(input);
    var vertices := ParseVertices(input, nVertices.value, vertexShape);
    if vertices.None? {
      return None;
    }
    var faces := ParseFaces(input, nFaces.value, faceShape);
    if faces.None? {
      return None;
    }
    r := Some(Mesh(vertices.value, faces.value, nEdges.value));
  }
}
