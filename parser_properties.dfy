/**
 * Properties of the OFF reader, stated on the functions of `Parser`. The partner the reader
 * is checked against is a writer (`WriteOff`), a reference definition of the OFF text that
 * a mesh is written as: one record per line, numbers separated by single spaces. Reading
 * what it writes gives the mesh back. Further lemmas pin down the line-boundary behaviour
 * of the reader: what it never looks at, what it skips, and where colour may come from.
 */
module ParserProperties {
  import opened Wrappers
  import opened Vectors
  import opened Vertices
  import opened Faces
  import opened Meshes
  import opened Istream
  import opened Parser

  // ---------------------------------------------------------------------------------------
  // Numbers
  // ---------------------------------------------------------------------------------------

  function DigitChar(d: nat): (c: char)
    requires d < 10
    ensures IsDigit(c) && DigitValue(c) == d
  {
    ('0' as int + d) as char
  }

  /** The decimal digits of `n`, most significant first, with no leading zeros. */
  function Digits(n: nat): (ds: seq<char>)
    ensures ds != [] && AllDigits(ds)
    decreases n
  {
    if n < 10 then [DigitChar(n)] else Digits(n / 10) + [DigitChar(n % 10)]
  }

  /** `n` written in decimal, with a leading `-` when it is negative. */
  function Show(x: int): (s: seq<char>)
    ensures s != [] && (s[0] == '-' || IsDigit(s[0]))
  {
    if x < 0 then ['-'] + Digits(-x) else Digits(x)
  }

  /** What follows a number in `rest` ends it: nothing, or a character that is not a digit. */
  predicate EndsNumber(rest: seq<char>)
  {
    rest == [] || !IsDigit(rest[0])
  }

  /** A digit run continues the accumulation, and the reading goes on after it. */
  lemma {:induction false} DigitRunAppend(ds: seq<char>, rest: seq<char>, acc: nat)
    requires AllDigits(ds)
    ensures DigitRun(ds, acc).rest == []
    ensures DigitRun(ds + rest, acc) == DigitRun(rest, DigitRun(ds, acc).value)
    decreases |ds|
  {
    if ds != [] {
      assert (ds + rest)[1..] == ds[1..] + rest;
      assert IsDigit(ds[0]);
      DigitRunAppend(ds[1..], rest, acc * 10 + DigitValue(ds[0]));
    } else {
      assert ds + rest == rest;
    }
  }

  /** Accumulating the digits of `n` gives `n`. */
  lemma {:induction false} DigitRunOfDigits(n: nat)
    ensures DigitRun(Digits(n), 0) == Parsed(n, [])
    decreases n
  {
    var c := DigitChar(n % 10);
    if n >= 10 {
      DigitRunOfDigits(n / 10);
      DigitRunAppend(Digits(n / 10), [c], 0);
      assert [c][1..] == [];
    } else {
      assert [c][1..] == [];
    }
  }

  /** The digit run of `n` is read back as `n` when what follows does not extend it. */
  lemma ScanDigitsOfDigits(n: nat, rest: seq<char>)
    requires EndsNumber(rest)
    ensures ScanDigits(Digits(n) + rest) == Some(Parsed(n, rest))
  {
    DigitRunOfDigits(n);
    DigitRunAppend(Digits(n), rest, 0);
  }

  /** The sentry skips exactly the whitespace `pre` before a number. */
  lemma {:induction false} SkipSpaceBefore(pre: seq<char>, s: seq<char>)
    requires AllSpace(pre)
    requires s != [] && !IsSpace(s[0])
    ensures SkipSpace(pre + s) == s
    decreases |pre|
  {
    if pre != [] {
      assert (pre + s)[1..] == pre[1..] + s;
      SkipSpaceBefore(pre[1..], s);
    }
  }

  /** `input >> x` into a signed integer reads a written integer back, after any whitespace. */
  lemma ScanIntOfShow(pre: seq<char>, x: int, rest: seq<char>)
    requires AllSpace(pre) && EndsNumber(rest)
    ensures ScanInt(pre + Show(x) + rest) == Some(Parsed(x, rest))
  {
    hide SkipSpace, ScanDigits, Digits;
    SkipSpaceBefore(pre, Show(x) + rest);
    assert pre + Show(x) + rest == pre + (Show(x) + rest);
    if x < 0 {
      assert (['-'] + Digits(-x) + rest)[1..] == Digits(-x) + rest;
      ScanDigitsOfDigits(-x, rest);
    } else {
      ScanDigitsOfDigits(x, rest);
    }
  }

  /** `input >> n` into an unsigned integer reads a written count or index back. */
  lemma ScanNatOfShow(pre: seq<char>, n: nat, rest: seq<char>)
    requires AllSpace(pre) && EndsNumber(rest)
    ensures ScanNat(pre + Show(n) + rest) == Some(Parsed(n, rest))
  {
    hide SkipSpace, ScanDigits, Digits;
    SkipSpaceBefore(pre, Show(n) + rest);
    assert pre + Show(n) + rest == pre + (Show(n) + rest);
    ScanDigitsOfDigits(n, rest);
  }

  /** The same, with nothing before the number. */
  lemma ScanNatOfShowAtStart(n: nat, rest: seq<char>)
    requires EndsNumber(rest)
    ensures ScanNat(Show(n) + rest) == Some(Parsed(n, rest))
  {
    hide ScanNat, Show;
    ScanNatOfShow([], n, rest);
    assert [] + Show(n) + rest == Show(n) + rest;
  }

  // ---------------------------------------------------------------------------------------
  // Sequences of numbers
  // ---------------------------------------------------------------------------------------

  /** Each number preceded by one space. */
  function Fields(xs: seq<int>): (s: seq<char>)
    ensures xs == [] <==> s == []
    ensures xs != [] ==> s[0] == ' '
  {
    if xs == [] then [] else [' '] + Show(xs[0]) + Fields(xs[1..])
  }

  /** Numbers separated by single spaces. */
  function Join(xs: seq<int>): (s: seq<char>)
    ensures xs != [] ==> s != [] && (s[0] == '-' || IsDigit(s[0]))
  {
    if xs == [] then [] else Show(xs[0]) + Fields(xs[1..])
  }

  lemma {:induction false} FieldsAppend(xs: seq<int>, ys: seq<int>)
    ensures Fields(xs + ys) == Fields(xs) + Fields(ys)
    decreases |xs|
  {
    if xs == [] {
      assert xs + ys == ys;
    } else {
      assert (xs + ys)[1..] == xs[1..] + ys;
      FieldsAppend(xs[1..], ys);
    }
  }

  /** The whitespace-delimited reads of `parse_vec` read written fields back, in order. */
  lemma {:induction false} ScanIntsOfFields(xs: seq<int>, rest: seq<char>, acc: seq<int>)
    requires EndsNumber(rest)
    ensures ScanInts(Fields(xs) + rest, |xs|, acc) == Some(Parsed(acc + xs, rest))
    decreases |xs|
  {
    hide ScanInt, Show;
    if xs == [] {
      assert Fields(xs) + rest == rest;
      assert acc + xs == acc;
    } else {
      ScanIntsStep(xs, rest, acc);
      ScanIntsOfFields(xs[1..], rest, acc + [xs[0]]);
      assert acc + [xs[0]] + xs[1..] == acc + xs;
    }
  }

  /** One read of `ScanIntsOfFields`. */
  lemma ScanIntsStep(xs: seq<int>, rest: seq<char>, acc: seq<int>)
    requires xs != [] && EndsNumber(rest)
    ensures ScanInts(Fields(xs) + rest, |xs|, acc) == ScanInts(Fields(xs[1..]) + rest, |xs| - 1, acc + [xs[0]])
  {
    hide ScanInt, Show;
    var tail := Fields(xs[1..]) + rest;
    assert Fields(xs) + rest == [' '] + Show(xs[0]) + tail;
    ScanIntOfShow([' '], xs[0], tail);
  }

  /**
   * The same for numbers separated by single spaces, after any whitespace `pre`; newlines
   * in `pre` are skipped like any other whitespace.
   */
  lemma ScanIntsOfJoin(pre: seq<char>, xs: seq<int>, rest: seq<char>, acc: seq<int>)
    requires AllSpace(pre) && xs != [] && EndsNumber(rest)
    ensures ScanInts(pre + Join(xs) + rest, |xs|, acc) == Some(Parsed(acc + xs, rest))
  {
    hide ScanInts, Join, Fields;
    JoinStep(pre, xs, rest, acc);
    ScanIntsOfFields(xs[1..], rest, acc + [xs[0]]);
    assert acc + [xs[0]] + xs[1..] == acc + xs;
  }

  /** One read of `ScanIntsOfJoin`: the first number, after the whitespace `pre`. */
  lemma JoinStep(pre: seq<char>, xs: seq<int>, rest: seq<char>, acc: seq<int>)
    requires AllSpace(pre) && xs != [] && EndsNumber(rest)
    ensures ScanInts(pre + Join(xs) + rest, |xs|, acc) == ScanInts(Fields(xs[1..]) + rest, |xs| - 1, acc + [xs[0]])
  {
    hide ScanInt, Show;
    var tail := Fields(xs[1..]) + rest;
    assert pre + Join(xs) + rest == pre + Show(xs[0]) + tail;
    ScanIntOfShow(pre, xs[0], tail);
  }

  /** The peeking reads of `parse_vec_within_line` read written fields back too. */
  lemma {:induction false} ScanIntsWithinLineOfFields(xs: seq<int>, rest: seq<char>, acc: seq<int>)
    requires EndsNumber(rest)
    ensures ScanIntsWithinLine(Fields(xs) + rest, |xs|, acc) == Some(Parsed(Some(acc + xs), rest))
    decreases |xs|
  {
    hide ScanInt, Show;
    if xs == [] {
      assert Fields(xs) + rest == rest;
      assert acc + xs == acc;
    } else {
      ScanIntsWithinLineStep(xs, rest, acc);
      ScanIntsWithinLineOfFields(xs[1..], rest, acc + [xs[0]]);
      assert acc + [xs[0]] + xs[1..] == acc + xs;
    }
  }

  /** One read of `ScanIntsWithinLineOfFields`: the peek sees the space, not a newline. */
  lemma ScanIntsWithinLineStep(xs: seq<int>, rest: seq<char>, acc: seq<int>)
    requires xs != [] && EndsNumber(rest)
    ensures ScanIntsWithinLine(Fields(xs) + rest, |xs|, acc)
         == ScanIntsWithinLine(Fields(xs[1..]) + rest, |xs| - 1, acc + [xs[0]])
  {
    hide ScanInt, Show;
    var tail := Fields(xs[1..]) + rest;
    assert Fields(xs) + rest == [' '] + Show(xs[0]) + tail;
    ScanIntOfShow([' '], xs[0], tail);
  }

  /**
   * The index loop of a face record reads written indices back. It reads as many as are
   * written: all `n` when `n` are, and fewer when the newline after them is peeked first.
   */
  lemma {:induction false} ScanIndicesOfFields(indices: seq<nat>, n: nat, rest: seq<char>, acc: seq<nat>)
    requires |indices| <= n && EndsNumber(rest)
    requires |indices| < n ==> Peeked(rest) == Some('\n')
    ensures ScanIndices(Fields(indices) + rest, n, acc) == Some(Parsed(acc + indices, rest))
    decreases |indices|
  {
    hide ScanNat, Show;
    if indices == [] {
      assert Fields(indices) + rest == rest;
      assert acc + indices == acc;
    } else {
      ScanIndicesStep(indices, n, rest, acc);
      ScanIndicesOfFields(indices[1..], n - 1, rest, acc + [indices[0]]);
      assert acc + [indices[0]] + indices[1..] == acc + indices;
    }
  }

  /** One read of `ScanIndicesOfFields`: the peek sees the space, not a newline. */
  lemma ScanIndicesStep(indices: seq<nat>, n: nat, rest: seq<char>, acc: seq<nat>)
    requires indices != [] && |indices| <= n && EndsNumber(rest)
    ensures ScanIndices(Fields(indices) + rest, n, acc)
         == ScanIndices(Fields(indices[1..]) + rest, n - 1, acc + [indices[0]])
  {
    hide ScanNat, Show;
    var tail := Fields(indices[1..]) + rest;
    assert Fields(indices) + rest == [' '] + Show(indices[0]) + tail;
    ScanNatOfShow([' '], indices[0], tail);
  }

  /** `ignore_until_newline` skips a line that has no newline in it, and its newline. */
  lemma {:induction false} SkipPastLine(line: seq<char>, rest: seq<char>)
    requires '\n' !in line
    ensures SkipPast(line + "\n" + rest, '\n') == rest
    decreases |line|
  {
    if line == [] {
      assert line + "\n" + rest == "\n" + rest;
    } else {
      assert (line + "\n" + rest)[1..] == line[1..] + "\n" + rest;
      assert line[0] in line;
      SkipPastLine(line[1..], rest);
    }
  }

  /** `ignore_until_newline` at a newline consumes just the newline. */
  lemma SkipPastNewline(rest: seq<char>)
    ensures SkipPast("\n" + rest, '\n') == rest
  {
  }

  // ---------------------------------------------------------------------------------------
  // Records
  // ---------------------------------------------------------------------------------------

  /** The colour a vertex carries, if any. */
  function VertexColor(v: Vertex): Option<Vec>
  {
    match v
    case PlainVertex(_) => None
    case ColoredVertex(_, c) => Some(c)
    case OptionalColoredVertex(_, c) => c
  }

  /** The colour a face carries, if any. */
  function FaceColor(f: Face): Option<Vec>
  {
    match f
    case PlainFace(_) => None
    case ColoredFace(_, c) => Some(c)
    case OptionalColoredFace(_, c) => c
  }

  /** The numbers a colour is written as: its components, or nothing. */
  function ColorFields(c: Option<Vec>): seq<int>
  {
    if c.Some? then Components(c.value) else []
  }

  /** A vertex record: the position, then the colour if there is one, then a newline. */
  function VertexLine(v: Vertex): seq<char>
  {
    Join(Components(v.position)) + Fields(ColorFields(VertexColor(v))) + "\n"
  }

  /** A face record: the index count, the indices, then the colour if any, then a newline. */
  function FaceLine(f: Face): seq<char>
  {
    Show(|f.vertexIndices|) + Fields(f.vertexIndices) + Fields(ColorFields(FaceColor(f))) + "\n"
  }

  function VertexLines(vs: seq<Vertex>): seq<char>
  {
    if vs == [] then [] else VertexLine(vs[0]) + VertexLines(vs[1..])
  }

  function FaceLines(fs: seq<Face>): seq<char>
  {
    if fs == [] then [] else FaceLine(fs[0]) + FaceLines(fs[1..])
  }

  /**
   * The colour part of a record, after the position or the indices and before `line`, what
   * is left of the line: the shape decides how it is read. Optional colour that is absent
   * needs the newline right after it, since anything else would be read as the colour.
   */
  lemma ColorRoundTrip(c: Option<Vec>, shape: ColorShape, line: seq<char>)
    requires match shape
      case Plain => c.None?
      case Colored(a) => c.Some? && ArityOf(c.value) == a
      case OptColored(a) => c.Some? ==> ArityOf(c.value) == a
    requires EndsNumber(line)
    requires shape.OptColored? && c.None? ==> Peeked(line) == Some('\n')
    ensures var s := Fields(ColorFields(c)) + line;
      match shape
      case Plain => s == line
      case Colored(a) => ScanVec(s, a) == Some(Parsed(c.value, line))
      case OptColored(a) => ScanVecWithinLine(s, a) == Some(Parsed(c, line))
  {
    hide ScanInt, Show;
    var s := Fields(ColorFields(c)) + line;
    match shape
    case Plain =>
      assert s == line;
    case Colored(a) =>
      ScanIntsOfFields(Components(c.value), line, []);
      ComponentsRoundTrip(c.value);
    case OptColored(a) =>
      if c.Some? {
        ScanIntsWithinLineOfFields(Components(c.value), line, []);
        ComponentsRoundTrip(c.value);
      } else {
        assert s == line;
      }
  }

  /**
   * One trip through the vertex loop, from its parts: the position read from `s` leaves `t`,
   * and the colour the shape calls for, read from `t`, leaves `u`.
   */
  lemma VertexOfParts(s: seq<char>, shape: VertexShape, v: Vertex, t: seq<char>, u: seq<char>)
    requires VertexHasShape(v, shape)
    requires SkipCommentOrEmptyLines(s) == s
    requires ScanVec(s, shape.position) == Some(Parsed(v.position, t))
    requires match shape.color
      case Plain => t == u
      case Colored(a) => ScanVec(t, a) == Some(Parsed(VertexColor(v).value, u))
      case OptColored(a) => ScanVecWithinLine(t, a) == Some(Parsed(VertexColor(v), u))
    ensures ScanVertex(s, shape) == Some(Parsed(v, SkipPast(u, '\n')))
  {
    hide ScanVec, ScanVecWithinLine, SkipPast, SkipCommentOrEmptyLines;
  }

  /**
   * One trip through the face loop, from its parts: the count read from `s` leaves `t`, the
   * index loop leaves `u`, and the colour the shape calls for, read from `u`, leaves `w`.
   */
  lemma FaceOfParts(s: seq<char>, shape: ColorShape, f: Face, count: nat, t: seq<char>, u: seq<char>, w: seq<char>)
    requires FaceHasShape(f, shape)
    requires SkipCommentOrEmptyLines(s) == s
    requires ScanNat(s) == Some(Parsed(count, t))
    requires ScanIndices(t, count, []) == Some(Parsed(f.vertexIndices, u))
    requires match shape
      case Plain => u == w
      case Colored(a) => ScanVec(u, a) == Some(Parsed(FaceColor(f).value, w))
      case OptColored(a) => ScanVecWithinLine(u, a) == Some(Parsed(FaceColor(f), w))
    ensures ScanFace(s, shape) == Some(Parsed(f, SkipPast(w, '\n')))
  {
    hide ScanNat, ScanIndices, ScanVec, ScanVecWithinLine, SkipPast, SkipCommentOrEmptyLines;
  }

  /**
   * A vertex record is read from its fields up to `line`, what follows them on the line, and
   * then the reader skips past the end of that line.
   */
  lemma VertexRecordRead(v: Vertex, shape: VertexShape, line: seq<char>)
    requires VertexHasShape(v, shape)
    requires EndsNumber(line)
    requires shape.color.OptColored? && VertexColor(v).None? ==> Peeked(line) == Some('\n')
    ensures ScanVertex(Join(Components(v.position)) + (Fields(ColorFields(VertexColor(v))) + line), shape)
         == Some(Parsed(v, SkipPast(line, '\n')))
  {
    var color := VertexColor(v);
    var after := Fields(ColorFields(color)) + line;
    assert Fields(ColorFields(None)) == [];
    hide ScanVertex, ScanInts, ScanIntsWithinLine, ScanInt, ScanVec, ScanVecWithinLine, Join, Fields, Show, SkipPast, SkipCommentOrEmptyLines;
    assert EndsNumber(after);
    PositionRoundTrip(v.position, after);
    ColorRoundTrip(color, shape.color, line);
    VertexOfParts(Join(Components(v.position)) + after, shape, v, after, line);
  }

  /**
   * A vertex record with extra tokens `junk` after its fields reads as the vertex, and the
   * extra tokens never reach the next record.
   */
  lemma VertexRecordWithExtraTokens(v: Vertex, shape: VertexShape, junk: seq<char>, rest: seq<char>)
    requires VertexHasShape(v, shape)
    requires '\n' !in junk && EndsNumber(junk + "\n" + rest)
    requires shape.color.OptColored? && VertexColor(v).None? ==> junk == []
    ensures ScanVertex(Join(Components(v.position)) + (Fields(ColorFields(VertexColor(v))) + (junk + "\n" + rest)), shape)
         == Some(Parsed(v, rest))
  {
    hide ScanVertex, Join, Fields, SkipPast;
    var line := junk + "\n" + rest;
    assert junk == [] ==> Peeked(line) == Some('\n');
    SkipPastLine(junk, rest);
    VertexRecordRead(v, shape, line);
  }

  /** The position of a vertex record, read from the front of the record. */
  lemma PositionRoundTrip(p: Vec, after: seq<char>)
    requires EndsNumber(after)
    ensures var s := Join(Components(p)) + after;
      SkipCommentOrEmptyLines(s) == s && ScanVec(s, ArityOf(p)) == Some(Parsed(p, after))
  {
    hide ScanInts, ScanInt, Join, Fields, Show;
    assert Join(Components(p)) + after == [] + Join(Components(p)) + after;
    ScanIntsOfJoin([], Components(p), after, []);
    ComponentsRoundTrip(p);
  }

  /** Reading a written vertex record gives the vertex back, and stops at the next line. */
  lemma VertexLineRoundTrip(v: Vertex, shape: VertexShape, rest: seq<char>)
    requires VertexHasShape(v, shape)
    ensures ScanVertex(VertexLine(v) + rest, shape) == Some(Parsed(v, rest))
  {
    hide ScanVertex, Join, Fields;
    var position := Join(Components(v.position));
    var color := Fields(ColorFields(VertexColor(v)));
    assert VertexLine(v) + rest == position + (color + ("\n" + rest));
    SkipPastNewline(rest);
    VertexRecordRead(v, shape, "\n" + rest);
  }

  /**
   * A face record is read from its fields up to `line`, what follows them on the line, and
   * then the reader skips past the end of that line.
   */
  lemma FaceRecordRead(f: Face, shape: ColorShape, line: seq<char>)
    requires FaceHasShape(f, shape)
    requires EndsNumber(line)
    requires shape.OptColored? && FaceColor(f).None? ==> Peeked(line) == Some('\n')
    ensures ScanFace(Show(|f.vertexIndices|) + Fields(f.vertexIndices) + (Fields(ColorFields(FaceColor(f))) + line), shape)
         == Some(Parsed(f, SkipPast(line, '\n')))
  {
    var indices := f.vertexIndices;
    var color := FaceColor(f);
    var after := Fields(ColorFields(color)) + line;
    assert Fields(ColorFields(None)) == [];
    hide ScanFace, ScanInts, ScanIntsWithinLine, ScanIndices, ScanInt, ScanNat, ScanVec, ScanVecWithinLine, Fields, Show, SkipPast, SkipCommentOrEmptyLines;
    assert EndsNumber(after);
    IndicesRoundTrip(indices, after);
    ColorRoundTrip(color, shape, line);
    FaceOfParts(Show(|indices|) + Fields(indices) + after, shape, f, |indices|, Fields(indices) + after, after, line);
  }

  /**
   * A face record with extra tokens `junk` after its fields reads as the face, and the extra
   * tokens never reach the next record.
   */
  lemma FaceRecordWithExtraTokens(f: Face, shape: ColorShape, junk: seq<char>, rest: seq<char>)
    requires FaceHasShape(f, shape)
    requires '\n' !in junk && EndsNumber(junk + "\n" + rest)
    requires shape.OptColored? && FaceColor(f).None? ==> junk == []
    ensures ScanFace(Show(|f.vertexIndices|) + Fields(f.vertexIndices) + (Fields(ColorFields(FaceColor(f))) + (junk + "\n" + rest)), shape)
         == Some(Parsed(f, rest))
  {
    hide ScanFace, Show, Fields, SkipPast;
    var line := junk + "\n" + rest;
    assert junk == [] ==> Peeked(line) == Some('\n');
    SkipPastLine(junk, rest);
    FaceRecordRead(f, shape, line);
  }

  /** The count and the indices of a face record, read from the front of the record. */
  lemma IndicesRoundTrip(indices: seq<nat>, after: seq<char>)
    requires EndsNumber(after)
    ensures var s := Show(|indices|) + Fields(indices) + after;
      && SkipCommentOrEmptyLines(s) == s
      && ScanNat(s) == Some(Parsed(|indices| as nat, Fields(indices) + after))
      && ScanIndices(Fields(indices) + after, |indices|, []) == Some(Parsed(indices, after))
  {
    hide ScanIndices, ScanNat, Fields, Show;
    var s := Show(|indices|) + Fields(indices) + after;
    assert ScanNat(s) == Some(Parsed(|indices| as nat, Fields(indices) + after)) by {
      assert s == Show(|indices|) + (Fields(indices) + after);
      assert EndsNumber(Fields(indices) + after);
      ScanNatOfShowAtStart(|indices|, Fields(indices) + after);
    }
    ScanIndicesOfFields(indices, |indices|, after, []);
  }

  /** Reading a written face record gives the face back, and stops at the next line. */
  lemma FaceLineRoundTrip(f: Face, shape: ColorShape, rest: seq<char>)
    requires FaceHasShape(f, shape)
    ensures ScanFace(FaceLine(f) + rest, shape) == Some(Parsed(f, rest))
  {
    hide ScanFace, Show, Fields;
    var indices := Show(|f.vertexIndices|) + Fields(f.vertexIndices);
    var color := Fields(ColorFields(FaceColor(f)));
    assert FaceLine(f) + rest == indices + (color + ("\n" + rest));
    SkipPastNewline(rest);
    FaceRecordRead(f, shape, "\n" + rest);
  }

  /** One trip through the vertex loop. */
  lemma ScanVerticesStep(s: seq<char>, n: nat, shape: VertexShape, acc: seq<Vertex>)
    requires n > 0 && ScanVertex(s, shape).Some?
    ensures var p := ScanVertex(s, shape).value;
      ScanVertices(s, n, shape, acc) == ScanVertices(p.rest, n - 1, shape, acc + [p.value])
  {
    hide ScanVertex;
  }

  /** One trip through the face loop. */
  lemma ScanFacesStep(s: seq<char>, n: nat, shape: ColorShape, acc: seq<Face>)
    requires n > 0 && ScanFace(s, shape).Some?
    ensures var p := ScanFace(s, shape).value;
      ScanFaces(s, n, shape, acc) == ScanFaces(p.rest, n - 1, shape, acc + [p.value])
  {
    hide ScanFace;
  }

  /** The vertex loop reads written vertex records back, in file order. */
  lemma {:induction false} ScanVerticesOfLines(vs: seq<Vertex>, shape: VertexShape, rest: seq<char>, acc: seq<Vertex>)
    requires AllVerticesHaveShape(vs, shape)
    ensures ScanVertices(VertexLines(vs) + rest, |vs|, shape, acc) == Some(Parsed(acc + vs, rest))
    decreases |vs|
  {
    hide ScanVertex, VertexLine;
    if vs == [] {
      assert VertexLines(vs) + rest == rest;
      assert acc + vs == acc;
    } else {
      hide ScanVertices;
      assert VertexLines(vs) + rest == VertexLine(vs[0]) + (VertexLines(vs[1..]) + rest);
      assert VertexHasShape(vs[0], shape) && AllVerticesHaveShape(vs[1..], shape)
      by { assert vs[0] in vs && forall v | v in vs[1..] :: v in vs; }
      VertexLineRoundTrip(vs[0], shape, VertexLines(vs[1..]) + rest);
      ScanVerticesStep(VertexLines(vs) + rest, |vs|, shape, acc);
      ScanVerticesOfLines(vs[1..], shape, rest, acc + [vs[0]]);
      assert acc + [vs[0]] + vs[1..] == acc + vs;
    }
  }

  /** The face loop reads written face records back, in file order. */
  lemma {:induction false} ScanFacesOfLines(fs: seq<Face>, shape: ColorShape, rest: seq<char>, acc: seq<Face>)
    requires AllFacesHaveShape(fs, shape)
    ensures ScanFaces(FaceLines(fs) + rest, |fs|, shape, acc) == Some(Parsed(acc + fs, rest))
    decreases |fs|
  {
    hide ScanFace, FaceLine;
    if fs == [] {
      assert FaceLines(fs) + rest == rest;
      assert acc + fs == acc;
    } else {
      hide ScanFaces;
      assert FaceLines(fs) + rest == FaceLine(fs[0]) + (FaceLines(fs[1..]) + rest);
      assert FaceHasShape(fs[0], shape) && AllFacesHaveShape(fs[1..], shape)
      by { assert fs[0] in fs && forall f | f in fs[1..] :: f in fs; }
      FaceLineRoundTrip(fs[0], shape, FaceLines(fs[1..]) + rest);
      ScanFacesStep(FaceLines(fs) + rest, |fs|, shape, acc);
      ScanFacesOfLines(fs[1..], shape, rest, acc + [fs[0]]);
      assert acc + [fs[0]] + fs[1..] == acc + fs;
    }
  }

  // ---------------------------------------------------------------------------------------
  // Whole files
  // ---------------------------------------------------------------------------------------

  /** The counts line: the numbers of vertices and faces and the edge count. */
  function CountsLine(m: Mesh): seq<char>
  {
    Join([|m.vertices|, |m.faces|, m.nEdges]) + "\n"
  }

  /** A mesh written as an OFF file: the header, the counts, the vertices, the faces. */
  function WriteOff(m: Mesh): seq<char>
  {
    "OFF\n" + CountsLine(m) + VertexLines(m.vertices) + FaceLines(m.faces)
  }

  /** The counts line is read back, and the reading stops before its newline. */
  lemma CountsLineRoundTrip(m: Mesh, rest: seq<char>)
    ensures ScanCounts(CountsLine(m) + rest) == Some(Parsed(Counts(|m.vertices|, |m.faces|, m.nEdges), "\n" + rest))
  {
    hide ScanNat, Show;
    var a, b, c := |m.vertices|, |m.faces|, m.nEdges;
    var third := [' '] + Show(c) + ("\n" + rest);
    var second := [' '] + Show(b) + third;
    assert [a, b, c][1..] == [b, c] && [b, c][1..] == [c] && [c][1..] == [];
    assert Fields([c]) == [' '] + Show(c) + Fields([]);
    assert Fields([b, c]) == [' '] + Show(b) + Fields([c]);
    assert Join([a, b, c]) == Show(a) + Fields([b, c]);
    assert CountsLine(m) + rest == [] + Show(a) + second;
    ScanNatOfShow([], a, second);
    ScanNatOfShow([' '], b, third);
    ScanNatOfShow([' '], c, "\n" + rest);
  }

  /**
   * Reading a written mesh gives the mesh back: its vertices and faces in order, and its
   * edge count, for every mesh whose records all have the shapes read with.
   */
  lemma RoundTrip(m: Mesh, vertexShape: VertexShape, faceShape: ColorShape)
    requires MeshHasShapes(m, vertexShape, faceShape)
    ensures ParseText(WriteOff(m), vertexShape, faceShape) == Some(m)
  {
    hide ParseText, ScanCounts, ScanVertices, ScanFaces, ScanVertex, ScanFace, VertexLines, FaceLines, CountsLine, WriteOff, SkipPast;
    var faces := FaceLines(m.faces);
    var records := VertexLines(m.vertices) + faces;
    CountsStartOfWriteOff(m);
    CountsLineRoundTrip(m, records);
    SkipPastNewline(records);
    VerticesOfLines(m.vertices, vertexShape, faces);
    FacesOfLines(m.faces, faceShape);
    ParseTextOfParts(WriteOff(m), vertexShape, faceShape, Counts(|m.vertices|, |m.faces|, m.nEdges), "\n" + records, faces, m.vertices, m.faces);
  }

  /** A whole read, from its parts: the counts, then the vertex loop, then the face loop. */
  lemma ParseTextOfParts(s: seq<char>, vertexShape: VertexShape, faceShape: ColorShape, counts: Counts, t: seq<char>, u: seq<char>, vertices: seq<Vertex>, faces: seq<Face>)
    requires ScanCounts(CountsStart(s)) == Some(Parsed(counts, t))
    requires ScanVertices(SkipPast(t, '\n'), counts.nVertices, vertexShape, []) == Some(Parsed(vertices, u))
    requires ScanFaces(u, counts.nFaces, faceShape, []).Some? && ScanFaces(u, counts.nFaces, faceShape, []).value.value == faces
    ensures ParseText(s, vertexShape, faceShape) == Some(Mesh(vertices, faces, counts.nEdges))
  {
    hide CountsStart, ScanCounts, ScanVertices, ScanFaces, SkipPast;
  }

  /** The vertex loop, from the start, over written vertex records. */
  lemma VerticesOfLines(vs: seq<Vertex>, shape: VertexShape, rest: seq<char>)
    requires AllVerticesHaveShape(vs, shape)
    ensures ScanVertices(VertexLines(vs) + rest, |vs|, shape, []) == Some(Parsed(vs, rest))
  {
    hide ScanVertices, VertexLines;
    ScanVerticesOfLines(vs, shape, rest, []);
    assert [] + vs == vs;
  }

  /** The face loop, from the start, over written face records that end the text. */
  lemma FacesOfLines(fs: seq<Face>, shape: ColorShape)
    requires AllFacesHaveShape(fs, shape)
    ensures ScanFaces(FaceLines(fs), |fs|, shape, []) == Some(Parsed(fs, []))
  {
    hide ScanFaces, FaceLines;
    ScanFacesOfLines(fs, shape, [], []);
    assert [] + fs == fs;
    assert FaceLines(fs) + [] == FaceLines(fs);
  }

  /** The counts are read from the line after the header: the header is skipped whole. */
  lemma CountsStartOfWriteOff(m: Mesh)
    ensures CountsStart(WriteOff(m)) == CountsLine(m) + (VertexLines(m.vertices) + FaceLines(m.faces))
  {
    hide VertexLines, FaceLines, Join, Show;
    var counted := CountsLine(m) + (VertexLines(m.vertices) + FaceLines(m.faces));
    assert WriteOff(m) == "OFF" + "\n" + counted;
    SkipPastLine("OFF", counted);
    assert counted[0] == Join([|m.vertices|, |m.faces|, m.nEdges])[0];
    assert SkipCommentOrEmptyLines(counted) == counted;
  }

  /** A unit square as two triangles, with no colour. */
  const SquareText: string :=
    "OFF\n" + "4 2 5\n" + "0 0 0\n" + "1 0 0\n" + "1 1 0\n" + "0 1 0\n" + "3 0 1 2\n" + "3 0 2 3\n"

  const SquareMesh: Mesh := Mesh(
    [PlainVertex(Vec3(0, 0, 0)), PlainVertex(Vec3(1, 0, 0)), PlainVertex(Vec3(1, 1, 0)), PlainVertex(Vec3(0, 1, 0))],
    [PlainFace([0, 1, 2]), PlainFace([0, 2, 3])],
    5)

  /** The square reads as four vertices, the faces [0, 1, 2] and [0, 2, 3], and five edges. */
  lemma SquareExample()
    ensures ParseText(SquareText, VertexShape(Three, Plain), Plain) == Some(SquareMesh)
  {
    hide ParseText, WriteOff;
    SquareIsWritten();
    RoundTrip(SquareMesh, VertexShape(Three, Plain), Plain);
  }

  /** The square text is what the writer writes for the square. */
  lemma SquareIsWritten()
    ensures WriteOff(SquareMesh) == SquareText
  {
    SquareLines();
    var vs := SquareMesh.vertices;
    var fs := SquareMesh.faces;
    hide VertexLine, FaceLine, CountsLine;
    assert vs[1..] == vs[1..4] && vs[1..][1..] == vs[2..4] && vs[2..4][1..] == vs[3..4] && vs[3..4][1..] == [];
    assert VertexLines(vs) == VertexLine(vs[0]) + (VertexLine(vs[1]) + (VertexLine(vs[2]) + (VertexLine(vs[3]) + [])));
    assert fs[1..][1..] == [];
    assert FaceLines(fs) == FaceLine(fs[0]) + (FaceLine(fs[1]) + []);
    hide VertexLines, FaceLines;
    Regroup("OFF\n", CountsLine(SquareMesh), VertexLine(vs[0]), VertexLine(vs[1]), VertexLine(vs[2]), VertexLine(vs[3]), FaceLine(fs[0]), FaceLine(fs[1]));
  }

  /** The writer's nesting of the square's lines, flattened. */
  lemma Regroup(h: string, c: string, v0: string, v1: string, v2: string, v3: string, f0: string, f1: string)
    ensures h + c + (v0 + (v1 + (v2 + (v3 + [])))) + (f0 + (f1 + [])) == h + c + v0 + v1 + v2 + v3 + f0 + f1
  {
    assert v3 + [] == v3 && f1 + [] == f1;
  }

  /** Three numbers separated by single spaces. */
  lemma JoinThree(x: int, y: int, z: int)
    ensures Join([x, y, z]) == Show(x) + [' '] + Show(y) + [' '] + Show(z)
  {
    hide Show;
    assert [x, y, z][1..] == [y, z] && [y, z][1..] == [z] && [z][1..] == [];
    assert Fields([z]) == [' '] + Show(z);
    assert Fields([y, z]) == [' '] + Show(y) + [' '] + Show(z);
  }

  /** The digits 0 to 5, written. */
  lemma SmallShows()
    ensures Show(0) == "0" && Show(1) == "1" && Show(2) == "2"
    ensures Show(3) == "3" && Show(4) == "4" && Show(5) == "5"
  {
  }

  /** A plain vertex at (x, y, z) is written as its three coordinates. */
  lemma PlainVertexLine(x: int, y: int, z: int)
    ensures VertexLine(PlainVertex(Vec3(x, y, z))) == Show(x) + [' '] + Show(y) + [' '] + Show(z) + "\n"
  {
    hide Show;
    JoinThree(x, y, z);
    assert Fields(ColorFields(None)) == [];
  }

  /** A plain triangle is written as its index count 3 and its three indices. */
  lemma PlainTriangleLine(a: nat, b: nat, c: nat)
    ensures FaceLine(PlainFace([a, b, c])) == Show(3) + [' '] + Show(a) + [' '] + Show(b) + [' '] + Show(c) + "\n"
  {
    hide Show;
    JoinThree(a, b, c);
    assert Fields([a, b, c]) == [' '] + Join([a, b, c]);
    assert Fields(ColorFields(None)) == [];
  }

  /** Each line of the square, as the writer writes it. */
  lemma SquareLines()
    ensures VertexLine(SquareMesh.vertices[0]) == "0 0 0\n"
    ensures VertexLine(SquareMesh.vertices[1]) == "1 0 0\n"
    ensures VertexLine(SquareMesh.vertices[2]) == "1 1 0\n"
    ensures VertexLine(SquareMesh.vertices[3]) == "0 1 0\n"
    ensures FaceLine(SquareMesh.faces[0]) == "3 0 1 2\n"
    ensures FaceLine(SquareMesh.faces[1]) == "3 0 2 3\n"
    ensures CountsLine(SquareMesh) == "4 2 5\n"
  {
    SmallShows();
    hide Show, VertexLine, FaceLine, Join;
    assert VertexLine(PlainVertex(Vec3(0, 0, 0))) == "0 0 0\n" by { PlainVertexLine(0, 0, 0); }
    assert VertexLine(PlainVertex(Vec3(1, 0, 0))) == "1 0 0\n" by { PlainVertexLine(1, 0, 0); }
    assert VertexLine(PlainVertex(Vec3(1, 1, 0))) == "1 1 0\n" by { PlainVertexLine(1, 1, 0); }
    assert VertexLine(PlainVertex(Vec3(0, 1, 0))) == "0 1 0\n" by { PlainVertexLine(0, 1, 0); }
    assert FaceLine(PlainFace([0, 1, 2])) == "3 0 1 2\n" by { PlainTriangleLine(0, 1, 2); }
    assert FaceLine(PlainFace([0, 2, 3])) == "3 0 2 3\n" by { PlainTriangleLine(0, 2, 3); }
    assert CountsLine(SquareMesh) == "4 2 5\n" by { JoinThree(4, 2, 5); }
  }
}
