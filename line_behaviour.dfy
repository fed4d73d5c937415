/**
 * Where the OFF reader draws its line boundaries: the header line is never looked at,
 * comment and empty lines are skipped before the counts and before every record, and the
 * three colour shapes differ in whether colour may come from the next line. Only a newline
 * that directly follows the last number ends a record's line for the peeks of the reader:
 * after other whitespace (a blank, a tab, the `\r` of a CRLF line end) optional colour and
 * face indices are read from the next line. Face records may hold fewer indices than they
 * declare when a newline directly follows their last index.
 */
module LineBehaviour {
  import opened Wrappers
  import opened Vectors
  import opened Vertices
  import opened Faces
  import opened Istream
  import opened Parser
  import opened ParserProperties

  // ---------------------------------------------------------------------------------------
  // The header line
  // ---------------------------------------------------------------------------------------

  /** The header line is skipped unread: any two header lines give the same mesh. */
  lemma HeaderNeverInspected(h1: seq<char>, h2: seq<char>, rest: seq<char>, vertexShape: VertexShape, faceShape: ColorShape)
    requires '\n' !in h1 && '\n' !in h2
    ensures ParseText(h1 + "\n" + rest, vertexShape, faceShape) == ParseText(h2 + "\n" + rest, vertexShape, faceShape)
  {
    hide SkipPast, SkipCommentOrEmptyLines, ParseText;
    SkipPastLine(h1, rest);
    SkipPastLine(h2, rest);
    assert CountsStart(h1 + "\n" + rest) == CountsStart(h2 + "\n" + rest);
    SameCountsStartSameMesh(h1 + "\n" + rest, h2 + "\n" + rest);
  }

  /** `parse` reads nothing before where the skip after the header stops. */
  lemma SameCountsStartSameMesh(x: seq<char>, y: seq<char>)
    requires CountsStart(x) == CountsStart(y)
    ensures forall vertexShape, faceShape :: ParseText(x, vertexShape, faceShape) == ParseText(y, vertexShape, faceShape)
  {
    hide CountsStart, ScanCounts, ScanVertices, ScanFaces, SkipPast;
  }

  /** A text with no newline is all header: there are no counts to read, and the read fails. */
  lemma NoNewlineNoMesh(s: seq<char>, vertexShape: VertexShape, faceShape: ColorShape)
    requires '\n' !in s
    ensures ParseText(s, vertexShape, faceShape).None?
  {
    hide SkipPast, SkipCommentOrEmptyLines, ScanVertices, ScanFaces, CountsStart;
    assert CountsStart(s) == [];
    assert ScanCounts([]) == None by {
      assert ScanNat([]) == None;
    }
  }

  // ---------------------------------------------------------------------------------------
  // Comment and empty lines
  // ---------------------------------------------------------------------------------------

  /** A lone newline, or a `#` line up to and including its newline. */
  predicate CommentOrEmptyLine(l: seq<char>)
  {
    l == "\n" || (|l| >= 2 && l[0] == '#' && l[|l| - 1] == '\n' && '\n' !in l[..|l| - 1])
  }

  /** The lines of `ls`, one after the other. */
  function Concat(ls: seq<seq<char>>): (s: seq<char>)
    ensures ls == [] ==> s == []
  {
    if ls == [] then [] else ls[0] + Concat(ls[1..])
  }

  /** `ignore_comment_or_empty_lines` consumes one comment or empty line whole. */
  lemma SkipsOneLine(l: seq<char>, s: seq<char>)
    requires CommentOrEmptyLine(l)
    ensures SkipCommentOrEmptyLines(l + s) == SkipCommentOrEmptyLines(s)
  {
    hide SkipPast;
    if l == "\n" {
      assert (l + s)[0] == '\n' && (l + s)[1..] == s;
    } else {
      var body := l[..|l| - 1];
      assert l + s == body + "\n" + s;
      assert (l + s)[0] == '#';
      SkipPastLine(body, s);
    }
  }

  /** It consumes any number of comment and empty lines. */
  lemma {:induction false} SkipsLines(ls: seq<seq<char>>, s: seq<char>)
    requires forall i | 0 <= i < |ls| :: CommentOrEmptyLine(ls[i])
    ensures SkipCommentOrEmptyLines(Concat(ls) + s) == SkipCommentOrEmptyLines(s)
    decreases |ls|
  {
    hide SkipCommentOrEmptyLines;
    if ls != [] {
      assert Concat(ls) + s == ls[0] + (Concat(ls[1..]) + s);
      SkipsOneLine(ls[0], Concat(ls[1..]) + s);
      SkipsLines(ls[1..], s);
    } else {
      assert Concat(ls) + s == s;
    }
  }

  /**
   * It stops, consuming nothing, at any other character; and a `#` line that the end of the
   * text cuts off before its newline takes the rest of the text with it.
   */
  lemma SkipStops(s: seq<char>, body: seq<char>)
    requires '\n' !in body
    ensures s != [] && s[0] != '\n' && s[0] != '#' ==> SkipCommentOrEmptyLines(s) == s
    ensures SkipCommentOrEmptyLines(['#'] + body) == []
  {
    assert SkipPast(['#'] + body, '\n') == [];
  }

  /** Comment and empty lines before the counts make no difference to the mesh. */
  lemma CommentsBeforeCounts(h: seq<char>, ls: seq<seq<char>>, rest: seq<char>, vertexShape: VertexShape, faceShape: ColorShape)
    requires '\n' !in h
    requires forall i | 0 <= i < |ls| :: CommentOrEmptyLine(ls[i])
    ensures ParseText(h + "\n" + (Concat(ls) + rest), vertexShape, faceShape) == ParseText(h + "\n" + rest, vertexShape, faceShape)
  {
    hide SkipPast, SkipCommentOrEmptyLines, Concat, CommentOrEmptyLine, ParseText;
    SkipPastLine(h, Concat(ls) + rest);
    SkipPastLine(h, rest);
    SkipsLines(ls, rest);
    assert CountsStart(h + "\n" + (Concat(ls) + rest)) == CountsStart(h + "\n" + rest);
    SameCountsStartSameMesh(h + "\n" + (Concat(ls) + rest), h + "\n" + rest);
  }

  /** Comment and empty lines before a vertex record make no difference to it. */
  lemma CommentsBeforeVertex(ls: seq<seq<char>>, s: seq<char>, shape: VertexShape)
    requires forall i | 0 <= i < |ls| :: CommentOrEmptyLine(ls[i])
    ensures ScanVertex(Concat(ls) + s, shape) == ScanVertex(s, shape)
  {
    hide CommentOrEmptyLine, SkipCommentOrEmptyLines, Concat, ScanVertex;
    SkipsLines(ls, s);
    SameSkipSameRecords(Concat(ls) + s, s);
  }

  /** Comment and empty lines before a face record make no difference to it. */
  lemma CommentsBeforeFace(ls: seq<seq<char>>, s: seq<char>, shape: ColorShape)
    requires forall i | 0 <= i < |ls| :: CommentOrEmptyLine(ls[i])
    ensures ScanFace(Concat(ls) + s, shape) == ScanFace(s, shape)
  {
    hide CommentOrEmptyLine, SkipCommentOrEmptyLines, Concat, ScanFace;
    SkipsLines(ls, s);
    SameSkipSameRecords(Concat(ls) + s, s);
  }

  /** A record read starts by skipping comment and empty lines, and depends on nothing before where that stops. */
  lemma SameSkipSameRecords(x: seq<char>, y: seq<char>)
    requires SkipCommentOrEmptyLines(x) == SkipCommentOrEmptyLines(y)
    ensures forall shape :: ScanVertex(x, shape) == ScanVertex(y, shape)
    ensures forall shape :: ScanFace(x, shape) == ScanFace(y, shape)
  {
    hide SkipCommentOrEmptyLines, ScanVec, ScanVecWithinLine, ScanNat, ScanIndices, SkipPast;
  }

  // ---------------------------------------------------------------------------------------
  // Where colour comes from
  // ---------------------------------------------------------------------------------------

  /**
   * Mandatory colour is read like any other number, so it may stand on the line after the
   * position.
   */
  lemma ColorOnNextLine(p: Vec, c: Vec, rest: seq<char>)
    ensures ScanVertex(Join(Components(p)) + ("\n" + Join(Components(c)) + "\n" + rest), VertexShape(ArityOf(p), Colored(ArityOf(c))))
         == Some(Parsed(ColoredVertex(p, c), rest))
  {
    hide ScanVertex, Join, Fields, Show, ScanInts, ScanInt, ScanVec, SkipCommentOrEmptyLines, SkipPast;
    var after := "\n" + Join(Components(c)) + "\n" + rest;
    var v := ColoredVertex(p, c);
    PositionRoundTrip(p, after);
    NextLineColor(c, rest);
    VertexOfParts(Join(Components(p)) + after, VertexShape(ArityOf(p), Colored(ArityOf(c))), v, after, "\n" + rest);
    SkipPastNewline(rest);
  }

  /**
   * Optional colour stops at the newline after the position: the colour is absent, and the
   * next line is left for the next record.
   */
  lemma NoColorOnNextLine(p: Vec, c: Vec, rest: seq<char>)
    ensures ScanVertex(Join(Components(p)) + ("\n" + Join(Components(c)) + "\n" + rest), VertexShape(ArityOf(p), OptColored(ArityOf(c))))
         == Some(Parsed(OptionalColoredVertex(p, None), Join(Components(c)) + "\n" + rest))
  {
    hide ScanVertex, Join, Fields, Show, ScanInts, ScanInt, ScanVec, ScanVecWithinLine, SkipCommentOrEmptyLines, SkipPast;
    var line := Join(Components(c)) + "\n" + rest;
    var after := "\n" + line;
    assert after == "\n" + Join(Components(c)) + "\n" + rest;
    var v := OptionalColoredVertex(p, None);
    PositionRoundTrip(p, after);
    NewlineNoColor(after, ArityOf(c));
    VertexOfParts(Join(Components(p)) + after, VertexShape(ArityOf(p), OptColored(ArityOf(c))), v, after, after);
    SkipPastNewline(line);
  }

  /**
   * The peek of optional colour looks only at the next character: after whitespace other
   * than a newline at the end of the position's line (`pre`: a blank, a tab, a `\r`) it
   * sees no newline, and the colour is read from the next line.
   */
  lemma TrailingBlankTakesNextLine(pre: seq<char>, p: Vec, c: Vec, rest: seq<char>)
    requires AllSpace(pre) && pre != [] && pre[0] != '\n'
    ensures ScanVertex(Join(Components(p)) + (pre + "\n" + Join(Components(c)) + "\n" + rest), VertexShape(ArityOf(p), OptColored(ArityOf(c))))
         == Some(Parsed(OptionalColoredVertex(p, Some(c)), rest))
  {
    hide ScanVertex, Join, Fields, Show, ScanIntsWithinLine, ScanInt, ScanVec, ScanVecWithinLine, SkipCommentOrEmptyLines, SkipPast;
    var after := pre + "\n" + Join(Components(c)) + "\n" + rest;
    var v := OptionalColoredVertex(p, Some(c));
    PositionRoundTrip(p, after);
    BlankThenColor(pre, c, rest);
    VertexOfParts(Join(Components(p)) + after, VertexShape(ArityOf(p), OptColored(ArityOf(c))), v, after, "\n" + rest);
    SkipPastNewline(rest);
  }

  /**
   * So on a CRLF line end optional colour is never absent for lack of numbers on the line:
   * the `\r` hides the newline, the colour comes from the next line, and that line is dropped.
   */
  lemma CarriageReturnTakesNextLine(p: Vec, c: Vec, rest: seq<char>)
    ensures ScanVertex(Join(Components(p)) + ("\r\n" + Join(Components(c)) + "\n" + rest), VertexShape(ArityOf(p), OptColored(ArityOf(c))))
         == Some(Parsed(OptionalColoredVertex(p, Some(c)), rest))
  {
    hide ScanVertex, Join;
    TrailingBlankTakesNextLine("\r", p, c, rest);
    assert "\r" + "\n" == "\r\n";
  }

  /**
   * A vector read with `parse_vec_within_line` after whitespace that does not start with a
   * newline, and then a newline, skips both.
   */
  lemma BlankThenColor(pre: seq<char>, c: Vec, rest: seq<char>)
    requires AllSpace(pre) && pre != [] && pre[0] != '\n'
    ensures ScanVecWithinLine(pre + "\n" + Join(Components(c)) + "\n" + rest, ArityOf(c)) == Some(Parsed(Some(c), "\n" + rest))
  {
    hide Join, Fields, Show, ScanIntsWithinLine, ScanInt;
    var ws := pre + "\n";
    SpaceThenNewline(pre);
    assert pre + "\n" + Join(Components(c)) + "\n" + rest == ws + Join(Components(c)) + ("\n" + rest);
    ScanIntsWithinLineOfJoin(ws, Components(c), "\n" + rest, []);
    assert [] + Components(c) == Components(c);
    ComponentsRoundTrip(c);
  }

  /** The peeking reads of `parse_vec_within_line`, after whitespace that does not start with a newline. */
  lemma ScanIntsWithinLineOfJoin(pre: seq<char>, xs: seq<int>, rest: seq<char>, acc: seq<int>)
    requires AllSpace(pre) && (pre != [] ==> pre[0] != '\n')
    requires xs != [] && EndsNumber(rest)
    ensures ScanIntsWithinLine(pre + Join(xs) + rest, |xs|, acc) == Some(Parsed(Some(acc + xs), rest))
  {
    hide ScanIntsWithinLine, Join, Fields;
    WithinLineJoinStep(pre, xs, rest, acc);
    ScanIntsWithinLineOfFields(xs[1..], rest, acc + [xs[0]]);
    assert acc + [xs[0]] + xs[1..] == acc + xs;
  }

  /** One read of `ScanIntsWithinLineOfJoin`: the first number, after the whitespace `pre`. */
  lemma WithinLineJoinStep(pre: seq<char>, xs: seq<int>, rest: seq<char>, acc: seq<int>)
    requires AllSpace(pre) && (pre != [] ==> pre[0] != '\n')
    requires xs != [] && EndsNumber(rest)
    ensures ScanIntsWithinLine(pre + Join(xs) + rest, |xs|, acc)
         == ScanIntsWithinLine(Fields(xs[1..]) + rest, |xs| - 1, acc + [xs[0]])
  {
    hide ScanInt, Show, Fields;
    var tail := Fields(xs[1..]) + rest;
    assert pre + Join(xs) + rest == pre + Show(xs[0]) + tail;
    assert Peeked(pre + Join(xs) + rest) != Some('\n');
    ScanIntOfShow(pre, xs[0], tail);
  }

  /**
   * Optional colour cut short by the end of its line is no colour at all: the components
   * already read are dropped, and the newline is left for the skip after the record.
   */
  lemma PartialColorIsAbsent(xs: seq<int>, a: Arity, rest: seq<char>)
    requires |xs| < Size(a)
    ensures ScanVecWithinLine(Fields(xs) + ("\n" + rest), a) == Some(Parsed(None, "\n" + rest))
  {
    hide ScanIntsWithinLine, Fields;
    ScanIntsWithinLineCutShort(xs, Size(a), "\n" + rest, []);
  }

  /** So a vertex whose optional colour has too few components has no colour. */
  lemma PartialColorVertex(p: Vec, xs: seq<int>, a: Arity, rest: seq<char>)
    requires |xs| < Size(a)
    ensures ScanVertex(Join(Components(p)) + (Fields(xs) + ("\n" + rest)), VertexShape(ArityOf(p), OptColored(a)))
         == Some(Parsed(OptionalColoredVertex(p, None), rest))
  {
    hide ScanVertex, Join, Fields, ScanVec, ScanVecWithinLine, SkipCommentOrEmptyLines, SkipPast;
    var line := "\n" + rest;
    var after := Fields(xs) + line;
    var v := OptionalColoredVertex(p, None);
    assert EndsNumber(after) by {
      if xs == [] { assert after == line; }
    }
    PositionRoundTrip(p, after);
    PartialColorIsAbsent(xs, a, rest);
    VertexOfParts(Join(Components(p)) + after, VertexShape(ArityOf(p), OptColored(a)), v, after, line);
    SkipPastNewline(rest);
  }

  /** The peeking reads stop with no value at a newline that comes before the last component. */
  lemma {:induction false} ScanIntsWithinLineCutShort(xs: seq<int>, n: nat, line: seq<char>, acc: seq<int>)
    requires |xs| < n && Peeked(line) == Some('\n')
    ensures ScanIntsWithinLine(Fields(xs) + line, n, acc) == Some(Parsed(None, line))
    decreases |xs|
  {
    hide ScanInt, Show;
    if xs == [] {
      assert Fields(xs) + line == line;
    } else {
      var tail := Fields(xs[1..]) + line;
      assert Fields(xs) + line == [' '] + Show(xs[0]) + tail;
      assert EndsNumber(tail) by {
        if xs[1..] == [] { assert tail == line; }
      }
      ScanIntOfShow([' '], xs[0], tail);
      ScanIntsWithinLineCutShort(xs[1..], n - 1, line, acc + [xs[0]]);
    }
  }

  // ---------------------------------------------------------------------------------------
  // Faces that end early
  // ---------------------------------------------------------------------------------------

  /**
   * A face line with fewer indices than its count: the index loop stops at the newline, and
   * a plain face keeps the indices there are.
   */
  lemma ShortFace(count: nat, indices: seq<nat>, rest: seq<char>)
    requires |indices| < count
    ensures ScanFace(Show(count) + Fields(indices) + ("\n" + rest), Plain) == Some(Parsed(PlainFace(indices), rest))
  {
    hide Show, Fields, ScanFace, ScanNat, ScanIndices, SkipCommentOrEmptyLines, SkipPast;
    var line := "\n" + rest;
    ShortIndices(count, indices, line);
    FaceOfParts(Show(count) + Fields(indices) + line, Plain, PlainFace(indices), count, Fields(indices) + line, line, line);
    SkipPastNewline(rest);
  }

  /** On such a line optional colour is absent: the peek before it sees the newline. */
  lemma ShortFaceNoColor(count: nat, indices: seq<nat>, a: Arity, rest: seq<char>)
    requires |indices| < count
    ensures ScanFace(Show(count) + Fields(indices) + ("\n" + rest), OptColored(a))
         == Some(Parsed(OptionalColoredFace(indices, None), rest))
  {
    hide Show, Fields, ScanFace, ScanNat, ScanIndices, ScanVecWithinLine, SkipCommentOrEmptyLines, SkipPast;
    var line := "\n" + rest;
    ShortIndices(count, indices, line);
    NewlineNoColor(line, a);
    FaceOfParts(Show(count) + Fields(indices) + line, OptColored(a), OptionalColoredFace(indices, None), count, Fields(indices) + line, line, line);
    SkipPastNewline(rest);
  }

  /** Mandatory face colour is read past the newline, from the line after the indices. */
  lemma ShortFaceColorOnNextLine(count: nat, indices: seq<nat>, c: Vec, rest: seq<char>)
    requires |indices| < count
    ensures ScanFace(Show(count) + Fields(indices) + ("\n" + Join(Components(c)) + "\n" + rest), Colored(ArityOf(c)))
         == Some(Parsed(ColoredFace(indices, c), rest))
  {
    hide Show, Fields, Join, ScanFace, ScanNat, ScanIndices, ScanVec, SkipCommentOrEmptyLines, SkipPast;
    var line := "\n" + Join(Components(c)) + "\n" + rest;
    assert Peeked(line) == Some('\n');
    ShortIndices(count, indices, line);
    NextLineColor(c, rest);
    FaceOfParts(Show(count) + Fields(indices) + line, Colored(ArityOf(c)), ColoredFace(indices, c), count, Fields(indices) + line, line, "\n" + rest);
    SkipPastNewline(rest);
  }

  /** A vector read with `parse_vec` skips the newline before it. */
  lemma NextLineColor(c: Vec, rest: seq<char>)
    ensures ScanVec("\n" + Join(Components(c)) + "\n" + rest, ArityOf(c)) == Some(Parsed(c, "\n" + rest))
  {
    hide Join, Fields, Show, ScanInts, ScanInt;
    assert "\n" + Join(Components(c)) + "\n" + rest == ['\n'] + Join(Components(c)) + ("\n" + rest);
    ScanIntsOfJoin(['\n'], Components(c), "\n" + rest, []);
    assert [] + Components(c) == Components(c);
    ComponentsRoundTrip(c);
  }

  /** `parse_vec_within_line` at a newline reads nothing and leaves the newline. */
  lemma NewlineNoColor(line: seq<char>, a: Arity)
    requires Peeked(line) == Some('\n')
    ensures ScanVecWithinLine(line, a) == Some(Parsed(None, line))
  {
  }

  /** The count and the indices of a face line that ends, at `line`, before the count is reached. */
  lemma ShortIndices(count: nat, indices: seq<nat>, line: seq<char>)
    requires |indices| < count && Peeked(line) == Some('\n')
    ensures var s := Show(count) + Fields(indices) + line;
      && SkipCommentOrEmptyLines(s) == s
      && ScanNat(s) == Some(Parsed(count, Fields(indices) + line))
      && ScanIndices(Fields(indices) + line, count, []) == Some(Parsed(indices, line))
  {
    hide ScanIndices, ScanNat, Fields, Show;
    var s := Show(count) + Fields(indices) + line;
    assert ScanNat(s) == Some(Parsed(count, Fields(indices) + line)) by {
      assert s == Show(count) + (Fields(indices) + line);
      assert EndsNumber(Fields(indices) + line);
      ScanNatOfShowAtStart(count, Fields(indices) + line);
    }
    ScanIndicesOfFields(indices, count, line, []);
  }

  /** The index loop reads written indices and goes on with the text after them. */
  lemma {:induction false} ScanIndicesOfFieldsThen(indices: seq<nat>, n: nat, rest: seq<char>, acc: seq<nat>)
    requires |indices| <= n && EndsNumber(rest)
    ensures ScanIndices(Fields(indices) + rest, n, acc) == ScanIndices(rest, n - |indices|, acc + indices)
    decreases |indices|
  {
    hide ScanIndices, ScanNat, Show, Fields;
    if indices == [] {
      assert Fields(indices) + rest == rest;
      assert acc + indices == acc;
    } else {
      ScanIndicesStep(indices, n, rest, acc);
      ScanIndicesOfFieldsThen(indices[1..], n - 1, rest, acc + [indices[0]]);
      assert acc + [indices[0]] + indices[1..] == acc + indices;
    }
  }

  /**
   * The peek of the index loop looks only at the next character: after whitespace `ws` at
   * the end of a face line that does not start with the newline (a blank, a tab, the `\r` of
   * a CRLF line end, then the newline) the loop reads the missing indices from the next line,
   * and the skip then drops the rest of that line.
   */
  lemma TrailingBlankJoinsFaceLines(ws: seq<char>, xs: seq<nat>, ys: seq<nat>, rest: seq<char>)
    requires AllSpace(ws) && ws != [] && ws[0] != '\n'
    requires ys != []
    ensures ScanFace(Show(|xs| + |ys|) + (Fields(xs) + (ws + Join(ys) + ("\n" + rest))), Plain)
         == Some(Parsed(PlainFace(xs + ys), rest))
  {
    hide *;
    JoinedFace(ws, xs, ys, rest, "\n" + rest, |xs| + |ys|, Fields(xs) + (ws + Join(ys) + ("\n" + rest)),
      Show(|xs| + |ys|) + (Fields(xs) + (ws + Join(ys) + ("\n" + rest))));
  }

  /** Such a face record, before the reader moves past its line end. */
  lemma JoinedFace(ws: seq<char>, xs: seq<nat>, ys: seq<nat>, rest: seq<char>, line: seq<char>, count: nat, t: seq<char>, s: seq<char>)
    requires AllSpace(ws) && ws != [] && ws[0] != '\n' && ys != []
    requires line == "\n" + rest
    requires count == |xs| + |ys| && t == Fields(xs) + (ws + Join(ys) + line) && s == Show(count) + t
    ensures ScanFace(s, Plain) == Some(Parsed(PlainFace(xs + ys), rest))
  {
    hide Show, Fields, Join, ScanFace, ScanNat, ScanIndices, SkipCommentOrEmptyLines, SkipPast, AllSpace, EndsNumber;
    assert line != [] && line[0] == '\n';
    JoinedFaceParts(ws, xs, ys, line, count, t, s);
    FaceOfParts(s, Plain, PlainFace(xs + ys), count, t, line, line);
    SkipPastNewline(rest);
  }

  /** What `FaceOfParts` needs of such a face record. */
  lemma JoinedFaceParts(ws: seq<char>, xs: seq<nat>, ys: seq<nat>, line: seq<char>, count: nat, t: seq<char>, s: seq<char>)
    requires AllSpace(ws) && ws != [] && ws[0] != '\n'
    requires ys != [] && line != [] && line[0] == '\n'
    requires count == |xs| + |ys|
    requires t == Fields(xs) + (ws + Join(ys) + line)
    requires s == Show(count) + t
    ensures SkipCommentOrEmptyLines(s) == s
    ensures ScanNat(s) == Some(Parsed(count, t))
    ensures ScanIndices(t, count, []) == Some(Parsed(xs + ys, line))
  {
    hide Show, Fields, Join, ScanNat, ScanIndices, SkipCommentOrEmptyLines;
    IndicesAcrossLine(ws, xs, ys, line, t);
    RecordStartKept(count, t);
    ScanNatOfShowAtStart(count, t);
  }

  /** Whitespace followed by a newline is whitespace. */
  lemma SpaceThenNewline(pre: seq<char>)
    requires AllSpace(pre)
    ensures AllSpace(pre + "\n")
  {
    var ws := pre + "\n";
    forall i | 0 <= i < |ws| ensures IsSpace(ws[i]) {
      if i < |pre| {
        assert ws[i] == pre[i];
      }
    }
  }

  /** A record that starts with a number is not skipped as a comment or empty line. */
  lemma RecordStartKept(n: int, t: seq<char>)
    ensures SkipCommentOrEmptyLines(Show(n) + t) == Show(n) + t
  {
    hide Show;
    assert (Show(n) + t)[0] == Show(n)[0];
  }

  /** The index loop of such a face: the indices of its line, then those of the next line. */
  lemma IndicesAcrossLine(ws: seq<char>, xs: seq<nat>, ys: seq<nat>, line: seq<char>, t: seq<char>)
    requires AllSpace(ws) && ws != [] && ws[0] != '\n'
    requires ys != [] && line != [] && line[0] == '\n'
    requires t == Fields(xs) + (ws + Join(ys) + line)
    ensures EndsNumber(t)
    ensures ScanIndices(t, |xs| + |ys|, []) == Some(Parsed(xs + ys, line))
  {
    hide Show, Fields, Join, ScanNat, ScanIndices, AllSpace, EndsNumber;
    var u := ws + Join(ys) + line;
    SpaceLedParts(ws, xs, ys, line, u, t);
    IndicesOfLineThenRest(xs, ys, u, t);
    IndicesOfJoinAfterSpace(ws, ys, line, xs);
  }

  /** The line's own indices are read first, and the count left over is that of the next line. */
  lemma IndicesOfLineThenRest(xs: seq<nat>, ys: seq<nat>, u: seq<char>, t: seq<char>)
    requires EndsNumber(u) && t == Fields(xs) + u
    ensures ScanIndices(t, |xs| + |ys|, []) == ScanIndices(u, |ys|, xs)
  {
    hide ScanIndices, ScanNat, Show, Fields, EndsNumber;
    ScanIndicesOfFieldsThen(xs, |xs| + |ys|, u, []);
    assert [] + xs == xs;
  }

  /** Both the text after the line's own indices and the whole index text start with whitespace. */
  lemma SpaceLedParts(ws: seq<char>, xs: seq<nat>, ys: seq<nat>, line: seq<char>, u: seq<char>, t: seq<char>)
    requires AllSpace(ws) && ws != [] && ws[0] != '\n'
    requires u == ws + Join(ys) + line && t == Fields(xs) + u
    ensures EndsNumber(u) && EndsNumber(t)
  {
    hide Show, Join;
    assert u[0] == ws[0] && IsSpace(ws[0]);
    if xs != [] {
      assert t[0] == Fields(xs)[0];
    }
  }

  /** After whitespace that does not start with a newline, the index loop reads a written list. */
  lemma IndicesOfJoinAfterSpace(ws: seq<char>, ys: seq<nat>, line: seq<char>, acc: seq<nat>)
    requires AllSpace(ws) && ws != [] && ws[0] != '\n'
    requires ys != [] && line != [] && line[0] == '\n'
    ensures ScanIndices(ws + Join(ys) + line, |ys|, acc) == Some(Parsed(acc + ys, line))
  {
    hide Show, Fields, Join, ScanNat, ScanIndices;
    var tail := Fields(ys[1..]) + line;
    assert EndsNumber(line);
    IndicesAfterSpace(ws, ys, line, acc, tail);
    ScanIndicesOfFields(ys[1..], |ys| - 1, line, acc + [ys[0]]);
    assert acc + [ys[0]] + ys[1..] == acc + ys;
  }

  /** One index read after whitespace that does not start with a newline. */
  lemma IndicesAfterSpace(ws: seq<char>, ys: seq<nat>, line: seq<char>, acc: seq<nat>, tail: seq<char>)
    requires AllSpace(ws) && ws != [] && ws[0] != '\n' && ys != [] && EndsNumber(line)
    requires tail == Fields(ys[1..]) + line
    ensures ScanIndices(ws + Join(ys) + line, |ys|, acc) == ScanIndices(tail, |ys| - 1, acc + [ys[0]])
  {
    hide Show, Fields, ScanNat;
    assert ws + Join(ys) + line == ws + Show(ys[0]) + tail;
    assert Peeked(ws + Join(ys) + line) != Some('\n');
    ScanNatOfShow(ws, ys[0], tail);
  }

  /** So a face line with a CRLF line end takes indices it lacks from the next line. */
  lemma CarriageReturnJoinsFaceLines(xs: seq<nat>, ys: seq<nat>, rest: seq<char>)
    requires ys != []
    ensures ScanFace(Show(|xs| + |ys|) + (Fields(xs) + ("\r\n" + Join(ys) + ("\n" + rest))), Plain)
         == Some(Parsed(PlainFace(xs + ys), rest))
  {
    hide Show, Fields, Join, ScanFace;
    TrailingBlankJoinsFaceLines("\r\n", xs, ys, rest);
  }
}
