# off_parser in Dafny

This project models the core of `off_parser`, a header-only C++ reader for OFF (Object File
Format) meshes, and proves properties of the model. An OFF text has:
- a header line;
- optional `#` comment lines and empty lines;
- a counts line `n_vertices n_faces n_edges`;
- one record per vertex (a position, then a colour depending on the vertex type);
- one record per face (an index count, the indices, then a colour depending on the face type).

The model has five parts.

- **Geometry** (`geometry.dfy`).
  - `vec3`/`vec4` become the datatype `Vec`, with `nth` as `Nth` and assignment through `nth` as `WithNth`.
  - The three vertex templates and the three face templates are one datatype each, with one constructor per template.
  - The mesh aggregate is the datatype `Mesh`.
  - The C++ picks a record type at compile time. Here that choice is a value: `ColorShape` is plain, mandatory colour of arity 3 or 4, or optional colour of arity 3 or 4, and `VertexShape` adds the position arity.
  - "Has the type this shape names" is the predicate `VertexHasShape`/`FaceHasShape`.
- **The input stream** (`istream.dfy`). `InputStream` is a class with a constant `data` and a mutable cursor `pos`. Its methods are the `std::istream` operations the reader uses:
  - `eof`, `peek` and `ignore`;
  - `ignore(max, delim)`;
  - formatted extraction of signed and unsigned integers.

  Each method is proved against a function of the text still to be read, `Rest()`.
- **The reader** (`parser.dfy`).
  - Every step of `parse` is first described as a function of the remaining text (`Scan...`, `Skip...`, `ParseText`).
  - It is then written as a method over an `InputStream` that peeks, ignores and extracts as the C++ does: the `while (!eof)` loop, the vertex, face and index `for` loops, and the in-place buffer fill of `parse_vec_within_line`.
  - Each method is proved to agree with its function. It returns the same value, or fails exactly when the function does, and on success it leaves the same text unread.
- **Properties of the reader** (`parser_properties.dfy`, `line_behaviour.dfy`).
  - The partner of the reader is a writer, `WriteOff`: a reference definition of the OFF text of a mesh, one record per line with single spaces between numbers. It is not part of the repository.
  - Reading what the writer writes gives back the mesh, for every mesh whose records have the shapes read with. This holds record by record, loop by loop and for whole files.
  - Further lemmas pin down where the reader draws line boundaries:
    - the header is never inspected;
    - comment and empty lines are skipped before the counts and before each record;
    - extra tokens on a record's line never reach the next record;
    - the reader only looks for a `\n` directly after the last number it read, so "the end of the line" below means that character;
    - mandatory colour may stand on the next line, and optional colour may not, unless whitespace other than the newline ends the vertex line (a blank, a tab, or the `\r` of a CRLF line end);
    - a face may hold fewer indices than it declares when a `\n` directly follows its last index, and after other whitespace (again a CRLF line end among them) the missing indices are read from the next line.
  - The unit-square example reads as four vertices, the faces `[0, 1, 2]` and `[0, 2, 3]`, and five edges.
- **The example program's configuration** (`type_mapper.dfy`, `config.dfy`).
  - `type_mapper` becomes a first-match lookup in an ordered table of (tag, key) pairs, which yields the position of the matching entry.
  - `main.cpp` contributes:
    - the validation of its options;
    - the `(mode, channels)` keys;
    - the five-entry `vcmap` and `fcmap` tables.
  - Together these give a totality result: every configuration that argparse accepts and that passes validation resolves to the vertex and face shapes its flags name. So `static_map` never throws for such a configuration.

A failed extraction, where the C++ stream would set its failbit, makes the modelled read fail as a whole (`None`).

## Model

| member | source | states |
|---|---|---|
| Vectors.Size | include/off_parser/geometry/vec.hpp:16-24 | `size` is 3 exactly for `vec3` and 4 exactly for `vec4`. |
| Vectors.Nth | include/off_parser/geometry/vec.hpp:37-69 | `nth<0>`, `nth<1>` and `nth<2>` are `x`, `y` and `z`. `nth<3>` exists only for `vec4` and is `w`. |
| Vectors.WithNth | include/off_parser/geometry/vec.hpp:37-52 | Assigning through `nth<I>` keeps the arity, sets component I, and leaves every other component unchanged. |
| Vectors.Components | include/off_parser/geometry/vec.hpp:37-69 | Returns `size` components (3 for `vec3`, 4 for `vec4`), component i being `nth<i>`, in index order. |
| Vectors.FromComponents | include/off_parser/parser.hpp:55 | `make_from_tuple` builds the vector of the given arity whose components are exactly the buffer, in order. |
| Vectors.ComponentsRoundTrip | include/off_parser/geometry/vec.hpp:13-27 | A vector is rebuilt from its arity and its components. |
| Vectors.ComponentsWithNth | include/off_parser/geometry/vec.hpp:39-52 | Writing component i changes element i of the component sequence and nothing else. |
| Vectors.NthExtensionality | include/off_parser/geometry/vec.hpp:54-69 | Two vectors of one arity that agree on every `nth` are equal. |
| Istream.SkipPast | include/off_parser/parser.hpp:16-18 | `ignore(max, delim)` leaves a suffix of the text. With no delimiter, nothing is left. Otherwise everything up to and including the first delimiter is consumed. |
| Istream.SkipSpaceDropsLeadingSpace | include/off_parser/parser.hpp:39 | The whitespace skip before an extraction leaves a suffix. It consumes whitespace only, newlines included, and stops at the first character that is not whitespace. |
| Istream.ScanDigitsIsMaximal | include/off_parser/parser.hpp:103 | Digit extraction fails exactly when no digit comes first. Otherwise it consumes the whole digit run, at least one digit, and stops at the first non-digit. |
| Istream.ScanNatIsMaximal | include/off_parser/parser.hpp:103 | Unsigned `>>` fails exactly when no digit follows the whitespace and the optional `+`. Otherwise it consumes at least one character and the whole digit run, and leaves a suffix that does not start with a digit. |
| Istream.ScanIntIsMaximal | include/off_parser/parser.hpp:39 | Signed `>>` fails exactly when no digit follows the whitespace and the optional sign. Otherwise it consumes the whole digit run and leaves a suffix that does not start with a digit. |
| Istream.InputStream.constructor | include/off_parser/parser.hpp:59 | A stream over a text starts with the whole text unread. |
| Istream.InputStream.Eof | include/off_parser/parser.hpp:21 | `eof()` holds exactly when nothing is left to read. |
| Istream.InputStream.Peek | include/off_parser/parser.hpp:22 | `peek()` yields the next character, or end of file, and consumes nothing. |
| Istream.InputStream.Ignore | include/off_parser/parser.hpp:24 | `ignore()` consumes one character, if there is one. |
| Istream.InputStream.IgnoreThrough | include/off_parser/parser.hpp:17 | The cursor loop leaves exactly the text after the first delimiter. |
| Istream.InputStream.SkipWhitespace | include/off_parser/parser.hpp:39 | The sentry loop leaves exactly the text after the leading whitespace. |
| Istream.InputStream.ReadDigits | include/off_parser/parser.hpp:52 | The digit loop accumulates the digit run, most significant digit first, and fails when there is no digit. |
| Istream.InputStream.ReadNat | include/off_parser/parser.hpp:103 | Unsigned `>>` skips whitespace and an optional `+`, then reads digits. Value, failure and rest agree with `ScanNat`. |
| Istream.InputStream.ReadInt | include/off_parser/parser.hpp:39 | Signed `>>` skips whitespace and an optional sign, then reads digits. Value, failure and rest agree with `ScanInt`. |
| Parser.SkipCommentOrEmptyLines | include/off_parser/parser.hpp:20-33 | Leaves a suffix of the text that is empty or starts with neither a newline nor `#`. |
| Parser.ScanInts | include/off_parser/parser.hpp:38-39 | The extraction fold reads exactly n more integers after those already read, and keeps those. |
| Parser.ScanVec | include/off_parser/parser.hpp:35-42 | `parse_vec<VecT>` yields a vector of arity `VecT`. |
| Parser.ScanIntsWithinLine | include/off_parser/parser.hpp:46-53 | The buffer loop fills all n elements, or yields none, and it yields none only with a newline as the next character. |
| Parser.ScanVecWithinLine | include/off_parser/parser.hpp:44-56 | `parse_vec_within_line` yields a vector of the right arity, or none with a newline as the next character. |
| Parser.ScanIndices | include/off_parser/parser.hpp:109-113 | The index loop keeps the indices already read and adds at most `count` more. It adds fewer only when the next character is a newline. |
| Parser.ScanVertex | include/off_parser/parser.hpp:78-95 | One vertex record yields a vertex of the vertex type read with. |
| Parser.ScanVertices | include/off_parser/parser.hpp:77-96 | The vertex loop yields exactly `n_vertices` more vertices, all of the vertex type. |
| Parser.ScanFace | include/off_parser/parser.hpp:100-125 | One face record yields a face of the face type read with. |
| Parser.ScanFaces | include/off_parser/parser.hpp:99-126 | The face loop yields exactly `n_faces` more faces, all of the face type. |
| Parser.ScanCountsReadsThree | include/off_parser/parser.hpp:68 | The counts line is three unsigned extractions in turn. It fails exactly when one of them fails, and otherwise stops right after the third number. |
| Parser.CountsStart | include/off_parser/parser.hpp:61-63 | The counts are read from a suffix of the text that lies past the first newline, after the header line. It is empty when there is no newline, and otherwise starts with neither a newline nor `#`. |
| Parser.ParseText | include/off_parser/parser.hpp:58-129 | A successful parse has exactly the declared numbers of vertices and faces, all of the chosen types, and the declared edge count. |
| Parser.IgnoreUntilNewline | include/off_parser/parser.hpp:16-18 | Moves the cursor just past the first newline, or to the end of the text. |
| Parser.IgnoreCommentOrEmptyLines | include/off_parser/parser.hpp:20-33 | The `while (!eof())` peek loop leaves exactly the text `SkipCommentOrEmptyLines` leaves. |
| Parser.ParseVec | include/off_parser/parser.hpp:35-42 | The fold over component indices agrees with `ScanVec`: same vector, same failure, same rest. |
| Parser.ParseVecWithinLine | include/off_parser/parser.hpp:44-56 | The in-place buffer fill agrees with `ScanVecWithinLine`. |
| Parser.ParseVertex | include/off_parser/parser.hpp:78-95 | The vertex loop body agrees with `ScanVertex`. |
| Parser.ParseIndices | include/off_parser/parser.hpp:102-113 | The index `for` loop agrees with `ScanIndices`. |
| Parser.ParseFace | include/off_parser/parser.hpp:100-125 | The face loop body agrees with `ScanFace`. |
| Parser.ParseVertices | include/off_parser/parser.hpp:77-96 | The vertex loop agrees with `ScanVertices`. |
| Parser.ParseFaces | include/off_parser/parser.hpp:99-126 | The face loop agrees with `ScanFaces`. |
| Parser.Parse | include/off_parser/parser.hpp:58-129 | `parse` returns exactly `ParseText` of the text it reads. |
| ParserProperties.ScanIntOfShow | include/off_parser/parser.hpp:39 | Signed extraction reads a written integer back after any whitespace, and stops right after it. |
| ParserProperties.ScanNatOfShow | include/off_parser/parser.hpp:103 | Unsigned extraction reads a written count or index back after any whitespace. |
| ParserProperties.ScanIntsOfFields | include/off_parser/parser.hpp:38-39 | The fold reads space-separated integers back, in order. |
| ParserProperties.ScanIntsWithinLineOfFields | include/off_parser/parser.hpp:47-53 | The peeking buffer loop reads space-separated integers back, in order. |
| ParserProperties.ScanIndicesOfFields | include/off_parser/parser.hpp:109-113 | The index loop reads written indices back: all n, or fewer when a newline follows them. |
| ParserProperties.SkipPastLine | include/off_parser/parser.hpp:16-18 | Skipping to the newline consumes a newline-free line and its newline, and nothing after. |
| ParserProperties.PositionRoundTrip | include/off_parser/parser.hpp:83 | A written position is read back from the front of a record. |
| ParserProperties.IndicesRoundTrip | include/off_parser/parser.hpp:103-113 | A written count and its indices are read back from the front of a face record. |
| ParserProperties.ColorRoundTrip | include/off_parser/parser.hpp:86-91 | The colour is read back by the shape's own rule: plain reads nothing, mandatory reads with `parse_vec`, optional reads with `parse_vec_within_line`. |
| ParserProperties.VertexRecordRead | include/off_parser/parser.hpp:78-95 | A vertex record's fields are read back as the vertex, and the skip then consumes the rest of the line. |
| ParserProperties.VertexRecordWithExtraTokens | include/off_parser/parser.hpp:95 | Extra tokens after a vertex record's fields are discarded with the rest of the line, and the next record starts on the next line. |
| ParserProperties.VertexLineRoundTrip | include/off_parser/parser.hpp:78-95 | A written vertex line is read back as the vertex, and reading stops at the next line. |
| ParserProperties.FaceRecordRead | include/off_parser/parser.hpp:100-125 | A face record's fields are read back as the face, and the skip then consumes the rest of the line. |
| ParserProperties.FaceRecordWithExtraTokens | include/off_parser/parser.hpp:125 | Extra tokens after a face record's fields are discarded with the rest of the line. |
| ParserProperties.FaceLineRoundTrip | include/off_parser/parser.hpp:100-125 | A written face line is read back as the face, with its indices in order. |
| ParserProperties.ScanVerticesOfLines | include/off_parser/parser.hpp:77-96 | The vertex loop reads written vertex records back in file order. |
| ParserProperties.ScanFacesOfLines | include/off_parser/parser.hpp:99-126 | The face loop reads written face records back in file order. |
| ParserProperties.CountsLineRoundTrip | include/off_parser/parser.hpp:68 | The three counts are read back, and reading stops before their newline. |
| ParserProperties.CountsStartOfWriteOff | include/off_parser/parser.hpp:61-63 | The counts are read from the line after the header. |
| ParserProperties.RoundTrip | include/off_parser/parser.hpp:58-129 | Reading a written mesh gives the mesh back: vertices and faces in order, and the edge count. |
| ParserProperties.SquareIsWritten | include/off_parser/parser.hpp:58-129 | The unit-square text is the writer's text for the square mesh. |
| ParserProperties.SquareExample | include/off_parser/parser.hpp:58-129 | With colour disabled, the square reads as its four vertices, faces `[0, 1, 2]` and `[0, 2, 3]`, and 5 edges. |
| LineBehaviour.HeaderNeverInspected | include/off_parser/parser.hpp:61 | Any two header lines give the same result for the same rest of the file. |
| LineBehaviour.NoNewlineNoMesh | include/off_parser/parser.hpp:61-68 | A text with no newline is all header, and the read of the counts fails. |
| LineBehaviour.SkipsOneLine | include/off_parser/parser.hpp:20-33 | A lone newline, or a whole `#` line, is skipped with no effect on where the skip stops. |
| LineBehaviour.SkipsLines | include/off_parser/parser.hpp:20-33 | Any number of comment and empty lines are skipped. |
| LineBehaviour.SkipStops | include/off_parser/parser.hpp:20-33 | The skip consumes nothing at any other character. A `#` line without a final newline consumes the rest of the text. |
| LineBehaviour.CommentsBeforeCounts | include/off_parser/parser.hpp:63 | Comment and empty lines before the counts do not change the mesh. |
| LineBehaviour.CommentsBeforeVertex | include/off_parser/parser.hpp:78 | Comment and empty lines before a vertex record do not change what it reads. |
| LineBehaviour.CommentsBeforeFace | include/off_parser/parser.hpp:100 | Comment and empty lines before a face record do not change what it reads. |
| LineBehaviour.ColorOnNextLine | include/off_parser/parser.hpp:86-88 | Mandatory vertex colour is read across the newline, from the next line. |
| LineBehaviour.NoColorOnNextLine | include/off_parser/parser.hpp:89-91 | Optional vertex colour stops at the newline: it is absent, and the next line is left for the next record. |
| LineBehaviour.NextLineColor | include/off_parser/parser.hpp:35-42 | `parse_vec` skips a newline before the vector it reads. |
| LineBehaviour.BlankThenColor | include/off_parser/parser.hpp:44-56 | `parse_vec_within_line` peeks only the next character, so any whitespace other than a newline before the line end (a blank, a tab, a `\r`) lets it read the next line. |
| LineBehaviour.TrailingBlankTakesNextLine | include/off_parser/parser.hpp:89-91 | A vertex line whose last number is followed by whitespace other than a newline takes its optional colour from the next line. |
| LineBehaviour.CarriageReturnTakesNextLine | include/off_parser/parser.hpp:48 | In particular a vertex line with a CRLF line end takes its optional colour from the next line. |
| LineBehaviour.ScanIntsWithinLineCutShort | include/off_parser/parser.hpp:47-53 | The buffer loop yields none at a newline that comes before the last element, even after some elements were read. |
| LineBehaviour.PartialColorIsAbsent | include/off_parser/parser.hpp:44-56 | Optional colour cut short by the end of its line is absent, and the newline is left unread. |
| LineBehaviour.PartialColorVertex | include/off_parser/parser.hpp:89-91 | A vertex whose optional colour has too few components on its line has no colour. |
| LineBehaviour.ShortIndices | include/off_parser/parser.hpp:103-113 | A face line that ends before its count is reached yields the indices on the line. |
| LineBehaviour.ShortFace | include/off_parser/parser.hpp:109-113 | A plain face keeps the indices its line holds when there are fewer than declared. |
| LineBehaviour.ShortFaceNoColor | include/off_parser/parser.hpp:119-121 | After a short index list, optional face colour is absent. |
| LineBehaviour.ShortFaceColorOnNextLine | include/off_parser/parser.hpp:116-118 | After a short index list, mandatory face colour is read from the next line. |
| LineBehaviour.ScanIndicesOfFieldsThen | include/off_parser/parser.hpp:109-113 | A written index list followed by text that does not continue a number is read in full, and the loop goes on with the count left over. |
| LineBehaviour.TrailingBlankJoinsFaceLines | include/off_parser/parser.hpp:109-113 | A plain face whose line ends in whitespace other than a newline before its count is reached takes the missing indices from the next line, and the reader resumes after that line. |
| LineBehaviour.CarriageReturnJoinsFaceLines | include/off_parser/parser.hpp:109 | In particular a plain face line with a CRLF line end takes its missing indices from the next line. |
| TypeMapper.SkipFront | example/type_mapper.hpp:97-105 | The table without its first mapping; the first mapping followed by it is the table. |
| TypeMapper.MapIn | example/type_mapper.hpp:107-131 | Yields the first mapping whose key equals the value, and none exactly when no key equals it. |
| TypeMapper.StaticMapIn | example/type_mapper.hpp:133-155 | Selects the same mapping as `map`, and throws "No mapping found for the given value." exactly when `map` finds none. |
| TypeMapper.Map | example/type_mapper.hpp:163-166 | The public `map`: some mapping exactly when a key matches, and then the first match. |
| TypeMapper.StaticMap | example/type_mapper.hpp:168-171 | The public `static_map`: succeeds exactly when a key matches, with `map`'s choice, and otherwise throws. |
| TypeMapper.EarlierKeyShadows | example/type_mapper.hpp:113-115 | An earlier mapping with an equal key shadows every later one. |
| TypeMapper.DistinctKeysMapExactly | example/type_mapper.hpp:107-131 | With pairwise distinct keys, `map` finds every key exactly where it is. |
| Config.IsOneOf | example/main.cpp:127-130 | `is_one_of(v, vs)` holds exactly when v occurs in vs. |
| Config.Validate | example/main.cpp:179-189 | Passes exactly when both channel counts are 3 or 4 and not both colour flags are set. Each of the three messages is reported exactly when its check is the first to fail. |
| Config.ColorMode | example/main.cpp:39-44 | No flag is unreachable. With one flag set, mode 0, 1 and 2 stand for no colour, colour and optional colour. |
| Config.ColorKey | example/main.cpp:45 | A key exists exactly when a mode does, and its first part is the mode. Its channel part is -1 in mode 0 for every channel count, and the user's count in modes 1 and 2. |
| Config.ChannelArity | example/main.cpp:48-52 | Channel count 3 is `vec3` and 4 is `vec4`. |
| Config.ResolveConfiguration | example/main.cpp:115-116 | Resolves only validated options, and never to mandatory colour on both vertices and faces. |
| Config.TablesColorOnlyInMode1 | example/main.cpp:47-69 | In both tables, exactly the mode-1 entries have mandatory colour. |
| Config.TablesHaveDistinctKeys | example/main.cpp:47-69 | The five keys of `vcmap` are pairwise distinct, and so are those of `fcmap`. |
| Config.KeysSelectIntendedShapes | example/main.cpp:47-69 | Key `(0,-1)` selects plain, `(1,c)` colour of c channels and `(2,c)` optional colour of c channels, in both tables. Positions are always `vec3`. |
| Config.ValidatedConfigurationResolves | example/main.cpp:179-184 | Every configuration that argparse accepts and that passes validation resolves, so `static_map` cannot throw, to the shapes its flags and counts name. |
| Config.BothColoredRejected | example/main.cpp:187-189 | Colour on both vertices and faces is rejected, with that message once the channel counts are valid. |

## Left out

- Floating point: components are `double` in the example program, but they are integers here. Decimal points, exponents and locale are not modelled.
- Index width: face indices are `std::uint16_t` in the example program, while the model uses unbounded naturals. Neither this width nor `size_t` wrap-around of the counts is modelled.
- Istream.InputStream.ReadNat: rejects a leading `-`. The C++ unsigned extraction accepts it and wraps the value around.
- Stream error state: after a failed extraction the C++ stream sets failbit and `parse` goes on, producing zero or unspecified values. The model makes the whole read fail instead, and claims nothing about what the C++ returns for malformed or truncated input.
- `eof()`: modelled as "no characters left". The C++ sets eofbit only once a read reaches the end, which gives the same result in the skip loop.
- `reserve` calls: these are not modelled. When a count exceeds `max_size()`, `reserve` throws `std::length_error`; when a count is huge, it throws `std::bad_alloc`. This can happen for the vertex and face counts at lines 71-72 of `include/off_parser/parser.hpp`, and for a face's index count at line 106. On such input the model still returns a mesh. For example, a face line `18446744073709551615 0 1 2` reads as the short face `[0, 1, 2]`.
- `concepts.hpp`, `instance_of` and `instance_of_either`: these are compile-time type traits. They are replaced by the shape values and by the constructors of the vertex and face datatypes.
- `std::type_identity`, `std::variant` and `std::visit`: the compile-time dispatch is replaced by the position of the selected mapping and the tag stored at that position.
- Compile-time rules shown only by their runtime form: a `type_mapper` needs at least one mapping, a precondition here, and `mappings` is set only by its constructor, the datatype constructor here.
- `benchmark.hpp`, `omitted.hpp` and `formatter.hpp`: these are timing and printing code.
- The rest of `main.cpp`:
  - argparse setup and parsing (what its required mutually exclusive groups guarantee is the hypothesis `ArgparseAccepts`);
  - opening the file;
  - printing, warnings and exit codes.
- `WriteOff`: a reference writer for stating round trips. The repository has no writer.
