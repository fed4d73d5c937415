/**
 * How `example/main.cpp` turns its command-line options into the vertex and face types it
 * parses with: the validation of the options, the `(mode, channels)` keys the colour flags
 * become, and the two five-entry `type_mapper` tables the keys are looked up in.
 *
 * Command-line parsing itself (argparse) is not modelled; what it guarantees (each colour
 * group has exactly one flag set) is the hypothesis `ArgparseAccepts`.
 */
module Config {
  import opened Wrappers
  import opened Vectors
  import opened Vertices
  import opened TypeMapper

  /** `is_one_of(value, valid_values)`: `std::ranges::find` scans the list from the front. */
  function IsOneOf(value: int, valid: seq<int>): (b: bool)
    ensures b <==> value in valid
  {
    if valid == [] then false
    else if valid[0] == value then true
    else
      assert valid == [valid[0]] + valid[1..];
      IsOneOf(value, valid[1..])
  }

  /** One colour group: `-nvc`/`-vc`/`-ovc` for vertices or `-nfc`/`-fc`/`-ofc` for faces. */
  datatype ColorFlags = ColorFlags(noColor: bool, color: bool, optionalColor: bool)

  /** The parsed options that the validation and the type selection read. */
  datatype Options = Options(
    vertexFlags: ColorFlags, vertexChannels: int,
    faceFlags: ColorFlags, faceChannels: int)

  /** Each group is a required mutually exclusive argparse group: exactly one flag is set. */
  predicate ExactlyOneFlag(f: ColorFlags)
  {
    if f.noColor then !f.color && !f.optionalColor
    else if f.color then !f.optionalColor
    else f.optionalColor
  }

  predicate ArgparseAccepts(o: Options)
  {
    ExactlyOneFlag(o.vertexFlags) && ExactlyOneFlag(o.faceFlags)
  }

  const VertexChannelsMessage: string := "The number of vertex color channel must be 3 (RGB) or 4 (RGBA)."
  const FaceChannelsMessage: string := "The number of face color channel must be 3 (RGB) or 4 (RGBA)."
  const BothColoredMessage: string := "OFF file should not have both colored vertex and colored face."
  const UnreachableMessage: string := "Logic error: unreachable code is reached."

  /**
   * The argument validation of `main`, in its order: the vertex channel count, the face
   * channel count, then mandatory colour on both vertices and faces. The channel counts are
   * checked even when the group's flag disables colour.
   */
  function Validate(o: Options): (r: Option<string>)
    ensures r.None? <==>
      && o.vertexChannels in [3, 4]
      && o.faceChannels in [3, 4]
      && !(o.vertexFlags.color && o.faceFlags.color)
    ensures r == Some(VertexChannelsMessage) <==> o.vertexChannels !in [3, 4]
    ensures r == Some(FaceChannelsMessage) <==> o.vertexChannels in [3, 4] && o.faceChannels !in [3, 4]
    ensures r == Some(BothColoredMessage) <==>
      o.vertexChannels in [3, 4] && o.faceChannels in [3, 4] && o.vertexFlags.color && o.faceFlags.color
  {
    if !IsOneOf(o.vertexChannels, [3, 4]) then Some(VertexChannelsMessage)
    else if !IsOneOf(o.faceChannels, [3, 4]) then Some(FaceChannelsMessage)
    else if o.vertexFlags.color && o.faceFlags.color then Some(BothColoredMessage)
    else None
  }

  /**
   * The mode lambda: 0, 1 or 2 for the first flag set, in the order no colour, colour,
   * optional colour; `unreachable()` (None) when no flag is set.
   */
  function ColorMode(f: ColorFlags): (r: Option<int>)
    ensures r.None? <==> !f.noColor && !f.color && !f.optionalColor
    ensures r.Some? ==> 0 <= r.value <= 2
    ensures ExactlyOneFlag(f) ==>
      (r == Some(0) <==> f.noColor) && (r == Some(1) <==> f.color) && (r == Some(2) <==> f.optionalColor)
  {
    if f.noColor then Some(0)
    else if f.color then Some(1)
    else if f.optionalColor then Some(2)
    else None
  }

  /** The lookup key `{ mode, channels }`: the channel count is -1 when colour is disabled. */
  function ColorKey(f: ColorFlags, channels: int): (r: Option<(int, int)>)
    ensures r.Some? <==> ColorMode(f).Some?
    ensures r.Some? ==> r.value.0 == ColorMode(f).value
    ensures r.Some? && r.value.0 != 0 ==> r.value.1 == channels
    ensures r.Some? && r.value.0 == 0 ==> r.value.1 == -1
    // A corollary of the two clauses above, stated for the reader: unless the user passed -1,
    // the channel part tells the modes apart.
    ensures r.Some? && channels != -1 ==> (r.value.1 == -1 <==> r.value.0 == 0)
  {
    var mode :- ColorMode(f);
    Some((mode, if mode == 0 then -1 else channels))
  }

  /** The vertex types of `vcmap`: positions are always `vec3`. */
  const VertexTable: Mapper<(int, int), VertexShape> := Mapper([
    TypeMapping(VertexShape(Three, Plain), (0, -1)),
    TypeMapping(VertexShape(Three, Colored(Three)), (1, 3)),
    TypeMapping(VertexShape(Three, Colored(Four)), (1, 4)),
    TypeMapping(VertexShape(Three, OptColored(Three)), (2, 3)),
    TypeMapping(VertexShape(Three, OptColored(Four)), (2, 4))
  ])

  /** The face types of `fcmap`. */
  const FaceTable: Mapper<(int, int), ColorShape> := Mapper([
    TypeMapping(Plain, (0, -1)),
    TypeMapping(Colored(Three), (1, 3)),
    TypeMapping(Colored(Four), (1, 4)),
    TypeMapping(OptColored(Three), (2, 3)),
    TypeMapping(OptColored(Four), (2, 4))
  ])

  /** The vector arity a valid channel count names: 3 is RGB (`vec3`), 4 is RGBA (`vec4`). */
  function ChannelArity(channels: int): (a: Arity)
    requires channels in [3, 4]
    ensures Size(a) == channels
  {
    if channels == 3 then Three else Four
  }

  /** The colour shape a mode and a valid channel count name, independently of the tables. */
  function IntendedShape(mode: int, channels: int): ColorShape
    requires 0 <= mode <= 2 && channels in [3, 4]
  {
    if mode == 0 then Plain
    else if mode == 1 then Colored(ChannelArity(channels))
    else OptColored(ChannelArity(channels))
  }

  /**
   * The types `main` parses with: validation, then the two modes and keys, then
   * `vcmap.static_map` and `fcmap.static_map`. The first failure is the result.
   */
  function ResolveConfiguration(o: Options): (r: Result<(VertexShape, ColorShape)>)
    ensures r.Success? ==> Validate(o).None?
    ensures r.Success? ==> !(r.value.0.color.Colored? && r.value.1.Colored?)
  {
    hide StaticMapIn, MapIn;
    match Validate(o)
    case Some(message) => Failure(message)
    case None =>
      match (ColorKey(o.vertexFlags, o.vertexChannels), ColorKey(o.faceFlags, o.faceChannels))
      case (None, _) => Failure(UnreachableMessage)
      case (_, None) => Failure(UnreachableMessage)
      case (Some(vertexKey), Some(faceKey)) =>
        var v :- StaticMap(VertexTable, vertexKey);
        var f :- StaticMap(FaceTable, faceKey);
        var vertexShape := VertexTable.mappings[v].tag;
        var faceShape := FaceTable.mappings[f].tag;
        TablesColorOnlyInMode1(v);
        TablesColorOnlyInMode1(f);
        Success((vertexShape, faceShape))
  }

  /** In both tables, exactly the entries of mode 1 have mandatory colour. */
  lemma TablesColorOnlyInMode1(i: nat)
    requires i < 5
    ensures VertexTable.mappings[i].tag.color.Colored? <==> VertexTable.mappings[i].mapper.0 == 1
    ensures FaceTable.mappings[i].tag.Colored? <==> FaceTable.mappings[i].mapper.0 == 1
  {
  }

  /** Both tables have pairwise distinct keys, so first match and any match agree on them. */
  lemma TablesHaveDistinctKeys()
    ensures DistinctKeys(VertexTable.mappings)
    ensures DistinctKeys(FaceTable.mappings)
  {
  }

  /** The keys select shapes as `vcmap` and `fcmap` declare. */
  lemma KeysSelectIntendedShapes(mode: int, channels: int)
    requires 0 <= mode <= 2 && channels in [3, 4]
    ensures var key := (mode, if mode == 0 then -1 else channels);
      && StaticMap(VertexTable, key).Success?
      && StaticMap(FaceTable, key).Success?
      && VertexTable.mappings[StaticMap(VertexTable, key).value].tag
        == VertexShape(Three, IntendedShape(mode, channels))
      && FaceTable.mappings[StaticMap(FaceTable, key).value].tag == IntendedShape(mode, channels)
  {
    var key := (mode, if mode == 0 then -1 else channels);
    var i := if mode == 0 then 0 else 2 * mode - 1 + (channels - 3);
    assert VertexTable.mappings[i].mapper == key;
    assert FaceTable.mappings[i].mapper == key;
    TablesHaveDistinctKeys();
    DistinctKeysMapExactly(VertexTable, key, i);
    DistinctKeysMapExactly(FaceTable, key, i);
  }

  /**
   * Totality of the type selection: every configuration that argparse accepts and that
   * passes validation resolves, so neither `static_map` throws, and it resolves to the
   * shapes its flags and channel counts name.
   */
  lemma ValidatedConfigurationResolves(o: Options)
    requires ArgparseAccepts(o)
    requires Validate(o).None?
    ensures ResolveConfiguration(o).Success?
    ensures ResolveConfiguration(o).value
      == (VertexShape(Three, IntendedShape(ColorMode(o.vertexFlags).value, o.vertexChannels)),
          IntendedShape(ColorMode(o.faceFlags).value, o.faceChannels))
  {
    hide StaticMapIn, MapIn;
    var vm := ColorMode(o.vertexFlags).value;
    var fm := ColorMode(o.faceFlags).value;
    assert ColorKey(o.vertexFlags, o.vertexChannels) == Some((vm, if vm == 0 then -1 else o.vertexChannels));
    assert ColorKey(o.faceFlags, o.faceChannels) == Some((fm, if fm == 0 then -1 else o.faceChannels));
    KeysSelectIntendedShapes(vm, o.vertexChannels);
    KeysSelectIntendedShapes(fm, o.faceChannels);
  }

  /** Mandatory colour on both vertices and faces is rejected, whatever the channel counts. */
  lemma BothColoredRejected(o: Options)
    requires o.vertexFlags.color && o.faceFlags.color
    ensures ResolveConfiguration(o).Failure?
    ensures o.vertexChannels in [3, 4] && o.faceChannels in [3, 4] ==>
      ResolveConfiguration(o).error == BothColoredMessage
  {
  }
}
