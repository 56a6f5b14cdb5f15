/** `VolumeConvert`: the command-line tool that prefixes a raw volume file
    with the `.frame` header (type tag, then width, height and depth as
    unsigned 16-bit values). */
module VolumeConvert {
  import opened Common
  import opened ValueTypes
  import opened Grid
  import opened Streams
  import opened FrameLoader

  /** The `Unknown type: <name>` error. */
  datatype TypeError = UnknownType(name: string)

  /** The names accepted on the command line, one per tag in tag order. */
  function TypeNames(): (r: seq<string>)
    ensures |r| == 7
  {
    ["int8", "uint8", "int16", "uint16", "int32", "uint32", "float32"]
  }

  /** `getType(name)`: the tag a type name selects. */
  function GetType(name: string): (r: Result<ValueType, TypeError>)
  {
    var types := map["int8" := Int8, "uint8" := UInt8, "int16" := Int16, "uint16" := UInt16,
                     "int32" := Int32, "uint32" := UInt32, "float32" := Float32];
    if name in types then Ok(types[name]) else Err(UnknownType(name))
  }

  /** A name is accepted exactly when it is one of the seven, it selects the
      type with that name, and any other name is reported in the error. */
  lemma GetTypeIff(name: string)
    ensures GetType(name).Ok? <==> name in TypeNames()
    ensures GetType(name).Ok? ==> TypeNames()[Tag(GetType(name).value)] == name
    ensures GetType(name).Err? ==> GetType(name).error == UnknownType(name)
  {
  }

  /** Every type has exactly one name, and that name selects it. */
  lemma GetTypeRoundTrip(t: ValueType)
    ensures GetType(TypeNames()[Tag(t)]) == Ok(t)
  {
  }

  /** `getFileSize(name)`: the length of the file, `None` when it cannot be
      opened. */
  function GetFileSize(files: map<string, seq<byte>>, name: string): (r: Option<nat>)
    ensures r.Some? <==> name in files
    ensures r.Some? ==> r.value == |files[name]|
  {
    if name in files then Some(|files[name]|) else None
  }

  /** The bytes written for tag `t`, dimensions `w`, `h`, `d` (each narrowed
      to an unsigned short) and the unchanged input. */
  function FrameFile(t: ValueType, w: int, h: int, d: int, payload: seq<byte>): (f: seq<byte>)
    ensures |f| == HeaderSize + |payload|
    ensures f[0] == Tag(t) && f[HeaderSize..] == payload
  {
    [Tag(t)] + EncodeLE(w, 2) + EncodeLE(h, 2) + EncodeLE(d, 2) + payload
  }

  /** The three dimension arguments all parse as integers. */
  predicate DimsParse(args: seq<string>)
  {
    |args| > 5 && Stoi(args[3]).Some? && Stoi(args[4]).Some? && Stoi(args[5]).Some?
  }

  /** `main(argc, argv)` with `args` standing for argv[0..argc). The result is
      the exit status. */
  method Run(fs: FileSystem, args: seq<string>) returns (status: int)
    modifies fs
    ensures status == 0 || status == -1
    ensures status == 0 <==>
      |args| > 6 && DimsParse(args) && args[1] in old(fs.files) && GetType(args[2]).Ok?
    // usage error, a bad number or a missing input: nothing is written
    ensures |args| <= 6 || !DimsParse(args) || args[1] !in old(fs.files) ==> fs.files == old(fs.files)
    // an unknown type name: the output was already opened, so it is left empty
    ensures |args| > 6 && DimsParse(args) && args[1] in old(fs.files) && GetType(args[2]).Err? && args[6] in fs.writable
      ==> fs.files == old(fs.files)[args[6] := []]
    // an output that cannot be opened: nothing is written, and the exit code is unaffected
    ensures |args| > 6 && args[6] !in fs.writable ==> fs.files == old(fs.files)
    ensures status == 0 && args[6] in fs.writable ==>
      fs.files == old(fs.files)[args[6] := FrameFile(GetType(args[2]).value, Stoi(args[3]).value,
                                                     Stoi(args[4]).value, Stoi(args[5]).value,
                                                     old(fs.files)[args[1]])]
  {
    if |args| <= 6 {
      return -1;
    }
    var inputFile := args[1];
    var typeName := args[2];
    var width := Stoi(args[3]);
    var height := Stoi(args[4]);
    var depth := Stoi(args[5]);
    if width.None? || height.None? || depth.None? {
      return -1;
    }
    var outputFile := args[6];
    var size := GetFileSize(fs.files, inputFile);
    if size.None? {
      return -1;
    }
    var input := new InputStream(fs.files[inputFile]);
    var data := input.Read(size.value);
    assert data == fs.files[inputFile];
    fs.Write(outputFile, []);
    var t := GetType(typeName);
    if t.Err? {
      return -1;
    }
    fs.Write(outputFile, FrameFile(t.value, width.value, height.value, depth.value, data));
    return 0;
  }

  // --------------------------------------------------------------- properties

  /** The header written is the header `FrameLoader.load` reads: the tag,
      and each dimension modulo 2^16. */
  lemma FrameFileHeader(t: ValueType, w: int, h: int, d: int, payload: seq<byte>)
    ensures DecodeHeader(FrameFile(t, w, h, d, payload)[..HeaderSize])
         == Header(Tag(t), w % 65536, h % 65536, d % 65536)
  {
    var f := FrameFile(t, w, h, d, payload);
    assert f[1..3] == EncodeLE(w, 2) && f[3..5] == EncodeLE(h, 2) && f[5..7] == EncodeLE(d, 2);
    assert f[..HeaderSize][1..3] == f[1..3];
    assert f[..HeaderSize][3..5] == f[3..5];
    assert f[..HeaderSize][5..7] == f[5..7];
    DecodeEncodeLE(w, 2);
    DecodeEncodeLE(h, 2);
    DecodeEncodeLE(d, 2);
    assert Pow256(2) == 65536;
  }

  /** Loading a converted file treats the input as the payload of the
      declared type and (narrowed) dimensions. */
  lemma ConvertThenLoad(name: string, t: ValueType, w: int, h: int, d: int, payload: seq<byte>)
    ensures LoadSpec(name, Some(FrameFile(t, w, h, d, payload)))
         == LoadBinarySpec(Tag(t), w % 65536, h % 65536, d % 65536, payload)
  {
    FrameFileHeader(t, w, h, d, payload);
  }

  /** Round trip: samples written in host order and converted with their
      type's name load back as the same frame, for dimensions that fit an
      unsigned short and every type but `int32` (which is read back as
      unsigned). */
  lemma ConvertRoundTrip(name: string, t: ValueType, w: nat, h: nat, d: nat, values: seq<Sample>)
    requires 0 < w < 65536 && 0 < h < 65536 && 0 < d < 65536
    requires t != Int32 && |values| == w * h * d
    requires forall i :: 0 <= i < |values| ==> Representable(Select(t), values[i])
    ensures LoadSpec(name, Some(FrameFile(t, w, h, d, EncodeSamples(Select(t), values))))
         == Ok(GridValue(w, h, d, values))
  {
    var payload := EncodeSamples(Select(t), values);
    calc {
      LoadSpec(name, Some(FrameFile(t, w, h, d, payload)));
      { ConvertThenLoad(name, t, w, h, d, payload); }
      LoadBinarySpec(Tag(t), w % 65536, h % 65536, d % 65536, payload);
      { DivModUnique(w, 65536, 0, w); DivModUnique(h, 65536, 0, h); DivModUnique(d, 65536, 0, d); }
      LoadBinarySpec(Tag(t), w, h, d, payload);
      { TagRoundTrip(t); }
      ReadFrameSpec(Select(t), w, h, d, payload);
      { ReadEncodedFrame(Select(t), w, h, d, values); }
      Ok(GridValue(w, h, d, values));
    }
  }

  /** The int32 round trip: the loader reads tag 4 with the unsigned 32-bit
      reader, so every written value v comes back as v modulo 2^32, and a
      negative v as v + 2^32. */
  lemma ConvertInt32RoundTrip(name: string, w: nat, h: nat, d: nat, values: seq<Sample>)
    requires 0 < w < 65536 && 0 < h < 65536 && 0 < d < 65536
    requires |values| == w * h * d
    requires forall i :: 0 <= i < |values| ==> Representable(Select(Int32), values[i])
    ensures LoadSpec(name, Some(FrameFile(Int32, w, h, d, EncodeSamples(Select(Int32), values))))
         == Ok(GridValue(w, h, d, seq(|values|, i requires 0 <= i < |values| =>
                                        IntSample(values[i].value % 0x1_0000_0000))))
  {
    ConvertInt32Loads(name, w, h, d, values);
    assert Unsigned32(values) == seq(|values|, i requires 0 <= i < |values| =>
                                       IntSample(values[i].value % 0x1_0000_0000));
  }

  lemma ConvertInt32Loads(name: string, w: nat, h: nat, d: nat, values: seq<Sample>)
    requires 0 < w < 65536 && 0 < h < 65536 && 0 < d < 65536
    requires |values| == w * h * d
    requires forall i :: 0 <= i < |values| ==> Representable(Int, values[i])
    ensures LoadSpec(name, Some(FrameFile(Int32, w, h, d, EncodeSamples(Int, values))))
         == Ok(GridValue(w, h, d, Unsigned32(values)))
  {
    var payload := EncodeSamples(Int, values);
    calc {
      LoadSpec(name, Some(FrameFile(Int32, w, h, d, payload)));
      { ConvertThenLoad(name, Int32, w, h, d, payload); }
      LoadBinarySpec(Tag(Int32), w % 65536, h % 65536, d % 65536, payload);
      { DivModUnique(w, 65536, 0, w); DivModUnique(h, 65536, 0, h); DivModUnique(d, 65536, 0, d); }
      LoadBinarySpec(4, w, h, d, payload);
      ReadFrameSpec(UInt, w, h, d, payload);
      { ReadInt32Frame(w, h, d, values); }
      Ok(GridValue(w, h, d, Unsigned32(values)));
    }
  }

  lemma ReadInt32Frame(w: nat, h: nat, d: nat, values: seq<Sample>)
    requires 0 < w && 0 < h && 0 < d && |values| == w * h * d
    requires forall i :: 0 <= i < |values| ==> Representable(Int, values[i])
    ensures ReadFrameSpec(UInt, w, h, d, EncodeSamples(Int, values)) == Ok(GridValue(w, h, d, Unsigned32(values)))
  {
    ReadWholePayload(UInt, w, h, d, EncodeSamples(Int, values));
    DecodeIntSamplesAsUInt(values);
  }

  /** A payload of exactly w*h*d elements is read whole. */
  lemma ReadWholePayload(e: ElemType, w: nat, h: nat, d: nat, payload: seq<byte>)
    requires 0 < w && 0 < h && 0 < d && |payload| == w * h * d * ElemSize(e)
    ensures ReadFrameSpec(e, w, h, d, payload) == Ok(GridValue(w, h, d, DecodeSamples(e, payload, w * h * d)))
  {
    var n := w * h * d;
    assert n > 0 by {
      assert w * h > 0;
    }
    assert payload[..n * ElemSize(e)] == payload;
  }

  lemma ReadEncodedFrame(e: ElemType, w: nat, h: nat, d: nat, values: seq<Sample>)
    requires 0 < w && 0 < h && 0 < d && |values| == w * h * d
    requires forall i :: 0 <= i < |values| ==> Representable(e, values[i])
    ensures ReadFrameSpec(e, w, h, d, EncodeSamples(e, values)) == Ok(GridValue(w, h, d, values))
  {
    var payload := EncodeSamples(e, values);
    var n := w * h * d;
    assert n > 0 by {
      assert w * h > 0;
    }
    assert payload[..n * ElemSize(e)] == payload;
    DecodeEncodeSamples(e, values);
  }
}
