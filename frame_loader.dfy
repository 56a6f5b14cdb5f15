/** `FrameLoader`: reads a `.frame` file (one tag byte, three 16-bit
    dimensions, then the samples) or a headerless raw file into a frame,
    with explicit errors for every way the input can be wrong. */
module FrameLoader {
  import opened Common
  import opened ValueTypes
  import opened Grid
  import opened Streams

  /** The runtime errors the loaders throw. */
  datatype LoadError =
    | CannotOpen(filename: string)                        // "Cannot open file <name>"
    | FailedToRead                                        // "Failed to read data: ..."
    | BadDataSize(width: nat, height: nat, depth: nat)    // "Bad data size: w x h x d"
    | UnknownDataType(tag: int)                           // "Unknown data type: <n>"
    | UnknownValueType(tag: int)                          // "Unknown value type: <n>" (older reader)

  const HeaderSize: nat := 7

  datatype Header = Header(tag: byte, width: nat, height: nat, depth: nat)

  /** The header in file order: tag, width, height, depth, each dimension an
      unsigned 16-bit value in host byte order. */
  function DecodeHeader(h: seq<byte>): (r: Header)
    requires |h| == HeaderSize
    ensures r.tag == h[0]
    ensures r.width < 65536 && r.height < 65536 && r.depth < 65536
  {
    DecodeLEBound(h[1..3]);
    DecodeLEBound(h[3..5]);
    DecodeLEBound(h[5..7]);
    Header(h[0], DecodeLE(h[1..3]), DecodeLE(h[3..5]), DecodeLE(h[5..7]))
  }

  /** The reader instantiated for each tag: `VT_INT32` is dispatched to the
      unsigned 32-bit reader, like `VT_UINT32`. */
  function LoaderElem(t: ValueType): (e: ElemType)
    ensures t != Int32 ==> e == Select(t)
    ensures t == Int32 ==> e == UInt
  {
    if t == Int32 then UInt else Select(t)
  }

  // ------------------------------------------------------------ specification

  /** `readFrame<Type>` on the bytes that follow in the stream. */
  function ReadFrameSpec(e: ElemType, width: nat, height: nat, depth: nat, rest: seq<byte>)
    : Result<GridValue<Sample>, LoadError>
  {
    var n := width * height * depth;
    if n == 0 then Err(BadDataSize(width, height, depth))
    else if |rest| < n * ElemSize(e) then Err(FailedToRead)
    else Ok(GridValue(width, height, depth, DecodeSamples(e, rest[..n * ElemSize(e)], n)))
  }

  /** `loadBinary`: the switch on the tag. */
  function LoadBinarySpec(tag: int, width: nat, height: nat, depth: nat, rest: seq<byte>)
    : Result<GridValue<Sample>, LoadError>
  {
    match FromTag(tag)
    case None => Err(UnknownDataType(tag))
    case Some(t) => ReadFrameSpec(LoaderElem(t), width, height, depth, rest)
  }

  /** `load(filename)`, with the file's bytes (`None`: it cannot be opened). */
  function LoadSpec(filename: string, file: Option<seq<byte>>): Result<GridValue<Sample>, LoadError>
  {
    match file
    case None => Err(CannotOpen(filename))
    case Some(bytes) =>
      if |bytes| < HeaderSize then Err(FailedToRead)
      else
        var h := DecodeHeader(bytes[..HeaderSize]);
        LoadBinarySpec(h.tag, h.width, h.height, h.depth, bytes[HeaderSize..])
  }

  /** `loadRaw(filename, w, h, d, type)`: no header; the caller's dims and type. */
  function LoadRawSpec(filename: string, file: Option<seq<byte>>, width: nat, height: nat, depth: nat,
                       t: ValueType): Result<GridValue<Sample>, LoadError>
  {
    match file
    case None => Err(CannotOpen(filename))
    case Some(bytes) => LoadBinarySpec(Tag(t), width, height, depth, bytes)
  }

  // ----------------------------------------------------------- implementation

  /** `readFrame<Type>(in, width, height, depth)`. */
  method ReadFrame(input: InputStream, e: ElemType, width: nat, height: nat, depth: nat)
    returns (r: Result<Frame3D<Sample>, LoadError>)
    requires input.Valid() && !input.failed
    modifies input
    ensures var spec := ReadFrameSpec(e, width, height, depth, old(input.Remaining()));
      && (r.Err? <==> spec.Err?)
      && (r.Err? ==> r.error == spec.error)
      && (r.Ok? ==> fresh(r.value.data) && r.value.Valid() && r.value.Value() == spec.value)
  {
    var n := width * height * depth;
    if n == 0 {
      return Err(BadDataSize(width, height, depth));
    }
    var bytes := input.Read(n * ElemSize(e));
    if input.failed {
      return Err(FailedToRead);
    }
    var values := DecodeSamples(e, bytes, n);
    var frame := new Frame3D(width, height, depth, IntSample(0));
    frame.Fill(values);
    return Ok(frame);
  }

  /** `loadBinary(in, width, height, depth, type)`. */
  method LoadBinary(input: InputStream, width: nat, height: nat, depth: nat, tag: int)
    returns (r: Result<Frame3D<Sample>, LoadError>)
    requires input.Valid() && !input.failed
    modifies input
    ensures var spec := LoadBinarySpec(tag, width, height, depth, old(input.Remaining()));
      && (r.Err? <==> spec.Err?)
      && (r.Err? ==> r.error == spec.error)
      && (r.Ok? ==> fresh(r.value.data) && r.value.Valid() && r.value.Value() == spec.value)
  {
    match FromTag(tag)
    case None =>
      r := Err(UnknownDataType(tag));
    case Some(t) =>
      r := ReadFrame(input, LoaderElem(t), width, height, depth);
  }

  /** `load(filename)`: reads the tag and the three dimensions, each read
      failing with `FailedToRead` when the file ends, then dispatches. */
  method Load(filename: string, file: Option<seq<byte>>) returns (r: Result<Frame3D<Sample>, LoadError>)
    ensures var spec := LoadSpec(filename, file);
      && (r.Err? <==> spec.Err?)
      && (r.Err? ==> r.error == spec.error)
      && (r.Ok? ==> fresh(r.value.data) && r.value.Valid() && r.value.Value() == spec.value)
  {
    if file.None? {
      return Err(CannotOpen(filename));
    }
    var bytes := file.value;
    var input := new InputStream(bytes);
    var tb := input.Read(1);
    if input.failed { return Err(FailedToRead); }
    var wb := input.Read(2);
    if input.failed { return Err(FailedToRead); }
    var hb := input.Read(2);
    if input.failed { return Err(FailedToRead); }
    var db := input.Read(2);
    if input.failed { return Err(FailedToRead); }
    assert input.pos == HeaderSize && input.Remaining() == bytes[HeaderSize..];
    assert bytes[..HeaderSize] == tb + wb + hb + db;
    HeaderFields(bytes[..HeaderSize], tb, wb, hb, db);
    r := LoadBinary(input, DecodeLE(wb), DecodeLE(hb), DecodeLE(db), tb[0]);
  }

  lemma HeaderFields(h: seq<byte>, tb: seq<byte>, wb: seq<byte>, hb: seq<byte>, db: seq<byte>)
    requires |tb| == 1 && |wb| == 2 && |hb| == 2 && |db| == 2 && h == tb + wb + hb + db
    ensures |h| == HeaderSize
    ensures DecodeHeader(h) == Header(tb[0], DecodeLE(wb), DecodeLE(hb), DecodeLE(db))
  {
    assert h[1..3] == wb && h[3..5] == hb && h[5..7] == db;
  }

  /** `loadRaw(filename, width, height, depth, type)`. */
  method LoadRaw(filename: string, file: Option<seq<byte>>, width: nat, height: nat, depth: nat, t: ValueType)
    returns (r: Result<Frame3D<Sample>, LoadError>)
    ensures var spec := LoadRawSpec(filename, file, width, height, depth, t);
      && (r.Err? <==> spec.Err?)
      && (r.Err? ==> r.error == spec.error)
      && (r.Ok? ==> fresh(r.value.data) && r.value.Valid() && r.value.Value() == spec.value)
  {
    if file.None? {
      return Err(CannotOpen(filename));
    }
    var input := new InputStream(file.value);
    r := LoadBinary(input, width, height, depth, Tag(t));
  }

  // --------------------------------------------------------------- properties

  /** A file shorter than the 7 header bytes fails with `FailedToRead`. */
  lemma ShortHeaderFails(filename: string, bytes: seq<byte>)
    requires |bytes| < HeaderSize
    ensures LoadSpec(filename, Some(bytes)) == Err(FailedToRead)
  {
  }

  /** A tag byte outside 0..6 fails with `UnknownDataType(tag)`, whatever the
      dimensions and the payload are. */
  lemma UnknownTagFails(filename: string, bytes: seq<byte>)
    requires |bytes| >= HeaderSize && bytes[0] >= 7
    ensures LoadSpec(filename, Some(bytes)) == Err(UnknownDataType(bytes[0]))
  {
  }

  /** A zero-sized declared volume is an error before any payload is read. */
  lemma ZeroSizeFails(filename: string, bytes: seq<byte>)
    requires |bytes| >= HeaderSize && bytes[0] < 7
    requires var h := DecodeHeader(bytes[..HeaderSize]); h.width * h.height * h.depth == 0
    ensures var h := DecodeHeader(bytes[..HeaderSize]);
      LoadSpec(filename, Some(bytes)) == Err(BadDataSize(h.width, h.height, h.depth))
  {
  }

  /** A payload shorter than w*h*d elements fails with `FailedToRead`; in
      particular a truncated 256x256x256 file does not give a partial frame. */
  lemma TruncatedPayloadFails(filename: string, bytes: seq<byte>)
    requires |bytes| >= HeaderSize && bytes[0] < 7
    requires var h := DecodeHeader(bytes[..HeaderSize]);
      var n := h.width * h.height * h.depth;
      n > 0 && |bytes| - HeaderSize < n * ElemSize(LoaderElem(AllTypes()[bytes[0]]))
    ensures LoadSpec(filename, Some(bytes)) == Err(FailedToRead)
  {
  }

  /** Success exactly when the header, the tag, the size and the payload
      length are all right; the frame then has the header's dimensions and
      holds the first w*h*d elements of the payload in file order. */
  lemma {:induction false} LoadSucceedsIff(filename: string, bytes: seq<byte>)
    ensures LoadSpec(filename, Some(bytes)).Ok? <==>
      && |bytes| >= HeaderSize
      && bytes[0] < 7
      && var h := DecodeHeader(bytes[..HeaderSize]);
         var n := h.width * h.height * h.depth;
         && n > 0
         && |bytes| - HeaderSize >= n * ElemSize(LoaderElem(AllTypes()[bytes[0]]))
    ensures LoadSpec(filename, Some(bytes)).Ok? ==>
      var h := DecodeHeader(bytes[..HeaderSize]);
      var e := LoaderElem(AllTypes()[bytes[0]]);
      var n := h.width * h.height * h.depth;
      var g := LoadSpec(filename, Some(bytes)).value;
      && g.width == h.width && g.height == h.height && g.depth == h.depth
      && g.WellSized()
      && g.cells == DecodeSamples(e, bytes[HeaderSize..HeaderSize + n * ElemSize(e)], n)
  {
    if |bytes| >= HeaderSize && bytes[0] < 7 {
      var h := DecodeHeader(bytes[..HeaderSize]);
      var e := LoaderElem(AllTypes()[bytes[0]]);
      var n := h.width * h.height * h.depth;
      if n > 0 && |bytes| - HeaderSize >= n * ElemSize(e) {
        assert bytes[HeaderSize..][..n * ElemSize(e)] == bytes[HeaderSize..HeaderSize + n * ElemSize(e)];
      }
    }
  }

  /** Bytes after the w*h*d elements are never looked at. */
  lemma TrailingBytesIgnored(filename: string, bytes: seq<byte>, extra: seq<byte>)
    requires LoadSpec(filename, Some(bytes)).Ok?
    ensures LoadSpec(filename, Some(bytes + extra)) == LoadSpec(filename, Some(bytes))
  {
    var h := DecodeHeader(bytes[..HeaderSize]);
    var e := LoaderElem(AllTypes()[bytes[0]]);
    var n := h.width * h.height * h.depth;
    assert (bytes + extra)[..HeaderSize] == bytes[..HeaderSize];
    assert (bytes + extra)[HeaderSize..][..n * ElemSize(e)] == bytes[HeaderSize..][..n * ElemSize(e)];
  }

  /** Tag 4 (int32) is read exactly as tag 5 (uint32): the samples come back
      as unsigned values in [0, 2^32). */
  lemma Int32ReadAsUnsigned(width: nat, height: nat, depth: nat, rest: seq<byte>)
    ensures LoadBinarySpec(4, width, height, depth, rest) == LoadBinarySpec(5, width, height, depth, rest)
    ensures LoadBinarySpec(4, width, height, depth, rest).Ok? ==>
      forall i :: 0 <= i < |LoadBinarySpec(4, width, height, depth, rest).value.cells| ==>
        && LoadBinarySpec(4, width, height, depth, rest).value.cells[i].IntSample?
        && 0 <= LoadBinarySpec(4, width, height, depth, rest).value.cells[i].value < 0x1_0000_0000
  {
    var r := LoadBinarySpec(4, width, height, depth, rest);
    if r.Ok? {
      var n := width * height * depth;
      forall i | 0 <= i < |r.value.cells|
        ensures r.value.cells[i].IntSample? && 0 <= r.value.cells[i].value < 0x1_0000_0000
      {
        DecodeSamplesAt(UInt, rest[..n * 4], n, i);
        DecodeElemRepresentable(UInt, rest[..n * 4][i * 4..(i + 1) * 4]);
      }
    }
  }

  /** `loadRaw` goes through the same dispatch and checks as `load`, on the
      whole file and with the caller's dimensions. */
  lemma LoadRawIsLoadWithoutHeader(filename: string, bytes: seq<byte>, width: nat, height: nat,
                                   depth: nat, t: ValueType)
    ensures LoadRawSpec(filename, Some(bytes), width, height, depth, t)
      == ReadFrameSpec(LoaderElem(t), width, height, depth, bytes)
  {
    TagRoundTrip(t);
  }
}
