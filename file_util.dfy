/** `FileUtil`: the older `.frame` reader. Unlike `FrameLoader` it never
    checks a read: a short file leaves the header fields with whatever they
    held before (modelled by the parameter `junk`) and leaves the unread part
    of the sample buffer zero; it only knows the four 8- and 16-bit types. */
module FileUtil {
  import opened Common
  import opened ValueTypes
  import opened Grid
  import opened Streams
  import opened FrameLoader

  /** The seven header bytes the reader ends up with: the file's first bytes
      over the previous contents of the uninitialised header variables. */
  function LegacyHeader(bytes: seq<byte>, junk: seq<byte>): (h: seq<byte>)
    requires |junk| == HeaderSize
    ensures |h| == HeaderSize
  {
    Overlay(junk, bytes)
  }

  /** `loadFrameFromFile(filename)`. */
  function LegacyLoadSpec(filename: string, file: Option<seq<byte>>, junk: seq<byte>)
    : Result<GridValue<Sample>, LoadError>
    requires |junk| == HeaderSize
  {
    match file
    case None => Err(CannotOpen(filename))
    case Some(bytes) =>
      var h := DecodeHeader(LegacyHeader(bytes, junk));
      if h.tag >= 4 then Err(UnknownValueType(h.tag))
      else
        var e := Select(AllTypes()[h.tag]);
        var rest := if |bytes| >= HeaderSize then bytes[HeaderSize..] else [];
        Ok(LegacyFrame(e, h.width, h.height, h.depth, rest))
  }

  /** The frame the older `readFrame<Type>` builds from `rest`. */
  function LegacyFrame(e: ElemType, width: nat, height: nat, depth: nat, rest: seq<byte>): (g: GridValue<Sample>)
    ensures g.width == width && g.height == height && g.depth == depth
    ensures |g.cells| == width * height * depth
  {
    GridValue(width, height, depth, LegacyCells(e, width * height * depth, rest))
  }

  /** The `n` samples the older reader decodes from `rest`, the bytes left
      after the header: a zero buffer of `n` elements overwritten by them. */
  function LegacyCells(e: ElemType, n: nat, rest: seq<byte>): (cells: seq<Sample>)
    ensures |cells| == n
  {
    DecodeSamples(e, Overlay(Zeros(n * ElemSize(e)), rest), n)
  }

  /** Reads `n` bytes into a buffer whose previous contents are `prior`. */
  method ReadField(input: InputStream, prior: seq<byte>) returns (field: seq<byte>)
    requires input.Valid()
    modifies input
    ensures input.Valid()
    ensures old(input.failed) ==> field == prior && input.failed && input.pos == old(input.pos)
    ensures !old(input.failed) ==> field == Overlay(prior, old(input.Remaining()))
    ensures !old(input.failed) ==> input.pos == old(input.pos) + Min(|prior|, |old(input.Remaining())|)
    ensures !old(input.failed) ==> input.failed == (|old(input.Remaining())| < |prior|)
  {
    var buf := new byte[|prior|](i requires 0 <= i < |prior| => prior[i]);
    input.ReadInto(buf);
    field := buf[..];
  }

  /** `readFrame<Type>` of the older reader: a zero-filled buffer of w*h*d
      elements overwritten by what the stream still delivers. */
  method LegacyReadFrame(input: InputStream, e: ElemType, width: nat, height: nat, depth: nat)
    returns (frame: Frame3D<Sample>)
    requires input.Valid()
    modifies input
    ensures fresh(frame.data) && frame.Valid()
    ensures var rest := if old(input.failed) then [] else old(input.Remaining());
      frame.Value() == LegacyFrame(e, width, height, depth, rest)
  {
    var n := width * height * depth;
    ghost var rest := if input.failed then [] else input.Remaining();
    var values := new byte[n * ElemSize(e)](_ => 0);
    assert values[..] == Zeros(n * ElemSize(e));
    input.ReadInto(values);
    assert values[..] == Overlay(Zeros(n * ElemSize(e)), rest);
    var cells := DecodeSamples(e, values[..], n);
    frame := new Frame3D(width, height, depth, IntSample(0));
    frame.Fill(cells);
  }

  /** `loadFrameFromFile(filename)`, with `junk` for the header variables'
      values before the reads. */
  method LegacyLoad(filename: string, file: Option<seq<byte>>, junk: seq<byte>)
    returns (r: Result<Frame3D<Sample>, LoadError>)
    requires |junk| == HeaderSize
    ensures var spec := LegacyLoadSpec(filename, file, junk);
      && (r.Err? <==> spec.Err?)
      && (r.Err? ==> r.error == spec.error)
      && (r.Ok? ==> fresh(r.value.data) && r.value.Valid() && r.value.Value() == spec.value)
  {
    if file.None? {
      return Err(CannotOpen(filename));
    }
    var bytes := file.value;
    var input := new InputStream(bytes);
    var tb := ReadField(input, junk[0..1]);
    assert input.pos == Min(1, |bytes|) && input.failed == (|bytes| < 1);
    var wb := ReadField(input, junk[1..3]);
    assert input.pos == Min(3, |bytes|) && input.failed == (|bytes| < 3);
    var hb := ReadField(input, junk[3..5]);
    assert input.pos == Min(5, |bytes|) && input.failed == (|bytes| < 5);
    var db := ReadField(input, junk[5..7]);
    assert input.pos == Min(7, |bytes|) && input.failed == (|bytes| < 7);
    LegacyHeaderParts(bytes, junk, tb, wb, hb, db);
    ghost var h := DecodeHeader(LegacyHeader(bytes, junk));
    HeaderFields(LegacyHeader(bytes, junk), tb, wb, hb, db);
    ghost var rest := if |bytes| >= HeaderSize then bytes[HeaderSize..] else [];
    assert rest == if input.failed then [] else input.Remaining();
    var tag := tb[0];
    if tag >= 4 {
      return Err(UnknownValueType(tag));
    }
    var frame := LegacyReadFrame(input, Select(AllTypes()[tag]), DecodeLE(wb), DecodeLE(hb), DecodeLE(db));
    assert frame.Value() == LegacyFrame(Select(AllTypes()[h.tag]), h.width, h.height, h.depth, rest);
    return Ok(frame);
  }

  /** The four successive reads leave the header fields holding, in order,
      the bytes of `LegacyHeader`. */
  lemma LegacyHeaderParts(bytes: seq<byte>, junk: seq<byte>,
                          tb: seq<byte>, wb: seq<byte>, hb: seq<byte>, db: seq<byte>)
    requires |junk| == HeaderSize
    requires tb == Overlay(junk[0..1], bytes)
    requires wb == if |bytes| < 1 then junk[1..3] else Overlay(junk[1..3], bytes[1..])
    requires hb == if |bytes| < 3 then junk[3..5] else Overlay(junk[3..5], bytes[3..])
    requires db == if |bytes| < 5 then junk[5..7] else Overlay(junk[5..7], bytes[5..])
    ensures LegacyHeader(bytes, junk) == tb + wb + hb + db
  {
    var h := LegacyHeader(bytes, junk);
    forall i | 0 <= i < HeaderSize
      ensures h[i] == (tb + wb + hb + db)[i]
    {
    }
  }

  // --------------------------------------------------------------- properties

  /** Only the 8- and 16-bit tags are read; 4, 5 and 6 (which the newer
      loader accepts) are rejected with the tag in the message. */
  lemma LegacyTagsIff(filename: string, bytes: seq<byte>, junk: seq<byte>)
    requires |junk| == HeaderSize && |bytes| >= 1
    ensures LegacyLoadSpec(filename, Some(bytes), junk).Err? <==> bytes[0] >= 4
    ensures bytes[0] >= 4 ==> LegacyLoadSpec(filename, Some(bytes), junk) == Err(UnknownValueType(bytes[0]))
  {
  }

  /** A complete, well-formed file is read as the newer loader reads it
      whenever that loader succeeds on one of the four shared types. */
  lemma LegacyAgreesOnGoodFiles(filename: string, bytes: seq<byte>, junk: seq<byte>)
    requires |junk| == HeaderSize
    requires LoadSpec(filename, Some(bytes)).Ok? && bytes[0] < 4
    ensures LegacyLoadSpec(filename, Some(bytes), junk) == LoadSpec(filename, Some(bytes))
  {
    var h := DecodeHeader(bytes[..HeaderSize]);
    assert LegacyHeader(bytes, junk) == bytes[..HeaderSize];
    var e := Select(AllTypes()[bytes[0]]);
    var n := h.width * h.height * h.depth;
    var rest := bytes[HeaderSize..];
    assert Overlay(Zeros(n * ElemSize(e)), rest) == rest[..n * ElemSize(e)];
  }

  /** Unlike the newer loader, a declared size of zero gives an empty frame
      instead of an error. */
  lemma LegacyAcceptsEmptyVolume(filename: string, bytes: seq<byte>, junk: seq<byte>)
    requires |junk| == HeaderSize && |bytes| >= HeaderSize && bytes[0] < 4
    requires var h := DecodeHeader(bytes[..HeaderSize]); h.width * h.height * h.depth == 0
    ensures LegacyLoadSpec(filename, Some(bytes), junk).Ok?
    ensures LegacyLoadSpec(filename, Some(bytes), junk).value.cells == []
    ensures LoadSpec(filename, Some(bytes)).Err?
  {
    assert LegacyHeader(bytes, junk) == bytes[..HeaderSize];
  }

  /** A truncated payload is not an error: every sample that lies wholly
      past the end of the file reads as zero. */
  lemma LegacyZeroFillsTruncation(filename: string, bytes: seq<byte>, junk: seq<byte>, i: nat)
    requires |junk| == HeaderSize && |bytes| >= HeaderSize && bytes[0] < 4
    requires i < |LegacyLoadSpec(filename, Some(bytes), junk).value.cells|
    requires HeaderSize + i * ElemSize(Select(AllTypes()[bytes[0]])) >= |bytes|
    ensures LegacyLoadSpec(filename, Some(bytes), junk).value.cells[i] == IntSample(0)
  {
    var h := DecodeHeader(LegacyHeader(bytes, junk));
    assert LegacyHeader(bytes, junk) == bytes[..HeaderSize];
    var e := Select(AllTypes()[bytes[0]]);
    ZeroPaddedSample(e, bytes[HeaderSize..], h.width * h.height * h.depth, i);
  }

  lemma ZeroPaddedSample(e: ElemType, rest: seq<byte>, n: nat, i: nat)
    requires e != Float && i < n && i * ElemSize(e) >= |rest|
    ensures DecodeSamples(e, Overlay(Zeros(n * ElemSize(e)), rest), n)[i] == IntSample(0)
  {
    var k := ElemSize(e);
    var payload := Overlay(Zeros(n * k), rest);
    DecodeSamplesAt(e, payload, n, i);
    var b := payload[i * k..(i + 1) * k];
    forall j | 0 <= j < k
      ensures b[j] == 0
    {
      assert b[j] == payload[i * k + j];
    }
    assert b == Zeros(k);
    DecodeLEZeros(k);
  }
}
