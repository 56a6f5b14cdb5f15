/** The scalar type tag of volume files (`ValueType`) and the element type each
    tag selects (`ValueTypeSelect`), with the byte-level reading of samples. */
module ValueTypes {
  import opened Common

  /** The seven scalar types, in declaration order. */
  datatype ValueType = Int8 | UInt8 | Int16 | UInt16 | Int32 | UInt32 | Float32

  /** The C++ element types `ValueTypeSelect` maps a tag to. */
  datatype ElemType = Char | UChar | Short | UShort | Int | UInt | Float

  /** Every tag, in declaration order. */
  function AllTypes(): (r: seq<ValueType>)
    ensures |r| == 7
  {
    [Int8, UInt8, Int16, UInt16, Int32, UInt32, Float32]
  }

  /** The enumerator's value; the enum's underlying type is one byte. */
  function Tag(t: ValueType): (b: byte)
  {
    match t
    case Int8 => 0
    case UInt8 => 1
    case Int16 => 2
    case UInt16 => 3
    case Int32 => 4
    case UInt32 => 5
    case Float32 => 6
  }

  /** Tags are the consecutive values 0..6 in declaration order, so each fits
      in a header byte and distinct types have distinct tags. */
  lemma TagsConsecutive()
    ensures forall i :: 0 <= i < 7 ==> Tag(AllTypes()[i]) == i
    ensures forall t :: Tag(t) < 7
    ensures forall t, u :: Tag(t) == Tag(u) ==> t == u
  {
  }

  /** The type a header byte names, if any. */
  function FromTag(b: int): (r: Option<ValueType>)
    ensures r.Some? <==> 0 <= b < 7
    ensures r.Some? ==> Tag(r.value) == b
  {
    if 0 <= b < 7 then Some(AllTypes()[b]) else None
  }

  lemma TagRoundTrip(t: ValueType)
    ensures FromTag(Tag(t)) == Some(t)
  {
  }

  /** `ValueTypeSelect<Type>::type`. */
  function Select(t: ValueType): ElemType
  {
    match t
    case Int8 => Char
    case UInt8 => UChar
    case Int16 => Short
    case UInt16 => UShort
    case Int32 => Int
    case UInt32 => UInt
    case Float32 => Float
  }

  /** The specialisations are one per tag and pairwise different; a byte with
      no enumerator has no specialisation (the primary template is empty). */
  lemma SelectIsOneToOne(t: ValueType, u: ValueType)
    ensures Select(t) == Select(u) <==> t == u
  {
  }

  /** `ValueTypeSelect` looked up by the raw tag byte. */
  function SelectByTag(b: int): (r: Option<ElemType>)
    ensures r.Some? <==> 0 <= b < 7
    ensures r.Some? ==> r.value == Select(AllTypes()[b])
  {
    match FromTag(b)
    case None => None
    case Some(t) => Some(Select(t))
  }

  /** `sizeof` of each element type on the usual platforms. */
  function ElemSize(e: ElemType): (n: nat)
    ensures n == 1 || n == 2 || n == 4
  {
    match e
    case Char => 1
    case UChar => 1
    case Short => 2
    case UShort => 2
    case Int => 4
    case UInt => 4
    case Float => 4
  }

  function ElemSizeOf(t: ValueType): (n: nat)
    ensures n == [1, 1, 2, 2, 4, 4, 4][Tag(t)]
  {
    ElemSize(Select(t))
  }

  predicate IsSigned(e: ElemType)
  {
    e == Char || e == Short || e == Int
  }

  /** One element as read from a file: integer types give their value
      (two's complement for the signed ones, `char` being signed);
      a float keeps its four bytes. */
  datatype Sample = IntSample(value: int) | FloatSample(bits: seq<byte>)

  function Modulus(e: ElemType): (m: nat)
    ensures m == Pow256(ElemSize(e)) && m % 2 == 0
  {
    assert Pow256(1) == 256;
    assert Pow256(2) == 65536;
    assert Pow256(4) == 0x1_0000_0000;
    match ElemSize(e)
    case 1 => 256
    case 2 => 65536
    case 4 => 0x1_0000_0000
  }

  /** Reinterpreting `ElemSize(e)` bytes (host order, little-endian) as `e`. */
  function DecodeElem(e: ElemType, b: seq<byte>): (s: Sample)
    requires |b| == ElemSize(e)
    ensures s.FloatSample? <==> e == Float
  {
    if e == Float then FloatSample(b)
    else
      DecodeLEBound(b);
      var u := DecodeLE(b);
      if IsSigned(e) then IntSample(Signed(u, Modulus(e))) else IntSample(u)
  }

  /** Every element read back lies in the range of its type: unsigned values
      in [0, 2^bits), signed ones in [-2^(bits-1), 2^(bits-1)). */
  lemma DecodeElemRepresentable(e: ElemType, b: seq<byte>)
    requires |b| == ElemSize(e)
    ensures Representable(e, DecodeElem(e, b))
  {
    DecodeLEBound(b);
  }

  /** Reading `n` consecutive elements of type `e` from `payload`. */
  function DecodeSamples(e: ElemType, payload: seq<byte>, n: nat): (r: seq<Sample>)
    requires |payload| == n * ElemSize(e)
    ensures |r| == n
  {
    if n == 0 then []
    else
      var k := ElemSize(e);
      MulSucc(n - 1, k);
      [DecodeElem(e, payload[..k])] + DecodeSamples(e, payload[k..], n - 1)
  }

  /** Element `i` of a decoded payload is read from bytes `[i*size, (i+1)*size)`. */
  lemma {:induction false} DecodeSamplesAt(e: ElemType, payload: seq<byte>, n: nat, i: nat)
    requires |payload| == n * ElemSize(e) && i < n
    ensures (i + 1) * ElemSize(e) <= |payload|
    ensures DecodeSamples(e, payload, n)[i] == DecodeElem(e, payload[i * ElemSize(e)..(i + 1) * ElemSize(e)])
    decreases n, 1
  {
    MulSucc(i, ElemSize(e));
    MulLeRight(i + 1, n, ElemSize(e));
    if i > 0 {
      DecodeSamplesAtLater(e, payload, n, i);
    }
  }

  /** The step of `DecodeSamplesAt` past the first element. */
  lemma {:induction false} DecodeSamplesAtLater(e: ElemType, payload: seq<byte>, n: nat, i: nat)
    requires |payload| == n * ElemSize(e) && 0 < i < n
    requires (i + 1) * ElemSize(e) <= |payload|
    ensures DecodeSamples(e, payload, n)[i] == DecodeElem(e, payload[i * ElemSize(e)..(i + 1) * ElemSize(e)])
    decreases n, 0
  {
    var k := ElemSize(e);
    MulSucc(n - 1, k);
    assert DecodeSamples(e, payload, n)[i] == DecodeSamples(e, payload[k..], n - 1)[i - 1];
    DecodeSamplesAt(e, payload[k..], n - 1, i - 1);
    ChunkOfSuffix(payload, k, i);
  }

  /** Chunk `i - 1` of the bytes after the first chunk is chunk `i` of the whole. */
  lemma ChunkOfSuffix(s: seq<byte>, k: nat, i: nat)
    requires 0 < i && (i + 1) * k <= |s|
    ensures k <= |s| && 0 <= (i - 1) * k <= i * k <= |s| - k
    ensures s[k..][(i - 1) * k..i * k] == s[i * k..(i + 1) * k]
  {
    MulSucc(i - 1, k);
    MulSucc(i, k);
    MulLeRight(0, i - 1, k);
  }

  /** Samples that `e` can represent. */
  predicate Representable(e: ElemType, s: Sample)
  {
    if e == Float then s.FloatSample? && |s.bits| == 4
    else if IsSigned(e) then s.IntSample? && -((Modulus(e) / 2) as int) <= s.value < Modulus(e) / 2
    else s.IntSample? && 0 <= s.value < Modulus(e)
  }

  /** Writing one element in host order. */
  function EncodeElem(e: ElemType, s: Sample): (b: seq<byte>)
    requires Representable(e, s)
    ensures |b| == ElemSize(e)
  {
    if e == Float then s.bits else EncodeLE(s.value, ElemSize(e))
  }

  function EncodeSamples(e: ElemType, values: seq<Sample>): (b: seq<byte>)
    requires forall i :: 0 <= i < |values| ==> Representable(e, values[i])
    ensures |b| == |values| * ElemSize(e)
  {
    if values == [] then []
    else
      MulSucc(|values| - 1, ElemSize(e));
      EncodeElem(e, values[0]) + EncodeSamples(e, values[1..])
  }

  lemma DecodeEncodeElem(e: ElemType, s: Sample)
    requires Representable(e, s)
    ensures DecodeElem(e, EncodeElem(e, s)) == s
  {
    if e != Float {
      var k := ElemSize(e);
      var m := Modulus(e);
      DecodeEncodeLE(s.value, k);
      if s.value < 0 {
        DivModUnique(s.value, m, -1, s.value + m);
      } else {
        DivModUnique(s.value, m, 0, s.value);
      }
    }
  }

  /** Reading back what was written gives the same samples, for every type. */
  lemma {:induction false} DecodeEncodeSamples(e: ElemType, values: seq<Sample>)
    requires forall i :: 0 <= i < |values| ==> Representable(e, values[i])
    ensures DecodeSamples(e, EncodeSamples(e, values), |values|) == values
  {
    if values != [] {
      var first, rest := EncodeElem(e, values[0]), EncodeSamples(e, values[1..]);
      MulSucc(|values| - 1, ElemSize(e));
      SplitConcat(first, rest);
      DecodeEncodeElem(e, values[0]);
      DecodeEncodeSamples(e, values[1..]);
      assert values == [values[0]] + values[1..];
    }
  }

  /** The int32 reading of unsigned 32-bit bytes: a value written as `int`
      and read back as `unsigned int` is the value modulo 2^32. */
  function Unsigned32(values: seq<Sample>): (r: seq<Sample>)
    requires forall i :: 0 <= i < |values| ==> values[i].IntSample?
    ensures |r| == |values|
    ensures forall i :: 0 <= i < |r| ==>
      r[i] == IntSample(values[i].value % 0x1_0000_0000)
  {
    seq(|values|, i requires 0 <= i < |values| => IntSample(values[i].value % 0x1_0000_0000))
  }

  lemma DecodeIntAsUInt(s: Sample)
    requires Representable(Int, s)
    ensures DecodeElem(UInt, EncodeElem(Int, s)) == IntSample(s.value % 0x1_0000_0000)
  {
    DecodeEncodeLE(s.value, 4);
    assert Pow256(4) == 0x1_0000_0000 by {
      assert Modulus(Int) == 0x1_0000_0000;
    }
  }

  /** `int` samples written and read back with the unsigned 32-bit reader
      come back modulo 2^32: a negative v returns as v + 2^32. */
  lemma {:induction false} DecodeIntSamplesAsUInt(values: seq<Sample>)
    requires forall i :: 0 <= i < |values| ==> Representable(Int, values[i])
    ensures DecodeSamples(UInt, EncodeSamples(Int, values), |values|) == Unsigned32(values)
  {
    if values != [] {
      var first, rest := EncodeElem(Int, values[0]), EncodeSamples(Int, values[1..]);
      MulSucc(|values| - 1, 4);
      SplitConcat(first, rest);
      assert EncodeSamples(Int, values) == first + rest;
      calc {
        DecodeSamples(UInt, first + rest, |values|);
        [DecodeElem(UInt, first)] + DecodeSamples(UInt, rest, |values| - 1);
        { DecodeIntAsUInt(values[0]); DecodeIntSamplesAsUInt(values[1..]); }
        [IntSample(values[0].value % 0x1_0000_0000)] + Unsigned32(values[1..]);
        { Unsigned32Cons(values); }
        Unsigned32(values);
      }
    }
  }

  lemma Unsigned32Cons(values: seq<Sample>)
    requires values != [] && forall i :: 0 <= i < |values| ==> values[i].IntSample?
    ensures Unsigned32(values) == [IntSample(values[0].value % 0x1_0000_0000)] + Unsigned32(values[1..])
  {
  }

  lemma SplitConcat(a: seq<byte>, b: seq<byte>)
    ensures (a + b)[..|a|] == a && (a + b)[|a|..] == b
  {
  }
}
