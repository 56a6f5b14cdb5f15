/** Shared vocabulary: result wrappers, bytes, fixed-width host integers
    and the small string helpers used by the file-name logic. */
module Common {

  datatype Option<T> = None | Some(value: T)

  /** Outcome of an operation that the source ends by throwing. */
  datatype Result<T, E> = Ok(value: T) | Err(error: E)

  /** One byte of a file or of a buffer. */
  type byte = x: int | 0 <= x < 256

  /** A sequence of `n` zero bytes (a freshly value-initialised buffer). */
  function Zeros(n: nat): (r: seq<byte>)
    ensures |r| == n
    ensures forall i :: 0 <= i < n ==> r[i] == 0
  {
    seq(n, _ => 0)
  }

  /** What a read of `src` into the buffer `buf` leaves there: the first
      min(|buf|, |src|) elements come from `src`, the rest keep their value. */
  function Overlay<T>(buf: seq<T>, src: seq<T>): (r: seq<T>)
    ensures |r| == |buf|
    ensures forall i :: 0 <= i < |buf| ==> r[i] == if i < |src| then src[i] else buf[i]
  {
    if |src| >= |buf| then src[..|buf|] else src + buf[|src|..]
  }

  lemma ConcatAssoc<T>(a: seq<T>, b: seq<T>, c: seq<T>)
    ensures (a + b) + c == a + (b + c)
  {
  }

  function Min(a: int, b: int): int { if a <= b then a else b }

  /** Little-endian (host order on the platforms the tools target) encoding of
      an unsigned value on `width` bytes; the value is taken modulo 256^width,
      which is what a narrowing cast to that width does. */
  function EncodeLE(v: int, width: nat): (r: seq<byte>)
    ensures |r| == width
    decreases width
  {
    if width == 0 then [] else [v % 256] + EncodeLE(v / 256, width - 1)
  }

  /** Unsigned little-endian value of a byte sequence. */
  function DecodeLE(s: seq<byte>): (v: nat)
  {
    if s == [] then 0 else s[0] + 256 * DecodeLE(s[1..])
  }

  function Pow256(width: nat): (r: nat)
    ensures r > 0
  {
    if width == 0 then 1 else 256 * Pow256(width - 1)
  }

  lemma {:induction false} DecodeLEBound(s: seq<byte>)
    ensures DecodeLE(s) < Pow256(|s|)
  {
    if s != [] {
      DecodeLEBound(s[1..]);
    }
  }

  lemma {:induction false} DecodeLEZeros(n: nat)
    ensures DecodeLE(Zeros(n)) == 0
  {
    if n > 0 {
      assert Zeros(n)[1..] == Zeros(n - 1);
      DecodeLEZeros(n - 1);
    }
  }

  /** Decoding an encoding gives back the value reduced modulo 256^width. */
  lemma {:induction false} DecodeEncodeLE(v: int, width: nat)
    ensures DecodeLE(EncodeLE(v, width)) == v % Pow256(width)
    decreases width
  {
    if width > 0 {
      var s := EncodeLE(v, width);
      assert s[1..] == EncodeLE(v / 256, width - 1);
      DecodeEncodeLE(v / 256, width - 1);
      var q := v / 256;
      var m := Pow256(width - 1);
      assert v == 256 * q + v % 256;
      assert q == m * (q / m) + q % m;
      assert v == 256 * m * (q / m) + (256 * (q % m) + v % 256) by {
        assert 256 * q == 256 * m * (q / m) + 256 * (q % m);
      }
      assert 0 <= 256 * (q % m) + v % 256 < 256 * m;
      DivModUnique(v, 256 * m, q / m, 256 * (q % m) + v % 256);
    }
  }

  /** A value below 256^width survives encoding and decoding unchanged. */
  lemma EncodeLEExact(v: nat, width: nat)
    requires v < Pow256(width)
    ensures DecodeLE(EncodeLE(v, width)) == v
  {
    DecodeEncodeLE(v, width);
    DivModUnique(v, Pow256(width), 0, v);
  }

  /** Euclidean division is determined by quotient and remainder. */
  lemma DivModUnique(a: int, b: int, q: int, r: int)
    requires b > 0 && 0 <= r < b && a == b * q + r
    ensures a / b == q && a % b == r
  {
    var q', r' := a / b, a % b;
    assert b * (q' - q) == r - r' by {
      assert a == b * q' + r';
    }
    if q' > q {
      MulMonotone(b, q' - q);
    } else if q' < q {
      MulMonotone(b, q - q');
    }
  }

  lemma MulLe(a: nat, b: nat, c: nat)
    requires b <= c
    ensures a * b <= a * c
  {
  }

  /** Overwriting entry `i` extends the prefix before it by one element. */
  lemma UpdatePrefix<T>(s: seq<T>, i: nat, x: T)
    requires i < |s|
    ensures s[i := x][..i + 1] == s[..i] + [x]
  {
  }

  lemma MulLeRight(a: nat, b: nat, c: nat)
    requires a <= b
    ensures 0 <= a * c <= b * c
  {
  }

  lemma MulSucc(a: nat, b: nat)
    ensures (a + 1) * b == a * b + b
  {
  }

  lemma MulMonotone(b: int, k: int)
    requires b > 0 && k >= 1
    ensures b * k >= b
  {
  }

  /** Encoding a decoded byte sequence gives the same bytes back. */
  lemma {:induction false} EncodeDecodeLE(s: seq<byte>)
    ensures EncodeLE(DecodeLE(s), |s|) == s
  {
    if s != [] {
      var v := DecodeLE(s);
      assert v % 256 == s[0] && v / 256 == DecodeLE(s[1..]);
      EncodeDecodeLE(s[1..]);
    }
  }

  /** Two's-complement reading of an unsigned value below `modulus`
      (256 for a char, 65536 for a short, 2^32 for an int). */
  function Signed(u: nat, modulus: nat): (v: int)
    requires modulus > 0 && modulus % 2 == 0 && u < modulus
    ensures -((modulus / 2) as int) <= v < modulus / 2
    ensures v % modulus == u
  {
    if u < modulus / 2 then
      DivModUnique(u, modulus, 0, u);
      u
    else
      DivModUnique(u - modulus, modulus, -1, u);
      u - modulus
  }

  // ---------------------------------------------------------------- strings

  function IsDigit(c: char): bool { '0' <= c <= '9' }

  function DigitValue(c: char): (d: nat)
    requires IsDigit(c)
    ensures d < 10
  {
    c as int - '0' as int
  }

  function DigitChar(d: nat): (c: char)
    requires d < 10
    ensures IsDigit(c) && DigitValue(c) == d
  {
    ('0' as int + d) as char
  }

  /** Unpadded decimal text of a natural number (`std::to_string`,
      `QString::number`). */
  function DecimalString(n: nat): (s: string)
    ensures |s| >= 1
    ensures forall i :: 0 <= i < |s| ==> IsDigit(s[i])
    decreases n
  {
    if n < 10 then [DigitChar(n)] else DecimalString(n / 10) + [DigitChar(n % 10)]
  }

  /** Value of a sequence of decimal digits (most significant first). */
  function DecimalValue(s: string): (n: nat)
    requires forall i :: 0 <= i < |s| ==> IsDigit(s[i])
  {
    if s == [] then 0 else 10 * DecimalValue(s[..|s| - 1]) + DigitValue(s[|s| - 1])
  }

  lemma {:induction false} DecimalRoundTrip(n: nat)
    ensures DecimalValue(DecimalString(n)) == n
    decreases n
  {
    var s := DecimalString(n);
    if n >= 10 {
      assert s[..|s| - 1] == DecimalString(n / 10);
      DecimalRoundTrip(n / 10);
    }
  }

  /** `sub` occurs in `s` at position `i`. */
  predicate OccursAt(s: string, sub: string, i: int)
  {
    0 <= i && i + |sub| <= |s| && s[i..i + |sub|] == sub
  }

  /** `s` contains `sub` (`QString::indexOf(sub) >= 0`). */
  predicate Contains(s: string, sub: string)
  {
    exists i | 0 <= i <= |s| - |sub| :: OccursAt(s, sub, i)
  }

  predicate EndsWith(s: string, suffix: string)
  {
    |suffix| <= |s| && s[|s| - |suffix|..] == suffix
  }

  /** ASCII lower-casing of one character. */
  function ToLowerChar(c: char): char
  {
    if 'A' <= c <= 'Z' then (c as int - 'A' as int + 'a' as int) as char else c
  }

  function ToLower(s: string): (r: string)
    ensures |r| == |s|
    ensures forall i :: 0 <= i < |s| ==> r[i] == ToLowerChar(s[i])
  {
    seq(|s|, i requires 0 <= i < |s| => ToLowerChar(s[i]))
  }

  // ------------------------------------------------------- integer parsing

  const IntMin: int := -0x8000_0000
  const IntMax: int := 0x7fff_ffff

  /** White space as `isspace` classifies it in the C locale. */
  predicate IsSpace(c: char)
  {
    c == ' ' || '\t' <= c <= '\r'
  }

  /** Length of the longest prefix of `s` made of decimal digits. */
  function DigitPrefix(s: string): (k: nat)
    ensures k <= |s|
  {
    if s == [] || !IsDigit(s[0]) then 0 else 1 + DigitPrefix(s[1..])
  }

  /** `DigitPrefix` is the longest prefix of digits. */
  lemma {:induction false} DigitPrefixMaximal(s: string)
    ensures forall i :: 0 <= i < DigitPrefix(s) ==> IsDigit(s[i])
    ensures DigitPrefix(s) < |s| ==> !IsDigit(s[DigitPrefix(s)])
  {
    if s != [] && IsDigit(s[0]) {
      DigitPrefixMaximal(s[1..]);
    }
  }

  function SkipSpace(s: string): (r: string)
    ensures |r| <= |s|
  {
    if s != [] && IsSpace(s[0]) then SkipSpace(s[1..]) else s
  }

  /** `std::stoi(s)`: leading white space, an optional sign and the longest
      run of digits after it; the rest of the string is ignored. `None` is the
      `invalid_argument` (no digit) or `out_of_range` (beyond a 32-bit `int`)
      exception. */
  function Stoi(s: string): (r: Option<int>)
    ensures r.Some? ==> IntMin <= r.value <= IntMax
  {
    var t := SkipSpace(s);
    var signed := t != [] && (t[0] == '-' || t[0] == '+');
    var u := if signed then t[1..] else t;
    var k := DigitPrefix(u);
    DigitPrefixMaximal(u);
    if k == 0 then None
    else
      var m := DecimalValue(u[..k]);
      var v: int := if signed && t[0] == '-' then -(m as int) else m;
      if IntMin <= v <= IntMax then Some(v) else None
  }

  /** `stoi` reads back the decimal text of every non-negative `int`, also
      when the text is followed by something that is not a digit. */
  lemma StoiDecimal(n: nat, suffix: string)
    requires n <= IntMax
    requires suffix == [] || !IsDigit(suffix[0])
    ensures Stoi(DecimalString(n) + suffix) == Some(n)
  {
    var s := DecimalString(n) + suffix;
    assert s[0] == DecimalString(n)[0];
    assert SkipSpace(s) == s;
    assert forall i :: 0 <= i < |DecimalString(n)| ==> s[i] == DecimalString(n)[i];
    assert |s| > |DecimalString(n)| ==> s[|DecimalString(n)|] == suffix[0];
    DigitPrefixMaximal(s);
    assert DigitPrefix(s) == |DecimalString(n)|;
    assert s[..|DecimalString(n)|] == DecimalString(n);
    DecimalRoundTrip(n);
  }

  /** Text with no digit after the optional sign is rejected. */
  lemma StoiRejectsNonNumeric(s: string)
    requires s == [] || (!IsDigit(s[0]) && !IsSpace(s[0]) && s[0] != '-' && s[0] != '+')
    ensures Stoi(s) == None
  {
  }
}

