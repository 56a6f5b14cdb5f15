/** The Gaussian cube reader (`cube::readCubeFile`). A cube file starts with
    two title lines; then come whitespace-separated numbers: the atom count
    (negative when lengths are in Ångström, otherwise in Bohr), the origin,
    three times a dimension and its axis vector, one record per atom and
    finally dim0*dim1*dim2 data values. Lengths in Bohr are converted to
    Ångström. */
module CubeData {
  import opened Common
  import opened Streams

  const AngstromsInBohr: real := 0.529177249

  /** `cube::Vector`: exactly three doubles. */
  type Vector = v: seq<real> | |v| == 3 witness [0.0, 0.0, 0.0]

  const ZeroVector: Vector := [0.0, 0.0, 0.0]

  function Scale(v: Vector, k: real): (r: Vector)
    ensures forall i :: 0 <= i < 3 ==> r[i] == v[i] * k
  {
    [v[0] * k, v[1] * k, v[2] * k]
  }

  /** `AtomData`: the element's number in the periodic table, an unused
      value, and the Cartesian coordinates. */
  datatype AtomData = AtomData(n: int, unk: real, rc: Vector)

  /** `AtomData` as default-initialised. */
  function DefaultAtom(): (a: AtomData)
    ensures a.n == 0 && a.unk == 0.0
    ensures forall i :: 0 <= i < 3 ==> a.rc[i] == 0.0
  {
    AtomData(0, 0.0, ZeroVector)
  }

  /** `CubeData`. */
  datatype Cube = Cube(title: seq<string>, isInAngstrom: bool, dim: seq<nat>, origin: Vector,
                       dvec: seq<Vector>, bordPeriod: seq<bool>, atoms: seq<AtomData>, data: seq<real>)
  {
    /** Two titles and three dimensions, axis vectors and border flags. */
    predicate WellFormed()
    {
      |title| == 2 && |dim| == 3 && |dvec| == 3 && |bordPeriod| == 3
    }
  }

  /** `CubeData` as default-initialised: Ångström, empty titles, zero
      dimensions and vectors, all borders periodic, no atoms and no data. */
  function DefaultCube(): (c: Cube)
    ensures c.WellFormed() && c.isInAngstrom
    ensures c.title == ["", ""] && c.atoms == [] && c.data == []
    ensures forall i :: 0 <= i < 3 ==> c.dim[i] == 0 && c.dvec[i] == ZeroVector && c.bordPeriod[i]
    ensures c.origin == ZeroVector
  {
    Cube(["", ""], true, [0, 0, 0], ZeroVector, [ZeroVector, ZeroVector, ZeroVector],
         [true, true, true], [], [])
  }

  // ------------------------------------------------------------ the tokens

  /** A whitespace-separated word of the numeric part: an integer literal,
      another floating-point literal, or something that is not a number. */
  datatype Token = IntToken(i: int) | RealToken(r: real) | Word

  /** The file: its two title lines and the words after them. */
  datatype CubeText = CubeText(title0: string, title1: string, body: seq<Token>)

  /** The state of the input stream: the word reached and the fail flag. */
  datatype Cursor = Cursor(tokens: seq<Token>, pos: nat, failed: bool)

  const SizeModulus: int := 0x1_0000_0000_0000_0000

  /** The cursor after a failed extraction. */
  function Fail(c: Cursor): (d: Cursor)
    ensures d.failed && d.tokens == c.tokens
  {
    Cursor(c.tokens, c.pos, true)
  }

  /** The cursor after a successful extraction. */
  function Advance(c: Cursor): (d: Cursor)
    ensures !d.failed && d.tokens == c.tokens && d.pos == c.pos + 1
  {
    Cursor(c.tokens, c.pos + 1, false)
  }

  /** `in >> v` for an `int v` that holds 0: a failed stream leaves it 0; an
      out-of-range literal stores the nearest bound and fails the stream. */
  function ExtractInt(c: Cursor): (r: (int, Cursor))
    ensures IntMin <= r.0 <= IntMax && r.1.tokens == c.tokens
    ensures !r.1.failed <==> !c.failed && c.pos < |c.tokens| && c.tokens[c.pos].IntToken?
                                 && IntMin <= c.tokens[c.pos].i <= IntMax
    ensures !r.1.failed ==> r.0 == c.tokens[c.pos].i && r.1.pos == c.pos + 1
  {
    if c.failed || c.pos >= |c.tokens| || !c.tokens[c.pos].IntToken? then (0, Fail(c))
    else
      var v := c.tokens[c.pos].i;
      if v > IntMax then (IntMax, Fail(c))
      else if v < IntMin then (IntMin, Fail(c))
      else (v, Advance(c))
  }

  /** `in >> v` for a `size_t v` that holds 0: a negative literal is
      negated modulo 2^64, as `strtoull` does; a literal beyond the range
      stores the largest value and fails the stream. */
  function ExtractSize(c: Cursor): (r: (nat, Cursor))
    ensures r.0 < SizeModulus && r.1.tokens == c.tokens
    ensures !r.1.failed <==> !c.failed && c.pos < |c.tokens| && c.tokens[c.pos].IntToken?
                                 && -SizeModulus < c.tokens[c.pos].i < SizeModulus
    ensures !r.1.failed ==> r.0 == c.tokens[c.pos].i % SizeModulus && r.1.pos == c.pos + 1
  {
    if c.failed || c.pos >= |c.tokens| || !c.tokens[c.pos].IntToken? then (0, Fail(c))
    else
      var v := c.tokens[c.pos].i;
      if v <= -SizeModulus || v >= SizeModulus then (SizeModulus - 1, Fail(c))
      else (v % SizeModulus, Advance(c))
  }

  /** The value of a numeric word. */
  function NumberValue(t: Token): real
    requires !t.Word?
  {
    if t.IntToken? then t.i as real else t.r
  }

  /** `in >> v` for a `double v` that holds 0. */
  function ExtractReal(c: Cursor): (r: (real, Cursor))
    ensures r.1.tokens == c.tokens
    ensures !r.1.failed <==> !c.failed && c.pos < |c.tokens| && !c.tokens[c.pos].Word?
    ensures !r.1.failed ==> r.0 == NumberValue(c.tokens[c.pos]) && r.1.pos == c.pos + 1
    ensures r.1.failed ==> r.0 == 0.0
  {
    if c.failed || c.pos >= |c.tokens| || c.tokens[c.pos].Word? then (0.0, Fail(c))
    else (NumberValue(c.tokens[c.pos]), Advance(c))
  }

  /** `in >> v` for a `Vector`: its three components in order. */
  function ExtractVector(c: Cursor): (r: (Vector, Cursor))
    ensures r.1.tokens == c.tokens
    ensures r.1.failed || (!c.failed && r.1.pos == c.pos + 3)
  {
    ExtractRealsCursor(c, 3);
    ExtractReals(c, 3)
  }

  /** The dimensions and axis vectors of the first `n` axes. */
  function ExtractAxes(c: Cursor, n: nat): (r: (seq<nat>, seq<Vector>, Cursor))
    ensures |r.0| == n && |r.1| == n && r.2.tokens == c.tokens
    ensures r.2.failed || (!c.failed && r.2.pos == c.pos + 4 * n)
  {
    if n == 0 then ([], [], c)
    else
      var (dims, vecs, c1) := ExtractAxes(c, n - 1);
      var (d, c2) := ExtractSize(c1);
      var (v, c3) := ExtractVector(c2);
      (dims + [d], vecs + [v], c3)
  }

  /** Number, unused value and coordinates of one atom. */
  function ExtractAtom(c: Cursor): (r: (AtomData, Cursor))
    ensures r.1.tokens == c.tokens
    ensures r.1.failed || (!c.failed && r.1.pos == c.pos + 5)
  {
    var (n, c1) := ExtractInt(c);
    var (unk, c2) := ExtractReal(c1);
    var (rc, c3) := ExtractVector(c2);
    (AtomData(n, unk, rc), c3)
  }

  /** The three components are the next three values, in order. */
  lemma ExtractRealsThree(c: Cursor)
    ensures ExtractReals(c, 3).0 == [ExtractReal(c).0, ExtractReal(ExtractReal(c).1).0,
                                     ExtractReal(ExtractReal(ExtractReal(c).1).1).0]
    ensures ExtractReals(c, 3).1 == ExtractReal(ExtractReal(ExtractReal(c).1).1).1
  {
    var c1 := ExtractReal(c).1;
    var c2 := ExtractReal(c1).1;
    var x, y, z := ExtractReal(c).0, ExtractReal(c1).0, ExtractReal(c2).0;
    ExtractRealsNext(c, 0);
    assert ExtractReals(c, 1).0 == [x] && ExtractReals(c, 1).1 == c1;
    ExtractRealsNext(c, 1);
    assert ExtractReals(c, 2).0 == [x, y] && ExtractReals(c, 2).1 == c2;
    ExtractRealsNext(c, 2);
  }

  /** Reading one more value appends the value read next. */
  lemma ExtractRealsNext(c: Cursor, n: nat)
    ensures ExtractReals(c, n + 1).0 == ExtractReals(c, n).0 + [ExtractReal(ExtractReals(c, n).1).0]
    ensures ExtractReals(c, n + 1).1 == ExtractReal(ExtractReals(c, n).1).1
  {
  }

  /** The first `n` atom records, coordinates converted by `ToAngstrom`. */
  function ExtractAtoms(c: Cursor, n: nat, inAngstrom: bool): (r: (seq<AtomData>, Cursor))
    ensures |r.0| == n && r.1.tokens == c.tokens
  {
    if n == 0 then ([], c)
    else
      var (atoms, c1) := ExtractAtoms(c, n - 1, inAngstrom);
      var (a, c2) := ExtractAtom(c1);
      (atoms + [Converted(a, inAngstrom)], c2)
  }

  /** `n` values in order. */
  function ExtractReals(c: Cursor, n: nat): (r: (seq<real>, Cursor))
    ensures |r.0| == n && r.1.tokens == c.tokens
  {
    if n == 0 then ([], c)
    else
      var (vs, c1) := ExtractReals(c, n - 1);
      var (v, c2) := ExtractReal(c1);
      (vs + [v], c2)
  }

  /** An atom record with its coordinates in Ångström. */
  function Converted(a: AtomData, inAngstrom: bool): AtomData
  {
    a.(rc := ToAngstrom(a.rc, inAngstrom))
  }

  /** A length read in the file's unit, in Ångström. */
  function ToAngstrom(v: Vector, inAngstrom: bool): (r: Vector)
  {
    if inAngstrom then v else Scale(v, AngstromsInBohr)
  }

  function Abs(n: int): nat { if n < 0 then -n else n }

  /** The header after the atom count: origin, then dimension and axis
      vector three times. */
  datatype Header = Header(origin: Vector, dims: seq<nat>, dvecs: seq<Vector>)

  function ExtractHeader(c: Cursor): (r: (Header, Cursor))
    ensures |r.0.dims| == 3 && |r.0.dvecs| == 3 && r.1.tokens == c.tokens
    ensures r.1.failed || (!c.failed && r.1.pos == c.pos + 15)
  {
    var (origin, c1) := ExtractVector(c);
    var (dims, dvecs, c2) := ExtractAxes(c1, 3);
    (Header(origin, dims, dvecs), c2)
  }

  /** The stream right after the two title lines. */
  function Start(f: CubeText): Cursor
  {
    Cursor(f.body, 0, false)
  }

  /** The atom count as read, its sign deciding the unit. */
  function AtomCount(f: CubeText): int
  {
    ExtractInt(Start(f)).0
  }

  /** The origin, dimensions and axis vectors as they stand in the file. */
  function RawHeader(f: CubeText): (h: Header)
    ensures |h.dims| == 3 && |h.dvecs| == 3
  {
    ExtractHeader(ExtractInt(Start(f)).1).0
  }

  /** The stream after the header. */
  function AfterHeader(f: CubeText): Cursor
  {
    ExtractHeader(ExtractInt(Start(f)).1).1
  }

  /** The stream after the atom records. */
  function AfterAtoms(f: CubeText): Cursor
  {
    ExtractAtoms(AfterHeader(f), Abs(AtomCount(f)), AtomCount(f) < 0).1
  }

  /** `dim[0] * dim[1] * dim[2]`, the number of data values. */
  function CellCount(dim: seq<nat>): nat
    requires |dim| == 3
  {
    dim[0] * dim[1] * dim[2]
  }

  /** What `readCubeFile` returns for a file it could open. */
  function ParseCube(f: CubeText): (d: Cube)
    ensures d.WellFormed()
    ensures |d.data| == CellCount(d.dim)
  {
    var count := AtomCount(f);
    var inAngstrom := count < 0;
    var h := RawHeader(f);
    var atoms := ExtractAtoms(AfterHeader(f), Abs(count), inAngstrom).0;
    var data := ExtractReals(AfterAtoms(f), CellCount(h.dims)).0;
    Cube([f.title0, f.title1], inAngstrom, h.dims, ToAngstrom(h.origin, inAngstrom),
         [ToAngstrom(h.dvecs[0], inAngstrom), ToAngstrom(h.dvecs[1], inAngstrom),
          ToAngstrom(h.dvecs[2], inAngstrom)],
         [true, true, true], atoms, data)
  }

  // ------------------------------------------------------------ the reader

  /** The input stream over the numeric part of the file. */
  class TokenStream {
    const tokens: seq<Token>
    var pos: nat
    var failed: bool

    function State(): (c: Cursor)
      reads this
      ensures c.tokens == tokens
    {
      Cursor(tokens, pos, failed)
    }

    constructor (tokens: seq<Token>)
      ensures State() == Cursor(tokens, 0, false)
    {
      this.tokens := tokens;
      pos := 0;
      failed := false;
    }

    method ReadInt() returns (v: int)
      modifies this
      ensures (v, State()) == ExtractInt(old(State()))
    {
      if failed || pos >= |tokens| || !tokens[pos].IntToken? {
        v, failed := 0, true;
      } else if tokens[pos].i > IntMax {
        v, failed := IntMax, true;
      } else if tokens[pos].i < IntMin {
        v, failed := IntMin, true;
      } else {
        v, pos := tokens[pos].i, pos + 1;
      }
    }

    method ReadSize() returns (v: nat)
      modifies this
      ensures (v, State()) == ExtractSize(old(State()))
    {
      if failed || pos >= |tokens| || !tokens[pos].IntToken? {
        v, failed := 0, true;
      } else if tokens[pos].i <= -SizeModulus || tokens[pos].i >= SizeModulus {
        v, failed := SizeModulus - 1, true;
      } else {
        v, pos := tokens[pos].i % SizeModulus, pos + 1;
      }
    }

    method ReadReal() returns (v: real)
      modifies this
      ensures (v, State()) == ExtractReal(old(State()))
    {
      if failed || pos >= |tokens| || tokens[pos].Word? {
        v, failed := 0.0, true;
      } else {
        v, pos := NumberValue(tokens[pos]), pos + 1;
      }
    }

    /** `operator>>(in, v)` for a `Vector`. */
    method ReadVector() returns (v: Vector)
      modifies this
      ensures (v, State()) == ExtractVector(old(State()))
    {
      ghost var c := State();
      var x := ReadReal();
      var y := ReadReal();
      var z := ReadReal();
      v := [x, y, z];
      ExtractRealsThree(c);
    }
  }

  /** `readCubeFile(filename)`; `files` holds the files that can be opened. */
  method ReadCubeFile(files: map<string, CubeText>, filename: string) returns (r: Result<Cube, string>)
    ensures filename !in files ==> r == Err("Cannot open " + filename)
    ensures filename in files ==> r == Ok(ParseCube(files[filename]))
  {
    if filename !in files {
      return Err("Cannot open " + filename);
    }
    var f := files[filename];
    var input := new TokenStream(f.body);
    var data := DefaultCube();
    data := data.(title := [f.title0, f.title1]);

    var numOfAtoms := input.ReadInt();
    data := data.(isInAngstrom := numOfAtoms < 0);
    var atomCount := Abs(numOfAtoms);

    assert numOfAtoms == AtomCount(f) && input.State() == ExtractInt(Start(f)).1;
    var origin, dim, dvec := ReadHeader(input);
    ghost var h := RawHeader(f);
    assert Header(origin, dim, dvec) == h && input.State() == AfterHeader(f);
    if !data.isInAngstrom {
      origin, dvec := HeaderToAngstrom(origin, dvec);
    }
    assert origin == ToAngstrom(h.origin, data.isInAngstrom);
    assert dvec == [ToAngstrom(h.dvecs[0], data.isInAngstrom), ToAngstrom(h.dvecs[1], data.isInAngstrom),
                    ToAngstrom(h.dvecs[2], data.isInAngstrom)];
    data := data.(origin := origin, dim := dim, dvec := dvec);

    var atoms := ReadAtoms(input, atomCount, data.isInAngstrom);
    assert input.State() == AfterAtoms(f);
    data := data.(atoms := atoms);

    var values := ReadValues(input, CellCount(data.dim));
    data := data.(data := values);
    return Ok(data);
  }

  /** The origin, then each dimension with its axis vector. */
  method ReadHeader(input: TokenStream) returns (origin: Vector, dim: seq<nat>, dvec: seq<Vector>)
    modifies input
    ensures (Header(origin, dim, dvec), input.State()) == ExtractHeader(old(input.State()))
  {
    origin := input.ReadVector();
    ghost var c := input.State();
    dim := [0, 0, 0];
    dvec := [ZeroVector, ZeroVector, ZeroVector];
    var i := 0;
    while i < 3
      invariant 0 <= i <= 3 && |dim| == 3 && |dvec| == 3
      invariant (dim[..i], dvec[..i], input.State()) == ExtractAxes(c, i)
    {
      ghost var before := input.State();
      var d := input.ReadSize();
      ghost var mid := input.State();
      var v := input.ReadVector();
      assert ExtractAxes(c, i + 1) == (dim[..i] + [d], dvec[..i] + [v], input.State()) by {
        assert (d, mid) == ExtractSize(before);
        assert (v, input.State()) == ExtractVector(mid);
      }
      UpdatePrefix(dim, i, d);
      UpdatePrefix(dvec, i, v);
      dim, dvec := dim[i := d], dvec[i := v];
      i := i + 1;
    }
    assert dim == dim[..3] && dvec == dvec[..3];
  }

  /** The origin and the components of the axis vectors, multiplied in
      place by the number of Ångström in a Bohr. */
  method HeaderToAngstrom(origin: Vector, dvec: seq<Vector>) returns (origin': Vector, dvec': seq<Vector>)
    requires |dvec| == 3
    ensures origin' == Scale(origin, AngstromsInBohr)
    ensures |dvec'| == 3 && forall j :: 0 <= j < 3 ==> dvec'[j] == Scale(dvec[j], AngstromsInBohr)
  {
    origin', dvec' := origin, dvec;
    var i := 0;
    while i < 3
      invariant 0 <= i <= 3 && |dvec'| == 3
      invariant forall j :: 0 <= j < i ==> origin'[j] == origin[j] * AngstromsInBohr
      invariant forall j :: i <= j < 3 ==> origin'[j] == origin[j]
      invariant forall j :: 0 <= j < i ==> dvec'[j] == Scale(dvec[j], AngstromsInBohr)
      invariant forall j :: i <= j < 3 ==> dvec'[j] == dvec[j]
    {
      origin' := origin'[i := origin'[i] * AngstromsInBohr];
      var v := dvec'[i];
      v := v[0 := v[0] * AngstromsInBohr];
      v := v[1 := v[1] * AngstromsInBohr];
      v := v[2 := v[2] * AngstromsInBohr];
      dvec' := dvec'[i := v];
      i := i + 1;
    }
  }

  /** The atom loop: `n` default records, each overwritten by the next
      atom read. */
  method ReadAtoms(input: TokenStream, n: nat, inAngstrom: bool) returns (atoms: seq<AtomData>)
    modifies input
    ensures (atoms, input.State()) == ExtractAtoms(old(input.State()), n, inAngstrom)
  {
    atoms := seq(n, _ => DefaultAtom());
    ghost var c := input.State();
    var i := 0;
    while i < n
      invariant 0 <= i <= n && |atoms| == n
      invariant atoms[..i] == ExtractAtoms(c, i, inAngstrom).0
      invariant input.State() == ExtractAtoms(c, i, inAngstrom).1
    {
      var a := ReadAtom(input, inAngstrom);
      UpdatePrefix(atoms, i, a);
      atoms := atoms[i := a];
      i := i + 1;
    }
    assert atoms == atoms[..n];
  }

  /** One atom record, its coordinates converted in place when lengths
      are in Bohr. */
  method ReadAtom(input: TokenStream, inAngstrom: bool) returns (a: AtomData)
    modifies input
    ensures a == Converted(ExtractAtom(old(input.State())).0, inAngstrom)
    ensures input.State() == ExtractAtom(old(input.State())).1
  {
    var number := input.ReadInt();
    var unk := input.ReadReal();
    var rc := input.ReadVector();
    ghost var raw := rc;
    if !inAngstrom {
      rc := rc[0 := rc[0] * AngstromsInBohr];
      rc := rc[1 := rc[1] * AngstromsInBohr];
      rc := rc[2 := rc[2] * AngstromsInBohr];
    }
    assert rc == ToAngstrom(raw, inAngstrom);
    a := AtomData(number, unk, rc);
  }

  /** The data loop: `n` zero values, each overwritten by the next value
      read. */
  method ReadValues(input: TokenStream, n: nat) returns (values: seq<real>)
    modifies input
    ensures (values, input.State()) == ExtractReals(old(input.State()), n)
  {
    values := seq(n, _ => 0.0);
    ghost var c := input.State();
    var i := 0;
    while i < n
      invariant 0 <= i <= n && |values| == n
      invariant (values[..i], input.State()) == ExtractReals(c, i)
    {
      var v := input.ReadReal();
      UpdatePrefix(values, i, v);
      values := values[i := v];
      i := i + 1;
    }
    assert values == values[..n];
  }

  /** `operator<<(out, v)`: the three components, each as `fmt` formats a
      double, with nothing between them. */
  function FormatVector(v: Vector, fmt: real -> string): (s: string)
    ensures |s| == |fmt(v[0])| + |fmt(v[1])| + |fmt(v[2])|
  {
    fmt(v[0]) + fmt(v[1]) + fmt(v[2])
  }

  /** Written without separators, different vectors can give the same text:
      with the stream's default format, (1, 23, 4) and (12, 3, 4) both come
      out as "1234". */
  lemma FormatVectorAmbiguous(fmt: real -> string)
    requires fmt(1.0) == "1" && fmt(23.0) == "23" && fmt(12.0) == "12" && fmt(3.0) == "3" && fmt(4.0) == "4"
    ensures FormatVector([1.0, 23.0, 4.0], fmt) == FormatVector([12.0, 3.0, 4.0], fmt)
    ensures [1.0, 23.0, 4.0] != [12.0, 3.0, 4.0]
  {
    assert FormatVector([1.0, 23.0, 4.0], fmt) == "1" + "23" + "4";
    assert FormatVector([12.0, 3.0, 4.0], fmt) == "12" + "3" + "4";
  }

  /** The components separated by a space, which `operator>>` reads back. */
  function FormatVectorSpaced(v: Vector, fmt: real -> string): (s: string)
    ensures |s| == |fmt(v[0])| + |fmt(v[1])| + |fmt(v[2])| + 2
  {
    fmt(v[0]) + " " + fmt(v[1]) + " " + fmt(v[2])
  }

  /** With separators, the text determines the vector whenever the number
      format tells the components apart and never produces a space. */
  lemma FormatVectorSpacedInjective(v: Vector, w: Vector, fmt: real -> string)
    requires forall i :: 0 <= i < 3 ==> NoSpace(fmt(v[i])) && NoSpace(fmt(w[i]))
    requires forall i :: 0 <= i < 3 ==> fmt(v[i]) == fmt(w[i]) ==> v[i] == w[i]
    requires FormatVectorSpaced(v, fmt) == FormatVectorSpaced(w, fmt)
    ensures v == w
  {
    var a, a' := fmt(v[0]), fmt(w[0]);
    var b, b' := fmt(v[1]), fmt(w[1]);
    var c, c' := fmt(v[2]), fmt(w[2]);
    assert FormatVectorSpaced(v, fmt) == a + " " + (b + " " + c);
    assert FormatVectorSpaced(w, fmt) == a' + " " + (b' + " " + c');
    assert NoSpace(a) && NoSpace(a') && NoSpace(b) && NoSpace(b');
    SplitAtSpace(a, b + " " + c, a', b' + " " + c');
    SplitAtSpace(b, c, b', c');
    assert v == [v[0], v[1], v[2]] && w == [w[0], w[1], w[2]];
  }

  predicate NoSpace(s: string)
  {
    forall i :: 0 <= i < |s| ==> s[i] != ' '
  }

  /** A text is split uniquely at its first space. */
  lemma SplitAtSpace(a: string, b: string, a': string, b': string)
    requires NoSpace(a) && NoSpace(a')
    requires a + " " + b == a' + " " + b'
    ensures a == a' && b == b'
  {
    var t := a + " " + b;
    assert t[|a|] == ' ' && t[|a'|] == ' ';
    assert forall k :: 0 <= k < |a| ==> t[k] == a[k];
    assert forall k :: 0 <= k < |a'| ==> t[k] == a'[k];
    assert |a| == |a'|;
    assert a == t[..|a|] && a' == t[..|a'|];
    assert b == t[|a| + 1..] && b' == t[|a'| + 1..];
  }

  // ------------------------------------------------------------ properties

  /** The sign of the atom count decides the unit, and the atom list has
      as many entries as the count's magnitude. */
  lemma UnitFromAtomCount(f: CubeText, n: int)
    requires f.body != [] && f.body[0] == IntToken(n) && IntMin <= n <= IntMax
    ensures ParseCube(f).isInAngstrom <==> n < 0
    ensures |ParseCube(f).atoms| == if n < 0 then -n else n
  {
  }

  /** A body that does not start with a number gives a cube in Bohr with no
      atoms, zero dimensions and no data. */
  lemma UnreadableCountGivesEmptyCube(f: CubeText)
    requires f.body == [] || !f.body[0].IntToken?
    ensures var d := ParseCube(f);
      && !d.isInAngstrom && d.atoms == [] && d.data == []
      && d.dim == [0, 0, 0]
  {
    var c := ExtractInt(Start(f)).1;
    assert c.failed;
    FailedAxesAreZero(ExtractVector(c).1, 3);
  }

  /** A failed stream reads every dimension as zero. */
  lemma {:induction false} FailedAxesAreZero(c: Cursor, n: nat)
    requires c.failed
    ensures forall i :: 0 <= i < n ==> ExtractAxes(c, n).0[i] == 0
    ensures ExtractAxes(c, n).2.failed
  {
    if n > 0 {
      FailedAxesAreZero(c, n - 1);
    }
  }

  /** The titles are the first two lines as they stand. */
  lemma TitlesVerbatim(f: CubeText)
    ensures ParseCube(f).title == [f.title0, f.title1]
    ensures ParseCube(f).bordPeriod == [true, true, true]
  {
  }

  /** Lengths in Bohr are multiplied by 0.529177249 and lengths in Ångström
      are kept; the dimensions are never scaled. */
  lemma HeaderInAngstrom(f: CubeText, j: nat, axis: nat)
    requires j < 3 && axis < 3
    ensures var d, h := ParseCube(f), RawHeader(f);
      && d.dim == h.dims
      && d.origin[j] == h.origin[j] * LengthUnit(d.isInAngstrom)
      && d.dvec[axis][j] == h.dvecs[axis][j] * LengthUnit(d.isInAngstrom)
  {
    OriginInAngstrom(f, j);
    AxisInAngstrom(f, j, axis);
  }

  lemma OriginInAngstrom(f: CubeText, j: nat)
    requires j < 3
    ensures ParseCube(f).origin[j] == RawHeader(f).origin[j] * LengthUnit(ParseCube(f).isInAngstrom)
  {
    var d, h := ParseCube(f), RawHeader(f);
    assert d.origin == ToAngstrom(h.origin, d.isInAngstrom);
  }

  lemma AxisInAngstrom(f: CubeText, j: nat, axis: nat)
    requires j < 3 && axis < 3
    ensures ParseCube(f).dvec[axis][j] == RawHeader(f).dvecs[axis][j] * LengthUnit(ParseCube(f).isInAngstrom)
  {
    var d, h := ParseCube(f), RawHeader(f);
    var v := h.dvecs[axis];
    assert d.dvec[axis] == ToAngstrom(v, d.isInAngstrom) by {
      if axis == 0 {
      } else if axis == 1 {
      } else {
      }
    }
  }

  /** Ångströms per unit of length of the file. */
  function LengthUnit(inAngstrom: bool): real
  {
    if inAngstrom then 1.0 else AngstromsInBohr
  }

  /** The atom records read, before any conversion. */
  function RawAtoms(f: CubeText): (atoms: seq<AtomData>)
    ensures |atoms| == Abs(AtomCount(f))
  {
    ExtractAtoms(AfterHeader(f), Abs(AtomCount(f)), true).0
  }

  /** Atom coordinates follow the same unit rule; the element number and
      the unused value are never scaled. */
  lemma AtomsInAngstrom(f: CubeText, i: nat, j: nat)
    requires i < |ParseCube(f).atoms| && j < 3
    ensures var a, raw := ParseCube(f).atoms[i], RawAtoms(f)[i];
      && a.n == raw.n && a.unk == raw.unk
      && a.rc[j] == raw.rc[j] * LengthUnit(ParseCube(f).isInAngstrom)
  {
    ExtractAtomsConverted(AfterHeader(f), Abs(AtomCount(f)), AtomCount(f) < 0, i);
  }

  /** Converting the coordinates does not change which words are read. */
  lemma {:induction false} ExtractAtomsCursorSame(c: Cursor, n: nat, inAngstrom: bool)
    ensures ExtractAtoms(c, n, inAngstrom).1 == ExtractAtoms(c, n, true).1
  {
    if n > 0 {
      ExtractAtomsCursorSame(c, n - 1, inAngstrom);
    }
  }

  /** Atom `i` is the raw record `i` with its coordinates converted. */
  lemma {:induction false} ExtractAtomsConverted(c: Cursor, n: nat, inAngstrom: bool, i: nat)
    requires i < n
    ensures var raw := ExtractAtoms(c, n, true).0[i];
      ExtractAtoms(c, n, inAngstrom).0[i] == raw.(rc := ToAngstrom(raw.rc, inAngstrom))
  {
    var atoms, c1 := ExtractAtoms(c, n - 1, inAngstrom).0, ExtractAtoms(c, n - 1, inAngstrom).1;
    var raws := ExtractAtoms(c, n - 1, true).0;
    if i < n - 1 {
      ExtractAtomsConverted(c, n - 1, inAngstrom, i);
      assert ExtractAtoms(c, n, inAngstrom).0[i] == atoms[i];
      assert ExtractAtoms(c, n, true).0[i] == raws[i];
    } else {
      ExtractAtomsCursorSame(c, n - 1, inAngstrom);
      var a := ExtractAtom(c1).0;
      assert ExtractAtoms(c, n, inAngstrom).0[i] == a.(rc := ToAngstrom(a.rc, inAngstrom));
      assert ExtractAtoms(c, n, true).0[i] == a.(rc := ToAngstrom(a.rc, true));
    }
  }

  /** Element `i` of `n` values is the value read after the first `i`. */
  lemma {:induction false} ExtractRealsAt(c: Cursor, n: nat, i: nat)
    requires i < n
    ensures ExtractReals(c, n).0[i] == ExtractReal(ExtractReals(c, i).1).0
  {
    if i < n - 1 {
      ExtractRealsAt(c, n - 1, i);
    }
  }

  /** Reading `n` values either fails or advances by exactly `n` words. */
  lemma {:induction false} ExtractRealsCursor(c: Cursor, n: nat)
    ensures var r := ExtractReals(c, n).1;
      r.failed || (!c.failed && r.pos == c.pos + n)
  {
    if n > 0 {
      ExtractRealsCursor(c, n - 1);
    }
  }

  /** From a good stream over numeric words the values come in file order. */
  lemma {:induction false} ExtractRealsGood(c: Cursor, n: nat)
    requires !c.failed && c.pos + n <= |c.tokens|
    requires forall j :: c.pos <= j < c.pos + n ==> !c.tokens[j].Word?
    ensures !ExtractReals(c, n).1.failed && ExtractReals(c, n).1.pos == c.pos + n
    ensures forall i :: 0 <= i < n ==> ExtractReals(c, n).0[i] == NumberValue(c.tokens[c.pos + i])
  {
    if n > 0 {
      ExtractRealsGood(c, n - 1);
      var vs := ExtractReals(c, n).0;
      forall i | 0 <= i < n
        ensures vs[i] == NumberValue(c.tokens[c.pos + i])
      {
        if i < n - 1 {
          assert vs[i] == ExtractReals(c, n - 1).0[i];
        }
      }
    }
  }

  /** The data block is the `dim0*dim1*dim2` words after the atom records,
      in file order, when they are all there and numeric. */
  lemma DataInFileOrder(f: CubeText, i: nat)
    requires var c := AfterAtoms(f);
      && !c.failed && c.pos + |ParseCube(f).data| <= |f.body|
      && forall j :: c.pos <= j < c.pos + |ParseCube(f).data| ==> !f.body[j].Word?
    requires i < |ParseCube(f).data|
    ensures ParseCube(f).data[i] == NumberValue(f.body[AfterAtoms(f).pos + i])
  {
    ExtractRealsGood(AfterAtoms(f), |ParseCube(f).data|);
  }

  /** Reading the atoms either fails or advances by five words per atom. */
  lemma {:induction false} ExtractAtomsCursor(c: Cursor, n: nat, inAngstrom: bool)
    ensures var r := ExtractAtoms(c, n, inAngstrom).1;
      r.failed || (!c.failed && r.pos == c.pos + 5 * n)
  {
    if n > 0 {
      ExtractAtomsCursor(c, n - 1, inAngstrom);
    }
  }

  /** When everything before it was read, the data block starts after the
      count, the 15 header numbers and five numbers per atom. */
  lemma DataOffset(f: CubeText)
    requires !AfterAtoms(f).failed
    ensures AfterAtoms(f).pos == 16 + 5 * |ParseCube(f).atoms|
  {
    ExtractAtomsCursor(AfterHeader(f), Abs(AtomCount(f)), AtomCount(f) < 0);
  }

  /** A data block cut short is not an error: the values past the end of the
      file read as zero. */
  lemma TruncatedDataIsZero(f: CubeText, i: nat)
    requires i < |ParseCube(f).data| && AfterAtoms(f).pos + i >= |f.body|
    ensures ParseCube(f).data[i] == 0.0
  {
    var c := AfterAtoms(f);
    ExtractRealsAt(c, |ParseCube(f).data|, i);
    ExtractRealsCursor(c, i);
  }

  /** `writeCubeFile(data, filename)`: its body is empty, so no file is
      written. */
  method WriteCubeFile(fs: FileSystem, data: Cube, filename: string)
    ensures fs.files == old(fs.files)
  {
  }
}
