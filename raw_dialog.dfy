/** The raw-volume dialog (`RawDialog`): the list of value types it offers,
    the current selection, and the detection of the dimensions and the type
    from the name of the chosen file. */
module RawDialog {
  import opened Common
  import opened ValueTypes
  import VolumeConvert

  /** `type_items`: each type with the name shown for it, in tag order. */
  function TypeItems(): (r: seq<(ValueType, string)>)
    ensures |r| == 7
  {
    [(Int8, "int8"), (UInt8, "uint8"), (Int16, "int16"), (UInt16, "uint16"),
     (Int32, "int32"), (UInt32, "uint32"), (Float32, "float32")]
  }

  /** Entry `i` of the list is the type with tag `i`, under the name the
      converter accepts for it. */
  lemma TypeItemsInTagOrder(i: nat)
    requires i < 7
    ensures Tag(TypeItems()[i].0) == i
    ensures TypeItems()[i].1 == VolumeConvert.TypeNames()[i]
    ensures VolumeConvert.GetType(TypeItems()[i].1) == Ok(TypeItems()[i].0)
  {
    VolumeConvert.GetTypeRoundTrip(TypeItems()[i].0);
  }

  // ---------------------------------------------------------- file names

  /** `QFileInfo(path).fileName()`: what follows the last '/'. */
  function BaseName(path: string): (r: string)
    ensures |r| <= |path| && '/' !in r
  {
    if path == [] || path[|path| - 1] == '/' then []
    else BaseName(path[..|path| - 1]) + [path[|path| - 1]]
  }

  /** The file name is what ends the path, right after a '/' unless it is
      the whole path. */
  lemma {:induction false} BaseNameIsLastComponent(path: string)
    ensures EndsWith(path, BaseName(path))
    ensures |BaseName(path)| < |path| ==> path[|path| - |BaseName(path)| - 1] == '/'
    decreases |path|
  {
    if path == [] || path[|path| - 1] == '/' {
      assert BaseName(path) == [];
      assert path[|path|..] == [];
    } else {
      var init := path[..|path| - 1];
      BaseNameIsLastComponent(init);
      var b := BaseName(init);
      var j := |init| - |b|;
      assert init[j..] == b;
      assert BaseName(path) == b + [path[|path| - 1]];
      DropOfLast(path, j);
      assert path[j..] == b + [path[|path| - 1]];
      if j > 0 {
        assert path[j - 1] == init[j - 1] == '/';
      }
    }
  }

  lemma DropOfLast(s: string, j: nat)
    requires j < |s|
    ensures s[j..] == s[..|s| - 1][j..] + [s[|s| - 1]]
  {
  }

  /** `s.indexOf(sub)`: the first position of `sub` in `s`, or -1. */
  function IndexOf(s: string, sub: string): (r: int)
    ensures r >= 0 <==> Contains(s, sub)
    ensures r >= 0 ==> OccursAt(s, sub, r) && forall j :: 0 <= j < r ==> !OccursAt(s, sub, j)
    ensures r < 0 ==> r == -1
  {
    IndexFrom(s, sub, 0)
  }

  function IndexFrom(s: string, sub: string, from: nat): (r: int)
    ensures r >= 0 ==> from <= r && OccursAt(s, sub, r)
    ensures r >= 0 ==> forall j :: from <= j < r ==> !OccursAt(s, sub, j)
    ensures r < 0 ==> r == -1 && forall j :: from <= j ==> !OccursAt(s, sub, j)
    decreases |s| - from
  {
    if from + |sub| > |s| then -1
    else if s[from..from + |sub|] == sub then from
    else IndexFrom(s, sub, from + 1)
  }

  /** A string containing `sub` contains every suffix of `sub`. */
  lemma ContainsSuffix(s: string, sub: string, k: nat)
    requires Contains(s, sub) && k <= |sub|
    ensures Contains(s, sub[k..])
  {
    var i :| 0 <= i <= |s| - |sub| && OccursAt(s, sub, i);
    assert s[i + k..i + k + |sub[k..]|] == s[i..i + |sub|][k..];
    assert OccursAt(s, sub[k..], i + k);
  }

  // ------------------------------------------------------------ digit runs

  /** A position range of `s`. */
  datatype Span = Span(start: nat, end: nat)

  /** `sp` is what `\D*(\d+)` matches from `from` on: only non-digits before
      it, at least one digit in it, and no digit right after it. */
  predicate RunAfter(s: string, from: nat, sp: Span)
  {
    && from <= sp.start < sp.end <= |s|
    && (forall i :: from <= i < sp.start ==> !IsDigit(s[i]))
    && (forall i :: sp.start <= i < sp.end ==> IsDigit(s[i]))
    && (sp.end == |s| || !IsDigit(s[sp.end]))
  }

  /** The first maximal run of digits at or after `from`. */
  function NextRun(s: string, from: nat): (r: Option<Span>)
    requires from <= |s|
    ensures r.Some? ==> RunAfter(s, from, r.value)
    ensures r.None? ==> forall i :: from <= i < |s| ==> !IsDigit(s[i])
    decreases |s| - from
  {
    if from == |s| then None
    else if IsDigit(s[from]) then Some(Span(from, RunEnd(s, from)))
    else NextRun(s, from + 1)
  }

  /** Where the run of digits starting at `from` stops. */
  function RunEnd(s: string, from: nat): (e: nat)
    requires from <= |s|
    ensures from <= e <= |s|
    ensures forall i :: from <= i < e ==> IsDigit(s[i])
    ensures e == |s| || !IsDigit(s[e])
    decreases |s| - from
  {
    if from < |s| && IsDigit(s[from]) then RunEnd(s, from + 1) else from
  }

  /** There is only one run of digits after `from`'s non-digits. */
  lemma NextRunUnique(s: string, from: nat, sp: Span)
    requires from <= |s| && RunAfter(s, from, sp)
    ensures NextRun(s, from) == Some(sp)
  {
    var r := NextRun(s, from);
    assert IsDigit(s[sp.start]);
    var x := r.value;
    assert IsDigit(s[x.start]);
    assert x.start == sp.start;
    assert x.end == sp.end;
  }

  /** The three captures of `^\D*(\d+)\D+(\d+)\D+(\d+)` are at `a`, `b` and
      `c`: runs of digits separated by at least one non-digit, the last one
      taken as long as it goes. */
  predicate RegexMatch(s: string, a: Span, b: Span, c: Span)
  {
    && RunAfter(s, 0, a) && RunAfter(s, a.end, b) && RunAfter(s, b.end, c)
    && a.end < b.start && b.end < c.start
  }

  /** Matching the dimension pattern: the spans of its three captures, if it
      matches. */
  function MatchDims(s: string): (r: Option<(Span, Span, Span)>)
    ensures r.Some? ==> RegexMatch(s, r.value.0, r.value.1, r.value.2)
  {
    match NextRun(s, 0)
    case None => None
    case Some(a) =>
      match NextRun(s, a.end)
      case None => None
      case Some(b) =>
        match NextRun(s, b.end)
        case None => None
        case Some(c) => Some((a, b, c))
  }

  /** Every match of the pattern is the one found: the captures are the
      first three maximal runs of digits, and when `MatchDims` finds none the
      pattern does not match at all. */
  lemma MatchDimsComplete(s: string, a: Span, b: Span, c: Span)
    requires RegexMatch(s, a, b, c)
    ensures MatchDims(s) == Some((a, b, c))
  {
    NextRunUnique(s, 0, a);
    NextRunUnique(s, a.end, b);
    NextRunUnique(s, b.end, c);
  }

  /** `QString::toInt()` of a run of digits: its value, or 0 when it does not
      fit an `int`. */
  function ToInt(t: string): (n: int)
    requires forall i :: 0 <= i < |t| ==> IsDigit(t[i])
    ensures 0 <= n <= IntMax
  {
    if DecimalValue(t) <= IntMax then DecimalValue(t) else 0
  }

  /** The digits of an `int` read back as that `int`; digits beyond its
      range read as 0. */
  lemma ToIntDecimal(n: nat)
    ensures n <= IntMax ==> ToInt(DecimalString(n)) == n
    ensures n > IntMax ==> ToInt(DecimalString(n)) == 0
  {
    DecimalRoundTrip(n);
  }

  /** The number a capture holds. */
  function CaptureValue(s: string, sp: Span): int
    requires sp.start <= sp.end <= |s|
    requires forall i :: sp.start <= i < sp.end ==> IsDigit(s[i])
  {
    ToInt(s[sp.start..sp.end])
  }

  // ---------------------------------------------------------- the dialog

  /** The names for tags 1, 3 and 5 each contain the name listed just
      before them. */
  lemma UnsignedNameContainsSigned(s: string, i: nat)
    requires i == 1 || i == 3 || i == 5
    requires Contains(s, TypeItems()[i].1)
    ensures Contains(s, TypeItems()[i - 1].1)
  {
    ContainsSuffix(s, TypeItems()[i].1, 1);
    assert TypeItems()[i].1[1..] == TypeItems()[i - 1].1;
  }

  /** The first entry from `i` on whose name occurs in `base`. */
  function FirstTypeFrom(base: string, i: nat): (r: Option<nat>)
    requires i <= 7
    decreases 7 - i
  {
    if i == 7 then None
    else if Contains(base, TypeItems()[i].1) then Some(i)
    else FirstTypeFrom(base, i + 1)
  }

  /** The type the scan selects, if any. */
  function FirstType(base: string): Option<nat>
  {
    FirstTypeFrom(base, 0)
  }

  /** The scan selects the first listed name that occurs, and nothing when
      none occurs. */
  lemma {:induction false} FirstTypeFromIsFirst(base: string, i: nat)
    requires i <= 7
    ensures var r := FirstTypeFrom(base, i);
      && (r.Some? ==> i <= r.value < 7 && Contains(base, TypeItems()[r.value].1))
      && (r.Some? ==> forall j :: i <= j < r.value ==> !Contains(base, TypeItems()[j].1))
      && (r.None? ==> forall j :: i <= j < 7 ==> !Contains(base, TypeItems()[j].1))
    decreases 7 - i
  {
    if i < 7 && !Contains(base, TypeItems()[i].1) {
      FirstTypeFromIsFirst(base, i + 1);
    }
  }

  /** Detection never selects `uint8`, `uint16` or `uint32`: each of their
      names contains the signed name listed before it. */
  lemma UnsignedNeverDetected(base: string)
    ensures FirstType(base) != Some(1) && FirstType(base) != Some(3) && FirstType(base) != Some(5)
  {
    FirstTypeFromIsFirst(base, 0);
    var r := FirstType(base);
    if r.Some? && r.value % 2 == 1 && r.value < 6 {
      UnsignedNameContainsSigned(base, r.value);
    }
  }

  /** What detection looks at: the file's own name, lower-cased. */
  function DetectionKey(name: string): string
  {
    ToLower(BaseName(name))
  }

  /** The key is the file-name component, character by character lower-cased,
      and so holds no '/'. */
  lemma DetectionKeyShape(name: string)
    ensures |DetectionKey(name)| == |BaseName(name)| && '/' !in DetectionKey(name)
    ensures forall i :: 0 <= i < |BaseName(name)| ==> DetectionKey(name)[i] == ToLowerChar(BaseName(name)[i])
  {
    var b := BaseName(name);
    assert forall i :: 0 <= i < |b| ==> DetectionKey(name)[i] == ToLowerChar(b[i]);
  }

  /** The dimensions after detection: the three captures when the pattern
      matches, otherwise the current ones. */
  function DetectDims(key: string, width: int, height: int, depth: int): (int, int, int)
  {
    match MatchDims(key)
    case Some(m) => (CaptureValue(key, m.0), CaptureValue(key, m.1), CaptureValue(key, m.2))
    case None => (width, height, depth)
  }

  /** The selection after detection: the first type whose name occurs,
      otherwise the current one. */
  function DetectType(key: string, current: nat): nat
  {
    match FirstType(key)
    case Some(i) => i
    case None => current
  }

  /** The state of the dialog's widgets that the model keeps: the file name
      edit, the three dimension spin boxes and the type combo box. */
  class Dialog {
    var filename: string
    var width: int
    var height: int
    var depth: int
    var typeIndex: nat

    ghost predicate Valid()
      reads this
    {
      typeIndex < 7
    }

    /** `RawDialog(parent, frame_dir)`: the combo box lists `type_items` and
        selects its first entry; the spin boxes start at the values the
        form gives them. */
    constructor (width: int, height: int, depth: int)
      ensures Valid() && typeIndex == 0 && filename == []
      ensures this.width == width && this.height == height && this.depth == depth
    {
      filename := [];
      this.width := width;
      this.height := height;
      this.depth := depth;
      typeIndex := 0;
    }

    /** `getValueType()`: the type of the selected entry. */
    function GetValueType(): (t: ValueType)
      reads this
      requires Valid()
      ensures Tag(t) == typeIndex
    {
      TypeItemsInTagOrder(typeIndex);
      TypeItems()[typeIndex].0
    }

    /** Editing the file name: the edit's `textChanged` runs the detection. */
    method SetFilename(name: string)
      requires Valid()
      modifies this
      ensures Valid() && filename == name
      ensures (width, height, depth) == DetectDims(DetectionKey(name), old(width), old(height), old(depth))
      ensures typeIndex == DetectType(DetectionKey(name), old(typeIndex))
    {
      filename := name;
      DetectParamsFromFilename(name);
    }

    /** `detectParamsFromFilename(filename)`: on the lower-cased base name,
        the three numbers of the dimension pattern become the dimensions,
        and the first listed type whose name occurs in it becomes the
        selection; what is not found keeps its value. */
    method DetectParamsFromFilename(name: string)
      requires Valid()
      modifies this
      ensures Valid() && filename == old(filename)
      ensures (width, height, depth) == DetectDims(DetectionKey(name), old(width), old(height), old(depth))
      ensures typeIndex == DetectType(DetectionKey(name), old(typeIndex))
    {
      var base := DetectionKey(name);
      width, height, depth := MatchDimensions(base, width, height, depth);
      typeIndex := SelectType(base, typeIndex);
    }
  }

  /** The dimension pattern applied to `base`: on a match the three
      captures, converted by `toInt`, replace the current values. */
  method MatchDimensions(base: string, width: int, height: int, depth: int)
    returns (width': int, height': int, depth': int)
    ensures (width', height', depth') == DetectDims(base, width, height, depth)
  {
    width', height', depth' := width, height, depth;
    var m := MatchDims(base);
    if m.Some? {
      width' := CaptureValue(base, m.value.0);
      height' := CaptureValue(base, m.value.1);
      depth' := CaptureValue(base, m.value.2);
    }
  }

  /** The loop over `type_items` with its early exit: the index of the
      first listed name that `indexOf` finds in `base`, or the current
      selection when there is none. */
  method SelectType(base: string, current: nat) returns (t: nat)
    requires current < 7
    ensures t < 7 && t == DetectType(base, current)
  {
    var items := TypeItems();
    var i := 0;
    while i < |items|
      invariant 0 <= i <= |items|
      invariant FirstType(base) == FirstTypeFrom(base, i)
    {
      if IndexOf(base, items[i].1) >= 0 {
        return i;
      }
      i := i + 1;
    }
    return current;
  }

  // ------------------------------------------- type detection, as intended

  /** A file named after an unsigned type is detected as the signed type
      listed before it: "uint8" contains "int8". */
  lemma UnsignedNameDetectedAsSigned()
    ensures FirstType(TypeItems()[1].1) == Some(0)
    ensures FirstType(TypeItems()[3].1) == Some(2)
    ensures FirstType(TypeItems()[5].1) == Some(4)
  {
    var items := TypeItems();
    assert OccursAt(items[1].1, items[0].1, 1);
    assert FirstTypeFrom(items[1].1, 0) == Some(0);
    assert OccursAt(items[3].1, items[2].1, 1);
    MissingChar(items[3].1, items[0].1, '8');
    MissingChar(items[3].1, items[1].1, '8');
    assert FirstTypeFrom(items[3].1, 0) == Some(2);
    assert OccursAt(items[5].1, items[4].1, 1);
    MissingChar(items[5].1, items[0].1, '8');
    MissingChar(items[5].1, items[1].1, '8');
    MissingChar(items[5].1, items[2].1, '1');
    MissingChar(items[5].1, items[3].1, '1');
    assert FirstTypeFrom(items[5].1, 0) == Some(4);
  }

  /** In general: a key holding an unsigned name, and no name listed before
      the signed name that precedes it, is detected as that signed type. */
  lemma UnsignedKeyDetectedAsSigned(base: string, i: nat)
    requires i == 1 || i == 3 || i == 5
    requires Contains(base, TypeItems()[i].1)
    requires forall j :: 0 <= j < i - 1 ==> !Contains(base, TypeItems()[j].1)
    ensures FirstType(base) == Some(i - 1)
  {
    FirstTypeFromIsFirst(base, 0);
    UnsignedNameContainsSigned(base, i);
  }

  /** The order the scan evidently needs: each unsigned name before the
      signed name it contains. */
  function IntendedOrder(): (r: seq<nat>)
    ensures |r| == 7 && forall k :: 0 <= k < 7 ==> r[k] < 7
    ensures forall i :: 0 <= i < 7 ==> i in r
  {
    [1, 0, 3, 2, 5, 4, 6]
  }

  /** The first entry, in `IntendedOrder` from position `k` on, whose name
      occurs in `base`. */
  function IntendedTypeFrom(base: string, k: nat): (r: Option<nat>)
    requires k <= 7
    decreases 7 - k
  {
    if k == 7 then None
    else if Contains(base, TypeItems()[IntendedOrder()[k]].1) then Some(IntendedOrder()[k])
    else IntendedTypeFrom(base, k + 1)
  }

  function IntendedType(base: string): Option<nat>
  {
    IntendedTypeFrom(base, 0)
  }

  /** The intended scan finds the first name in its order that occurs. */
  lemma {:induction false} IntendedTypeFromIsFirst(base: string, k: nat)
    requires k <= 7
    ensures var r := IntendedTypeFrom(base, k);
      && (r.Some? ==> exists m :: k <= m < 7 && IntendedOrder()[m] == r.value
                         && Contains(base, TypeItems()[r.value].1)
                         && forall m' :: k <= m' < m ==> !Contains(base, TypeItems()[IntendedOrder()[m']].1))
      && (r.None? ==> forall m :: k <= m < 7 ==> !Contains(base, TypeItems()[IntendedOrder()[m]].1))
    decreases 7 - k
  {
    if k < 7 {
      IntendedTypeFromIsFirst(base, k + 1);
      var r := IntendedTypeFrom(base, k);
      if Contains(base, TypeItems()[IntendedOrder()[k]].1) {
        assert IntendedOrder()[k] == r.value;
      }
    }
  }

  /** The intended scan selects a type exactly when the written one does:
      only the choice between a signed type and its unsigned twin changes. */
  lemma IntendedTypeFindsSame(base: string)
    ensures IntendedType(base).Some? <==> FirstType(base).Some?
  {
    FirstTypeFromIsFirst(base, 0);
    IntendedTypeFromIsFirst(base, 0);
    if FirstType(base).Some? {
      var i := FirstType(base).value;
      var m := IntendedOrder()[i];
      assert IntendedOrder()[m] == i;
    }
  }

  /** A character of `sub` that `s` lacks shows that `s` does not contain
      `sub`. */
  lemma MissingChar(s: string, sub: string, c: char)
    requires c in sub && c !in s
    ensures !Contains(s, sub)
  {
  }

  /** With the intended order, every type's own name is detected as that
      type, the unsigned ones included. */
  lemma IntendedTypeOfOwnName(i: nat)
    requires i < 7
    ensures IntendedType(TypeItems()[i].1) == Some(i)
  {
    if i == 0 {
      Int8NameDetected();
    } else if i == 1 {
      UInt8NameDetected();
    } else if i == 2 {
      Int16NameDetected();
    } else if i == 3 {
      UInt16NameDetected();
    } else if i == 4 {
      Int32NameDetected();
    } else if i == 5 {
      UInt32NameDetected();
    } else {
      Float32NameDetected();
    }
  }

  lemma Int8NameDetected()
    ensures IntendedType("int8") == Some(0)
  {
    assert OccursAt("int8", "int8", 0);
    MissingChar("int8", "uint8", 'u');
  }

  lemma UInt8NameDetected()
    ensures IntendedType("uint8") == Some(1)
  {
    assert OccursAt("uint8", "uint8", 0);
  }

  lemma Int16NameDetected()
    ensures IntendedType("int16") == Some(2)
  {
    assert OccursAt("int16", "int16", 0);
    MissingChar("int16", "uint8", 'u');
    MissingChar("int16", "int8", '8');
    MissingChar("int16", "uint16", 'u');
  }

  lemma UInt16NameDetected()
    ensures IntendedType("uint16") == Some(3)
  {
    assert OccursAt("uint16", "uint16", 0);
    MissingChar("uint16", "uint8", '8');
    MissingChar("uint16", "int8", '8');
  }

  lemma Int32NameDetected()
    ensures IntendedType("int32") == Some(4)
  {
    assert OccursAt("int32", "int32", 0);
    MissingChar("int32", "uint8", 'u');
    MissingChar("int32", "int8", '8');
    MissingChar("int32", "uint16", 'u');
    MissingChar("int32", "int16", '1');
    MissingChar("int32", "uint32", 'u');
  }

  lemma UInt32NameDetected()
    ensures IntendedType("uint32") == Some(5)
  {
    assert OccursAt("uint32", "uint32", 0);
    MissingChar("uint32", "uint8", '8');
    MissingChar("uint32", "int8", '8');
    MissingChar("uint32", "uint16", '1');
    MissingChar("uint32", "int16", '1');
  }

  lemma Float32NameDetected()
    ensures IntendedType("float32") == Some(6)
  {
    assert OccursAt("float32", "float32", 0);
    MissingChar("float32", "uint8", 'u');
    MissingChar("float32", "int8", '8');
    MissingChar("float32", "uint16", 'u');
    MissingChar("float32", "int16", '1');
    MissingChar("float32", "uint32", 'u');
    MissingChar("float32", "int32", 'i');
  }
}
