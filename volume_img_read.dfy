/** `VolumeImgRead`: the command-line tool that stacks numbered image
    files, converted to 16-bit grey levels, into one volume file with the
    same three 8-byte dimensions as `VolumeRead`. */
module VolumeImgRead {
  import opened Common
  import opened Streams
  import opened VolumeRead

  /** `QString::rightJustified(width, fill)`: padded on the left to `width`,
      never truncated. */
  function RightJustified(s: string, width: nat, fill: char): (r: string)
    ensures |r| == if |s| >= width then |s| else width
    ensures r[|r| - |s|..] == s
    ensures forall i :: 0 <= i < |r| - |s| ==> r[i] == fill
  {
    if |s| >= width then s else seq(width - |s|, _ => fill) + s
  }

  /** The frame number of slice `z`: at least three digits, zero-padded. */
  function FrameNumber(z: nat): string
  {
    RightJustified(DecimalString(z), 3, '0')
  }

  /** Leading zeros do not change a decimal value. */
  lemma {:induction false} DecimalValueLeadingZeros(zeros: string, s: string)
    requires forall i :: 0 <= i < |zeros| ==> zeros[i] == '0'
    requires forall i :: 0 <= i < |s| ==> IsDigit(s[i])
    ensures forall i :: 0 <= i < |zeros + s| ==> IsDigit((zeros + s)[i])
    ensures DecimalValue(zeros + s) == DecimalValue(s)
    decreases |s|
  {
    if s == [] {
      assert zeros + s == zeros;
      AllZerosValue(zeros);
    } else {
      var t := zeros + s;
      assert t[..|t| - 1] == zeros + s[..|s| - 1];
      DecimalValueLeadingZeros(zeros, s[..|s| - 1]);
    }
  }

  lemma {:induction false} AllZerosValue(zeros: string)
    requires forall i :: 0 <= i < |zeros| ==> zeros[i] == '0'
    ensures DecimalValue(zeros) == 0
  {
    if zeros != [] {
      AllZerosValue(zeros[..|zeros| - 1]);
    }
  }

  /** The padded number is all digits, has at least three of them and still
      denotes `z`. */
  lemma FrameNumberValue(z: nat)
    ensures |FrameNumber(z)| >= 3
    ensures forall i :: 0 <= i < |FrameNumber(z)| ==> IsDigit(FrameNumber(z)[i])
    ensures DecimalValue(FrameNumber(z)) == z
  {
    var s := DecimalString(z);
    var r := FrameNumber(z);
    DecimalRoundTrip(z);
    var zeros := r[..|r| - |s|];
    assert r == zeros + s;
    DecimalValueLeadingZeros(zeros, s);
  }

  /** `QString::replace("@", after)`: every '@' replaced by `after`. */
  function ReplaceAt(s: string, after: string): (r: string)
  {
    if s == [] then []
    else (if s[0] == '@' then after else [s[0]]) + ReplaceAt(s[1..], after)
  }

  /** A string without '@' is left as it is. */
  lemma {:induction false} ReplaceAtIdentity(s: string, after: string)
    requires '@' !in s
    ensures ReplaceAt(s, after) == s
  {
    if s != [] {
      ReplaceAtIdentity(s[1..], after);
    }
  }

  /** When the replacement has no '@', no '@' is left. */
  lemma {:induction false} ReplaceAtRemoves(s: string, after: string)
    requires '@' !in after
    ensures '@' !in ReplaceAt(s, after)
  {
    if s != [] {
      ReplaceAtRemoves(s[1..], after);
    }
  }

  /** The path used for slice `z` as the loop computes it: `path` is
      replaced in place, so each slice replaces '@' in the previous one's
      path. */
  function PathAt(path: string, z: nat): string
    decreases z
  {
    if z == 0 then path else ReplaceAt(PathAt(path, z - 1), FrameNumber(z))
  }

  lemma FrameNumberDigits(z: nat)
    ensures '@' !in FrameNumber(z)
  {
    FrameNumberValue(z);
  }

  /** Every slice after the first reuses the first slice's file name: the
      first replacement consumed every '@'. */
  lemma {:induction false} PathAtIsFirst(path: string, z: nat)
    requires z >= 1
    ensures PathAt(path, z) == ReplaceAt(path, FrameNumber(1))
  {
    if z > 1 {
      PathAtIsFirst(path, z - 1);
      FrameNumberDigits(1);
      ReplaceAtRemoves(path, FrameNumber(1));
      ReplaceAtIdentity(PathAt(path, z - 1), FrameNumber(z));
    }
  }

  /** The grey-level bytes of an image file: `decode` stands for loading
      the file and converting it to 16-bit grey; a file that cannot be
      read gives a null image, which has no bytes. */
  function ImageBytes(files: map<string, seq<byte>>, name: string, decode: seq<byte> -> seq<byte>): seq<byte>
  {
    if name in files then decode(files[name]) else []
  }

  /** What the loop has written after slices 1..z. */
  function ImagesWritten(files: map<string, seq<byte>>, path: string, z: nat, decode: seq<byte> -> seq<byte>)
    : seq<byte>
    decreases z
  {
    if z == 0 then []
    else ImagesWritten(files, path, z - 1, decode) + ImageBytes(files, PathAt(path, z), decode)
  }

  /** `depth` copies of the first image. */
  function Repeat(b: seq<byte>, n: nat): (r: seq<byte>)
    ensures |r| == n * |b|
  {
    if n == 0 then [] else Repeat(b, n - 1) + b
  }

  /** The output holds the header and `depth` copies of the image named by
      the first slice, whatever the other slice files hold. */
  lemma {:induction false} ImagesWrittenRepeatFirst(files: map<string, seq<byte>>, path: string, z: nat,
                                                    decode: seq<byte> -> seq<byte>)
    ensures ImagesWritten(files, path, z, decode)
         == Repeat(ImageBytes(files, ReplaceAt(path, FrameNumber(1)), decode), z)
  {
    if z > 0 {
      ImagesWrittenRepeatFirst(files, path, z - 1, decode);
      PathAtIsFirst(path, z);
    }
  }

  /** The numeric arguments argv[2..4]. */
  predicate ArgsParse(args: seq<string>)
    requires |args| >= 6
  {
    Stoi(args[2]).Some? && Stoi(args[3]).Some? && Stoi(args[4]).Some?
  }

  /** `main(argc, argv)` with `args` standing for argv[0..argc). */
  method Run(fs: FileSystem, args: seq<string>, decode: seq<byte> -> seq<byte>) returns (exit: Exit)
    requires |args| >= 6
    requires Stoi(args[4]).Some? ==> Stoi(args[4]).value >= 0
    modifies fs
    ensures !ArgsParse(args) ==> exit == Aborted && fs.files == old(fs.files)
    ensures ArgsParse(args) ==> exit == Status(0)
    ensures ArgsParse(args) && args[5] in fs.writable ==>
      var depth := Stoi(args[4]).value;
      fs.files == old(fs.files)[args[5] := SizeHeader(Stoi(args[2]).value, Stoi(args[3]).value, depth)
        + ImagesWritten(old(fs.files)[args[5] := []], args[1], depth, decode)]
    // an output that cannot be opened: nothing is written, and the exit code is unaffected
    ensures args[5] !in fs.writable ==> fs.files == old(fs.files)
  {
    var w := Stoi(args[2]);
    var h := Stoi(args[3]);
    var d := Stoi(args[4]);
    if w.None? || h.None? || d.None? {
      return Aborted;
    }
    StackImages(fs, args[1], w.value, h.value, d.value, args[5], decode);
    return Status(0);
  }

  /** The body of `main` after the arguments are parsed. */
  method StackImages(fs: FileSystem, path: string, width: int, height: int, depth: nat,
                     outputFile: string, decode: seq<byte> -> seq<byte>)
    modifies fs
    ensures outputFile in fs.writable ==>
      fs.files == old(fs.files)[outputFile := SizeHeader(width, height, depth)
        + ImagesWritten(old(fs.files)[outputFile := []], path, depth, decode)]
    ensures outputFile !in fs.writable ==> fs.files == old(fs.files)
  {
    fs.Write(outputFile, []);
    ghost var visible := fs.files;
    var header := SizeHeader(width, height, depth);
    var out := header;
    var current := path;
    var z := 1;
    while z <= depth
      invariant 1 <= z <= depth + 1
      invariant fs.files == visible
      invariant current == PathAt(path, z - 1)
      invariant out == header + ImagesWritten(visible, path, z - 1, decode)
    {
      var num := RightJustified(DecimalString(z), 3, '0');
      current := ReplaceAt(current, num);
      var file := fs.Open(current);
      var image := if file.Some? then decode(file.value) else [];
      ConcatAssoc(header, ImagesWritten(visible, path, z - 1, decode), image);
      out := out + image;
      z := z + 1;
    }
    fs.Write(outputFile, out);
  }

  // ----------------------------------------------- intended slice numbering

  /** The path slice `z` was evidently meant to read: '@' of the original
      path replaced by that slice's own number. */
  function IntendedPathAt(path: string, z: nat): string
  {
    ReplaceAt(path, FrameNumber(z))
  }

  /** With the intended numbering, a path holding '@' gives a different file
      name for every slice. */
  lemma IntendedPathsDistinct(path: string, z: nat, z': nat)
    requires '@' in path && z != z'
    ensures IntendedPathAt(path, z) != IntendedPathAt(path, z')
  {
    var n, n' := FrameNumber(z), FrameNumber(z');
    FrameNumbersDistinct(z, z');
    if |n| != |n'| {
      ReplacementsOfOtherLength(path, n, n');
    } else {
      ReplacementsOfSameLength(path, n, n');
    }
  }

  lemma FrameNumbersDistinct(z: nat, z': nat)
    requires z != z'
    ensures FrameNumber(z) != FrameNumber(z')
  {
    FrameNumberValue(z);
    FrameNumberValue(z');
  }

  /** Replacements of different lengths give paths of different lengths. */
  lemma ReplacementsOfOtherLength(path: string, n: string, n': string)
    requires '@' in path && |n| != |n'|
    ensures ReplaceAt(path, n) != ReplaceAt(path, n')
  {
    var c := AtCount(path);
    AtCountPositive(path);
    ReplaceAtLength(path, n);
    ReplaceAtLength(path, n');
    MulDistinct(c, |n| - 1, |n'| - 1);
  }

  /** Replacements of the same length differ right after the prefix
      before the first '@'. */
  lemma ReplacementsOfSameLength(path: string, n: string, n': string)
    requires '@' in path && |n| == |n'| && n != n'
    ensures ReplaceAt(path, n) != ReplaceAt(path, n')
  {
    var i := FirstAt(path);
    ReplaceAtSplit(path, i, n);
    ReplaceAtSplit(path, i, n');
    ReplaceAtIdentity(path[..i], n);
    ReplaceAtIdentity(path[..i], n');
    MiddleSlice(path[..i], n, ReplaceAt(path[i + 1..], n));
    MiddleSlice(path[..i], n', ReplaceAt(path[i + 1..], n'));
  }

  lemma MiddleSlice(a: string, b: string, c: string)
    ensures (a + b + c)[|a|..|a| + |b|] == b
  {
  }

  /** Position of the first '@'. */
  function FirstAt(s: string): (i: nat)
    requires '@' in s
    ensures i < |s| && s[i] == '@' && '@' !in s[..i]
  {
    if s[0] == '@' then 0
    else
      assert '@' in s[1..] by {
        var j :| 0 <= j < |s| && s[j] == '@';
        assert s[1..][j - 1] == '@';
      }
      var j := FirstAt(s[1..]);
      assert s[..j + 1] == [s[0]] + s[1..][..j];
      j + 1
  }

  lemma MulDistinct(c: int, x: int, y: int)
    requires c >= 1 && x != y
    ensures c * x != c * y
  {
    if x < y {
      assert c * y - c * x == c * (y - x);
    } else {
      assert c * x - c * y == c * (x - y);
    }
  }

  /** The number of '@' characters in `s`. */
  function AtCount(s: string): nat
  {
    if s == [] then 0 else (if s[0] == '@' then 1 else 0) + AtCount(s[1..])
  }

  lemma {:induction false} AtCountPositive(s: string)
    requires '@' in s
    ensures AtCount(s) >= 1
  {
    if s[0] != '@' {
      assert '@' in s[1..] by {
        var j :| 0 <= j < |s| && s[j] == '@';
        assert s[1..][j - 1] == '@';
      }
      AtCountPositive(s[1..]);
    }
  }

  /** Each '@' gives the replacement and every other character stays. */
  lemma {:induction false} ReplaceAtLength(s: string, after: string)
    ensures |ReplaceAt(s, after)| == |s| + AtCount(s) * (|after| - 1)
  {
    if s != [] {
      var t := s[1..];
      ReplaceAtLength(t, after);
      var c := AtCount(t);
      var k := |after| - 1;
      var ck := c * k;
      assert |ReplaceAt(t, after)| == |t| + ck;
      if s[0] == '@' {
        assert AtCount(s) * k == ck + k;
      } else {
        assert AtCount(s) * k == ck;
      }
    }
  }

  /** `ReplaceAt` works character by character, so it splits at any
      position of an '@'. */
  lemma {:induction false} ReplaceAtSplit(s: string, i: nat, after: string)
    requires i < |s| && s[i] == '@'
    ensures ReplaceAt(s, after) == ReplaceAt(s[..i], after) + after + ReplaceAt(s[i + 1..], after)
  {
    ReplaceAtConcat(s[..i], s[i..], after);
    assert s == s[..i] + s[i..];
    assert s[i..][1..] == s[i + 1..];
  }

  lemma {:induction false} ReplaceAtConcat(s: string, t: string, after: string)
    ensures ReplaceAt(s + t, after) == ReplaceAt(s, after) + ReplaceAt(t, after)
  {
    if s != [] {
      assert (s + t)[0] == s[0] && (s + t)[1..] == s[1..] + t;
      ReplaceAtConcat(s[1..], t, after);
      var piece := if s[0] == '@' then after else [s[0]];
      ConcatAssoc(piece, ReplaceAt(s[1..], after), ReplaceAt(t, after));
    } else {
      assert s + t == t;
    }
  }
}
