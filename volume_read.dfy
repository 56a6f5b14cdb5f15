/** `VolumeRead`: the command-line tool that joins numbered slice files of
    16-bit samples into one volume file (three 8-byte dimensions, then the
    slices in order), optionally swapping the two bytes of every sample. */
module VolumeRead {
  import opened Common
  import opened Streams

  /** How a run of a tool ends: the status `main` returns, or termination by
      an exception nothing catches. */
  datatype Exit = Status(code: int) | Aborted

  /** Name of slice `z`: the path prefix followed by the unpadded number. */
  function SliceName(path: string, z: nat): string
  {
    path + DecimalString(z)
  }

  /** Each pair of bytes exchanged. */
  function SwapPairs(b: seq<byte>): (r: seq<byte>)
    requires |b| % 2 == 0
    ensures |r| == |b|
  {
    if b == [] then [] else [b[1], b[0]] + SwapPairs(b[2..])
  }

  /** Even position `i` receives `b[i + 1]`, odd position `i` receives
      `b[i - 1]`. */
  lemma {:induction false} SwapPairsAt(b: seq<byte>, i: nat)
    requires |b| % 2 == 0 && i < |b|
    ensures SwapPairs(b)[i] == if i % 2 == 0 then b[i + 1] else b[i - 1]
  {
    if i >= 2 {
      SwapPairsAt(b[2..], i - 2);
    }
  }

  /** Swapping twice restores the bytes. */
  lemma {:induction false} SwapPairsInvolution(b: seq<byte>)
    requires |b| % 2 == 0
    ensures SwapPairs(SwapPairs(b)) == b
  {
    if b != [] {
      var r := SwapPairs(b);
      assert r == [b[1], b[0]] + SwapPairs(b[2..]);
      assert r[2..] == SwapPairs(b[2..]);
      SwapPairsInvolution(b[2..]);
      assert SwapPairs(r) == [b[0], b[1]] + b[2..];
    }
  }

  /** The loop `for n < width*height: swap(block[2n], block[2n+1])`. */
  method SwapBytePairs(block: array<byte>, pairs: nat)
    requires block.Length == 2 * pairs
    modifies block
    ensures block[..] == SwapPairs(old(block[..]))
  {
    ghost var original := block[..];
    var n := 0;
    while n < pairs
      invariant 0 <= n <= pairs
      invariant forall i :: 0 <= i < 2 * n ==> block[i] == SwapPairs(original)[i]
      invariant forall i :: 2 * n <= i < block.Length ==> block[i] == original[i]
    {
      SwapPairsAt(original, 2 * n);
      SwapPairsAt(original, 2 * n + 1);
      block[2 * n], block[2 * n + 1] := block[2 * n + 1], block[2 * n];
      n := n + 1;
    }
  }

  /** One slice read into the reused block: a missing file transfers
      nothing, a short one only its bytes; then the optional swap. */
  function NextBlock(files: map<string, seq<byte>>, name: string, block: seq<byte>, swap: bool): (b: seq<byte>)
    requires |block| % 2 == 0
    ensures |b| == |block|
  {
    var read := if name in files then Overlay(block, files[name]) else block;
    if swap then SwapPairs(read) else read
  }

  /** The block after slices 1..z have been processed. */
  function BlockAfter(files: map<string, seq<byte>>, path: string, pairs: nat, z: nat, swap: bool)
    : (b: seq<byte>)
    ensures |b| == 2 * pairs
    decreases z
  {
    if z == 0 then Zeros(2 * pairs)
    else NextBlock(files, SliceName(path, z), BlockAfter(files, path, pairs, z - 1, swap), swap)
  }

  /** What the loop has written after slices 1..z. */
  function SlicesWritten(files: map<string, seq<byte>>, path: string, pairs: nat, z: nat, swap: bool)
    : seq<byte>
    decreases z
  {
    if z == 0 then []
    else SlicesWritten(files, path, pairs, z - 1, swap) + BlockAfter(files, path, pairs, z, swap)
  }

  /** The header: width, height and depth as 8-byte `size_t` values. */
  function SizeHeader(width: int, height: int, depth: int): (h: seq<byte>)
    ensures |h| == 24
  {
    EncodeLE(width, 8) + EncodeLE(height, 8) + EncodeLE(depth, 8)
  }

  /** The output file once closed: the header, then the blocks written for
      slices 1..depth, read with the output already truncated. */
  function JoinedOutput(files: map<string, seq<byte>>, path: string, width: nat, height: nat, depth: nat,
                        outputFile: string, swap: bool): seq<byte>
  {
    SizeHeader(width, height, depth) + SlicesWritten(files[outputFile := []], path, width * height, depth, swap)
  }

  /** The numeric arguments argv[2..4] and, when present, argv[6]. */
  predicate ArgsParse(args: seq<string>)
    requires |args| >= 6
  {
    Stoi(args[2]).Some? && Stoi(args[3]).Some? && Stoi(args[4]).Some?
    && (|args| > 6 ==> Stoi(args[6]).Some?)
  }

  /** `main(argc, argv)` with `args` standing for argv[0..argc): all
      arguments are parsed before the output is opened. */
  method Run(fs: FileSystem, args: seq<string>) returns (exit: Exit)
    requires |args| >= 6
    requires forall k :: 2 <= k <= 4 && Stoi(args[k]).Some? ==> Stoi(args[k]).value >= 0
    modifies fs
    ensures !ArgsParse(args) ==> exit == Aborted && fs.files == old(fs.files)
    ensures ArgsParse(args) ==> exit == Status(0)
    ensures ArgsParse(args) && args[5] in fs.writable ==>
      var width, height, depth := Stoi(args[2]).value, Stoi(args[3]).value, Stoi(args[4]).value;
      var swap := |args| > 6 && Stoi(args[6]).value != 0;
      fs.files == old(fs.files)[args[5] := JoinedOutput(old(fs.files), args[1], width, height, depth, args[5], swap)]
    // an output that cannot be opened: nothing is written, and the exit code is unaffected
    ensures args[5] !in fs.writable ==> fs.files == old(fs.files)
  {
    var w := Stoi(args[2]);
    var h := Stoi(args[3]);
    var d := Stoi(args[4]);
    var s := if |args| > 6 then Stoi(args[6]) else Some(0);
    if w.None? || h.None? || d.None? || s.None? {
      return Aborted;
    }
    JoinSlices(fs, args[1], w.value, h.value, d.value, args[5], s.value != 0);
    return Status(0);
  }

  /** The body of `main` after the arguments are parsed: open (truncate) the
      output, write the header, then read, optionally swap and append each
      slice in turn into the one reused block. */
  method JoinSlices(fs: FileSystem, path: string, width: nat, height: nat, depth: nat,
                    outputFile: string, swap: bool)
    modifies fs
    ensures outputFile in fs.writable ==>
      fs.files == old(fs.files)[outputFile := JoinedOutput(old(fs.files), path, width, height, depth, outputFile, swap)]
    ensures outputFile !in fs.writable ==> fs.files == old(fs.files)
  {
    // opening the output truncates it; what is written appears at close
    fs.Write(outputFile, []);
    ghost var visible := fs.files;
    var header := SizeHeader(width, height, depth);
    var out := header;
    var pairs := width * height;
    var block := new byte[2 * pairs](_ => 0);
    assert block[..] == Zeros(2 * pairs);
    DoubleIsEven(pairs);
    var z := 1;
    while z <= depth
      invariant 1 <= z <= depth + 1
      invariant fs.files == visible
      invariant block.Length == 2 * pairs && block.Length % 2 == 0
      invariant block[..] == BlockAfter(visible, path, pairs, z - 1, swap)
      invariant out == header + SlicesWritten(visible, path, pairs, z - 1, swap)
    {
      ReadSlice(fs, path + DecimalString(z), block, swap);
      ghost var written := SlicesWritten(visible, path, pairs, z - 1, swap);
      assert block[..] == BlockAfter(visible, path, pairs, z, swap);
      assert SlicesWritten(visible, path, pairs, z, swap) == written + block[..];
      ConcatAssoc(header, written, block[..]);
      out := out + block[..];
      z := z + 1;
    }
    fs.Write(outputFile, out);
  }

  /** One pass of the slice loop before the block is written: open slice
      `name`, read it into the block when it opens, then swap if asked. */
  method ReadSlice(fs: FileSystem, name: string, block: array<byte>, swap: bool)
    requires block.Length % 2 == 0
    modifies block
    ensures block[..] == NextBlock(fs.files, name, old(block[..]), swap)
  {
    var file := fs.Open(name);
    if file.Some? {
      var input := new InputStream(file.value);
      input.ReadInto(block);
    }
    if swap {
      SwapBytePairs(block, block.Length / 2);
    }
  }

  lemma DoubleIsEven(n: nat)
    ensures (2 * n) % 2 == 0
  {
  }

  // --------------------------------------------------------------- properties

  /** The output holds the 24-byte header and exactly `depth` blocks of
      2*width*height bytes, whatever the slice files are. */
  lemma {:induction false} SlicesWrittenLength(files: map<string, seq<byte>>, path: string, pairs: nat,
                                               z: nat, swap: bool)
    ensures |SlicesWritten(files, path, pairs, z, swap)| == z * (2 * pairs)
  {
    if z > 0 {
      SlicesWrittenLength(files, path, pairs, z - 1, swap);
      MulSucc(z - 1, 2 * pairs);
    }
  }

  /** What the loop has written after slice k is a prefix of what it has
      written after any later slice. */
  lemma {:induction false} SlicesWrittenPrefix(files: map<string, seq<byte>>, path: string, pairs: nat,
                                               z: nat, swap: bool, k: nat)
    requires k <= z
    ensures var prefix := SlicesWritten(files, path, pairs, k, swap);
      var out := SlicesWritten(files, path, pairs, z, swap);
      |prefix| <= |out| && out[..|prefix|] == prefix
  {
    if k < z {
      SlicesWrittenPrefix(files, path, pairs, z - 1, swap, k);
      var prev := SlicesWritten(files, path, pairs, z - 1, swap);
      var prefix := SlicesWritten(files, path, pairs, k, swap);
      assert (prev + BlockAfter(files, path, pairs, z, swap))[..|prefix|] == prev[..|prefix|];
    }
  }

  /** Block `k` is written right after blocks 1..k-1, so (with
      `SlicesWrittenLength`) it occupies bytes [(k-1)*2*w*h, k*2*w*h) of what
      follows the header. */
  lemma SlicesWrittenBlock(files: map<string, seq<byte>>, path: string, pairs: nat,
                           z: nat, swap: bool, k: nat)
    requires 1 <= k <= z
    ensures var before := SlicesWritten(files, path, pairs, k - 1, swap);
      var upto := SlicesWritten(files, path, pairs, k, swap);
      var out := SlicesWritten(files, path, pairs, z, swap);
      |before| <= |upto| <= |out| && out[|before|..|upto|] == BlockAfter(files, path, pairs, k, swap)
  {
    var before := SlicesWritten(files, path, pairs, k - 1, swap);
    var upto := SlicesWritten(files, path, pairs, k, swap);
    var out := SlicesWritten(files, path, pairs, z, swap);
    SlicesWrittenPrefix(files, path, pairs, z, swap, k);
    assert upto == before + BlockAfter(files, path, pairs, k, swap);
    assert out[|before|..|upto|] == upto[|before|..];
  }



  /** The header reads back as the three dimensions. */
  lemma SizeHeaderRoundTrip(width: nat, height: nat, depth: nat)
    requires width < Pow256(8) && height < Pow256(8) && depth < Pow256(8)
    ensures var h := SizeHeader(width, height, depth);
      DecodeLE(h[0..8]) == width && DecodeLE(h[8..16]) == height && DecodeLE(h[16..24]) == depth
  {
    EightByteParts(EncodeLE(width, 8), EncodeLE(height, 8), EncodeLE(depth, 8));
    EncodeLEExact(width, 8);
    EncodeLEExact(height, 8);
    EncodeLEExact(depth, 8);
  }

  /** Three 8-byte fields laid end to end are found at 0, 8 and 16. */
  lemma EightByteParts(a: seq<byte>, b: seq<byte>, c: seq<byte>)
    requires |a| == 8 && |b| == 8 && |c| == 8
    ensures (a + b + c)[0..8] == a && (a + b + c)[8..16] == b && (a + b + c)[16..24] == c
  {
  }

  /** A slice file with at least 2*width*height bytes determines its block
      alone: its first 2*width*height bytes, swapped when asked. */
  lemma FullSliceBlock(files: map<string, seq<byte>>, path: string, pairs: nat, z: nat, swap: bool)
    requires z >= 1 && SliceName(path, z) in files && |files[SliceName(path, z)]| >= 2 * pairs
    ensures var raw := files[SliceName(path, z)][..2 * pairs];
      BlockAfter(files, path, pairs, z, swap) == if swap then SwapPairs(raw) else raw
  {
  }

  /** A missing slice file leaves the previous block in place, and with
      swapping on it swaps that block back: the slice before it is then
      written a second time in its original byte order. */
  lemma MissingSliceRepeats(files: map<string, seq<byte>>, path: string, pairs: nat, z: nat, swap: bool)
    requires z >= 2 && SliceName(path, z) !in files
    ensures !swap ==> BlockAfter(files, path, pairs, z, swap) == BlockAfter(files, path, pairs, z - 1, swap)
    ensures swap && SliceName(path, z - 1) in files && |files[SliceName(path, z - 1)]| >= 2 * pairs ==>
      BlockAfter(files, path, pairs, z, swap) == files[SliceName(path, z - 1)][..2 * pairs]
  {
    if swap && SliceName(path, z - 1) in files && |files[SliceName(path, z - 1)]| >= 2 * pairs {
      FullSliceBlock(files, path, pairs, z - 1, swap);
      SwapPairsInvolution(files[SliceName(path, z - 1)][..2 * pairs]);
    }
  }
}
