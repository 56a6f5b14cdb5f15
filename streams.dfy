/** A binary `std::ifstream` over the bytes of one file: reads advance a
    position, and a read that runs short sets the stream's fail state, after
    which every read transfers nothing. */
module Streams {
  import opened Common

  class InputStream {
    const contents: seq<byte>
    var pos: nat
    var failed: bool

    ghost predicate Valid()
      reads this
    {
      pos <= |contents|
    }

    /** Opening the file: positioned at its start, no error state. */
    constructor (contents: seq<byte>)
      ensures Valid() && this.contents == contents && pos == 0 && !failed
    {
      this.contents := contents;
      pos := 0;
      failed := false;
    }

    /** The bytes not read yet. */
    function Remaining(): (r: seq<byte>)
      reads this
      requires Valid()
      ensures |r| == |contents| - pos
    {
      contents[pos..]
    }

    /** `read(buf, n)` into a fresh buffer: up to `n` bytes are transferred;
        fewer than `n` sets the fail state; a failed stream transfers nothing. */
    method Read(n: nat) returns (chunk: seq<byte>)
      requires Valid()
      modifies this
      ensures Valid()
      ensures old(failed) ==> chunk == [] && pos == old(pos) && failed
      ensures !old(failed) ==> chunk == old(Remaining())[..Min(n, |old(Remaining())|)]
      ensures !old(failed) ==> pos == old(pos) + |chunk| && failed == (|chunk| < n)
    {
      if failed {
        chunk := [];
      } else {
        var k := Min(n, |contents| - pos);
        chunk := contents[pos..pos + k];
        pos := pos + k;
        failed := k < n;
      }
    }

    /** `read(buf.data(), buf.size())` into an existing buffer: the bytes
        transferred overwrite its prefix and the rest of it keeps its value. */
    method ReadInto(buf: array<byte>)
      requires Valid()
      modifies this, buf
      ensures Valid()
      ensures old(failed) ==> buf[..] == old(buf[..]) && pos == old(pos) && failed
      ensures !old(failed) ==> buf[..] == Overlay(old(buf[..]), old(Remaining()))
      ensures !old(failed) ==> pos == old(pos) + Min(buf.Length, |old(Remaining())|)
      ensures !old(failed) ==> failed == (|old(Remaining())| < buf.Length)
    {
      ghost var initial, rem := buf[..], Remaining();
      var chunk := Read(buf.Length);
      var i := 0;
      while i < |chunk|
        invariant 0 <= i <= |chunk| <= buf.Length
        invariant buf[..] == Overlay(initial, chunk[..i])
        modifies buf
      {
        buf[i] := chunk[i];
        i := i + 1;
      }
      assert chunk[..i] == chunk;
      if !old(failed) {
        assert Overlay(initial, chunk) == Overlay(initial, rem) by {
          forall j | 0 <= j < |initial|
            ensures Overlay(initial, chunk)[j] == Overlay(initial, rem)[j]
          {
          }
        }
      }
    }
  }

  /** The files the command-line tools see, by name. A name that is absent
      cannot be opened for reading; a name outside `writable` cannot be
      opened for writing. */
  class FileSystem {
    var files: map<string, seq<byte>>
    const writable: set<string>

    constructor (files: map<string, seq<byte>>, writable: set<string>)
      ensures this.files == files && this.writable == writable
    {
      this.files := files;
      this.writable := writable;
    }

    /** Opening a file for reading: its bytes, or `None` when it cannot be
        opened. */
    function Open(name: string): (r: Option<seq<byte>>)
      reads this
      ensures r.Some? <==> name in files
      ensures r.Some? ==> r.value == files[name]
    {
      if name in files then Some(files[name]) else None
    }

    /** Opening `name` for writing (which truncates it) and closing it after
        writing `contents`. The stream is never checked: when `name` cannot
        be opened, every write to it is dropped and nothing changes. */
    method Write(name: string, contents: seq<byte>)
      modifies this
      ensures name in writable ==> files == old(files)[name := contents]
      ensures name !in writable ==> files == old(files)
    {
      if name in writable {
        files := files[name := contents];
      }
    }
  }
}
