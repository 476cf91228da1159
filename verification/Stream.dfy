// Reading an upstream response: a source that hands out its bytes in pieces of any size, and the
// buffered reader the gate reads it through.

module Stream {
  import opened Wrappers
  import opened Octets

  // How a response ends: whole, or broken off.
  datatype End = Eof | Cut

  const NEWLINE: byte := 10

  /** An upstream body: what is left of it, and how it ends. */
  class Source {
    var rest: Bytes
    const end: End

    constructor (bytes: Bytes, end: End)
      ensures rest == bytes && this.end == end
    {
      rest := bytes;
      this.end := end;
    }

    /** Read at most max bytes: some of the next ones, with the end told along with the last of
        them or after it. */
    method Read(max: nat) returns (b: Bytes, e: Option<End>)
      requires max > 0
      modifies this`rest
      ensures old(rest) == b + rest && |b| <= max
      ensures e == None ==> b != []
      ensures e != None ==> e == Some(end) && rest == []
    {
      if rest == [] {
        return [], Some(end);
      }
      assert 1 <= 1 <= max && 1 <= |rest|;
      var n :| 1 <= n <= max && n <= |rest|;
      b, rest := rest[..n], rest[n..];
      var early: bool := *;
      e := if early && rest == [] then Some(end) else None;
    }
  }

  // What a line read ended with: the line's end, a full buffer, or the end of the stream.
  datatype Stop = Line | Full | Ended(e: End)

  /** The first newline at or after i, or the length of s. */
  function Find(s: Bytes, i: nat): (j: nat)
    requires i <= |s|
    ensures i <= j <= |s| && (forall k | i <= k < j :: s[k] != NEWLINE) && (j < |s| ==> s[j] == NEWLINE)
    decreases |s| - i
  {
    if i == |s| || s[i] == NEWLINE then i else Find(s, i + 1)
  }

  /** A chunk with no newline but perhaps its last byte. */
  predicate OneLine(s: Bytes) {
    forall i | 0 <= i < |s| - 1 :: s[i] != NEWLINE
  }

  class Buffered {
    const size: nat
    const src: Source
    var buf: Bytes
    var err: Option<End>

    ghost predicate Valid()
      reads this, src
    {
      |buf| <= size && size > 0 && (err != None ==> err == Some(src.end) && src.rest == [])
    }

    /** What is still to come. */
    ghost function Rest(): Bytes
      reads this, src
    {
      buf + src.rest
    }

    constructor (src: Source, size: nat)
      requires size > 0
      ensures Valid() && Rest() == src.rest && this.src == src && this.size == size
    {
      this.src, this.size := src, size;
      buf, err := [], None;
    }

    /** Read more into the buffer. */
    method Fill()
      requires Valid() && err == None && |buf| < size
      modifies this`buf, this`err, src`rest
      ensures Valid() && Rest() == old(Rest()) && old(buf) <= buf
      ensures err != None || |src.rest| < |old(src.rest)|
    {
      var b, e := src.Read(size - |buf|);
      assert old(buf + src.rest) == old(buf) + b + src.rest;
      buf, err := buf + b, e;
    }

    /** Up to and including the next newline; or a full buffer without one; or what is left. */
    method ReadSlice() returns (chunk: Bytes, stop: Stop)
      requires Valid()
      modifies this`buf, this`err, src`rest
      ensures Valid() && old(Rest()) == chunk + Rest()
      ensures OneLine(chunk)
      ensures match stop
              case Line => chunk != [] && chunk[|chunk| - 1] == NEWLINE
              case Full => chunk != [] && |chunk| == size && chunk[|chunk| - 1] != NEWLINE
              case Ended(e) => e == src.end && Rest() == [] && (chunk != [] ==> chunk[|chunk| - 1] != NEWLINE)
    {
      var s: nat := 0;
      while true
        invariant Valid() && Rest() == old(Rest())
        invariant s <= |buf| && forall i | 0 <= i < s :: buf[i] != NEWLINE
        decreases |src.rest|, if err == None then 1 else 0
      {
        var i := Find(buf, s);
        if i < |buf| {
          chunk, buf := buf[..i + 1], buf[i + 1..];
          assert old(Rest()) == chunk + (buf + src.rest);
          return chunk, Line;
        }
        if err != None {
          chunk, stop := buf, Ended(err.value);
          buf, err := [], None;
          return;
        }
        if |buf| == size {
          chunk, buf := buf, [];
          return chunk, Full;
        }
        s := |buf|;
        Fill();
      }
    }

    /** Read at most max bytes: buffered ones if there are any, else from the source, directly when
        max is no less than the buffer. */
    method Read(max: nat) returns (b: Bytes, e: Option<End>)
      requires Valid() && max > 0
      modifies this`buf, this`err, src`rest
      ensures Valid() && old(Rest()) == b + Rest() && |b| <= max
      ensures e == None ==> b != []
      ensures e != None ==> e == Some(src.end) && Rest() == []
    {
      if buf == [] {
        if err != None {
          b, e, err := [], err, None;
          return;
        }
        if max >= size {
          b, e := src.Read(max);
          return;
        }
        Fill();
        if buf == [] {
          b, e, err := [], err, None;
          return;
        }
      }
      var n := if max < |buf| then max else |buf|;
      b, buf, e := buf[..n], buf[n..], None;
      assert old(Rest()) == b + (buf + src.rest);
    }
  }
}
