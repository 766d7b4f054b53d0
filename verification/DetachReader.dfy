/**
 The detach filter of `boid attach` (cmd/attach.go): a reader that hands its source's
 bytes on until it meets the detach key, Ctrl-] (0x1d).
 */
module DetachReader {
  import opened Wrappers

  const DETACH_KEY: byte := 0x1d

  datatype ReadError = NoError | EndOfFile | AttachDetached | OtherError(message: string)

  /** What one read of the source is ready to return; a short buffer takes it in pieces. */
  datatype Chunk = Chunk(bytes: seq<byte>, error: ReadError)

  datatype Taken = Taken(bytes: seq<byte>, error: ReadError, rest: seq<Chunk>)

  /** One io.Reader call with room for `size` bytes; an exhausted source reports end of file. */
  function Take(chunks: seq<Chunk>, size: nat): Taken {
    if chunks == [] then Taken([], EndOfFile, [])
    else if |chunks[0].bytes| <= size then Taken(chunks[0].bytes, chunks[0].error, chunks[1..])
    else Taken(chunks[0].bytes[..size], NoError, [Chunk(chunks[0].bytes[size..], chunks[0].error)] + chunks[1..])
  }

  function Flatten(chunks: seq<Chunk>): seq<byte> {
    if chunks == [] then [] else chunks[0].bytes + Flatten(chunks[1..])
  }

  /** Everything before the first detach key. */
  function UpToKey(s: seq<byte>): seq<byte> {
    if s == [] || s[0] == DETACH_KEY then [] else [s[0]] + UpToKey(s[1..])
  }

  lemma {:induction false} UpToKeyCuts(s: seq<byte>)
    ensures UpToKey(s) <= s && DETACH_KEY !in UpToKey(s)
    ensures DETACH_KEY in s <==> UpToKey(s) < s
    ensures UpToKey(s) < s ==> s[|UpToKey(s)|] == DETACH_KEY
  {
    if s != [] && s[0] != DETACH_KEY {
      UpToKeyCuts(s[1..]);
      assert s == [s[0]] + s[1..];
      assert UpToKey(s[1..]) == s[1..][..|UpToKey(s[1..])|];
      assert UpToKey(s) == s[..|UpToKey(s)|];
    }
  }

  lemma {:induction false} UpToKeyConcat(a: seq<byte>, b: seq<byte>)
    ensures UpToKey(a + b) == if DETACH_KEY in a then UpToKey(a) else a + UpToKey(b)
  {
    if a == [] {
      assert a + b == b;
    } else if a[0] != DETACH_KEY {
      assert (a + b)[1..] == a[1..] + b;
      UpToKeyConcat(a[1..], b);
      assert DETACH_KEY in a <==> DETACH_KEY in a[1..];
    }
  }

  // ---------- a whole run of reads ----------

  datatype State = State(chunks: seq<Chunk>, detached: bool)

  datatype Reply = Reply(bytes: seq<byte>, error: ReadError)

  function ReadReply(s: State, size: nat): Reply {
    if s.detached then Reply([], AttachDetached)
    else
      var t := Take(s.chunks, size);
      if DETACH_KEY !in t.bytes then Reply(t.bytes, t.error)
      else if UpToKey(t.bytes) == [] then Reply([], AttachDetached)
      else Reply(UpToKey(t.bytes), NoError)
  }

  function AfterRead(s: State, size: nat): State {
    if s.detached then s
    else
      var t := Take(s.chunks, size);
      State(t.rest, DETACH_KEY in t.bytes)
  }

  function After(s: State, sizes: seq<nat>): State {
    if sizes == [] then s else AfterRead(After(s, sizes[..|sizes| - 1]), sizes[|sizes| - 1])
  }

  function Delivered(s: State, sizes: seq<nat>): seq<byte> {
    if sizes == [] then []
    else Delivered(s, sizes[..|sizes| - 1]) + ReadReply(After(s, sizes[..|sizes| - 1]), sizes[|sizes| - 1]).bytes
  }

  /** A source read takes what fits of the next chunk, and its error together with the last of it. */
  lemma TakeMeans(chunk: Chunk, rest: seq<Chunk>, size: nat)
    ensures Take([], size) == Taken([], EndOfFile, [])
    ensures |chunk.bytes| <= size ==> Take([chunk] + rest, size) == Taken(chunk.bytes, chunk.error, rest)
    ensures |chunk.bytes| > size ==>
              Take([chunk] + rest, size) ==
              Taken(chunk.bytes[..size], NoError, [Chunk(chunk.bytes[size..], chunk.error)] + rest)
  {
    assert ([chunk] + rest)[1..] == rest;
  }

  /**
   What the filter replies to one read: the source's own bytes and error while no key is
   among them; the bytes before the key and no error; or the detach error if it comes first.
   */
  lemma ReplyMeans(s: State, size: nat)
    requires !s.detached
    ensures var t, r := Take(s.chunks, size), ReadReply(s, size);
            && (0x1d !in t.bytes ==> r == Reply(t.bytes, t.error))
            && (|t.bytes| > 0 && t.bytes[0] == 0x1d ==> r == Reply([], AttachDetached))
            && (forall i :: 0 < i < |t.bytes| && t.bytes[i] == 0x1d && 0x1d !in t.bytes[..i] ==>
                  r == Reply(t.bytes[..i], NoError))
            && AfterRead(s, size) == State(t.rest, 0x1d in t.bytes)
  {
    var t := Take(s.chunks, size);
    UpToKeyCuts(t.bytes);
    forall i | 0 < i < |t.bytes| && t.bytes[i] == 0x1d && 0x1d !in t.bytes[..i]
      ensures UpToKey(t.bytes) == t.bytes[..i]
    {
      assert t.bytes == t.bytes[..i] + t.bytes[i..];
      UpToKeyConcat(t.bytes[..i], t.bytes[i..]);
    }
  }

  lemma TakeSplits(chunks: seq<Chunk>, size: nat)
    ensures Flatten(chunks) == Take(chunks, size).bytes + Flatten(Take(chunks, size).rest)
    ensures |Take(chunks, size).bytes| <= size
  {
    if chunks != [] && |chunks[0].bytes| > size {
      var t := Take(chunks, size);
      assert t.rest[1..] == chunks[1..];
      assert chunks[0].bytes == chunks[0].bytes[..size] + chunks[0].bytes[size..];
    }
  }

  /**
   For every input, chunking and sequence of buffer sizes: what was delivered followed by
   what is still unread is the input while no key was met; once it was met, what was
   delivered is exactly the input before its first key.
   */
  lemma {:induction false} DeliversUpToKey(chunks: seq<Chunk>, sizes: seq<nat>)
    ensures var end := After(State(chunks, false), sizes);
            var out := Delivered(State(chunks, false), sizes);
            var input := Flatten(chunks);
            && DETACH_KEY !in out
            && (end.detached ==> out == UpToKey(input) && DETACH_KEY in input)
            && (!end.detached ==> input == out + Flatten(end.chunks))
  {
    if sizes != [] {
      var start, before, size := State(chunks, false), sizes[..|sizes| - 1], sizes[|sizes| - 1];
      DeliversUpToKey(chunks, before);
      var mid, out := After(start, before), Delivered(start, before);
      if !mid.detached {
        var t := Take(mid.chunks, size);
        TakeSplits(mid.chunks, size);
        UpToKeyCuts(t.bytes);
        assert Flatten(chunks) == out + t.bytes + Flatten(t.rest);
        UpToKeyConcat(out + t.bytes, Flatten(t.rest));
        UpToKeyConcat(out, t.bytes);
      }
    }
  }

  /** A prefix of the input, never past its first detach key, whatever the reads. */
  lemma DeliversAPrefix(chunks: seq<Chunk>, sizes: seq<nat>)
    ensures Delivered(State(chunks, false), sizes) <= UpToKey(Flatten(chunks)) <= Flatten(chunks)
  {
    var input, out, end := Flatten(chunks), Delivered(State(chunks, false), sizes), After(State(chunks, false), sizes);
    DeliversUpToKey(chunks, sizes);
    UpToKeyCuts(input);
    if !end.detached {
      UpToKeyConcat(out, Flatten(end.chunks));
    }
  }

  /** Two runs that drain or detach from the same bytes deliver the same, however each was chunked. */
  lemma ChunkingDoesNotMatter(a: seq<Chunk>, b: seq<Chunk>, sizes: seq<nat>, sizes': seq<nat>)
    requires Flatten(a) == Flatten(b)
    requires After(State(a, false), sizes).detached || Flatten(After(State(a, false), sizes).chunks) == []
    requires After(State(b, false), sizes').detached || Flatten(After(State(b, false), sizes').chunks) == []
    ensures Delivered(State(a, false), sizes) == Delivered(State(b, false), sizes') == UpToKey(Flatten(a))
    ensures After(State(a, false), sizes).detached <==> DETACH_KEY in Flatten(a)
  {
    DeliversUpToKey(a, sizes);
    DeliversUpToKey(b, sizes');
    UpToKeyCuts(Flatten(a));
  }

  /** How many reads with room for a byte the source can still take. */
  ghost function Work(chunks: seq<Chunk>): nat {
    |Flatten(chunks)| + |chunks|
  }

  lemma ReadWorks(s: State, size: nat)
    requires !s.detached && size > 0 && s.chunks != []
    ensures Work(AfterRead(s, size).chunks) < Work(s.chunks)
  {
    TakeSplits(s.chunks, size);
  }

  lemma {:induction false} ReadsProgress(chunks: seq<Chunk>, sizes: seq<nat>)
    requires forall i :: 0 <= i < |sizes| ==> sizes[i] > 0
    ensures var end := After(State(chunks, false), sizes);
            end.detached || end.chunks == [] || Work(end.chunks) + |sizes| <= Work(chunks)
  {
    hide Work;
    if sizes != [] {
      var before, size := sizes[..|sizes| - 1], sizes[|sizes| - 1];
      ReadsProgress(chunks, before);
      var mid := After(State(chunks, false), before);
      if !mid.detached && mid.chunks != [] {
        ReadWorks(mid, size);
      }
    }
  }

  /** Enough reads with room for a byte always deliver all there is before the key, however it was chunked. */
  lemma EnoughReadsDeliverAll(chunks: seq<Chunk>, sizes: seq<nat>)
    requires |sizes| >= Work(chunks) && forall i :: 0 <= i < |sizes| ==> sizes[i] > 0
    ensures Delivered(State(chunks, false), sizes) == UpToKey(Flatten(chunks))
    ensures After(State(chunks, false), sizes).detached <==> DETACH_KEY in Flatten(chunks)
  {
    ReadsProgress(chunks, sizes);
    var end := After(State(chunks, false), sizes);
    assert Work(end.chunks) == 0 ==> end.chunks == [];
    ChunkingDoesNotMatter(chunks, chunks, sizes, sizes);
  }

  lemma {:induction false} DetachIsFinal(s: State, sizes: seq<nat>)
    requires s.detached
    ensures After(s, sizes) == s && Delivered(s, sizes) == []
    ensures forall size :: ReadReply(After(s, sizes), size) == Reply([], AttachDetached)
  {
    if sizes != [] {
      DetachIsFinal(s, sizes[..|sizes| - 1]);
    }
  }

  /** The source's in-place form of Take. */
  class Source {
    var chunks: seq<Chunk>

    constructor (chunks: seq<Chunk>)
      ensures this.chunks == chunks
    {
      this.chunks := chunks;
    }

    method Read(buf: array<byte>) returns (n: nat, error: ReadError)
      modifies this, buf
      ensures var t := Take(old(chunks), buf.Length);
              n == |t.bytes| <= buf.Length && buf[..n] == t.bytes && error == t.error && chunks == t.rest
    {
      TakeSplits(chunks, buf.Length);
      var t := Take(chunks, buf.Length);
      n, error, chunks := |t.bytes|, t.error, t.rest;
      for i := 0 to n
        invariant chunks == t.rest && forall j :: 0 <= j < i ==> buf[j] == t.bytes[j]
      {
        buf[i] := t.bytes[i];
      }
    }
  }

  class Reader {
    const reader: Source
    var detached: bool

    constructor (reader: Source)
      ensures this.reader == reader && !detached
    {
      this.reader, detached := reader, false;
    }

    ghost function Snapshot(): State
      reads this, reader
    {
      State(reader.chunks, detached)
    }

    /** Fills the front of p and leaves the rest of it alone. */
    method Read(p: array<byte>) returns (n: nat, error: ReadError)
      modifies this, reader, p
      ensures Snapshot() == old(AfterRead(Snapshot(), p.Length))
      ensures n <= p.Length && Reply(p[..n], error) == old(ReadReply(Snapshot(), p.Length))
      ensures p[n..] == old(p[..])[n..]
    {
      if detached {
        return 0, AttachDetached;
      }
      var buf := new byte[p.Length];
      n, error := reader.Read(buf);
      ghost var got := buf[..n];
      for i := 0 to n
        invariant DETACH_KEY !in buf[..i] && buf[..n] == got && !detached
        invariant reader.chunks == old(Take(reader.chunks, p.Length)).rest && p[..] == old(p[..])
      {
        if buf[i] == DETACH_KEY {
          detached := true;
          assert got == buf[..i] + got[i..];
          UpToKeyConcat(buf[..i], got[i..]);
          if i == 0 {
            return 0, AttachDetached;
          }
          Copy(p, buf, i);
          return i, NoError;
        }
      }
      Copy(p, buf, n);
    }

    /** copy(p, buf[:n]). */
    method Copy(p: array<byte>, buf: array<byte>, n: nat)
      requires n <= p.Length && n <= buf.Length && p != buf
      modifies p
      ensures p[..] == buf[..n] + old(p[..])[n..]
    {
      for i := 0 to n
        invariant p[..] == buf[..i] + old(p[..])[i..]
      {
        p[i] := buf[i];
      }
    }
  }
}
