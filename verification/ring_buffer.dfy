/**
 The fixed-size circular buffer that keeps the end of a subprocess's output.
 */
module RingBuffers {
  import opened Bytes
  import opened Tails

  const STDERR_BUF_SIZE: nat := 4096

  /** The history with one more chunk, taken from the front of what is left to write. */
  ghost function Continue(seen: seq<byte>, chunk: seq<byte>, left: seq<byte>): (next: seq<byte>)
    requires chunk <= left
    ensures LastN(LastN(seen, STDERR_BUF_SIZE) + chunk, STDERR_BUF_SIZE) == LastN(next, STDERR_BUF_SIZE)
    ensures next + left[|chunk|..] == seen + left
  {
    TailOfTail(seen, chunk, STDERR_BUF_SIZE);
    seen + chunk
  }

  class StderrBuffer {
    const buf: array<byte>
    var pos: nat   // next write position
    var full: bool // the buffer has been filled once

    ghost predicate Valid()
      reads this, buf
    {
      buf.Length == STDERR_BUF_SIZE && pos < STDERR_BUF_SIZE
    }

    /** What the buffer holds, oldest byte first. */
    ghost function Contents(): (bytes: seq<byte>)
      requires Valid()
      reads this, buf
      ensures |bytes| <= STDERR_BUF_SIZE
      ensures full <==> |bytes| == STDERR_BUF_SIZE
    {
      if full then buf[pos..] + buf[..pos] else buf[..pos]
    }

    constructor ()
      ensures Valid() && Contents() == [] && fresh(buf)
    {
      buf := new byte[STDERR_BUF_SIZE](_ => 0);
      pos, full := 0, false;
    }

    /** Copies bytes that fit before the end, and moves on, wrapping at the end. */
    method CopyIn(p: seq<byte>)
      requires Valid() && |p| <= STDERR_BUF_SIZE - pos
      modifies this, buf
      ensures Valid() && Contents() == LastN(old(Contents()) + p, STDERR_BUF_SIZE)
      ensures if old(pos) + |p| == STDERR_BUF_SIZE then pos == 0 && full else pos == old(pos) + |p| && full == old(full)
    {
      ghost var before, held := buf[..], Contents();
      forall i | 0 <= i < |p| {
        buf[pos + i] := p[i];
      }
      assert buf[..] == before[..pos] + p + before[pos + |p|..];
      ghost var start := pos;
      pos := pos + |p|;
      if pos == STDERR_BUF_SIZE {
        pos := 0;
        full := true;
        assert buf[..] == before[..start] + p;
      }
      if old(full) {
        assert held + p == before[start..] + before[..start] + p;
        assert LastN(held + p, STDERR_BUF_SIZE) == (held + p)[|p|..];
        assert (held + p)[|p|..] == before[start + |p|..] + before[..start] + p;
      }
    }

    /** Keeps the last 4096 of the bytes held before followed by the bytes given. */
    method Write(bytes: seq<byte>) returns (n: nat)
      requires Valid()
      modifies this, buf
      ensures Valid() && n == |bytes|
      ensures Contents() == LastN(old(Contents()) + bytes, STDERR_BUF_SIZE)
    {
      n := |bytes|;
      var p := bytes;
      ghost var seen := Contents();
      assert LastN(seen, STDERR_BUF_SIZE) == seen;
      while |p| > 0
        invariant Valid() && old(Contents()) + bytes == seen + p
        invariant Contents() == LastN(seen, STDERR_BUF_SIZE)
        decreases |p|
      {
        var space := STDERR_BUF_SIZE - pos;
        if space >= |p| {
          seen := Continue(seen, p, p);
          CopyIn(p);
          p := [];
          break;
        }
        seen := Continue(seen, p[..space], p);
        CopyIn(p[..space]);
        p := p[space..];
      }
      assert seen + [] == seen;
    }

    /** Any number of writes, of any sizes, to a new buffer; then the tail is read. */
    static method Run(chunks: seq<seq<byte>>) returns (sb: StderrBuffer, tail: array<byte>)
      ensures fresh(sb) && sb.Valid() && sb.Contents() == LastN(Concat(chunks), STDERR_BUF_SIZE)
      ensures fresh(tail) && tail[..] == LastN(Concat(chunks), STDERR_BUF_SIZE)
    {
      sb := new StderrBuffer();
      for i := 0 to |chunks|
        invariant fresh(sb) && fresh(sb.buf) && sb.Valid()
        invariant sb.Contents() == KeepTail(chunks[..i], STDERR_BUF_SIZE)
      {
        assert chunks[..i + 1][..i] == chunks[..i];
        var _ := sb.Write(chunks[i]);
      }
      assert chunks[..|chunks|] == chunks;
      RunsOfWrites(chunks, STDERR_BUF_SIZE);
      tail := sb.Tail();
    }

    /** The bytes held, oldest first. */
    method Tail() returns (out: array<byte>)
      requires Valid()
      ensures fresh(out) && out[..] == Contents()
    {
      if !full {
        out := new byte[pos](i requires 0 <= i < pos && Valid() reads this, buf => buf[i]);
        assert out[..] == buf[..pos];
        return;
      }
      out := new byte[STDERR_BUF_SIZE];
      forall i | pos <= i < STDERR_BUF_SIZE {
        out[i - pos] := buf[i];
      }
      forall i | 0 <= i < pos {
        out[STDERR_BUF_SIZE - pos + i] := buf[i];
      }
      assert out[..] == buf[pos..] + buf[..pos];
    }
  }
}
