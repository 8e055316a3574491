/** "The last n of everything written", on sequences. */
module Tails {
  function LastN<T>(s: seq<T>, n: nat): (tail: seq<T>)
    ensures |tail| == if |s| <= n then |s| else n
  {
    if |s| <= n then s else s[|s| - n..]
  }

  function Concat<T>(chunks: seq<seq<T>>): seq<T> {
    if chunks == [] then [] else Concat(chunks[..|chunks| - 1]) + chunks[|chunks| - 1]
  }

  /** Keeping the tail after every write. */
  function KeepTail<T>(chunks: seq<seq<T>>, n: nat): seq<T> {
    if chunks == [] then []
    else LastN(KeepTail(chunks[..|chunks| - 1], n) + chunks[|chunks| - 1], n)
  }

  lemma TailOfTail<T>(a: seq<T>, b: seq<T>, n: nat)
    ensures LastN(LastN(a, n) + b, n) == LastN(a + b, n)
  {
    var kept := LastN(a, n);
    if |a| > n {
      assert kept + b == (a + b)[|a| - n..];
      assert LastN(kept + b, n) == (kept + b)[|kept + b| - n..];
    }
  }

  /** However the bytes were cut into writes, the tail is that of all of them. */
  lemma {:induction false} RunsOfWrites<T>(chunks: seq<seq<T>>, n: nat)
    ensures KeepTail(chunks, n) == LastN(Concat(chunks), n)
  {
    if chunks != [] {
      var front, last := chunks[..|chunks| - 1], chunks[|chunks| - 1];
      RunsOfWrites(front, n);
      TailOfTail(Concat(front), last, n);
    }
  }

  /** The tail is the end of the sequence, as long as it can be. */
  lemma LastNIs<T>(s: seq<T>, n: nat)
    ensures var tail := LastN(s, n);
      && |tail| == (if |s| <= n then |s| else n)
      && forall i :: 0 <= i < |tail| ==> tail[i] == s[|s| - |tail| + i]
  {
  }

  /** Concatenation keeps every chunk, in order. */
  lemma {:induction false} ConcatIs<T>(a: seq<seq<T>>, chunk: seq<T>, b: seq<seq<T>>)
    ensures Concat<T>([]) == []
    ensures Concat(a + [chunk] + b) == Concat(a) + chunk + Concat(b)
  {
    var all := a + [chunk] + b;
    if b == [] {
      assert all[..|all| - 1] == a && all[|all| - 1] == chunk;
    } else {
      ConcatIs(a, chunk, b[..|b| - 1]);
      assert all[..|all| - 1] == a + [chunk] + b[..|b| - 1] && all[|all| - 1] == b[|b| - 1];
    }
  }
}
