/**
 Merging KEY=VALUE lists in order.
 */
module EnvMerge {
  /** Where the first '=' is, or the length. */
  function Cut(kv: string): (i: nat)
    ensures i <= |kv| && (i < |kv| ==> kv[i] == '=') && forall j :: 0 <= j < i ==> kv[j] != '='
  {
    if kv == "" || kv[0] == '=' then 0 else 1 + Cut(kv[1..])
  }

  /** An entry counts if it has a '=' and something before it. */
  predicate WellFormed(kv: string) {
    0 < Cut(kv) < |kv|
  }

  function KeyOf(kv: string): string {
    kv[..Cut(kv)]
  }

  // ------------------------------------------------- what a merge is, entry by entry

  /** The keys of the well-formed entries, each where it appears first. */
  function Keys(kvs: seq<string>): seq<string> {
    if kvs == [] then []
    else
      var front, kv := Keys(kvs[..|kvs| - 1]), kvs[|kvs| - 1];
      if WellFormed(kv) && KeyOf(kv) !in front then front + [KeyOf(kv)] else front
  }

  /** The last well-formed entry for a key. */
  function LastEntry(kvs: seq<string>, key: string): string
    requires key in Keys(kvs)
  {
    var kv := kvs[|kvs| - 1];
    if WellFormed(kv) && KeyOf(kv) == key then kv else LastEntry(kvs[..|kvs| - 1], key)
  }

  /** Every key once, in the order of first appearance, with its last entry. */
  function Merged(kvs: seq<string>): (out: seq<string>)
    ensures |out| == |Keys(kvs)|
  {
    seq(|Keys(kvs)|, i requires 0 <= i < |Keys(kvs)| => LastEntry(kvs, Keys(kvs)[i]))
  }

  lemma {:induction false} LastEntryHasItsKey(kvs: seq<string>, key: string)
    requires key in Keys(kvs)
    ensures WellFormed(LastEntry(kvs, key)) && KeyOf(LastEntry(kvs, key)) == key
    ensures LastEntry(kvs, key) in kvs
  {
    var kv := kvs[|kvs| - 1];
    if !(WellFormed(kv) && KeyOf(kv) == key) {
      LastEntryHasItsKey(kvs[..|kvs| - 1], key);
    }
  }

  /** Last index of a key among well-formed entries. */
  ghost predicate LastAt(kvs: seq<string>, key: string, p: nat) {
    p < |kvs| && WellFormed(kvs[p]) && KeyOf(kvs[p]) == key
    && forall q :: p < q < |kvs| && WellFormed(kvs[q]) ==> KeyOf(kvs[q]) != key
  }

  /** Each key carries the entry that came last in the input. */
  lemma {:induction false} LastOneWins(kvs: seq<string>, i: nat, p: nat)
    requires i < |Merged(kvs)| && LastAt(kvs, Keys(kvs)[i], p)
    ensures Merged(kvs)[i] == kvs[p]
  {
    LastEntryIsLast(kvs, Keys(kvs)[i], p);
  }

  lemma {:induction false} LastEntryIsLast(kvs: seq<string>, key: string, p: nat)
    requires key in Keys(kvs) && LastAt(kvs, key, p)
    ensures LastEntry(kvs, key) == kvs[p]
  {
    if p < |kvs| - 1 {
      LastEntryIsLast(kvs[..|kvs| - 1], key, p);
    }
  }

  ghost predicate Distinct(keys: seq<string>) {
    forall i, j :: 0 <= i < j < |keys| ==> keys[i] != keys[j]
  }

  lemma {:induction false} KeysAreDistinct(kvs: seq<string>)
    ensures Distinct(Keys(kvs))
  {
    if kvs != [] {
      var front, kv := kvs[..|kvs| - 1], kvs[|kvs| - 1];
      KeysAreDistinct(front);
      if Keys(kvs) != Keys(front) {
        DistinctAppend(Keys(front), KeyOf(kv));
      }
    }
  }

  lemma DistinctAppend(keys: seq<string>, key: string)
    requires Distinct(keys) && key !in keys
    ensures Distinct(keys + [key])
  {
  }

  lemma {:induction false} KeysCover(kvs: seq<string>, i: nat)
    requires i < |kvs| && WellFormed(kvs[i])
    ensures KeyOf(kvs[i]) in Keys(kvs)
  {
    if i < |kvs| - 1 {
      KeysCover(kvs[..|kvs| - 1], i);
    }
  }

  /** First index of a key among well-formed entries. */
  ghost predicate FirstAt(kvs: seq<string>, key: string, p: nat) {
    p < |kvs| && WellFormed(kvs[p]) && KeyOf(kvs[p]) == key
    && forall q :: 0 <= q < p && WellFormed(kvs[q]) ==> KeyOf(kvs[q]) != key
  }

  /** The order of the output is the order of first appearance in the input. */
  lemma {:induction false} KeysInOrder(kvs: seq<string>, i: nat, p: nat, j: nat, q: nat)
    requires i < j < |Keys(kvs)| && FirstAt(kvs, Keys(kvs)[i], p) && FirstAt(kvs, Keys(kvs)[j], q)
    ensures p < q
  {
    var front := kvs[..|kvs| - 1];
    var n := |kvs| - 1;
    if j < |Keys(front)| {
      assert p < n by { KeyIsEarlier(kvs, Keys(kvs)[i], p); }
      assert q < n by { KeyIsEarlier(kvs, Keys(kvs)[j], q); }
      KeysInOrder(front, i, p, j, q);
    } else {
      KeyIsEarlier(kvs, Keys(kvs)[i], p);
      KeyIsNew(kvs, q);
    }
  }

  /** A key that the last entry adds does not appear before. */
  lemma KeyIsNew(kvs: seq<string>, q: nat)
    requires q < |kvs| && WellFormed(kvs[q]) && KeyOf(kvs[q]) !in Keys(kvs[..|kvs| - 1])
    ensures q == |kvs| - 1
  {
    if q < |kvs| - 1 {
      KeysCover(kvs[..|kvs| - 1], q);
    }
  }

  lemma KeyIsEarlier(kvs: seq<string>, key: string, p: nat)
    requires |kvs| > 0 && key in Keys(kvs[..|kvs| - 1]) && FirstAt(kvs, key, p)
    ensures p < |kvs| - 1 && FirstAt(kvs[..|kvs| - 1], key, p)
  {
    var front := kvs[..|kvs| - 1];
    KeyAppears(front, key);
    var q :| 0 <= q < |front| && WellFormed(front[q]) && KeyOf(front[q]) == key;
    assert kvs[q] == front[q];
  }

  lemma {:induction false} KeyAppears(kvs: seq<string>, key: string)
    requires key in Keys(kvs)
    ensures exists q :: 0 <= q < |kvs| && WellFormed(kvs[q]) && KeyOf(kvs[q]) == key
  {
    var front := kvs[..|kvs| - 1];
    if key in Keys(front) {
      KeyAppears(front, key);
      var q :| 0 <= q < |front| && WellFormed(front[q]) && KeyOf(front[q]) == key;
      assert kvs[q] == front[q];
    } else {
      assert kvs[|kvs| - 1] == kvs[|kvs| - 1];
    }
  }

  // ------------------------------------------------------------ one entry at a time

  /** The position of a key in a merged list. */
  function Position(out: seq<string>, key: string): (i: nat)
    ensures i <= |out|
    ensures i < |out| ==> KeyOf(out[i]) == key
    ensures forall j :: 0 <= j < i ==> KeyOf(out[j]) != key
  {
    if out == [] || KeyOf(out[0]) == key then 0 else 1 + Position(out[1..], key)
  }

  function Add(out: seq<string>, kv: string): seq<string> {
    if !WellFormed(kv) then out
    else
      var i := Position(out, KeyOf(kv));
      if i < |out| then out[i := kv] else out + [kv]
  }

  lemma MergedKeys(kvs: seq<string>, i: nat)
    requires i < |Merged(kvs)|
    ensures WellFormed(Merged(kvs)[i]) && KeyOf(Merged(kvs)[i]) == Keys(kvs)[i]
  {
    LastEntryHasItsKey(kvs, Keys(kvs)[i]);
  }

  /** A further entry updates the merged list in place or extends it. */
  lemma MergedStep(kvs: seq<string>, kv: string)
    ensures Merged(kvs + [kv]) == Add(Merged(kvs), kv)
  {
    var all, out := kvs + [kv], Merged(kvs);
    assert all[..|all| - 1] == kvs;
    KeysAreDistinct(kvs);
    forall i | 0 <= i < |out|
      ensures KeyOf(out[i]) == Keys(kvs)[i]
    {
      MergedKeys(kvs, i);
    }
    if WellFormed(kv) {
      var p, key := Position(out, KeyOf(kv)), KeyOf(kv);
      if p < |out| {
        assert Keys(kvs)[p] == key && Keys(all) == Keys(kvs);
        assert forall i :: 0 <= i < |out| && i != p ==> Keys(kvs)[i] != key;
      } else {
        assert forall i :: 0 <= i < |out| ==> Keys(kvs)[i] != key;
        assert Keys(all) == Keys(kvs) + [key];
      }
      forall i | 0 <= i < |Keys(all)|
        ensures Merged(all)[i] == if i == p then kv else out[i]
      {
        assert LastEntry(all, Keys(all)[i]) == if i == p then kv else LastEntry(kvs, Keys(kvs)[i]);
      }
      assert Merged(all) == Add(out, kv);
    } else {
      assert Keys(all) == Keys(kvs);
    }
  }

  lemma {:induction false} MergedOfMerged(kvs: seq<string>)
    requires forall i :: 0 <= i < |kvs| ==> WellFormed(kvs[i])
    requires forall i, j :: 0 <= i < j < |kvs| ==> KeyOf(kvs[i]) != KeyOf(kvs[j])
    ensures Merged(kvs) == kvs
  {
    if kvs != [] {
      var front, kv := kvs[..|kvs| - 1], kvs[|kvs| - 1];
      MergedOfMerged(front);
      assert front + [kv] == kvs;
      MergedStep(front, kv);
    }
  }

  /** A merged list has nothing to merge. */
  lemma MergedIsSettled(kvs: seq<string>)
    ensures Merged(Merged(kvs)) == Merged(kvs)
  {
    var out := Merged(kvs);
    KeysAreDistinct(kvs);
    forall i | 0 <= i < |out|
      ensures WellFormed(out[i]) && KeyOf(out[i]) == Keys(kvs)[i]
    {
      MergedKeys(kvs, i);
    }
    MergedOfMerged(out);
  }

  lemma {:induction false} MergeInStages(kvs: seq<string>, more: seq<string>)
    ensures Merged(Merged(kvs) + more) == Merged(kvs + more)
  {
    if more == [] {
      MergedIsSettled(kvs);
      assert Merged(kvs) + [] == Merged(kvs) && kvs + [] == kvs;
    } else {
      var front, kv := more[..|more| - 1], more[|more| - 1];
      MergeInStages(kvs, front);
      MergedStep(Merged(kvs) + front, kv);
      MergedStep(kvs + front, kv);
      assert Merged(kvs) + more == Merged(kvs) + front + [kv];
      assert kvs + more == kvs + front + [kv];
    }
  }

  /** Merging twice is merging once with both lists, and merging nothing changes nothing. */
  lemma MergeLaws(a: seq<string>, b: seq<string>, c: seq<string>)
    ensures Merged(Merged(a + b) + c) == Merged(a + (b + c))
    ensures Merged(Merged(a + b) + []) == Merged(a + b)
  {
    MergeInStages(a + b, c);
    MergeInStages(a + b, []);
    assert a + b + c == a + (b + c);
    assert a + b + [] == a + b;
  }

  // --------------------------------------------------------------------- the code

  /** The merge as it runs: a result slice and an index from key to position. */
  method MergeEnvPairs(existing: seq<string>, incoming: seq<string>) returns (out: seq<string>)
    ensures out == Merged(existing + incoming)
  {
    var seen: map<string, nat> := map[];
    out := [];
    for n := 0 to |existing|
      invariant out == Merged(existing[..n]) && Indexes(seen, out)
    {
      assert existing[..n + 1] == existing[..n] + [existing[n]];
      MergedStep(existing[..n], existing[n]);
      seen, out := AddPair(seen, out, existing[n]);
    }
    assert existing[..|existing|] == existing && existing + incoming[..0] == existing;
    for n := 0 to |incoming|
      invariant out == Merged(existing + incoming[..n]) && Indexes(seen, out)
    {
      assert existing + incoming[..n + 1] == existing + incoming[..n] + [incoming[n]];
      MergedStep(existing + incoming[..n], incoming[n]);
      seen, out := AddPair(seen, out, incoming[n]);
    }
    assert existing + incoming[..|incoming|] == existing + incoming;
  }

  /** seen maps every key of out, and no other, to its position. */
  ghost predicate Indexes(seen: map<string, nat>, out: seq<string>) {
    && (forall k :: k in seen ==> seen[k] < |out| && KeyOf(out[seen[k]]) == k)
    && (forall i :: 0 <= i < |out| ==> KeyOf(out[i]) in seen && seen[KeyOf(out[i])] == i)
  }

  method AddPair(seen: map<string, nat>, out: seq<string>, kv: string)
    returns (seen': map<string, nat>, out': seq<string>)
    requires Indexes(seen, out)
    ensures Indexes(seen', out') && out' == Add(out, kv)
  {
    var cut := Cut(kv);
    if cut == |kv| || cut == 0 {
      return seen, out;
    }
    var key := kv[..cut];
    if key in seen {
      return seen, out[seen[key] := kv];
    }
    seen' := seen[key := |out|];
    out' := out + [kv];
  }

  /** An entry counts exactly if there is a '=' in it and something before the first one, which is the key. */
  lemma WellFormedExactly(kv: string)
    ensures WellFormed(kv) <==> '=' in kv && kv[0] != '='
    ensures WellFormed(kv) ==> KeyOf(kv) + "=" <= kv && '=' !in KeyOf(kv) && KeyOf(kv) != ""
  {
    var i := Cut(kv);
    if i < |kv| {
      assert kv[..i] + "=" == kv[..i + 1];
    }
  }
}
