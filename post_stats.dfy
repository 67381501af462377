/** The per-field statistics print_post keeps (g_stats, a defaultdict(int)):
    every key of a rendered post bumps its counter by one. The process-wide
    dictionary becomes an explicit accumulator object. */
module PostStats {

  /** g_stats[k] as defaultdict(int) reads it: 0 for a key never seen. */
  function Count(counts: map<string, nat>, k: string): nat
  {
    if k in counts then counts[k] else 0
  }

  /** The counters after bumping every key of `keys`, in order. */
  function Bumped(counts: map<string, nat>, keys: seq<string>): map<string, nat>
  {
    if keys == [] then counts
    else
      var before := Bumped(counts, keys[..|keys| - 1]);
      var k := keys[|keys| - 1];
      before[k := Count(before, k) + 1]
  }

  /** Each counter grows by the number of times its key is listed, and the
      keys tracked afterwards are those tracked before plus the listed ones. */
  lemma {:induction false} BumpedCounts(counts: map<string, nat>, keys: seq<string>)
    ensures forall k :: Count(Bumped(counts, keys), k) == Count(counts, k) + multiset(keys)[k]
    ensures Bumped(counts, keys).Keys == counts.Keys + set k | k in keys
  {
    if keys != [] {
      var n := |keys| - 1;
      BumpedCounts(counts, keys[..n]);
      assert keys == keys[..n] + [keys[n]];
      assert multiset(keys) == multiset(keys[..n]) + multiset{keys[n]};
      assert (set k | k in keys) == (set k | k in keys[..n]) + {keys[n]};
    }
  }

  /** The keys of one post are distinct, so each of them is counted exactly
      once more and every other counter is left as it was. */
  lemma DistinctKeysCountedOnce(counts: map<string, nat>, keys: seq<string>)
    requires forall i, j :: 0 <= i < j < |keys| ==> keys[i] != keys[j]
    ensures forall k :: k in keys ==> Count(Bumped(counts, keys), k) == Count(counts, k) + 1
    ensures forall k :: k !in keys ==> Count(Bumped(counts, keys), k) == Count(counts, k)
    ensures forall k :: k !in keys ==> (k in Bumped(counts, keys) <==> k in counts)
  {
  }

  /** The counters reached depend only on how often each key is listed,
      not on the order in which posts or their keys come. */
  lemma TallyOrderIrrelevant(counts: map<string, nat>, keys1: seq<string>, keys2: seq<string>)
    requires multiset(keys1) == multiset(keys2)
    ensures Bumped(counts, keys1) == Bumped(counts, keys2)
  {
    BumpedCounts(counts, keys1);
    BumpedCounts(counts, keys2);
    var m1, m2 := Bumped(counts, keys1), Bumped(counts, keys2);
    assert (set k | k in keys1) == (set k | k in keys2) by {
      forall k ensures k in keys1 <==> k in keys2 {
        assert k in keys1 <==> multiset(keys1)[k] > 0;
        assert k in keys2 <==> multiset(keys2)[k] > 0;
      }
    }
    forall k | k in m1 ensures m1[k] == m2[k] {
      assert Count(m1, k) == Count(m2, k);
    }
  }

  /** Tallying two posts one after the other is tallying their keys together. */
  lemma {:induction false} BumpedAppend(counts: map<string, nat>, keys1: seq<string>, keys2: seq<string>)
    ensures Bumped(Bumped(counts, keys1), keys2) == Bumped(counts, keys1 + keys2)
  {
    if keys2 == [] {
      assert keys1 + keys2 == keys1;
    } else {
      var n := |keys2| - 1;
      BumpedAppend(counts, keys1, keys2[..n]);
      assert (keys1 + keys2)[..|keys1 + keys2| - 1] == keys1 + keys2[..n];
      assert (keys1 + keys2)[|keys1 + keys2| - 1] == keys2[n];
    }
  }

  class Stats {
    /** Occurrences of each post field across every post rendered so far. */
    var counts: map<string, nat>

    constructor ()
      ensures counts == map[]
    {
      counts := map[];
    }

    /** The tally at the end of print_post: `for k in p.keys(): g_stats[k] += 1`. */
    method Tally(keys: seq<string>)
      modifies this
      ensures counts == Bumped(old(counts), keys)
    {
      for i := 0 to |keys|
        invariant counts == Bumped(old(counts), keys[..i])
      {
        assert keys[..i + 1][..i] == keys[..i];
        counts := counts[keys[i] := Count(counts, keys[i]) + 1];
      }
      assert keys[..|keys|] == keys;
    }
  }
}
