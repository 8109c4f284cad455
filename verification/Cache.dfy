/** The configurations a search has already explored, in hash buckets. */
module Cache {
  import opened Bitset
  import opened Verdicts

  /** A placed set, cloned so that later updates cannot reach it, and a state. */
  datatype CacheEntry = CacheEntry(lin: seq<bv64>, state: int)

  class Cache {
    const hash: (seq<bv64>, int) -> int
    const entryBytes: nat
    var buckets: map<int, seq<CacheEntry>>
    var bytes: nat

    /** The pairs added so far. */
    ghost var remembered: set<(seq<bv64>, int)>

    /** A pair is remembered exactly when it is in the bucket its hash picks,
        whatever the hash. */
    ghost predicate Valid()
      reads this
    {
      forall l, s {:trigger (l, s) in remembered} {:trigger CacheEntry(l, s)} ::
        (l, s) in remembered <==> CacheEntry(l, s) in Bucket(hash(l, s))
    }

    constructor (words: nat, hash: (seq<bv64>, int) -> int)
      ensures Valid() && remembered == {}
      ensures bytes == 0 && entryBytes == words * 8 + PER_ENTRY_OVERHEAD
    {
      this.hash := hash;
      entryBytes := words * 8 + PER_ENTRY_OVERHEAD;
      buckets := map[];
      bytes := 0;
      remembered := {};
    }

    function Bucket(h: int): seq<CacheEntry>
      reads this
    {
      if h in buckets then buckets[h] else []
    }

    method Contains(lin: array<bv64>, s: int) returns (found: bool)
      requires Valid()
      ensures found <==> (lin[..], s) in remembered
    {
      var bucket := Bucket(hash(lin[..], s));
      for i := 0 to |bucket|
        invariant CacheEntry(lin[..], s) !in bucket[..i]
      {
        var same := Equal(lin, bucket[i].lin);
        if bucket[i].state == s && same {
          assert bucket[i] == CacheEntry(lin[..], s);
          return true;
        }
        assert bucket[..i + 1] == bucket[..i] + [bucket[i]];
      }
      assert bucket[..|bucket|] == bucket;
      return false;
    }

    method Add(lin: array<bv64>, s: int)
      requires Valid()
      modifies this
      ensures Valid() && remembered == old(remembered) + {(lin[..], s)}
      ensures bytes == old(bytes) + entryBytes
    {
      var h := hash(lin[..], s);
      buckets := buckets[h := Bucket(h) + [CacheEntry(lin[..], s)]];
      bytes := bytes + entryBytes;
      remembered := remembered + {(lin[..], s)};
      forall l, t
        ensures (l, t) in remembered <==> CacheEntry(l, t) in Bucket(hash(l, t))
      {
        if hash(l, t) == h {
          assert Bucket(h) == old(Bucket(h)) + [CacheEntry(lin[..], s)];
        } else {
          assert Bucket(hash(l, t)) == old(Bucket(hash(l, t)));
        }
      }
    }
  }
}
