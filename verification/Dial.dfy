/** The bucket queue (`dial`) and the Dijkstra search that runs on it. */
module Dial {
  import opened Basics

  datatype Label = Label(node: nat, dist: nat)

  function Contents(buckets: seq<seq<Label>>): multiset<Label> {
    if buckets == [] then multiset{} else Contents(buckets[..|buckets| - 1]) + multiset(buckets[|buckets| - 1])
  }

  lemma {:induction false} InSomeBucket(buckets: seq<seq<Label>>, l: Label)
    ensures l in Contents(buckets) <==> exists b :: 0 <= b < |buckets| && l in buckets[b]
  {
    if buckets != [] {
      InSomeBucket(buckets[..|buckets| - 1], l);
      if exists b :: 0 <= b < |buckets| && l in buckets[b] {
        var b :| 0 <= b < |buckets| && l in buckets[b];
        if b < |buckets| - 1 {
          assert l in buckets[..|buckets| - 1][b];
        }
      }
    }
  }

  lemma {:induction false} BucketGrows(buckets: seq<seq<Label>>, b: nat, l: Label)
    requires b < |buckets|
    ensures Contents(buckets[b := buckets[b] + [l]]) == Contents(buckets) + multiset{l}
  {
    var buckets' := buckets[b := buckets[b] + [l]];
    if b < |buckets| - 1 {
      BucketGrows(buckets[..|buckets| - 1], b, l);
      assert buckets'[..|buckets| - 1] == buckets[..|buckets| - 1][b := buckets[b] + [l]];
    } else {
      assert buckets'[..|buckets| - 1] == buckets[..|buckets| - 1];
    }
  }

  lemma BucketShrinks(buckets: seq<seq<Label>>, b: nat)
    requires b < |buckets| && buckets[b] != []
    ensures Contents(buckets[b := buckets[b][..|buckets[b]| - 1]])
         == Contents(buckets) - multiset{buckets[b][|buckets[b]| - 1]}
    ensures buckets[b][|buckets[b]| - 1] in Contents(buckets)
  {
    hide Contents;
    var rest, l := buckets[b][..|buckets[b]| - 1], buckets[b][|buckets[b]| - 1];
    var smaller := buckets[b := rest];
    BucketGrows(smaller, b, l);
    assert rest + [l] == buckets[b];
    assert smaller[b := smaller[b] + [l]] == buckets;
  }

  lemma {:induction false} AllEmpty(buckets: seq<seq<Label>>)
    requires forall b :: 0 <= b < |buckets| ==> buckets[b] == []
    ensures Contents(buckets) == multiset{}
  {
    if buckets != [] {
      AllEmpty(buckets[..|buckets| - 1]);
    }
  }

  lemma {:induction false} DropEmptyTail(buckets: seq<seq<Label>>, n: nat)
    requires n <= |buckets| && forall b :: n <= b < |buckets| ==> buckets[b] == []
    ensures Contents(buckets[..n]) == Contents(buckets)
  {
    if n < |buckets| {
      DropEmptyTail(buckets[..|buckets| - 1], n);
      assert buckets[..|buckets| - 1][..n] == buckets[..n];
    } else {
      assert buckets[..n] == buckets;
    }
  }

  class Dial {
    var currentBucket: nat
    var size: nat
    var buckets: seq<seq<Label>>

    /** Every label lies in the bucket of its distance, `size` counts them, and
        nothing lies below the current bucket. */
    ghost predicate Valid()
      reads this
    {
      && size == |Contents(buckets)|
      && (forall b, i :: 0 <= b < |buckets| && 0 <= i < |buckets[b]| ==> buckets[b][i].dist == b)
      && (forall b :: 0 <= b < |buckets| && b < currentBucket ==> buckets[b] == [])
    }

    ghost function Labels(): multiset<Label>
      reads this
    {
      Contents(buckets)
    }

    constructor (maxBucket: nat)
      ensures Valid() && Labels() == multiset{} && |buckets| == maxBucket + 1
    {
      currentBucket, size := 0, 0;
      buckets := seq(maxBucket + 1, _ => []);
      new;
      AllEmpty(buckets);
    }

    method Push(l: Label)
      requires Valid() && l.dist < |buckets|
      modifies this
      ensures Valid() && Labels() == old(Labels()) + multiset{l} && |buckets| == old(|buckets|)
    {
      hide Contents;
      BucketGrows(buckets, l.dist, l);
      buckets := buckets[l.dist := buckets[l.dist] + [l]];
      currentBucket := Min(currentBucket, l.dist);
      size := size + 1;
    }

    /** The next non-empty bucket; it is the smallest distance in the queue. */
    method GetNextBucket() returns (bucket: nat)
      requires Valid() && size != 0
      ensures currentBucket <= bucket < |buckets| && buckets[bucket] != []
      ensures forall b :: 0 <= b < bucket ==> buckets[b] == []
    {
      bucket := currentBucket;
      while bucket < |buckets| && buckets[bucket] == []
        invariant forall b :: 0 <= b < bucket && b < |buckets| ==> buckets[b] == []
      {
        bucket := bucket + 1;
      }
      if bucket >= |buckets| {
        AllEmpty(buckets);
        assert false;
      }
    }

    /** `top`: a label of least distance; the queue keeps its contents. */
    method Top() returns (l: Label)
      requires Valid() && size != 0
      modifies this`currentBucket
      ensures Valid() && l in Labels() && l == Next()
      ensures forall k :: k in Labels() ==> l.dist <= k.dist
    {
      hide Contents;
      currentBucket := GetNextBucket();
      l := buckets[currentBucket][|buckets[currentBucket]| - 1];
      InSomeBucket(buckets, l);
      NextIs(currentBucket);
      forall k | k in Labels() ensures l.dist <= k.dist {
        InSomeBucket(buckets, k);
      }
    }

    /** `pop` removes exactly the label that `top` shows. */
    method Pop()
      requires Valid() && size != 0
      modifies this
      ensures Valid() && |buckets| == old(|buckets|)
      ensures old(Next()) in old(Labels()) && Labels() == old(Labels()) - multiset{old(Next())}
    {
      hide Contents;
      currentBucket := GetNextBucket();
      NextIs(currentBucket);
      BucketShrinks(buckets, currentBucket);
      buckets := buckets[currentBucket := buckets[currentBucket][..|buckets[currentBucket]| - 1]];
      size := size - 1;
    }

    /** The last label of the first non-empty bucket. */
    ghost function Next(): Label
      reads this
    {
      NextIn(buckets)
    }

    lemma NextIs(b: nat)
      requires b < |buckets| && buckets[b] != []
      requires forall k :: 0 <= k < b ==> buckets[k] == []
      ensures Next() == buckets[b][|buckets[b]| - 1]
    {
      NextInAt(buckets, b);
    }

    method Empty() returns (r: bool)
      requires Valid()
      ensures r <==> Labels() == multiset{}
    {
      r := size == 0;
    }

    method Clear()
      modifies this
      ensures Valid() && Labels() == multiset{} && |buckets| == old(|buckets|)
      ensures forall b :: 0 <= b < |buckets| ==> buckets[b] == []
    {
      currentBucket, size := 0, 0;
      for b := 0 to |buckets|
        invariant |buckets| == old(|buckets|)
        invariant forall k :: 0 <= k < b ==> buckets[k] == []
        invariant currentBucket == size == 0
      {
        buckets := buckets[b := []];
      }
      AllEmpty(buckets);
    }

    /** `n_buckets(n)`: resizing is only meant for buckets without labels. */
    method SetBuckets(n: nat)
      requires Valid() && forall b :: n <= b < |buckets| ==> buckets[b] == []
      modifies this
      ensures Valid() && Labels() == old(Labels()) && |buckets| == n
    {
      hide Contents;
      if n <= |buckets| {
        DropEmptyTail(buckets, n);
        buckets := buckets[..n];
      } else {
        ghost var before := buckets;
        buckets := buckets + seq(n - |buckets|, _ => []);
        DropEmptyTail(buckets, |before|);
        assert buckets[..|before|] == before;
      }
    }
  }

  ghost function NextIn(buckets: seq<seq<Label>>): Label {
    if buckets == [] then Label(0, 0)
    else if buckets[0] != [] then buckets[0][|buckets[0]| - 1]
    else NextIn(buckets[1..])
  }

  lemma {:induction false} NextInAt(buckets: seq<seq<Label>>, b: nat)
    requires b < |buckets| && buckets[b] != [] && forall k :: 0 <= k < b ==> buckets[k] == []
    ensures NextIn(buckets) == buckets[b][|buckets[b]| - 1]
  {
    if b > 0 {
      assert buckets[0] == [];
      NextInAt(buckets[1..], b - 1);
    }
  }
}
