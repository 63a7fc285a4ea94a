/** Rows that mostly equal a default row, stored sparsely (`sparse_vecvec`), and
    rows that are stored once each (`dedup_vecvec`). */
module SparseVecvec {
  import opened Basics

  const BLOCK_SIZE := 512

  // ---------- counting bits ----------

  /** The number of set bits. */
  function Ones(bits: seq<bool>): nat {
    if bits == [] then 0 else Ones(bits[..|bits| - 1]) + (if bits[|bits| - 1] then 1 else 0)
  }

  lemma {:induction false} OnesAdd(a: seq<bool>, b: seq<bool>)
    ensures Ones(a + b) == Ones(a) + Ones(b)
  {
    if b == [] {
      assert a + b == a;
    } else {
      OnesAdd(a, b[..|b| - 1]);
      assert (a + b)[..|a + b| - 1] == a + b[..|b| - 1];
    }
  }

  lemma OnesSplit(bits: seq<bool>, i: nat, j: nat)
    requires i <= j <= |bits|
    ensures Ones(bits[..j]) == Ones(bits[..i]) + Ones(bits[i..j])
  {
    OnesAdd(bits[..i], bits[i..j]);
    assert bits[..i] + bits[i..j] == bits[..j];
  }

  lemma OneMoreBit(bits: seq<bool>, i: nat)
    requires i < |bits|
    ensures Ones(bits[..i + 1]) == Ones(bits[..i]) + (if bits[i] then 1 else 0)
  {
    assert bits[..i + 1][..i] == bits[..i];
  }

  lemma BitAppended(bits: seq<bool>, bit: bool)
    ensures Ones(bits + [bit]) == Ones(bits) + (if bit then 1 else 0)
    ensures forall i :: 0 <= i <= |bits| ==> (bits + [bit])[..i] == bits[..i]
    ensures bits[..|bits|] == bits
  {
    assert (bits + [bit])[..|bits|] == bits;
  }

  // ---------- the index ----------

  /** Which keys have a row of their own, and where the rows of each block of keys start. */
  class SparseIndex {
    var hasBucket: seq<bool>
    var keyFrames: seq<nat>

    /** Every frame counts the default row and the rows before its block. */
    ghost predicate Valid()
      reads this
    {
      && |keyFrames| == (|hasBucket| + BLOCK_SIZE - 1) / BLOCK_SIZE
      && forall b :: 0 <= b < |keyFrames| ==>
           BLOCK_SIZE * b <= |hasBucket| && keyFrames[b] == 1 + Ones(hasBucket[..BLOCK_SIZE * b])
    }

    constructor ()
      ensures Valid() && hasBucket == []
    {
      hasBucket, keyFrames := [], [];
    }

    /** `add_key`, with the number of rows stored so far. */
    method AddKey(bit: bool, dataSize: nat)
      requires Valid() && dataSize == 1 + Ones(hasBucket)
      modifies this
      ensures Valid() && hasBucket == old(hasBucket) + [bit]
    {
      var i := |hasBucket|;
      if i % BLOCK_SIZE == 0 {
        keyFrames := keyFrames + [dataSize];
      }
      hasBucket := hasBucket + [bit];
      forall b | 0 <= b < |keyFrames|
        ensures BLOCK_SIZE * b <= i && keyFrames[b] == 1 + Ones(hasBucket[..BLOCK_SIZE * b])
      {
        assert BLOCK_SIZE * b <= i;
        assert hasBucket[..BLOCK_SIZE * b] == old(hasBucket)[..BLOCK_SIZE * b];
        assert old(hasBucket)[..i] == old(hasBucket);
      }
    }

    /** `data_idx`: the frame of the block, the bits of its full words before key `i`,
        and the lower bits of the key's own word. */
    method DataIdx(i: nat) returns (idx: nat)
      requires Valid() && i < |hasBucket|
      ensures idx == if hasBucket[i] then 1 + Ones(hasBucket[..i]) else 0
    {
      if !hasBucket[i] {
        return 0;
      }
      var block := i / BLOCK_SIZE;
      idx := keyFrames[block];
      var w, own := block * (BLOCK_SIZE / 64), i / 64;
      while w != own
        invariant block * 8 <= w <= own && idx == 1 + Ones(hasBucket[..64 * w])
        decreases own - w
      {
        OnesSplit(hasBucket, 64 * w, 64 * w + 64);
        idx := idx + Ones(hasBucket[64 * w..64 * w + 64]);
        w := w + 1;
      }
      OnesSplit(hasBucket, 64 * own, i);
      idx := idx + Ones(hasBucket[64 * own..64 * own + i % 64]);
    }
  }

  /** `rows[0]` is the default row, the others are the own rows of the keys that have
      one, in order; together they stand for `contents`. */
  ghost predicate Represents<V>(bits: seq<bool>, rows: seq<seq<V>>, contents: seq<seq<V>>) {
    && |bits| == |contents| && |rows| == 1 + Ones(bits)
    && forall i :: 0 <= i < |bits| ==>
         Ones(bits[..i]) + (if bits[i] then 1 else 0) < |rows| &&
         contents[i] == rows[if bits[i] then 1 + Ones(bits[..i]) else 0]
  }

  lemma KeyAppended<V>(bits: seq<bool>, rows: seq<seq<V>>, contents: seq<seq<V>>, bit: bool, row: seq<V>)
    requires Represents(bits, rows, contents) && (!bit ==> row == rows[0])
    ensures Represents(bits + [bit], if bit then rows + [row] else rows, contents + [row])
  {
    hide Ones;
    BitAppended(bits, bit);
    var bits', rows', contents' := bits + [bit], if bit then rows + [row] else rows, contents + [row];
    forall i | 0 <= i < |bits'|
      ensures Ones(bits'[..i]) + (if bits'[i] then 1 else 0) < |rows'|
      ensures contents'[i] == rows'[if bits'[i] then 1 + Ones(bits'[..i]) else 0]
    {
      assert bits'[..i] == bits[..i];
    }
  }

  class SparseVecvec<V(==)> {
    const index: SparseIndex
    var data: seq<seq<V>>
    ghost var contents: seq<seq<V>>

    ghost predicate Valid()
      reads this, index
    {
      index.Valid() && Represents(index.hasBucket, data, contents)
    }

    /** `with_default` */
    constructor (s: seq<V>)
      ensures Valid() && fresh(index) && contents == [] && data == [s]
    {
      index := new SparseIndex();
      data, contents := [s], [];
    }

    /** `emplace_back`: a row that equals the default row is not stored. */
    method EmplaceBack(s: seq<V>)
      requires Valid()
      modifies this, index
      ensures Valid() && contents == old(contents) + [s] && data[0] == old(data)[0]
    {
      var bit := s != data[0];
      KeyAppended(index.hasBucket, data, contents, bit, s);
      index.AddKey(bit, |data|);
      if bit {
        data := data + [s];
      }
      contents := contents + [s];
    }

    /** `operator[]` */
    method Get(k: nat) returns (row: seq<V>)
      requires Valid() && k < |contents|
      ensures row == contents[k]
    {
      var idx := index.DataIdx(k);
      row := data[idx];
    }

    /** `at`: nothing for keys out of range. */
    method At(k: nat) returns (row: Option<seq<V>>)
      requires Valid()
      ensures row == if k < |contents| then Some(contents[k]) else None
    {
      if k >= |index.hasBucket| {
        return None;
      }
      var r := Get(k);
      row := Some(r);
    }

    lemma SameLength()
      requires Valid()
      ensures |index.hasBucket| == |contents|
    {
    }

    /** Iteration from the first to the last key. */
    method ToSeq() returns (rows: seq<seq<V>>)
      requires Valid()
      ensures rows == contents
    {
      hide Represents, Ones;
      SameLength();
      rows := [];
      var it := new Iterator(this);
      while it.i != |index.hasBucket|
        invariant fresh(it) && it.v == this && it.Valid() && rows == contents[..it.i]
        decreases |index.hasBucket| - it.i
      {
        var row := it.Deref();
        rows := rows + [row];
        it.Advance();
      }
    }
  }

  /** `const_iterator`: counts the own rows it has passed. */
  class Iterator<V(==)> {
    const v: SparseVecvec<V>
    var i: nat
    var next: nat

    ghost predicate Valid()
      reads this, v, v.index
    {
      v.Valid() && i <= |v.contents| && next == 1 + Ones(v.index.hasBucket[..i])
    }

    constructor (v: SparseVecvec<V>)
      requires v.Valid()
      ensures Valid() && this.v == v && i == 0
    {
      this.v := v;
      i, next := 0, 1;
    }

    method Deref() returns (row: seq<V>)
      requires Valid() && i < |v.contents|
      ensures row == v.contents[i]
    {
      hide Ones;
      row := v.data[if v.index.hasBucket[i] then next else 0];
    }

    method Advance()
      requires Valid() && i < |v.contents|
      modifies this
      ensures Valid() && i == old(i) + 1
    {
      hide Ones;
      OneMoreBit(v.index.hasBucket, i);
      if v.index.hasBucket[i] {
        next := next + 1;
      }
      i := i + 1;
    }
  }

  /** `make_sparse_vecvec` for plain rows. */
  method MakeSparse<V(==)>(buckets: seq<seq<V>>) returns (v: SparseVecvec<V>)
    ensures fresh(v) && v.Valid() && v.contents == buckets && v.data[0] == []
  {
    v := new SparseVecvec([]);
    for k := 0 to |buckets|
      invariant fresh(v) && fresh(v.index) && v.Valid() && v.contents == buckets[..k] && v.data[0] == []
    {
      v.EmplaceBack(buckets[k]);
    }
  }

  // ---------- rows stored once each ----------

  /** The rows that a sequence of indices stands for. */
  function RowsOf<V>(sequence: seq<nat>, sequences: seq<seq<V>>): (rows: seq<seq<V>>)
    requires forall k :: 0 <= k < |sequence| ==> sequence[k] < |sequences|
    ensures |rows| == |sequence| && forall k :: 0 <= k < |rows| ==> rows[k] == sequences[sequence[k]]
  {
    seq(|sequence|, k requires 0 <= k < |sequence| => sequences[sequence[k]])
  }

  class DedupVecvec<V(==)> {
    var sequence: seq<nat>
    var sequences: seq<seq<V>>

    ghost predicate Valid()
      reads this
    {
      forall k :: 0 <= k < |sequence| ==> sequence[k] < |sequences|
    }

    ghost function Contents(): seq<seq<V>>
      requires Valid()
      reads this
    {
      RowsOf(sequence, sequences)
    }

    /** No row is stored twice, and the cache knows all of them. */
    ghost predicate Interned(cache: set<nat>)
      reads this
    {
      && (forall i, j :: 0 <= i < j < |sequences| ==> sequences[i] != sequences[j])
      && (forall i: nat :: i in cache <==> i < |sequences|)
    }

    constructor ()
      ensures Valid() && Interned({}) && Contents() == []
    {
      sequence, sequences := [], [];
    }

    /** `emplace_back`: a row that the cache knows is only referred to. */
    method EmplaceBack(cache: set<nat>, s: seq<V>) returns (cache': set<nat>)
      requires Valid() && forall i :: i in cache ==> i < |sequences|
      modifies this
      ensures Valid() && Contents() == old(Contents()) + [s]
      ensures cache <= cache' && forall i :: i in cache' ==> i < |sequences|
      ensures old(Interned(cache)) ==> Interned(cache')
    {
      var it := 0;
      while it < |sequences| && !(it in cache && sequences[it] == s)
        invariant it <= |sequences| && forall i: nat :: i < it && i in cache ==> sequences[i] != s
      {
        it := it + 1;
      }
      if it < |sequences| {
        sequence := sequence + [it];
        return cache;
      }
      sequences := sequences + [s];
      cache' := cache + {it};
      sequence := sequence + [it];
    }

    /** Interned rows are equal exactly when they share their index. */
    lemma EqualRowsShareIndex(cache: set<nat>, j: nat, k: nat)
      requires Valid() && Interned(cache) && j < |sequence| && k < |sequence|
      ensures Contents()[j] == Contents()[k] <==> sequence[j] == sequence[k]
    {
    }

    /** `operator[]` */
    method Get(k: nat) returns (row: seq<V>)
      requires Valid() && k < |sequence|
      ensures row == Contents()[k]
    {
      row := sequences[sequence[k]];
    }
  }

  /** `sparse_dedup_vecvec`: sparse over rows that are stored once each. */
  class SparseDedupVecvec<V(==)> {
    const index: SparseIndex
    const data: DedupVecvec<V>
    ghost var contents: seq<seq<V>>

    ghost predicate Valid()
      reads this, index, data
    {
      index.Valid() && data.Valid() &&
      if contents == [] then index.hasBucket == [] else Represents(index.hasBucket, data.Contents(), contents)
    }

    constructor ()
      ensures Valid() && fresh(index) && fresh(data) && contents == [] && data.sequence == []
    {
      index := new SparseIndex();
      data := new DedupVecvec();
      contents := [];
    }

    /** `operator[]` */
    method Get(k: nat) returns (row: seq<V>)
      requires Valid() && k < |contents|
      ensures row == contents[k]
    {
      hide Ones;
      var idx := index.DataIdx(k);
      row := data.Get(idx);
    }

    /** Keys are being added over the given sequences, `top` is the default. */
    ghost predicate Building(sequences: seq<seq<V>>, top: nat)
      reads this, index, data
    {
      && index.Valid() && data.Valid() && data.sequences == sequences
      && data.sequence != [] && data.sequence[0] == top < |sequences|
      && Represents(index.hasBucket, data.Contents(), contents)
    }

    method SetDefault(sequences: seq<seq<V>>, top: nat)
      requires index.Valid() && index.hasBucket == [] && contents == [] && top < |sequences|
      modifies data
      ensures Building(sequences, top) && data.sequence == [top]
    {
      data.sequences := sequences;
      data.sequence := [top];
      OnlyDefault(data.Contents());
    }

    /** One key: nothing but a cleared bit for the default. */
    method Append(sequences: seq<seq<V>>, top: nat, s: nat)
      requires Building(sequences, top) && s < |sequences|
      modifies this, index, data
      ensures Building(sequences, top) && contents == old(contents) + [sequences[s]]
      ensures data.sequence == old(data.sequence) + (if s != top then [s] else [])
    {
      hide Ones, Represents;
      SizeOfRows(index.hasBucket, data.Contents(), contents);
      KeyAppended(index.hasBucket, data.Contents(), contents, s != top, sequences[s]);
      ghost var rows := data.Contents();
      index.AddKey(s != top, |data.sequence|);
      if s != top {
        data.sequence := data.sequence + [s];
        assert data.Contents() == rows + [sequences[s]];
      }
      contents := contents + [sequences[s]];
    }
  }

  function Count(s: seq<nat>, x: nat): nat {
    if s == [] then 0 else Count(s[..|s| - 1], x) + (if s[|s| - 1] == x then 1 else 0)
  }

  /** How often each sequence is used, and the one that is used most. */
  method MostFrequent(sequence: seq<nat>, n: nat) returns (top: nat)
    requires n > 0 && forall k :: 0 <= k < |sequence| ==> sequence[k] < n
    ensures top < n && forall x: nat :: x < n ==> Count(sequence, x) <= Count(sequence, top)
    ensures forall x: nat :: x < top ==> Count(sequence, x) < Count(sequence, top)
  {
    var counts := new nat[n](_ => 0);
    for k := 0 to |sequence|
      invariant forall x :: 0 <= x < n ==> counts[x] == Count(sequence[..k], x)
    {
      assert sequence[..k + 1][..k] == sequence[..k];
      counts[sequence[k]] := counts[sequence[k]] + 1;
    }
    assert sequence[..|sequence|] == sequence;
    top := 0;
    for x := 1 to n
      invariant top < x && forall y :: 0 <= y < x ==> counts[y] <= counts[top]
      invariant forall y :: 0 <= y < top ==> counts[y] < counts[top]
    {
      if counts[x] > counts[top] {
        top := x;
      }
    }
  }

  /** The most frequent sequence is left out, each other one is stored. */
  ghost predicate Thinned(sequence: seq<nat>, stored: seq<nat>) {
    && stored != [] && |stored| == 1 + |sequence| - Count(sequence, stored[0])
    && forall x: nat :: Count(sequence, x) <= Count(sequence, stored[0]) || x !in sequence
  }

  /** `make_sparse_vecvec` for interned rows: the most frequent row becomes the
      default; every lookup gives the row it gave before. */
  method MakeSparseDedup<V(==)>(d: DedupVecvec<V>) returns (v: SparseDedupVecvec<V>)
    requires d.Valid()
    ensures fresh(v) && v.Valid() && v.contents == d.Contents()
    ensures d.sequence != [] ==> Thinned(d.sequence, v.data.sequence)
  {
    hide Ones, Represents;
    v := new SparseDedupVecvec();
    if d.sequence == [] {
      return;
    }
    assert d.sequence[0] < |d.sequences|;
    var top := MostFrequent(d.sequence, |d.sequences|);
    v.SetDefault(d.sequences, top);
    for k := 0 to |d.sequence|
      invariant fresh(v) && fresh(v.index) && fresh(v.data) && v.Building(d.sequences, top)
      invariant v.contents == d.Contents()[..k]
      invariant |v.data.sequence| == 1 + k - Count(d.sequence[..k], top)
    {
      assert d.sequence[..k + 1][..k] == d.sequence[..k];
      v.Append(d.sequences, top, d.sequence[k]);
    }
    assert d.sequence[..|d.sequence|] == d.sequence;
  }

  lemma OnlyDefault<V>(rows: seq<seq<V>>)
    requires |rows| == 1
    ensures Represents([], rows, [])
  {
  }

  lemma SizeOfRows<V>(bits: seq<bool>, rows: seq<seq<V>>, contents: seq<seq<V>>)
    requires Represents(bits, rows, contents)
    ensures |rows| == 1 + Ones(bits)
  {
  }
}
