/** The slicing of the domains that need a remote lookup into consecutive
    batches of at most three, `uncachedDomains.slice(i, i + batchSize)` for
    i = 0, 3, 6, ... */
module Batching {
  import opened Sequences

  const BatchSize: nat := 3

  function Batches<T>(s: seq<T>, size: nat): (r: seq<seq<T>>)
    requires size > 0
    ensures r == [] <==> s == []
    decreases |s|
  {
    if s == [] then []
    else if |s| <= size then [s]
    else [s[..size]] + Batches(s[size..], size)
  }

  function Flatten<T>(bs: seq<seq<T>>): seq<T>
  {
    if bs == [] then [] else bs[0] + Flatten(bs[1..])
  }

  /** The first batch is the first `size` elements (or all of them), and the
      others are the batches of the rest. */
  lemma BatchesUnfold<T>(s: seq<T>, size: nat)
    requires size > 0 && s != []
    ensures Batches(s, size) == [s[..Min(size, |s|)]] + Batches(s[Min(size, |s|)..], size)
  {
    if |s| <= size {
      assert s[..|s|] == s;
      assert s[|s|..] == [];
    }
  }

  /** The batches cover the input exactly and in order. */
  lemma {:induction false} BatchesCover<T>(s: seq<T>, size: nat)
    requires size > 0
    ensures Flatten(Batches(s, size)) == s
    decreases |s|
  {
    if s != [] && |s| > size {
      BatchesCover(s[size..], size);
      var bs := Batches(s, size);
      assert bs[1..] == Batches(s[size..], size);
      assert s == s[..size] + s[size..];
    } else if s != [] {
      assert Batches(s, size)[1..] == [];
    }
  }

  /** Every batch holds between one and `size` elements, and every batch but
      the last holds exactly `size`. */
  lemma {:induction false} BatchesBounded<T>(s: seq<T>, size: nat)
    requires size > 0
    ensures forall j :: 0 <= j < |Batches(s, size)| ==> 0 < |Batches(s, size)[j]| <= size
    ensures forall j :: 0 <= j < |Batches(s, size)| - 1 ==> |Batches(s, size)[j]| == size
    decreases |s|
  {
    if s != [] && |s| > size {
      BatchesBounded(s[size..], size);
      var bs := Batches(s, size);
      assert forall j :: 1 <= j < |bs| ==> bs[j] == Batches(s[size..], size)[j - 1];
    }
  }

  /** The number of batches is the length divided by `size`, rounded up. */
  lemma {:induction false} BatchCount<T>(s: seq<T>, size: nat)
    requires size > 0
    ensures |s| <= size * |Batches(s, size)| < |s| + size
    decreases |s|
  {
    if s != [] && |s| > size {
      BatchCount(s[size..], size);
      var m := |Batches(s[size..], size)|;
      assert |Batches(s, size)| == m + 1;
      assert size * (m + 1) == size * m + size;
    }
  }

  /** Ten domains are fetched in four batches of sizes 3, 3, 3 and 1. */
  lemma TenInFourBatches<T>(s: seq<T>)
    requires |s| == 10
    ensures |Batches(s, BatchSize)| == 4
    ensures |Batches(s, BatchSize)[0]| == 3 && |Batches(s, BatchSize)[1]| == 3
    ensures |Batches(s, BatchSize)[2]| == 3 && |Batches(s, BatchSize)[3]| == 1
  {
    BatchCount(s, BatchSize);
    BatchesBounded(s, BatchSize);
    BatchesCover(s, BatchSize);
    var bs := Batches(s, BatchSize);
    assert bs == [s[..3]] + Batches(s[3..], 3);
    assert Batches(s[3..], 3) == [s[3..][..3]] + Batches(s[3..][3..], 3);
    assert Batches(s[3..][3..], 3) == [s[3..][3..][..3]] + Batches(s[3..][3..][3..], 3);
    assert Batches(s[3..][3..][3..], 3) == [s[3..][3..][3..]];
  }
}
