/** The loop that bulkWrite and BatchCheckAll use to cut a slice into spans. */
module Chunking {
  import opened Basics

  newtype int64 = x: int | -TWO_63 <= x < TWO_63

  /** The half-open index range [lo, hi) of one chunk. */
  datatype Span = Span(lo: nat, hi: nat)

  /** A Go slice of tuple keys or batch items holds far fewer than 2^62 elements: each is
      several machine words. */
  const MAX_LEN: int := 0x4000_0000_0000_0000

  /** The spans the loop appends from lo on. */
  ghost function Spans(lo: nat, n: nat, per: nat): seq<Span>
    requires per > 0
    decreases n - lo
  {
    if lo >= n then [] else [Span(lo, Min(lo + per, n))] + Spans(lo + per, n, per)
  }

  /** The chunk loop in 64-bit arithmetic: no sum leaves the type, however large per is. */
  method Chunk(n: int64, per: int64) returns (spans: seq<Span>)
    requires 0 <= n as int <= MAX_LEN && per > 0
    ensures spans == Spans(0, n as nat, per as nat)
  {
    spans := [];
    var lo: int64 := 0;
    while lo < n
      invariant lo == 0 || per <= lo
      invariant 0 <= lo
      invariant spans + Spans(lo as nat, n as nat, per as nat) == Spans(0, n as nat, per as nat)
      decreases n as int - lo as int
    {
      var hi := lo + per;
      if hi > n {
        hi := n;
      }
      spans := spans + [Span(lo as nat, hi as nat)];
      lo := lo + per;
    }
  }

  /** Span i starts at i * per and is full unless it is the last one. */
  lemma {:induction false} SpanAt(lo: nat, n: nat, per: nat, i: nat)
    requires per > 0 && i < |Spans(lo, n, per)|
    ensures Spans(lo, n, per)[i] == Span(lo + i * per, Min(lo + (i + 1) * per, n))
    ensures lo + i * per < n
    decreases i
  {
    if i > 0 {
      SpanAt(lo + per, n, per, i - 1);
      assert lo + per + (i - 1) * per == lo + i * per;
      assert lo + per + i * per == lo + (i + 1) * per;
    }
  }

  /** There are ceil(n / per) spans: the smallest count whose full chunks cover n. */
  lemma {:induction false} SpanCount(lo: nat, n: nat, per: nat)
    requires per > 0
    ensures var c := |Spans(lo, n, per)|;
      lo + c * per >= n && (c > 0 ==> lo + (c - 1) * per < n)
    decreases n - lo
  {
    if lo < n {
      SpanCount(lo + per, n, per);
      var c := |Spans(lo, n, per)|;
      assert lo + per + (c - 1) * per == lo + c * per;
      if c > 1 {
        assert lo + per + (c - 2) * per == lo + (c - 1) * per;
      }
    }
  }

  lemma SpanOf(n: nat, per: nat, j: nat, i: nat)
    requires per > 0 && j < n && i < |Spans(0, n, per)|
    ensures var s := Spans(0, n, per)[i]; s.lo <= j < s.hi <==> i == j / per
  {
    SpanAt(0, n, per, i);
    Quotient(j, per, i);
  }

  lemma LastSpan(n: nat, per: nat, j: nat)
    requires per > 0 && j < n
    ensures j / per < |Spans(0, n, per)|
  {
    hide Spans;
    var c := |Spans(0, n, per)|;
    SpanCount(0, n, per);
    Quotient(j, per, j / per);
    if c <= j / per {
      Times(c, j / per, per);
    }
  }

  /** The spans partition [0, n): index j lies in span j / per and in no other. */
  lemma SpansPartition(n: nat, per: nat, j: nat)
    requires per > 0 && j < n
    ensures j / per < |Spans(0, n, per)|
    ensures forall i :: 0 <= i < |Spans(0, n, per)| ==>
      (Spans(0, n, per)[i].lo <= j < Spans(0, n, per)[i].hi <==> i == j / per)
  {
    LastSpan(n, per, j);
    forall i | 0 <= i < |Spans(0, n, per)|
      ensures Spans(0, n, per)[i].lo <= j < Spans(0, n, per)[i].hi <==> i == j / per
    {
      SpanOf(n, per, j, i);
    }
  }

  /** keys[lo:hi] for each of the first k spans, one after the other. */
  ghost function Bodies<T>(keys: seq<T>, spans: seq<Span>, k: nat): seq<T>
    requires k <= |spans|
    requires forall i :: 0 <= i < |spans| ==> spans[i].lo <= spans[i].hi <= |keys|
  {
    if k == 0 then [] else Bodies(keys, spans, k - 1) + keys[spans[k - 1].lo..spans[k - 1].hi]
  }

  lemma SpansInBounds(n: nat, per: nat)
    requires per > 0
    ensures forall i :: 0 <= i < |Spans(0, n, per)| ==> Spans(0, n, per)[i].lo < Spans(0, n, per)[i].hi <= n
  {
    forall i | 0 <= i < |Spans(0, n, per)|
      ensures Spans(0, n, per)[i].lo < Spans(0, n, per)[i].hi <= n
    {
      SpanAt(0, n, per, i);
      assert (i + 1) * per == i * per + per;
    }
  }

  lemma Glue<T>(keys: seq<T>, lo: nat, hi: nat)
    requires lo <= hi <= |keys|
    ensures keys[..lo] + keys[lo..hi] == keys[..hi]
  {
  }

  /** The first k chunk bodies, concatenated, are a prefix of the input: no element is sent twice
      or out of order, and all chunks together carry the whole input. */
  lemma {:induction false} BodiesArePrefix<T>(keys: seq<T>, per: nat, k: nat)
    requires per > 0 && k <= |Spans(0, |keys|, per)|
    ensures var s := Spans(0, |keys|, per);
      && (forall i :: 0 <= i < |s| ==> s[i].lo <= s[i].hi <= |keys|)
      && Bodies(keys, s, k) == keys[..Min(k * per, |keys|)]
      && (k == |s| ==> Bodies(keys, s, k) == keys)
  {
    hide Spans;
    var s := Spans(0, |keys|, per);
    SpansInBounds(|keys|, per);
    SpanCount(0, |keys|, per);
    if k > 0 {
      BodiesArePrefix(keys, per, k - 1);
      SpanAt(0, |keys|, per, k - 1);
      Glue(keys, s[k - 1].lo, s[k - 1].hi);
    }
  }
}
