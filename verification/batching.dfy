/**
  Pure definitions for cutting a list into delete batches: the chunks of a
  sequence, the concatenation of a sequence of sequences, and ceiling
  division, with the facts that relate them.
 */
module Batching {

  function Min(a: nat, b: nat): nat {
    if a <= b then a else b
  }

  /** Ceiling of a / b. */
  function CeilDiv(a: nat, b: nat): nat
    requires 0 < b
  {
    (a + b - 1) / b
  }

  /** The concatenation of a sequence of sequences, in order. */
  function Flatten<T>(ss: seq<seq<T>>): seq<T>
    decreases |ss|
  {
    if |ss| == 0 then [] else ss[0] + Flatten(ss[1..])
  }

  /** Cuts s, front to back, into consecutive pieces of `size` elements;
      only the final piece may be shorter. */
  function Chunks<T>(s: seq<T>, size: nat): seq<seq<T>>
    requires 0 < size
    decreases |s|
  {
    if |s| == 0 then []
    else
      var n := Min(size, |s|);
      [s[..n]] + Chunks(s[n..], size)
  }

  /** The chunks of a suffix s[i..]: the next piece, then the chunks of what follows it. */
  lemma ChunksFrom<T>(s: seq<T>, i: nat, size: nat)
    requires 0 < size && i < |s|
    ensures Chunks(s[i..], size)
            == [s[i..i + Min(size, |s| - i)]] + Chunks(s[i + Min(size, |s| - i)..], size)
  {
    var t := s[i..];
    var n := Min(size, |t|);
    assert t[..n] == s[i..i + n];
    assert t[n..] == s[i + n..];
  }

  /** Taking the next piece off the chunks still to go keeps `done + rest`
      equal to the chunks of the whole sequence. */
  lemma ChunksAdvance<T>(s: seq<T>, i: nat, size: nat, done: seq<seq<T>>, all: seq<seq<T>>)
    requires 0 < size && i < |s|
    requires all == done + Chunks(s[i..], size)
    ensures all == (done + [s[i..i + Min(size, |s| - i)]]) + Chunks(s[i + Min(size, |s| - i)..], size)
  {
    ChunksFrom(s, i, size);
  }

  lemma {:induction false} FlattenAppend<T>(ss: seq<seq<T>>, t: seq<T>)
    ensures Flatten(ss + [t]) == Flatten(ss) + t
    decreases |ss|
  {
    if |ss| == 0 {
      assert ss + [t] == [t];
      assert Flatten([t]) == t + Flatten([]);
    } else {
      assert (ss + [t])[1..] == ss[1..] + [t];
      FlattenAppend(ss[1..], t);
    }
  }

  /** Putting the chunks back together gives the original sequence:
      nothing is dropped, duplicated or reordered. */
  lemma {:induction false} ChunksFlatten<T>(s: seq<T>, size: nat)
    requires 0 < size
    ensures Flatten(Chunks(s, size)) == s
    decreases |s|
  {
    if |s| != 0 {
      var n := Min(size, |s|);
      var cs := Chunks(s, size);
      assert cs[1..] == Chunks(s[n..], size);
      ChunksFlatten(s[n..], size);
      assert s == s[..n] + s[n..];
    }
  }

  /** Every chunk is non-empty and holds at most `size` elements; every chunk
      but the last holds exactly `size`. */
  lemma {:induction false} ChunkSizes<T>(s: seq<T>, size: nat)
    requires 0 < size
    ensures forall k :: 0 <= k < |Chunks(s, size)| ==> 0 < |Chunks(s, size)[k]| <= size
    ensures forall k :: 0 <= k < |Chunks(s, size)| - 1 ==> |Chunks(s, size)[k]| == size
    decreases |s|
  {
    if |s| != 0 {
      var n := Min(size, |s|);
      var cs := Chunks(s, size);
      var rest := Chunks(s[n..], size);
      assert cs == [s[..n]] + rest;
      ChunkSizes(s[n..], size);
      if n < size {
        assert |s[n..]| == 0;
        assert |rest| == 0;
      }
      forall k | 0 <= k < |cs|
        ensures 0 < |cs[k]| <= size
      {
        if k > 0 {
          assert cs[k] == rest[k - 1];
        }
      }
      forall k | 0 <= k < |cs| - 1
        ensures |cs[k]| == size
      {
        if k > 0 {
          assert cs[k] == rest[k - 1];
        }
      }
    }
  }

  lemma {:induction false} MulAtLeast(b: nat, d: nat)
    requires 1 <= d
    ensures b * d >= b
    decreases d
  {
    if d > 1 {
      MulAtLeast(b, d - 1);
      assert b * d == b * (d - 1) + b;
    }
  }

  /** Division by b has a unique quotient. */
  lemma DivUnique(x: nat, b: nat, q: nat, r: nat)
    requires 0 <= r < b
    requires x == b * q + r
    ensures x / b == q
  {
    var q' := x / b;
    var r' := x % b;
    assert x == b * q' + r';
    if q' < q {
      var d := q - q';
      assert b * q == b * q' + b * d;
      MulAtLeast(b, d);
    } else if q' > q {
      var d := q' - q;
      assert b * q' == b * q + b * d;
      MulAtLeast(b, d);
    }
  }

  lemma CeilDivStep(a: nat, b: nat)
    requires 0 < b
    ensures CeilDiv(a + b, b) == CeilDiv(a, b) + 1
  {
    var x := a + b - 1;
    var q := x / b;
    var r := x % b;
    assert x == b * q + r;
    assert x + b == b * (q + 1) + r;
    DivUnique(x + b, b, q + 1, r);
  }

  /** The number of chunks is the ceiling of |s| / size, zero for an empty s. */
  lemma {:induction false} ChunkCount<T>(s: seq<T>, size: nat)
    requires 0 < size
    ensures |Chunks(s, size)| == CeilDiv(|s|, size)
    decreases |s|
  {
    if |s| != 0 {
      var n := Min(size, |s|);
      ChunkCount(s[n..], size);
      if n == size {
        CeilDivStep(|s| - size, size);
      } else {
        DivUnique(|s| + size - 1, size, 1, |s| - 1);
      }
    }
  }
}
