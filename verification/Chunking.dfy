/** How a byte stream is cut into chunks: the greedy reference definition, and the arithmetic of the k-th chunk. */
module Chunking {
  import opened Common

  /** Greedy chunking: take as much as fits, until nothing is left. */
  function Chunks(s: seq<Byte>, c: nat): (cs: seq<seq<Byte>>)
    requires c > 0
    decreases |s|
  {
    if s == [] then [] else
    var n := Min(c, |s|);
    [s[..n]] + Chunks(s[n..], c)
  }

  function Flatten(cs: seq<seq<Byte>>): seq<Byte> {
    if cs == [] then [] else cs[0] + Flatten(cs[1..])
  }

  /** Bytes k*c up to, not including, min((k+1)*c, |s|). */
  function Tile(s: seq<Byte>, c: nat, k: nat): seq<Byte> {
    s[Min(k * c, |s|)..Min((k + 1) * c, |s|)]
  }

  /** cs is exactly the tiling of s, and it reaches the end of s. */
  predicate Tiling(cs: seq<seq<Byte>>, s: seq<Byte>, c: nat) {
    && (forall k :: 0 <= k < |cs| ==> k * c < |s| && cs[k] == Tile(s, c, k))
    && |s| <= |cs| * c
  }

  lemma TileShift(s: seq<Byte>, c: nat, k: nat)
    requires 0 < k && c <= |s|
    ensures Tile(s, c, k) == Tile(s[c..], c, k - 1)
  {
    assert k * c == (k - 1) * c + c;
    assert (k + 1) * c == k * c + c;
  }

  lemma TileZero(s: seq<Byte>, c: nat)
    ensures Tile(s, c, 0) == s[..Min(c, |s|)]
  {
  }

  lemma DivUnique(a: nat, c: nat, q: nat)
    requires c > 0
    requires q * c <= a < q * c + c
    ensures a / c == q
  {
    var d := a / c;
    assert a == d * c + a % c;
    if d > q {
      MulLe(q + 1, d, c);
    } else if d < q {
      MulLe(d + 1, q, c);
    }
  }

  lemma MulLe(a: int, b: int, c: int)
    requires a <= b && 0 <= c
    ensures a * c <= b * c
  {
  }

  lemma {:induction false} ChunkIsTile(s: seq<Byte>, c: nat, k: nat)
    requires c > 0 && k < |Chunks(s, c)|
    ensures k * c < |s| && Chunks(s, c)[k] == Tile(s, c, k)
    decreases |s|
  {
    if k == 0 {
      TileZero(s, c);
    } else {
      var rest := s[Min(c, |s|)..];
      ChunkIsTile(rest, c, k - 1);
      assert k * c == (k - 1) * c + c;
      TileShift(s, c, k);
    }
  }

  lemma {:induction false} ChunkCount(s: seq<Byte>, c: nat)
    requires c > 0
    ensures |Chunks(s, c)| == (|s| + c - 1) / c
    ensures |s| <= |Chunks(s, c)| * c
    decreases |s|
  {
    if s == [] {
      DivUnique(c - 1, c, 0);
    } else {
      var rest := s[Min(c, |s|)..];
      ChunkCount(rest, c);
      var q := |Chunks(rest, c)|;
      assert (q + 1) * c == q * c + c;
      if |s| >= c {
        CeilStep(|rest|, c);
      } else {
        assert rest == [];
        DivUnique(|s| + c - 1, c, 1);
      }
    }
  }

  lemma CeilStep(n: nat, c: nat)
    requires c > 0
    ensures (n + c + c - 1) / c == (n + c - 1) / c + 1
  {
    var q := (n + c - 1) / c;
    assert q * c <= n + c - 1 < q * c + c;
    assert (q + 1) * c == q * c + c;
    DivUnique(n + c + c - 1, c, q + 1);
  }

  /** Chunk k starts at byte k*c and stops at min((k+1)*c, |s|), and there are ceil(|s| / c) of them. */
  lemma ChunksTile(s: seq<Byte>, c: nat)
    requires c > 0
    ensures Tiling(Chunks(s, c), s, c)
    ensures |Chunks(s, c)| == (|s| + c - 1) / c
  {
    ChunkCount(s, c);
    forall k | 0 <= k < |Chunks(s, c)|
      ensures k * c < |s| && Chunks(s, c)[k] == Tile(s, c, k)
    {
      ChunkIsTile(s, c, k);
    }
  }

  lemma LessByFactor(a: nat, b: nat, c: nat)
    requires a * c < b * c
    ensures a < b
  {
    if b <= a {
      MulLe(b, a, c);
    }
  }

  lemma TilingLength(cs: seq<seq<Byte>>, ds: seq<seq<Byte>>, s: seq<Byte>, c: nat)
    requires Tiling(cs, s, c) && Tiling(ds, s, c)
    ensures |ds| <= |cs|
  {
    if |ds| > 0 {
      assert ds[|ds| - 1] == Tile(s, c, |ds| - 1);
      LessByFactor(|ds| - 1, |cs|, c);
    }
  }

  /** The greedy chunks are the only tiling. */
  lemma TilingIsChunks(cs: seq<seq<Byte>>, s: seq<Byte>, c: nat)
    requires c > 0
    requires Tiling(cs, s, c)
    ensures cs == Chunks(s, c)
  {
    var ds := Chunks(s, c);
    ChunksTile(s, c);
    TilingLength(cs, ds, s, c);
    TilingLength(ds, cs, s, c);
    forall k | 0 <= k < |cs|
      ensures cs[k] == ds[k]
    {
      assert cs[k] == Tile(s, c, k) == ds[k];
    }
  }

  /** Putting the chunks back together gives the stream. */
  lemma {:induction false} FlattenChunks(s: seq<Byte>, c: nat)
    requires c > 0
    ensures Flatten(Chunks(s, c)) == s
    decreases |s|
  {
    if s != [] {
      var n := Min(c, |s|);
      assert s == s[..n] + s[n..];
      FlattenChunks(s[n..], c);
    }
  }

  lemma {:induction false} FlattenSnoc(cs: seq<seq<Byte>>, last: seq<Byte>)
    ensures Flatten(cs + [last]) == Flatten(cs) + last
  {
    if cs == [] {
      assert cs + [last] == [last];
    } else {
      assert (cs + [last])[1..] == cs[1..] + [last];
      FlattenSnoc(cs[1..], last);
    }
  }
}
