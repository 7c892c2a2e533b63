/** The binary Merkle tree hash as bmt/bmt_r.go defines it, and the same value
    read off a tree of positions, which is the form the concurrent hasher needs.

    The base hash is an arbitrary function `H`: neither hasher ever looks inside
    a digest, so nothing is assumed about it, not even its length.
 */
module BmtReference {

  newtype Byte = x: int | 0 <= x < 256
  type Bytes = seq<Byte>
  type BaseHash = Bytes -> Bytes

  // ----- the reference hasher -----

  /** The loop `for ; s >= l; s /= 2` of the reference hasher. */
  function Halve(s: nat, l: nat): (r: nat)
    requires s > 0 && l > 1
    ensures 0 < r < l
  {
    if s >= l then Halve(s / 2, l) else s
  }

  /** RefHasher.hash on data `d` with span `s`, for segments of `hs` bytes. */
  function RefHash(H: BaseHash, hs: nat, d: Bytes, s: nat): Bytes
    requires hs > 0 && s > 0
    decreases |d|
  {
    if |d| > 2 * hs then
      var s' := Halve(s, |d|);
      var left := RefHash(H, hs, d[..s'], s');
      var right := if |d| - s' > hs then RefHash(H, hs, d[s'..], s') else d[s'..];
      H(left + right)
    else
      H(d + [])
  }

  /** hs * 2^k. */
  function Scaled(hs: nat, k: nat): (r: nat)
    ensures hs > 0 ==> r > 0
  {
    if k == 0 then hs else 2 * Scaled(hs, k - 1)
  }

  lemma {:induction false} ScaledMonotone(hs: nat, k: nat, m: nat)
    requires k <= m
    ensures Scaled(hs, k) <= Scaled(hs, m)
  {
    if k < m { ScaledMonotone(hs, k, m - 1); }
  }

  /** `c` doubled until it is not below `count`. */
  function Doubled(c: nat, count: nat): (r: nat)
    requires c > 0
    ensures r >= c && r >= count
    decreases count - c
  {
    if c < count then Doubled(2 * c, count) else c
  }

  /** The span of a reference hasher for `count` segments. */
  function RefSpan(hs: nat, count: nat): (r: nat)
    ensures hs > 0 ==> r > 0
  {
    var c := Doubled(2, count);
    (if c > 2 then c / 2 else c) * hs
  }

  function Capped(b: Bytes, cap: nat): Bytes { if |b| < cap then b else b[..cap] }

  /** RefHasher.Hash: data beyond capacity is cut off. */
  function RefHasherHash(H: BaseHash, hs: nat, count: nat, d: Bytes): Bytes
    requires hs > 0
  {
    RefHash(H, hs, Capped(d, count * hs), RefSpan(hs, count))
  }

  /** NewRefHasher's span: the doubling loop stops at the first power of two not
      below `count`, and is halved once unless it is still 2. */
  method NewRefHasherSpan(hs: nat, count: nat) returns (span: nat, ghost k: nat)
    requires hs > 0 && count > 0
    ensures span == RefSpan(hs, count) == Scaled(hs, k) && k >= 1
    ensures count * hs <= Scaled(hs, k + 1)
    ensures k > 1 ==> Scaled(hs, k) < count * hs
    ensures count * hs <= 2 * span && (span > 2 * hs ==> span < count * hs)
  {
    var c := 2;
    k := 1;
    while c < count
      invariant c == Scaled(1, k) && k >= 1 && Doubled(c, count) == Doubled(2, count)
      invariant k > 1 ==> Scaled(1, k - 1) < count
      decreases count - c
    {
      c, k := 2 * c, k + 1;
      assert Scaled(1, k) == 2 * Scaled(1, k - 1);
    }
    ghost var m := k;
    if c > 2 {
      c, k := c / 2, k - 1;
    }
    span := c * hs;
    ScaledLinear(hs, k);
    ScaledLinear(hs, m);
    ScaledMonotone(hs, m, k + 1);
    ScaleUp(count, Scaled(1, m), hs);
    if k > 1 {
      ScaleUp(Scaled(1, k) + 1, count, hs);
      assert (Scaled(1, k) + 1) * hs == Scaled(1, k) * hs + hs;
    }
  }

  lemma ScaleUp(a: nat, b: nat, c: nat)
    requires a <= b
    ensures a * c <= b * c
  {
    assert b * c == a * c + (b - a) * c;
  }

  lemma {:induction false} ScaledLinear(hs: nat, k: nat)
    ensures Scaled(hs, k) == Scaled(1, k) * hs
  {
    if k > 0 { ScaledLinear(hs, k - 1); }
  }

  /** Halving from any large enough power of two stops exactly at the half of the
      smallest subtree that holds `l` bytes. */
  lemma {:induction false} HalveStopsAt(hs: nat, m: nat, h: nat, l: nat)
    requires hs > 0 && h <= m && l > 1
    requires Scaled(hs, h) < l <= Scaled(hs, h + 1)
    ensures Halve(Scaled(hs, m), l) == Scaled(hs, h)
  {
    if h < m {
      ScaledMonotone(hs, h + 1, m);
      HalveStopsAt(hs, m - 1, h, l);
    }
  }

  // ----- sections: the data of one leaf -----

  /** The data cut into pieces of `sec` bytes; only the last may be shorter. */
  function Split(d: Bytes, sec: nat): (r: seq<Bytes>)
    requires sec > 0
    ensures |r| > 0
  {
    if |d| <= sec then [d] else [d[..sec]] + Split(d[sec..], sec)
  }

  function Flatten(ss: seq<Bytes>): Bytes {
    if ss == [] then [] else ss[0] + Flatten(ss[1..])
  }

  lemma {:induction false} SplitLengths(d: Bytes, sec: nat)
    requires sec > 0
    ensures var r := Split(d, sec);
      && (forall i :: 0 <= i < |r| - 1 ==> |r[i]| == sec)
      && |r[|r| - 1]| <= sec
      && (d != [] ==> |r[|r| - 1]| > 0)
  {
    if |d| > sec { SplitLengths(d[sec..], sec); }
  }

  lemma {:induction false} FlattenSplit(d: Bytes, sec: nat)
    requires sec > 0
    ensures Flatten(Split(d, sec)) == d
  {
    if |d| <= sec {
      assert Flatten([d]) == d + Flatten([]);
    } else {
      FlattenSplit(d[sec..], sec);
      assert Split(d, sec)[1..] == Split(d[sec..], sec);
      assert d == d[..sec] + d[sec..];
    }
  }

  lemma {:induction false} SplitCount(d: Bytes, sec: nat, n: nat)
    requires sec > 0 && n > 0 && |d| <= n * sec
    ensures |Split(d, sec)| <= n
  {
    if |d| > sec {
      assert (n - 1) * sec == n * sec - sec;
      if n == 1 { assert false; }
      SplitCount(d[sec..], sec, n - 1);
    }
  }

  lemma {:induction false} FlattenAppend(a: seq<Bytes>, b: seq<Bytes>)
    ensures Flatten(a + b) == Flatten(a) + Flatten(b)
  {
    if a == [] {
      assert a + b == b;
    } else {
      FlattenAppend(a[1..], b);
      assert (a + b)[1..] == a[1..] + b;
    }
  }

  // ----- positions in the tree: height above the leaves and index in the level -----

  datatype Pos = Pos(h: nat, i: nat)

  function Parent(p: Pos): Pos { Pos(p.h + 1, p.i / 2) }
  predicate IsLeft(p: Pos) { p.i % 2 == 0 }
  function Left(q: Pos): Pos requires q.h > 0 { Pos(q.h - 1, 2 * q.i) }
  function Right(q: Pos): Pos requires q.h > 0 { Pos(q.h - 1, 2 * q.i + 1) }

  /** First leaf below `p`, and the leaf after the last one. */
  function Lo(p: Pos): nat
    decreases p.h
  {
    if p.h == 0 then p.i else Lo(Left(p))
  }
  function Hi(p: Pos): nat
    decreases p.h
  {
    if p.h == 0 then p.i + 1 else Hi(Right(p))
  }

  lemma {:induction false} Adjacent(h: nat, i: nat)
    ensures Hi(Pos(h, i)) == Lo(Pos(h, i + 1))
  {
    if h > 0 {
      Adjacent(h - 1, 2 * i + 1);
      assert Right(Pos(h, i)) == Pos(h - 1, 2 * i + 1) && Left(Pos(h, i + 1)) == Pos(h - 1, 2 * i + 2);
    }
  }

  lemma {:induction false} LoBelowHi(p: Pos)
    ensures Lo(p) < Hi(p)
    decreases p.h
  {
    if p.h > 0 {
      LoBelowHi(Left(p));
      Adjacent(p.h - 1, 2 * p.i);
      LoBelowHi(Right(p));
    }
  }

  lemma {:induction false} LoMonotone(h: nat, i: nat, k: nat)
    requires i < k
    ensures Hi(Pos(h, i)) <= Lo(Pos(h, k))
  {
    Adjacent(h, k - 1);
    LoBelowHi(Pos(h, k - 1));
    if i < k - 1 { LoMonotone(h, i, k - 1); }
  }

  /** A node's leaves are its left child's followed by its right child's. */
  lemma Children(q: Pos)
    requires q.h > 0
    ensures Lo(q) == Lo(Left(q)) < Hi(Left(q)) == Lo(Right(q)) < Hi(Right(q)) == Hi(q)
    ensures Parent(Left(q)) == q == Parent(Right(q)) && IsLeft(Left(q)) && !IsLeft(Right(q))
  {
    LoBelowHi(Left(q));
    LoBelowHi(Right(q));
    Adjacent(q.h - 1, 2 * q.i);
  }

  lemma ParentCovers(p: Pos)
    ensures Lo(Parent(p)) <= Lo(p) < Hi(p) <= Hi(Parent(p))
    ensures p == if IsLeft(p) then Left(Parent(p)) else Right(Parent(p))
  {
    Children(Parent(p));
  }

  // ----- the value of a position -----

  /** What travels up the edge above `p` when the sections are `secs`: a lone short
      segment travels raw, a node without a right side hands on what its left
      side holds. */
  function Value(H: BaseHash, hs: nat, secs: seq<Bytes>, p: Pos): Bytes
    requires Lo(p) < |secs|
    decreases p.h
  {
    if p.h == 0 then
      if |secs[p.i]| > hs then H(secs[p.i]) else secs[p.i]
    else if Lo(Right(p)) >= |secs| then
      Value(H, hs, secs, Left(p))
    else
      H(Value(H, hs, secs, Left(p)) + Value(H, hs, secs, Right(p)))
  }

  /** The bytes below a position. */
  function Content(secs: seq<Bytes>, p: Pos): Bytes
    requires Lo(p) < |secs|
    decreases p.h
  {
    if p.h == 0 then secs[p.i]
    else if Lo(Right(p)) >= |secs| then Content(secs, Left(p))
    else Content(secs, Left(p)) + Content(secs, Right(p))
  }

  ghost predicate Sections(hs: nat, secs: seq<Bytes>) {
    && hs > 0
    && |secs| > 0
    && (forall i :: 0 <= i < |secs| - 1 ==> |secs[i]| == 2 * hs)
    && |secs[|secs| - 1]| <= 2 * hs
    && (|secs| > 1 ==> |secs[|secs| - 1]| > 0)
  }

  lemma {:induction false} ContentLength(hs: nat, secs: seq<Bytes>, p: Pos)
    requires Sections(hs, secs) && Lo(p) < |secs|
    ensures |Content(secs, p)| <= Scaled(hs, p.h + 1)
    ensures Hi(p) < |secs| ==> |Content(secs, p)| == Scaled(hs, p.h + 1)
    ensures |secs| > 1 ==> |Content(secs, p)| > 0
    decreases p.h
  {
    if p.h > 0 {
      Children(p);
      ContentLength(hs, secs, Left(p));
      if Lo(Right(p)) < |secs| { ContentLength(hs, secs, Right(p)); }
    } else {
      assert Scaled(hs, 1) == 2 * Scaled(hs, 0);
    }
  }

  lemma FlattenSlices(secs: seq<Bytes>, a: nat, b: nat, e: nat)
    requires a <= b <= e <= |secs|
    ensures Flatten(secs[a..e]) == Flatten(secs[a..b]) + Flatten(secs[b..e])
  {
    FlattenAppend(secs[a..b], secs[b..e]);
    assert secs[a..b] + secs[b..e] == secs[a..e];
  }

  lemma {:induction false} ContentIsFlatten(secs: seq<Bytes>, p: Pos)
    requires Lo(p) < |secs|
    ensures Lo(p) < Hi(p)
    ensures Content(secs, p) == Flatten(secs[Lo(p)..if Hi(p) < |secs| then Hi(p) else |secs|])
    decreases p.h
  {
    if p.h == 0 {
      assert secs[p.i..p.i + 1] == [secs[p.i]];
      assert Flatten([secs[p.i]]) == secs[p.i] + Flatten([]);
    } else {
      Children(p);
      ContentIsFlatten(secs, Left(p));
      if Lo(Right(p)) < |secs| {
        ContentIsFlatten(secs, Right(p));
        FlattenSlices(secs, Lo(Left(p)), Lo(Right(p)), if Hi(p) < |secs| then Hi(p) else |secs|);
      }
    }
  }

  /** Up to one segment travels raw, however high it climbs. */
  lemma {:induction false} ShortTravelsRaw(H: BaseHash, hs: nat, secs: seq<Bytes>, p: Pos)
    requires Sections(hs, secs) && Lo(p) < |secs|
    requires |Content(secs, p)| <= hs
    ensures Value(H, hs, secs, p) == Content(secs, p)
    decreases p.h
  {
    if p.h > 0 {
      Children(p);
      if Lo(Right(p)) < |secs| {
        FullLeft(hs, secs, p);
        assert false;
      }
      ShortTravelsRaw(H, hs, secs, Left(p));
    }
  }

  /** With anything on the right, the left side of a node is full. */
  lemma FullLeft(hs: nat, secs: seq<Bytes>, p: Pos)
    requires Sections(hs, secs) && p.h > 0 && Lo(p) < |secs| && Lo(Right(p)) < |secs|
    ensures |Content(secs, Left(p))| == Scaled(hs, p.h) >= 2 * hs
    ensures Scaled(hs, p.h) < |Content(secs, p)| <= Scaled(hs, p.h + 1)
  {
    Children(p);
    ContentLength(hs, secs, Left(p));
    ContentLength(hs, secs, Right(p));
    ScaledMonotone(hs, 1, p.h);
    assert Scaled(hs, 1) == 2 * Scaled(hs, 0);
  }

  /** The value of a position is the reference hash of the bytes below it. */
  lemma {:induction false} ValueIsRefHash(H: BaseHash, hs: nat, secs: seq<Bytes>, p: Pos, m: nat)
    requires Sections(hs, secs) && Lo(p) < |secs|
    requires |Content(secs, p)| > hs && p.h <= m
    ensures Value(H, hs, secs, p) == RefHash(H, hs, Content(secs, p), Scaled(hs, m))
    decreases p.h
  {
    var x := Content(secs, p);
    if p.h == 0 {
      assert x + [] == x;
      assert |x| <= 2 * hs;
    } else {
      Children(p);
      if Lo(Right(p)) >= |secs| {
        ValueIsRefHash(H, hs, secs, Left(p), m);
      } else {
        FullLeft(hs, secs, p);
        HalveStopsAt(hs, m, p.h, |x|);
        var s := Scaled(hs, p.h);
        var xl, xr := Content(secs, Left(p)), Content(secs, Right(p));
        assert x[..s] == xl && x[s..] == xr;
        ValueIsRefHash(H, hs, secs, Left(p), p.h);
        if |xr| > hs {
          ValueIsRefHash(H, hs, secs, Right(p), p.h);
        } else {
          ShortTravelsRaw(H, hs, secs, Right(p));
        }
      }
    }
  }

  /** With the identity for a base hash the reference hash is the data. */
  lemma {:induction false} IdentityHash(hs: nat, d: Bytes, s: nat)
    requires hs > 0 && s > 0
    ensures RefHash((x: Bytes) => x, hs, d, s) == d
    decreases |d|
  {
    if |d| > 2 * hs {
      var s' := Halve(s, |d|);
      IdentityHash(hs, d[..s'], s');
      if |d| - s' > hs { IdentityHash(hs, d[s'..], s'); }
      assert d == d[..s'] + d[s'..];
    } else {
      assert d + [] == d;
    }
  }
}
