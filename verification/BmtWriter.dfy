/** The sequential methods around the concurrent hasher: tree construction and the
    loop of Write that cuts a chunk into sections.
 */
module BmtWriter {
  import opened BmtReference
  import opened BmtHasher
  import opened BmtTheorem

  lemma {:induction false} HiIsPower(depth: nat)
    ensures Hi(Pos(depth, 0)) == Scaled(1, depth)
  {
    WidthOfLevel(depth, 0);
  }

  /** Pos(h, i) starts i * 2^h leaves in. */
  lemma {:induction false} WidthOfLevel(h: nat, i: nat)
    ensures Lo(Pos(h, i)) == i * Scaled(1, h) && Hi(Pos(h, i)) == (i + 1) * Scaled(1, h)
  {
    if h > 0 {
      WidthOfLevel(h - 1, 2 * i);
      WidthOfLevel(h - 1, 2 * i + 1);
      var w := Scaled(1, h - 1);
      assert (2 * i) * w == i * (2 * w) && (2 * i + 2) * w == (i + 1) * (2 * w);
    }
  }

  /** depth: just high enough that the leaves hold `n` segments, two each. */
  method Depth(n: nat) returns (d: nat)
    requires n > 0
    ensures n <= 2 * Hi(Pos(d, 0))
    ensures d > 0 ==> 2 * Hi(Pos(d - 1, 0)) < n
  {
    d := 0;
    var l := (n - 1) / 2;
    ghost var l0 := l;
    ghost var w := 1;
    while l > 0
      invariant w == Scaled(1, d) && l * w <= l0 < (l + 1) * w
      invariant d > 0 ==> Scaled(1, d - 1) <= l0
    {
      HalvingBounds(l, w);
      l, d, w := l / 2, d + 1, 2 * w;
    }
    HiIsPower(d);
    if d > 0 { HiIsPower(d - 1); }
  }

  lemma HalvingBounds(l: nat, w: nat)
    requires l > 0
    ensures l / 2 * (2 * w) <= l * w && (l + 1) * w <= (l / 2 + 1) * (2 * w)
    ensures w <= l * w
  {
    ScaleUp(2 * (l / 2), l, w);
    ScaleUp(l + 1, 2 * (l / 2 + 1), w);
    ScaleUp(1, l, w);
    assert l / 2 * (2 * w) == (2 * (l / 2)) * w && (l / 2 + 1) * (2 * w) == (2 * (l / 2 + 1)) * w;
  }

  const FRESH := Node([], [], 0, false, false)

  /** NewTree: level by level from the root, node i of a level under node i/2 of
      the one above. */
  method NewTree(depth: nat) returns (nodes: Tree)
    ensures forall uses: nat :: 2 * uses <= MAX_INT32 + 1 ==> Clean(depth, nodes, uses)
  {
    nodes := map[Pos(depth, 0) := FRESH.(root := true)];
    var count := 1;
    for d := 1 to depth + 1
      invariant count == Scaled(1, d - 1)
      invariant forall p :: p in nodes <==> p.h <= depth && depth - p.h < d && p.i < Scaled(1, depth - p.h)
      invariant forall p :: p in nodes ==> nodes[p] == FRESH.(root := p == Pos(depth, 0))
    {
      count := 2 * count;
      for i := 0 to count
        invariant forall p :: p in nodes <==>
                    p.h <= depth && ((depth - p.h < d && p.i < Scaled(1, depth - p.h)) || (depth - p.h == d && p.i < i))
        invariant forall p :: p in nodes ==> nodes[p] == FRESH.(root := p == Pos(depth, 0))
      {
        nodes := nodes[Pos(depth - d, i) := FRESH];
      }
    }
    forall p ensures p in nodes <==> InTree(depth, p) {
      if p.h <= depth { LevelWidth(depth, p); }
    }
  }

  lemma LevelWidth(depth: nat, p: Pos)
    requires p.h <= depth
    ensures InTree(depth, p) <==> p.i < Scaled(1, depth - p.h)
  {
    WidthOfLevel(p.h, p.i);
    HiIsPower(depth);
    ScaledAdds(depth - p.h, p.h);
    var w, m := Scaled(1, p.h), Scaled(1, depth - p.h);
    if p.i < m { ScaleUp(p.i + 1, m, w); assert (p.i + 1) * w == p.i * w + w; } else { ScaleUp(m, p.i, w); }
  }

  lemma {:induction false} ScaledAdds(a: nat, b: nat)
    ensures Scaled(1, a + b) == Scaled(1, a) * Scaled(1, b)
  {
    if a > 0 {
      ScaledAdds(a - 1, b);
      assert 2 * (Scaled(1, a - 1) * Scaled(1, b)) == (2 * Scaled(1, a - 1)) * Scaled(1, b);
    }
  }

  lemma SplitParts(d: Bytes, launched: seq<Bytes>, segment: Bytes, sec: nat)
    requires sec > 0 && Split(d, sec) == launched + [segment]
    ensures |d| <= sec ==> launched == [] && segment == d
    ensures |d| > sec ==>
      launched != [] && launched[0] == d[..sec] && Split(d[sec..], sec) == launched[1..] + [segment]
  {
    var r := launched + [segment];
    if |d| <= sec {
      assert r == [d] && r[0] == d;
    } else {
      assert r[0] == d[..sec] && r[1..] == Split(d[sec..], sec) == launched[1..] + [segment];
    }
  }

  /** Bytes appended to the open section. */
  lemma {:induction false} SplitOpen(d: Bytes, y: Bytes, launched: seq<Bytes>, segment: Bytes, sec: nat)
    requires sec > 0 && Split(d, sec) == launched + [segment] && |segment| + |y| <= sec
    ensures Split(d + y, sec) == launched + [segment + y]
  {
    SplitParts(d, launched, segment, sec);
    if |d| > sec {
      SplitOpen(d[sec..], y, launched[1..], segment, sec);
      assert (d + y)[..sec] == d[..sec] && (d + y)[sec..] == d[sec..] + y;
    }
  }

  /** A new section behind a full one. */
  lemma {:induction false} SplitNext(d: Bytes, y: Bytes, launched: seq<Bytes>, segment: Bytes, sec: nat)
    requires sec > 0 && Split(d, sec) == launched + [segment] && |segment| == sec && 0 < |y| <= sec
    ensures Split(d + y, sec) == launched + [segment] + [y]
  {
    SplitParts(d, launched, segment, sec);
    if |d| <= sec {
      assert (d + y)[..sec] == d && (d + y)[sec..] == y;
    } else {
      SplitNext(d[sec..], y, launched[1..], segment, sec);
      assert (d + y)[..sec] == d[..sec] && (d + y)[sec..] == d[sec..] + y;
    }
  }

  lemma {:induction false} SplitSizes(d: Bytes, launched: seq<Bytes>, segment: Bytes, sec: nat)
    requires sec > 0 && Split(d, sec) == launched + [segment]
    ensures |d| == |launched| * sec + |segment| && |segment| <= sec && (d == [] <==> segment == [])
  {
    SplitParts(d, launched, segment, sec);
    if |d| > sec {
      SplitSizes(d[sec..], launched[1..], segment, sec);
      assert |launched| * sec == (|launched| - 1) * sec + sec;
    }
  }

  /** The room left from leaf `cur` on, in segments. */
  lemma RoomLeft(hs: nat, count: nat, cur: nat)
    requires cur < (count + 1) / 2
    ensures cur * (2 * hs) + (count - 2 * cur) * hs == count * hs
    ensures count - 2 * cur > 2 ==> (count - 2 * cur) * hs >= 3 * hs
    ensures count - 2 * cur == 2 ==> (count - 2 * cur) * hs == 2 * hs
    ensures count - 2 * cur == 1 ==> (count - 2 * cur) * hs == hs
  {
    assert cur * (2 * hs) == (2 * cur) * hs;
    assert (2 * cur) * hs + (count - 2 * cur) * hs == count * hs;
    if count - 2 * cur > 2 { ScaleUp(3, count - 2 * cur, hs); }
  }

  lemma RoomInAll(hs: nat, count: nat)
    ensures (count + 1) / 2 * (2 * hs) == count * hs + (if count % 2 == 0 then 0 else hs)
  {
    var leaves := (count + 1) / 2;
    assert leaves * (2 * hs) == (2 * leaves) * hs;
    if count % 2 == 1 { assert (2 * leaves) * hs == (count + 1) * hs == count * hs + hs; }
  }

  lemma RoomCases(hs: nat, count: nat, cur: nat, cap: nat, start: nat, left: nat)
    requires hs > 0 && cur < (count + 1) / 2 && start + left == cap
    requires if count - 2 * cur > 2 then left >= 3 * hs else if count - 2 * cur == 2 then left == 2 * hs else left == hs
    ensures cap == start + hs || cap == start + 2 * hs || cap >= start + 3 * hs
    ensures cap == start + hs <==> 2 * cur + 1 == count
    ensures cap == start + 2 * hs ==> count % 2 == 0
    ensures cur == (count + 1) / 2 - 1 <==> cap - start <= if count % 2 == 0 then 2 * hs else hs
  {
  }

  lemma LeafEnd(cur: nat, leaves: nat, len: nat, sec: nat)
    requires cur < leaves && len <= sec
    ensures cur * sec + len <= leaves * sec
    ensures cur + 1 == leaves && len == sec ==> cur * sec + len == leaves * sec
  {
    ScaleUp(cur + 1, leaves, sec);
    assert (cur + 1) * sec == cur * sec + sec;
  }

  /** The amounts of a write: how much it needs of `l` bytes, how much of that completes
      the open section, and where it ends against where capacity ends. */
  lemma Amounts(cap: nat, hs: nat, even: bool, base: nat, seg: nat, l: nat, last: bool, atLast: bool, need: int, size: nat, rest: int)
    requires hs > 0 && l > 0 && seg <= 2 * hs && (seg == 0 ==> base == 0)
    requires cap == base + hs || cap == base + 2 * hs || cap >= base + 3 * hs
    requires (cap == base + hs <==> last) && (cap == base + 2 * hs ==> even)
    requires atLast <==> cap - base <= if even then 2 * hs else hs
    requires last ==> !even
    requires size == if cap - base > hs then 2 * hs else hs
    requires need == if l < cap - base then l else cap - base
    requires rest == if need < size - seg then need else size - seg
    ensures rest < 0 <==> base + seg > cap
    ensures rest >= 0 ==> rest <= need <= l && seg + rest <= 2 * hs && (need > rest && !atLast ==> size == 2 * hs == seg + rest)
    ensures rest >= 0 ==>
      var room, end := if even then cap else cap + hs, base + seg + need;
      CutRight(cap, hs, base + seg, l, if atLast then base + seg + rest else if end < room then end else room, even || seg == 0 || last)
  {
  }

  /** Capped at capacity if the write fits or `exact`, and else beyond it by up to a segment. */
  predicate CutRight(cap: nat, hs: nat, was: nat, l: nat, end: nat, exact: bool) {
    && (exact || was + l <= cap ==> end == if was + l < cap then was + l else cap)
    && (!exact && was + l > cap ==> cap < end <= cap + hs)
    && (was == cap ==> end == cap)
  }

  lemma CutSame(was: Bytes, b: Bytes, now: Bytes, cap: nat)
    requires |was| <= |now| <= |was| + |b| && now == was + b[..|now| - |was|]
    ensures now == Capped(was + b, cap) <==> |now| == if |was| + |b| < cap then |was| + |b| else cap
    ensures was <= now <= was + b
    ensures |now| == |was| ==> now == was
  {
    assert now == (was + b)[..|now|];
  }

  lemma CutMeans(cap: nat, hs: nat, was: Bytes, b: Bytes, now: Bytes, exact: bool)
    requires |was| <= |now| <= |was| + |b| && now == was + b[..|now| - |was|] && hs > 0
    requires CutRight(cap, hs, |was|, |b|, |now|, exact) && |was| <= cap
    ensures was <= now <= was + b
    ensures now == Capped(was + b, cap) <==> |was| + |b| <= cap || exact
    ensures now != Capped(was + b, cap) ==> cap < |now| <= cap + hs
    ensures |was| == cap ==> now == was
  {
    CutSame(was, b, now, cap);
  }

  /** The hasher between Reset and Sum: `launched` are the sections handed to goroutines,
      `segment` is the open one and `cur` its leaf. `data` is all that has been taken in. */
  class Hasher {
    const hs: nat
    const count: nat
    var segment: Bytes
    var cur: nat
    var launched: seq<Bytes>
    ghost var data: Bytes

    ghost predicate Valid()
      reads this
    {
      && hs > 0 && count > 0
      && launched + [segment] == Split(data, 2 * hs)
      && cur == |launched| < (count + 1) / 2
    }

    /** Bytes the hasher is for. */
    function Capacity(): nat { count * hs }

    /** Bytes before the open section. */
    function Start(): nat
      reads this`cur
    {
      cur * (2 * hs)
    }

    /** Bytes that all leaves could hold. */
    function Room(): nat { (count + 1) / 2 * (2 * hs) }

    /** Whether the open section is the last leaf's. */
    predicate AtLastLeaf()
      reads this`cur
    {
      cur == (count + 1) / 2 - 1
    }

    constructor (hs: nat, count: nat)
      requires hs > 0 && count > 0
      ensures Valid() && data == [] && this.hs == hs && this.count == count
    {
      this.hs, this.count := hs, count;
      segment, cur, launched, data := [], 0, [], [];
    }

    lemma Sizes()
      requires Valid()
      ensures hs > 0 && |data| == Start() + |segment| && |segment| <= 2 * hs && (segment == [] <==> data == [])
      ensures data == [] ==> Start() == 0
      ensures Capacity() == Start() + hs || Capacity() == Start() + 2 * hs || Capacity() >= Start() + 3 * hs
      ensures Capacity() == Start() + hs <==> 2 * cur + 1 == count
      ensures Capacity() == Start() + 2 * hs ==> count % 2 == 0
      ensures Room() == Capacity() + (if count % 2 == 0 then 0 else hs)
      ensures AtLastLeaf() <==> Capacity() - Start() <= (if count % 2 == 0 then 2 * hs else hs)
    {
      SplitSizes(data, launched, segment, 2 * hs);
      if data == [] { SplitParts(data, launched, segment, 2 * hs); }
      RoomLeft(hs, count, cur);
      RoomInAll(hs, count);
      RoomCases(hs, count, cur, count * hs, cur * (2 * hs), (count - 2 * cur) * hs);
    }

    lemma DataFits()
      requires Valid()
      ensures |data| <= 2 * ((count + 1) / 2) * hs
    {
      SplitSizes(data, launched, segment, 2 * hs);
      LeafEnd(cur, (count + 1) / 2, |segment|, 2 * hs);
      assert (count + 1) / 2 * (2 * hs) == 2 * ((count + 1) / 2) * hs;
    }

    /** The end of Write: the open section is filled up, then a goroutine is launched for
        each finished section, as long as bytes and leaves last. */
    method Fill(b: Bytes, first: nat, left: nat, full: nat)
      requires Valid() && first + left <= |b| && |segment| + first <= 2 * hs
      requires left > 0 && !AtLastLeaf() ==> full == 2 * hs == |segment| + first
      modifies this
      ensures Valid() && |old(data)| <= |data| <= |old(data)| + |b| && data == old(data) + b[..|data| - |old(data)|]
      ensures var all := |old(data)| + first + left;
        |data| == if old(AtLastLeaf()) then |old(data)| + first else if all < Room() then all else Room()
    {
      var leaves := (count + 1) / 2;
      SplitOpen(data, b[..first], launched, segment, 2 * hs);
      segment, data := segment + b[..first], data + b[..first];
      var need, rest, size := left as int, first, full;
      while need > 0 && cur < leaves - 1
        invariant Valid() && first <= rest <= |b| && data == old(data) + b[..rest]
        invariant old(cur) == leaves - 1 ==> rest == first
        invariant old(cur) < leaves - 1 ==>
          if need > 0 then size == 2 * hs == |segment| && rest + need == first + left else rest == first + left
        decreases need
      {
        var finished := segment;
        need := need - size;
        if need < 0 {
          size := size + need;
        }
        segment := b[rest..rest + size];
        SplitNext(data, segment, launched, finished, 2 * hs);
        assert b[..rest + size] == b[..rest] + segment;
        launched, data := launched + [finished], data + segment;
        rest := rest + size;
        cur := cur + 1;
      }
      SplitSizes(data, launched, segment, 2 * hs);
      LeafEnd(cur, leaves, |segment|, 2 * hs);
    }

    /** The beginning of Write: how many bytes complete the open section (a negative number
        panics), how many are left for new ones, and how large those are. */
    method Plan(l: nat) returns (rest: int, left: int, size: nat)
      requires Valid() && l > 0
      ensures hs > 0 && (rest < 0 <==> |data| > Capacity())
      ensures rest >= 0 ==> left >= 0 && rest + left <= l && |segment| + rest <= 2 * hs
      ensures rest >= 0 && left > 0 && !AtLastLeaf() ==> size == 2 * hs == |segment| + rest
      ensures rest >= 0 ==>
        var all := |data| + rest + left;
        CutRight(Capacity(), hs, |data|, l, if AtLastLeaf() then |data| + rest else if all < Room() then all else Room(),
                 count % 2 == 0 || data == [] || 2 * cur + 1 == count)
    {
      hide *;
      Sizes();
      var need := Capacity() - Start();
      size := hs;
      if need > size {
        size := 2 * size;
      }
      if l < need {
        need := l;
      }
      rest := size - |segment|;
      if need < rest {
        rest := need;
      }
      Amounts(Capacity(), hs, count % 2 == 0, Start(), |segment|, l, 2 * cur + 1 == count, AtLastLeaf(), need, size, rest);
      left := need - rest;
    }

    /** Write, once or many times: the sections are always the data taken in, split, and
        that is everything written, cut to capacity. The one exception: a later write
        that overflows an odd number of segments, before the last leaf is open, is cut
        too late; a further write then panics on a negative slice bound (`ok` is false). */
    method Write(b: Bytes) returns (ok: bool)
      requires Valid()
      modifies this
      ensures Valid() && old(data) <= data <= old(data) + b
      ensures ok <==> b == [] || |old(data)| <= Capacity()
      ensures |old(data)| <= Capacity() ==>
        (data == Capped(old(data) + b, Capacity()) <==>
          || |old(data)| + |b| <= Capacity()
          || count % 2 == 0
          || old(data) == []
          || 2 * old(cur) + 1 == count)
      ensures |old(data)| <= Capacity() && data != Capped(old(data) + b, Capacity()) ==> Capacity() < |data| <= Capacity() + hs
      ensures |old(data)| >= Capacity() ==> data == old(data)
    {
      hide *;
      ok := true;
      if |b| == 0 {
        assert data + b == data;
        CutSame(data, b, data, Capacity());
        return;
      }
      var rest, left, size := Plan(|b|);
      if rest < 0 {
        return false;
      }
      Fill(b, rest, left, size);
      CutMeans(Capacity(), hs, old(data), b, data, count % 2 == 0 || old(data) == [] || 2 * old(cur) + 1 == count);
    }
  }

  // ----- Reset, Write and Sum together -----

  /** What every schedule of a run of `c` may and must send: `digest`, once. */
  ghost predicate OnlySends(c: Config, digest: Bytes)
    requires |c.secs| > 0
  {
    forall acts, s :: Runs(c, Init(c), acts, s) ==>
      && (s.results == [] || s.results == [digest])
      && (Stuck(c, s) ==> s.results == [digest])
      && |acts| <= |c.secs| * (3 * c.depth + 5) + 3 * c.depth + 3
  }

  /** Sum after the writes so far: whatever the goroutines do from here on, what comes
      out is the reference hash of the data taken in, also if that is more than capacity. */
  method Sum(h: Hasher, H: BaseHash, depth: nat, base: Tree) returns (c: Config)
    requires h.Valid() && h.count <= 2 * Hi(Pos(depth, 0)) && Clean(depth, base, 1)
    ensures c == Config(H, h.hs, depth, h.launched + [h.segment], base)
    ensures OnlySends(c, RefHash(H, h.hs, h.data, RefSpan(h.hs, h.count)))
  {
    hide Clean, Split, OnlySends, RefHash, Scaled, Hi, RefSpan;
    c := Config(H, h.hs, depth, h.launched + [h.segment], base);
    var span;
    ghost var k;
    span, k := NewRefHasherSpan(h.hs, h.count);
    RoomFits(h.hs, h.count, k);
    h.DataFits();
    EveryRunSends(c, 2 * ((h.count + 1) / 2), h.data, k);
  }

  lemma EveryRunSends(c: Config, count: nat, data: Bytes, k: nat)
    requires c.hs > 0 && count > 0 && |data| <= count * c.hs && c.secs == Split(data, 2 * c.hs)
    requires count <= 2 * Hi(Top(c)) && k >= 1 && count * c.hs <= Scaled(c.hs, k + 1) && Clean(c.depth, c.base, 1)
    ensures OnlySends(c, RefHash(c.H, c.hs, data, Scaled(c.hs, k)))
  {
    hide Runs, Stuck, RefHash, Clean, Split, Scaled;
    forall acts, s | Runs(c, Init(c), acts, s)
      ensures s.results == [] || s.results == [RefHash(c.H, c.hs, data, Scaled(c.hs, k))]
      ensures Stuck(c, s) ==> s.results == [RefHash(c.H, c.hs, data, Scaled(c.hs, k))]
      ensures |acts| <= |c.secs| * (3 * c.depth + 5) + 3 * c.depth + 3
    {
      EveryInterleaving(c, count, data, 1, k, acts, s);
    }
  }

  /** The span for an odd number of segments serves one more. */
  lemma RoomFits(hs: nat, count: nat, k: nat)
    requires hs > 0 && count * hs <= Scaled(hs, k + 1)
    ensures 2 * ((count + 1) / 2) * hs <= Scaled(hs, k + 1)
  {
    ScaledLinear(hs, k + 1);
    var w := Scaled(1, k);
    assert Scaled(1, k + 1) == 2 * w;
    assert count <= 2 * w by {
      if count > 2 * w { ScaleUp(2 * w + 1, count, hs); }
    }
    ScaleUp(2 * ((count + 1) / 2), 2 * w, hs);
  }

  /** What may have been taken in of `all` bytes written: capacity at least, and no more
      than that exactly if cut to it. */
  ghost predicate Between(all: Bytes, data: Bytes, cap: nat) {
    Capped(all, cap) <= data <= all && (|data| <= cap ==> data == Capped(all, cap))
  }

  /** Several writes take in what one write of all their bytes would, unless one is cut too
      late. */
  method WriteAll(h: Hasher, parts: seq<Bytes>) returns (ok: bool)
    requires h.Valid() && h.data == []
    modifies h
    ensures h.Valid()
    ensures ok ==> Between(Flatten(parts), h.data, h.Capacity())
    ensures h.count % 2 == 0 || |Flatten(parts)| <= h.Capacity() || |parts| <= 1 ==>
      ok && h.data == Capped(Flatten(parts), h.Capacity())
  {
    hide *;
    ghost var cap, exact := h.Capacity(), h.count % 2 == 0 || |Flatten(parts)| <= h.Capacity() || |parts| <= 1;
    WrittenNone(parts, cap);
    for i := 0 to |parts|
      invariant h.Valid() && Between(Flatten(parts[..i]), h.data, cap)
      invariant exact ==> |h.data| <= cap
      invariant i == 0 ==> h.data == []
    {
      WrittenNext(parts, i);
      ghost var was := h.data;
      BetweenMeans(Flatten(parts[..i]), was, cap);
      ok := h.Write(parts[i]);
      if !ok {
        return;
      }
      BetweenMore(Flatten(parts[..i]), parts[i], was, h.data, cap);
      CappedSize(was + parts[i], cap);
    }
    assert parts[..|parts|] == parts;
    BetweenMeans(Flatten(parts), h.data, cap);
    return true;
  }

  lemma WrittenNone(parts: seq<Bytes>, cap: nat)
    ensures Between(Flatten(parts[..0]), [], cap)
  {
  }

  lemma WrittenNext(parts: seq<Bytes>, i: nat)
    requires i < |parts|
    ensures Flatten(parts[..i + 1]) == Flatten(parts[..i]) + parts[i]
    ensures |Flatten(parts[..i])| + |parts[i]| <= |Flatten(parts)|
  {
    FlattenAppend(parts[..i], [parts[i]]);
    assert Flatten([parts[i]]) == parts[i] + Flatten([]);
    assert parts[..i] + [parts[i]] == parts[..i + 1];
    FlattenPrefix(parts, i + 1);
  }

  lemma BetweenMeans(all: Bytes, data: Bytes, cap: nat)
    requires Between(all, data, cap)
    ensures |data| <= |all| && (|data| <= cap ==> data == Capped(all, cap))
  {
  }

  lemma CappedSize(all: Bytes, cap: nat)
    ensures |Capped(all, cap)| <= cap
  {
  }

  lemma BetweenMore(all: Bytes, b: Bytes, was: Bytes, now: Bytes, cap: nat)
    requires Between(all, was, cap) && was <= now <= was + b
    requires |was| <= cap && now != Capped(was + b, cap) ==> |now| > cap
    requires (|was| >= cap ==> now == was) && (|was| > cap ==> b == [])
    ensures Between(all + b, now, cap)
  {
    if |was| < cap {
      assert was == all;
      assert now != Capped(all + b, cap) ==> Capped(all + b, cap) <= now;
    } else if |was| == cap {
      assert Capped(all + b, cap) == Capped(all, cap) == now;
    } else {
      assert all + b == all;
    }
  }

  /** A chunk written in any pieces to a new hasher, on a new tree just deep enough: what is
      sent is the reference hash of the bytes in the sections, which are those of the pieces
      joined, and RefHasher.Hash of them unless pieces are cut too late. */
  method HashChunk(H: BaseHash, hs: nat, count: nat, parts: seq<Bytes>) returns (ok: bool, c: Config)
    requires hs > 0 && count > 0
    ensures ok ==> c.H == H && c.hs == hs && c.secs == Split(Flatten(c.secs), 2 * hs) && Clean(c.depth, c.base, 1)
    ensures ok ==> count <= 2 * Hi(Top(c)) && (c.depth > 0 ==> 2 * Hi(Pos(c.depth - 1, 0)) < count)
    ensures ok ==> Between(Flatten(parts), Flatten(c.secs), count * hs)
    ensures ok ==> |c.secs| > 0 && OnlySends(c, RefHash(H, hs, Flatten(c.secs), RefSpan(hs, count)))
    ensures count % 2 == 0 || |Flatten(parts)| <= count * hs || |parts| <= 1 ==>
      ok && |c.secs| > 0 && OnlySends(c, RefHasherHash(H, hs, count, Flatten(parts)))
  {
    hide Clean, Split, OnlySends, RefHash, Flatten, Between, Capped, Scaled, RefSpan, Hi;
    var depth := Depth(count);
    var base := NewTree(depth);
    var h := new Hasher(hs, count);
    ok := WriteAll(h, parts);
    c := Sum(h, H, depth, base);
    FlattenSplit(h.data, 2 * hs);
  }

  // ----- a write cut too late -----

  /** Three segments of one byte; one byte, then five: four are taken in, so that what is sent
      is not RefHasher.Hash of all six, and a further write panics. */
  method CutTooLate(x: Byte) returns (h: Hasher, c: Config, ok: bool)
    ensures fresh(h) && h.hs == 1 && h.count == 3 && h.data == [x, x, x, x] && !ok
    ensures c.H == ((d: Bytes) => d) && c.hs == 1 && c.secs == Split(h.data, 2) && Clean(c.depth, c.base, 1)
    ensures |c.secs| > 0 && OnlySends(c, h.data) && RefHasherHash(c.H, 1, 3, [x, x, x, x, x, x]) == [x, x, x] != h.data
  {
    hide Clean, Split, OnlySends, RefHash, Capped, Hasher.Valid, RefSpan;
    var depth := Depth(3);
    var base := NewTree(depth);
    h := new Hasher(1, 3);
    CapacityIs(h);
    CappedShort([] + [x], 3);
    ok := h.Write([x]);
    StillFirst(h);
    ok := h.Write([x, x, x, x, x]);
    FourTaken(x, h.data);
    var H := (d: Bytes) => d;
    c := Sum(h, H, depth, base);
    SectionsOf(h);
    IdentityHash(1, h.data, RefSpan(1, 3));
    ThreeKept(x);
    ok := h.Write([x]);
  }

  lemma SectionsOf(h: Hasher)
    requires h.Valid()
    ensures h.launched + [h.segment] == Split(h.data, 2 * h.hs)
  {
  }

  lemma ThreeKept(x: Byte)
    ensures RefHasherHash((d: Bytes) => d, 1, 3, [x, x, x, x, x, x]) == [x, x, x]
  {
    assert Capped([x, x, x, x, x, x], 3) == [x, x, x];
    IdentityHash(1, [x, x, x], RefSpan(1, 3));
  }

  lemma CapacityIs(h: Hasher)
    requires h.hs == 1 && h.count == 3
    ensures h.Capacity() == 3
  {
  }

  lemma CappedShort(all: Bytes, cap: nat)
    requires |all| < cap
    ensures Capped(all, cap) == all
  {
  }

  lemma StillFirst(h: Hasher)
    requires h.Valid() && h.hs == 1 && |h.data| == 1
    ensures h.cur == 0
  {
    SplitParts(h.data, h.launched, h.segment, 2);
  }

  lemma FourTaken(x: Byte, data: Bytes)
    requires data <= [x] + [x, x, x, x, x] && |data| == 4
    ensures data == [x, x, x, x]
  {
  }

  lemma FlattenPrefix(parts: seq<Bytes>, i: nat)
    requires i <= |parts|
    ensures |Flatten(parts[..i])| <= |Flatten(parts)|
  {
    FlattenAppend(parts[..i], parts[i..]);
    assert parts[..i] + parts[i..] == parts;
  }
}
