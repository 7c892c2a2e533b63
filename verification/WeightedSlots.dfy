/** What the weighted selection tree of les/randselect.go stands for: a row of slots,
    each empty or holding an item with a positive weight.
 */
module WeightedSlots {
  import Counting

  type Item = nat
  type Weight = w: int | w > 0 witness 1

  datatype Slot = Empty | Full(item: Item, weight: Weight)

  const BRANCHES := 8

  function WeightOf(s: Slot): nat { if s.Full? then s.weight else 0 }

  function Sum(slots: seq<Slot>): nat {
    if slots == [] then 0 else WeightOf(slots[0]) + Sum(slots[1..])
  }

  function Count(slots: seq<Slot>): nat {
    if slots == [] then 0 else (if slots[0].Full? then 1 else 0) + Count(slots[1..])
  }

  function Blank(n: nat): (r: seq<Slot>)
    ensures |r| == n && forall i :: 0 <= i < n ==> r[i] == Empty
  {
    seq(n, i => Empty)
  }

  lemma {:induction false} BlankIsNothing(n: nat)
    ensures Sum(Blank(n)) == 0 && Count(Blank(n)) == 0
  {
    if n > 0 {
      BlankIsNothing(n - 1);
      assert Blank(n)[1..] == Blank(n - 1);
    }
  }

  lemma {:induction false} Concat(a: seq<Slot>, b: seq<Slot>)
    ensures Sum(a + b) == Sum(a) + Sum(b) && Count(a + b) == Count(a) + Count(b)
  {
    if a == [] {
      assert a + b == b;
    } else {
      Concat(a[1..], b);
      assert (a + b)[1..] == a[1..] + b;
    }
  }

  lemma {:induction false} Update(slots: seq<Slot>, k: nat, s: Slot)
    requires k < |slots|
    ensures Sum(slots[k := s]) == Sum(slots) - WeightOf(slots[k]) + WeightOf(s)
    ensures Count(slots[k := s]) == Count(slots) - (if slots[k].Full? then 1 else 0) + (if s.Full? then 1 else 0)
  {
    if k == 0 {
      assert slots[0 := s][1..] == slots[1..];
    } else {
      Update(slots[1..], k - 1, s);
      assert slots[k := s][1..] == slots[1..][k - 1 := s];
    }
  }

  lemma {:induction false} CountBound(slots: seq<Slot>)
    ensures Count(slots) <= |slots|
    ensures Count(slots) == |slots| <==> forall i :: 0 <= i < |slots| ==> slots[i].Full?
  {
    if slots != [] {
      CountBound(slots[1..]);
      assert forall i :: 0 < i < |slots| ==> slots[i] == slots[1..][i - 1];
    }
  }

  // ----- selection -----

  /** The slot a value falls into when the weights are laid end to end. */
  function Pick(slots: seq<Slot>, val: nat): (k: nat)
    requires val < Sum(slots)
    ensures k < |slots| && slots[k].Full?
  {
    if val < WeightOf(slots[0]) then 0 else 1 + Pick(slots[1..], val - WeightOf(slots[0]))
  }

  function Before(slots: seq<Slot>, k: nat): nat
    requires k <= |slots|
  {
    Sum(slots[..k])
  }

  lemma {:induction false} BeforeGrows(slots: seq<Slot>, j: nat, k: nat)
    requires j <= k <= |slots|
    ensures Before(slots, j) <= Before(slots, k)
    ensures j < k ==> Before(slots, j) + WeightOf(slots[j]) <= Before(slots, k)
    decreases k - j
  {
    if j < k {
      BeforeGrows(slots, j + 1, k);
      NextBefore(slots, j);
    }
  }

  lemma NextBefore(slots: seq<Slot>, k: nat)
    requires k < |slots|
    ensures Before(slots, k + 1) == Before(slots, k) + WeightOf(slots[k])
  {
    Concat(slots[..k], [slots[k]]);
    assert slots[..k + 1] == slots[..k] + [slots[k]];
    assert Sum([slots[k]]) == WeightOf(slots[k]) + Sum([]);
  }

  /** A value picks slot `k` exactly if it lies in that slot's stretch. */
  lemma {:induction false} PickStretch(slots: seq<Slot>, val: nat, k: nat)
    requires val < Sum(slots) && k < |slots|
    ensures Pick(slots, val) == k <==> Before(slots, k) <= val < Before(slots, k) + WeightOf(slots[k])
  {
    var w := WeightOf(slots[0]);
    if k == 0 {
      assert slots[..0] == [];
    } else {
      assert slots[..k][1..] == slots[1..][..k - 1];
      assert Before(slots, k) == w + Before(slots[1..], k - 1);
      if val >= w { PickStretch(slots[1..], val - w, k - 1); }
    }
  }

  ghost function Picking(slots: seq<Slot>, k: nat): set<nat>
    requires k < |slots|
  {
    set val | 0 <= val < Sum(slots) && Pick(slots, val) == k
  }

  /** Selection is exactly proportional: of the Sum(slots) values, a slot is picked by
      as many as its weight. */
  lemma Proportional(slots: seq<Slot>, k: nat)
    requires k < |slots|
    ensures |Picking(slots, k)| == WeightOf(slots[k])
  {
    var lo, w := Before(slots, k), WeightOf(slots[k]);
    BeforeGrows(slots, k, |slots|);
    assert slots[..|slots|] == slots;
    forall v ensures v in Picking(slots, k) <==> lo <= v < lo + w {
      if 0 <= v < Sum(slots) { PickStretch(slots, v, k); }
    }
    Counting.IntervalSize(Picking(slots, k), lo, lo + w);
  }

  // ----- rows made of the rows of the branches -----

  function Flat(chunks: seq<seq<Slot>>): seq<Slot> {
    if chunks == [] then [] else chunks[0] + Flat(chunks[1..])
  }

  ghost predicate Even(chunks: seq<seq<Slot>>, c: nat) {
    forall i :: 0 <= i < |chunks| ==> |chunks[i]| == c
  }

  function SumAll(chunks: seq<seq<Slot>>): nat {
    if chunks == [] then 0 else Sum(chunks[0]) + SumAll(chunks[1..])
  }

  /** b * c, by repeated addition. */
  function Times(b: nat, c: nat): nat { if b == 0 then 0 else c + Times(b - 1, c) }

  lemma {:induction false} TimesIsProduct(b: nat, c: nat)
    ensures Times(b, c) == b * c
  {
    if b > 0 {
      TimesIsProduct(b - 1, c);
      assert b * c == c + (b - 1) * c;
    }
  }

  lemma {:induction false} FlatLength(chunks: seq<seq<Slot>>, c: nat)
    requires Even(chunks, c)
    ensures |Flat(chunks)| == Times(|chunks|, c)
  {
    if chunks != [] { FlatLength(chunks[1..], c); }
  }

  lemma {:induction false} FlatAt(chunks: seq<seq<Slot>>, c: nat, b: nat, j: nat)
    requires Even(chunks, c) && b < |chunks| && j < c
    ensures Times(b, c) + j < |Flat(chunks)| && Flat(chunks)[Times(b, c) + j] == chunks[b][j]
  {
    if b > 0 { FlatAt(chunks[1..], c, b - 1, j); }
  }

  /** Changing one slot of one branch changes one slot of the row. */
  lemma {:induction false} FlatUpdate(chunks: seq<seq<Slot>>, c: nat, b: nat, j: nat, s: Slot)
    requires Even(chunks, c) && b < |chunks| && j < c
    ensures Times(b, c) + j < |Flat(chunks)|
    ensures Flat(chunks[b := chunks[b][j := s]]) == Flat(chunks)[Times(b, c) + j := s]
  {
    FlatAt(chunks, c, b, j);
    if b == 0 {
      assert chunks[0 := chunks[0][j := s]][1..] == chunks[1..];
      assert (chunks[0] + Flat(chunks[1..]))[j := s] == chunks[0][j := s] + Flat(chunks[1..]);
    } else {
      var rest := chunks[1..];
      FlatUpdate(rest, c, b - 1, j, s);
      assert chunks[b := chunks[b][j := s]][1..] == rest[b - 1 := rest[b - 1][j := s]];
      UpdateTail(chunks[0], Flat(rest), Times(b - 1, c) + j, s);
    }
  }

  lemma UpdateTail(a: seq<Slot>, b: seq<Slot>, k: nat, s: Slot)
    requires k < |b|
    ensures (a + b)[|a| + k := s] == a + b[k := s]
  {
  }

  lemma {:induction false} FlatSums(chunks: seq<seq<Slot>>)
    ensures Sum(Flat(chunks)) == SumAll(chunks)
  {
    if chunks != [] {
      FlatSums(chunks[1..]);
      Concat(chunks[0], Flat(chunks[1..]));
    }
  }

  /** A row with room has a branch with room. */
  lemma {:induction false} RoomSomewhere(chunks: seq<seq<Slot>>, c: nat)
    requires Even(chunks, c) && Count(Flat(chunks)) < Times(|chunks|, c)
    ensures exists b :: 0 <= b < |chunks| && Count(chunks[b]) < c
  {
    if chunks == [] {
      assert false;
    } else if Count(chunks[0]) < c {
    } else {
      Concat(chunks[0], Flat(chunks[1..]));
      CountBound(chunks[0]);
      RoomSomewhere(chunks[1..], c);
      var b :| 0 <= b < |chunks| - 1 && Count(chunks[1..][b]) < c;
      assert chunks[b + 1] == chunks[1..][b];
    }
  }

  /** Picking branch by branch: skip whole branches while the value is beyond them. */
  lemma {:induction false} PickInBranch(chunks: seq<seq<Slot>>, c: nat, b: nat, val: nat)
    requires Even(chunks, c) && b < |chunks|
    requires SumAll(chunks[..b]) <= val < SumAll(chunks[..b]) + Sum(chunks[b])
    ensures val < Sum(Flat(chunks))
    ensures Pick(Flat(chunks), val) == Times(b, c) + Pick(chunks[b], val - SumAll(chunks[..b]))
  {
    if b == 0 {
      PickFirst(chunks[0], Flat(chunks[1..]), val);
    } else {
      assert chunks[..b][1..] == chunks[1..][..b - 1];
      PickInBranch(chunks[1..], c, b - 1, val - Sum(chunks[0]));
      PickLater(chunks[0], Flat(chunks[1..]), val);
    }
  }

  lemma {:induction false} PickFirst(a: seq<Slot>, b: seq<Slot>, val: nat)
    requires val < Sum(a)
    ensures val < Sum(a + b) && Pick(a + b, val) == Pick(a, val)
  {
    Concat(a, b);
    assert (a + b)[1..] == a[1..] + b;
    if val >= WeightOf(a[0]) { PickFirst(a[1..], b, val - WeightOf(a[0])); }
  }

  lemma {:induction false} PickLater(a: seq<Slot>, b: seq<Slot>, val: nat)
    requires Sum(a) <= val < Sum(a) + Sum(b)
    ensures val < Sum(a + b) && Pick(a + b, val) == |a| + Pick(b, val - Sum(a))
  {
    Concat(a, b);
    if a == [] {
      assert a + b == b;
    } else {
      assert (a + b)[1..] == a[1..] + b;
      PickLater(a[1..], b, val - WeightOf(a[0]));
    }
  }
}
