/** The weighted random selection of les/randselect.go: the tree of nodes and the index
    from an item to its slot, changed together.
 */
module WeightedSelect {
  import opened Wrappers
  import opened WeightedSlots
  import Tree = WeightedTree
  import opened WeightedTree

  // ----- the item index -----

  /** The index leads to every item's slot, and only there. */
  ghost predicate Indexed(slots: seq<Slot>, idx: map<Item, nat>) {
    && (forall k :: 0 <= k < |slots| && slots[k].Full? ==> slots[k].item in idx && idx[slots[k].item] == k)
    && (forall i :: i in idx ==> idx[i] < |slots| && slots[idx[i]].Full? && slots[idx[i]].item == i)
  }

  /** The set of items with their weights that a row and its index stand for. */
  ghost function WeightsOf(slots: seq<Slot>, idx: map<Item, nat>): map<Item, Weight>
    requires Indexed(slots, idx)
  {
    map i | i in idx :: slots[idx[i]].weight
  }

  lemma AfterInsert(slots: seq<Slot>, idx: map<Item, nat>, item: Item, weight: Weight, k: nat)
    requires Indexed(slots, idx) && item !in idx && k < |slots| && slots[k] == Empty
    ensures Indexed(slots[k := Full(item, weight)], idx[item := k])
    ensures WeightsOf(slots[k := Full(item, weight)], idx[item := k]) == WeightsOf(slots, idx)[item := weight]
  {
  }

  lemma AfterChange(slots: seq<Slot>, idx: map<Item, nat>, item: Item, weight: Weight)
    requires Indexed(slots, idx) && item in idx
    ensures Indexed(slots[idx[item] := Full(item, weight)], idx)
    ensures WeightsOf(slots[idx[item] := Full(item, weight)], idx) == WeightsOf(slots, idx)[item := weight]
  {
  }

  lemma AfterRemove(slots: seq<Slot>, idx: map<Item, nat>, item: Item)
    requires Indexed(slots, idx) && item in idx
    ensures Indexed(slots[idx[item] := Empty], idx - {item})
    ensures WeightsOf(slots[idx[item] := Empty], idx - {item}) == WeightsOf(slots, idx) - {item}
  {
  }

  lemma AfterRaise(slots: seq<Slot>, idx: map<Item, nat>, m: nat)
    requires Indexed(slots, idx)
    ensures Indexed(slots + Blank(m), idx) && WeightsOf(slots + Blank(m), idx) == WeightsOf(slots, idx)
  {
    var more := slots + Blank(m);
    assert forall k :: 0 <= k < |slots| ==> more[k] == slots[k];
    assert forall k :: |slots| <= k < |more| ==> more[k] == Empty;
  }

  /** No weight in the tree means no item in the set. */
  lemma NoWeight(slots: seq<Slot>, idx: map<Item, nat>)
    requires Indexed(slots, idx)
    ensures Sum(slots) == 0 <==> WeightsOf(slots, idx) == map[]
  {
    if idx != map[] {
      var i :| i in idx;
      SlotIn(slots, idx[i]);
      assert i in WeightsOf(slots, idx);
    } else {
      AllEmpty(slots);
    }
  }

  lemma {:induction false} AllEmpty(slots: seq<Slot>)
    requires forall k :: 0 <= k < |slots| ==> !slots[k].Full?
    ensures Sum(slots) == 0
  {
    if slots != [] { AllEmpty(slots[1..]); }
  }

  lemma Stored(slots: seq<Slot>, idx: map<Item, nat>, k: nat, item: Item, weight: Weight)
    requires Indexed(slots, idx) && k < |slots| && slots[k] == Full(item, weight)
    ensures item in idx && item in WeightsOf(slots, idx) && WeightsOf(slots, idx)[item] == weight
  {
  }

  /** Weights after some items were brought up to date in the first `turns` turns. */
  ghost predicate Refreshed(was: map<Item, Weight>, now: map<Item, Weight>, current: (nat, Item) -> nat, turns: nat) {
    && (forall i :: i in now ==> i in was && (now[i] == was[i] || Shown(current, turns, i, now[i])))
    && (forall i :: i in was && i !in now ==> Shown(current, turns, i, 0))
  }

  /** The item had this weight at one of the turns. */
  ghost predicate Shown(current: (nat, Item) -> nat, turns: nat, item: Item, weight: nat) {
    exists t: nat :: t < turns && current(t, item) == weight
  }

  /** The row with one item brought up to date. */
  function Renewed(slots: seq<Slot>, k: nat, now: nat): (r: seq<Slot>)
    requires k < |slots| && slots[k].Full?
    ensures Sum(r) + slots[k].weight == Sum(slots) + now
  {
    Update(slots, k, Holding(slots[k].item, now));
    slots[k := Holding(slots[k].item, now)]
  }

  lemma RenewedIs(slots: seq<Slot>, k: nat, now: nat)
    requires k < |slots| && slots[k].Full?
    ensures Renewed(slots, k, now) == slots[k := Holding(slots[k].item, now)]
    ensures now == slots[k].weight ==> Renewed(slots, k, now) == slots
  {
    assert now == slots[k].weight ==> slots[k := Holding(slots[k].item, now)] == slots;
  }

  lemma IndexOf(slots: seq<Slot>, idx: map<Item, nat>, k: nat)
    requires Indexed(slots, idx) && k < |slots| && slots[k].Full?
    ensures slots[k].item in idx && idx[slots[k].item] == k
  {
  }

  /** What the random numbers choose from a row: the first number of a turn falls into the
      stretch of an item, the second decides whether it is taken if it has become lighter;
      if not, the row goes into the next turn with that item brought up to date. */
  ghost function Chosen(slots: seq<Slot>, current: (nat, Item) -> nat, draws: (nat, nat) -> nat, turn: nat): Option<Item>
    requires forall t: nat, n: nat :: n > 0 ==> draws(t, n) < n
    decreases Sum(slots)
  {
    if Sum(slots) == 0 then None
    else
      var k := Pick(slots, draws(2 * turn, Sum(slots)));
      var item, was, now := slots[k].item, slots[k].weight, current(turn, slots[k].item);
      if now >= was || draws(2 * turn + 1, was) < now then Some(item)
      else Chosen(Renewed(slots, k, now), current, draws, turn + 1)
  }

  lemma ChosenStep(slots: seq<Slot>, current: (nat, Item) -> nat, draws: (nat, nat) -> nat, turn: nat)
    requires (forall t: nat, n: nat :: n > 0 ==> draws(t, n) < n) && Sum(slots) > 0
    ensures var k := Pick(slots, draws(2 * turn, Sum(slots))); var now := current(turn, slots[k].item);
      Chosen(slots, current, draws, turn) ==
        if now >= slots[k].weight || draws(2 * turn + 1, slots[k].weight) < now then Some(slots[k].item)
        else Chosen(Renewed(slots, k, now), current, draws, turn + 1)
  {
  }

  lemma ChosenNone(slots: seq<Slot>, current: (nat, Item) -> nat, draws: (nat, nat) -> nat, turn: nat)
    requires (forall t: nat, n: nat :: n > 0 ==> draws(t, n) < n) && Sum(slots) == 0
    ensures Chosen(slots, current, draws, turn) == None
  {
  }

  function Put(weights: map<Item, Weight>, item: Item, weight: nat): map<Item, Weight> {
    if weight == 0 then weights - {item} else weights[item := weight]
  }

  function Had(weights: map<Item, Weight>, item: Item): nat {
    if item in weights then weights[item] else 0
  }

  lemma RefreshOne(was: map<Item, Weight>, now: map<Item, Weight>, current: (nat, Item) -> nat, turn: nat, item: Item)
    requires Refreshed(was, now, current, turn) && item in now
    ensures Refreshed(was, Put(now, item, current(turn, item)), current, turn + 1)
  {
    assert Shown(current, turn + 1, item, current(turn, item));
    forall i, weight | Shown(current, turn, i, weight) ensures Shown(current, turn + 1, i, weight) { }
  }

  /** weightedRandomSelect. */
  class Select {
    var root: Node
    var idx: map<Item, nat>

    ghost predicate Valid()
      reads this
    {
      Tree.Valid(root) && Indexed(Slots(root), idx)
    }

    ghost function Weights(): map<Item, Weight>
      reads this
      requires Valid()
    {
      WeightsOf(Slots(root), idx)
    }

    constructor ()
      ensures Valid() && Weights() == map[]
    {
      var r := NewNode(0);
      root, idx := r, map[];
    }

    lemma Unfold()
      requires Valid()
      ensures Tree.Valid(root) && Indexed(Slots(root), idx) && Weights() == WeightsOf(Slots(root), idx)
    {
    }

    lemma Fold(w: map<Item, Weight>)
      requires Tree.Valid(root) && Indexed(Slots(root), idx) && w == WeightsOf(Slots(root), idx)
      ensures Valid() && Weights() == w
    {
    }

    lemma Lookup(item: Item)
      requires Valid() && item in idx
      ensures idx[item] < |Slots(root)| && Slots(root)[idx[item]].Full? && Slots(root)[idx[item]].item == item
    {
    }

    /** setWeight: the set is exactly what it was with this item's weight replaced, the
        item added if it was missing, or removed at weight zero. */
    method SetWeight(item: Item, weight: nat)
      requires Valid()
      modifies this
      ensures Valid() && Weights() == Put(old(Weights()), item, weight)
      ensures root.sumWeight + Had(old(Weights()), item) == old(root.sumWeight) + weight
      ensures item in old(idx) ==> old(idx[item] < |Slots(root)|) && Slots(root) == old(Slots(root))[old(idx)[item] := Holding(item, weight)]
    {
      hide *;
      Unfold();
      PutMeans(Weights(), item, weight);
      HadMeans(Weights(), item);
      NotIn(Slots(root), idx, item);
      ghost var slots, was := Slots(root), idx;
      if item in idx {
        Lookup(item);
        Stored(slots, was, idx[item], item, slots[idx[item]].weight);
        var r, _ := Tree.SetWeight(root, idx[item], weight);
        root := r;
        HoldingMeans(item, weight);
        if weight == 0 {
          idx := idx - {item};
          AfterRemove(slots, was, item);
        } else {
          AfterChange(slots, was, item, weight);
        }
      } else if weight != 0 {
        if root.itemCnt == root.maxItems {
          ghost var m := RaisedRow(root);
          AfterRaise(slots, was, m);
          root := Raised(root);
          slots := Slots(root);
        } else {
          Bounded(root);
        }
        var r, k := Insert(root, item, weight);
        root := r;
        idx := idx[item := k];
        AfterInsert(slots, was, item, weight, k);
      }
      Fold(Put(old(Weights()), item, weight));
    }

    /** One turn of choose, for given random numbers: the item in whose stretch `val`
        falls is brought up to date, and taken with the chance its weight has kept. */
    method Turn(current: Item -> nat, val: nat, draw: nat -> nat) returns (r: Option<Item>)
      requires Valid() && val < root.sumWeight && forall n: nat :: n > 0 ==> draw(n) < n
      modifies this
      ensures Valid() && val < Sum(old(Slots(root)))
      ensures var slot := old(Slots(root))[Pick(old(Slots(root)), val)]; var now := current(slot.item);
        && slot.item in old(Weights()) && old(Weights())[slot.item] == slot.weight
        && Weights() == Put(old(Weights()), slot.item, now)
        && r == (if now >= slot.weight || draw(slot.weight) < now then Some(slot.item) else None)
        && root.sumWeight + slot.weight == old(root.sumWeight) + now
        && Slots(root) == Renewed(old(Slots(root)), Pick(old(Slots(root)), val), now)
    {
      hide *;
      Unfold();
      Sums(root);
      var choice, lastWeight := Tree.Choose(root, val);
      Stored(Slots(root), idx, Pick(Slots(root), val), choice, lastWeight);
      IndexOf(Slots(root), idx, Pick(Slots(root), val));
      HadMeans(Weights(), choice);
      var weight: nat := current(choice);
      PutSame(Weights(), choice);
      RenewedIs(Slots(root), Pick(Slots(root), val), weight);
      if weight != lastWeight {
        SetWeight(choice, weight);
      }
      if weight >= lastWeight || draw(lastWeight) < weight {
        return Some(choice);
      }
      return None;
    }

    /** choose: repeats until an item is taken at its current weight. It ends, because
        every repetition lowers the total; it finds nothing only if nothing is left.
        `current` are the items' weights and `draws` the random numbers below a bound,
        turn by turn. */
    method Choose(current: (nat, Item) -> nat, draws: (nat, nat) -> nat) returns (r: Option<Item>, ghost turns: nat)
      requires Valid() && forall t: nat, n: nat :: n > 0 ==> draws(t, n) < n
      modifies this
      ensures Valid() && Refreshed(old(Weights()), Weights(), current, turns)
      ensures r == Chosen(old(Slots(root)), current, draws, 0)
      ensures r.None? <==> Weights() == map[]
      ensures r.Some? ==> r.value in Weights() && turns > 0 && Weights()[r.value] == current(turns - 1, r.value)
    {
      hide *;
      r := None;
      var turn: nat := 0;
      turns := 0;
      RefreshNone(Weights(), current);
      while root.sumWeight > 0
        invariant Valid() && Refreshed(old(Weights()), Weights(), current, turn) && r == None && turns == turn
        invariant Chosen(Slots(root), current, draws, turn) == Chosen(old(Slots(root)), current, draws, 0)
        decreases root.sumWeight
      {
        var val := draws(2 * turn, root.sumWeight);
        Unfold();
        Sums(root);
        ChosenStep(Slots(root), current, draws, turn);
        ghost var was := Weights();
        ghost var item := Slots(root)[Pick(Slots(root), val)].item;
        r := Turn((i: Item) => current(turn, i), val, (n: nat) => draws(2 * turn + 1, n));
        RefreshOne(old(Weights()), was, current, turn, item);
        PutMeans(was, item, current(turn, item));
        turn := turn + 1;
        turns := turn;
        if r.Some? { return; }
      }
      Unfold();
      Sums(root);
      NoWeight(Slots(root), idx);
      ChosenNone(Slots(root), current, draws, turn);
    }
  }

  lemma PutSame(weights: map<Item, Weight>, item: Item)
    ensures item in weights ==> Put(weights, item, weights[item]) == weights
  {
  }

  lemma RefreshNone(weights: map<Item, Weight>, current: (nat, Item) -> nat)
    ensures Refreshed(weights, weights, current, 0)
  {
  }

  lemma PutMeans(weights: map<Item, Weight>, item: Item, weight: nat)
    ensures Put(weights, item, weight) == if weight == 0 then weights - {item} else weights[item := weight]
  {
  }

  lemma HadMeans(weights: map<Item, Weight>, item: Item)
    ensures Had(weights, item) == if item in weights then weights[item] else 0
  {
  }

  lemma HoldingMeans(item: Item, weight: nat)
    ensures Holding(item, weight) == if weight == 0 then Empty else Full(item, weight)
  {
  }

  lemma NotIn(slots: seq<Slot>, idx: map<Item, nat>, item: Item)
    requires Indexed(slots, idx)
    ensures item !in idx ==> WeightsOf(slots, idx) - {item} == WeightsOf(slots, idx) && item !in WeightsOf(slots, idx)
  {
  }
}
