/** The nodes of the weighted random selection of les/randselect.go: an 8-ary tree that
    caches weight sums and item counts. A node belongs to one parent only, so nodes are
    values.
 */
module WeightedTree {
  import opened WeightedSlots

  /** Slots below one branch, and below one node, of a given level. */
  function BranchCap(level: nat): (c: nat)
    ensures c > 0
    decreases level, 0
  {
    if level == 0 then 1 else Capacity(level - 1)
  }
  function Capacity(level: nat): (c: nat)
    ensures c > 0
    decreases level, 1
  {
    Times(BRANCHES, BranchCap(level))
  }

  /** A branch holds an item at level 0, a sub node above. */
  datatype Branch = Nothing | Leaf(item: Item) | Sub(node: Node)

  datatype Node = Node(level: nat, maxItems: nat, branches: seq<Branch>, weights: seq<nat>, sumWeight: nat, itemCnt: nat)

  // ----- the slots a node stands for -----

  function BranchSlots(b: Branch, weight: nat, c: nat): seq<Slot>
    decreases b, 0
  {
    match b
    case Nothing => Blank(c)
    case Leaf(item) => [if weight > 0 then Full(item, weight) else Empty]
    case Sub(n) => Slots(n)
  }

  function Chunks(n: Node): (r: seq<seq<Slot>>)
    ensures |r| == |n.branches|
    decreases n, 0
  {
    seq(|n.branches|, i requires 0 <= i < |n.branches| =>
      BranchSlots(n.branches[i], if i < |n.weights| then n.weights[i] else 0, BranchCap(n.level)))
  }

  function Slots(n: Node): seq<Slot>
    decreases n, 1
  {
    Flat(Chunks(n))
  }

  // ----- what every node keeps -----

  /** The branch fits the node's level, and its weight is cached right. */
  ghost predicate BranchOk(b: Branch, weight: nat, level: nat)
    decreases level, 0
  {
    match b
    case Nothing => weight == 0
    case Leaf(item) => level == 0 && weight > 0
    case Sub(n) => level > 0 && n.level == level - 1 && Valid(n) && weight == n.sumWeight
  }

  ghost predicate Valid(n: Node)
    decreases n.level, 1
  {
    && |n.branches| == |n.weights| == BRANCHES
    && n.maxItems == Capacity(n.level)
    && (forall i :: 0 <= i < BRANCHES ==> BranchOk(n.branches[i], n.weights[i], n.level))
    && n.sumWeight == Sum(Slots(n)) && n.itemCnt == Count(Slots(n))
  }

  lemma ValidBranch(n: Node, i: nat)
    requires Valid(n) && i < BRANCHES
    ensures BranchOk(n.branches[i], n.weights[i], n.level)
    ensures Chunks(n)[i] == BranchSlots(n.branches[i], n.weights[i], BranchCap(n.level))
  {
  }

  lemma BranchRow(b: Branch, weight: nat, level: nat)
    requires BranchOk(b, weight, level)
    ensures |BranchSlots(b, weight, BranchCap(level))| == BranchCap(level)
    ensures Sum(BranchSlots(b, weight, BranchCap(level))) == weight
    decreases level, 0
  {
    match b
    case Nothing => BlankIsNothing(BranchCap(level));
    case Leaf(item) =>
      var s := [Full(item, weight)];
      assert s[1..] == [];
    case Sub(n) => RowLength(n);
  }

  lemma RowLength(n: Node)
    requires Valid(n)
    ensures |Slots(n)| == Capacity(n.level) && Even(Chunks(n), BranchCap(n.level)) && |Chunks(n)| == BRANCHES
    ensures forall i :: 0 <= i < BRANCHES ==> Sum(Chunks(n)[i]) == n.weights[i]
    decreases n.level, 1
  {
    forall i | 0 <= i < BRANCHES ensures |Chunks(n)[i]| == BranchCap(n.level) && Sum(Chunks(n)[i]) == n.weights[i] {
      ValidBranch(n, i);
      BranchRow(n.branches[i], n.weights[i], n.level);
    }
    FlatLength(Chunks(n), BranchCap(n.level));
  }

  // ----- changing one branch -----

  function Occupied(s: Slot): nat { if s.Full? then 1 else 0 }

  /** A branch whose row changes in one slot changes the node's row in one slot; sum
      and count must follow. */
  lemma Changed(n: Node, b: nat, br: Branch, weight: nat, j: nat, s: Slot, n': Node)
    requires Valid(n) && b < BRANCHES && j < BranchCap(n.level) && BranchOk(br, weight, n.level)
    requires var c := BranchCap(n.level); var row := BranchSlots(n.branches[b], n.weights[b], c);
      j < |row| && BranchSlots(br, weight, c) == row[j := s]
    requires n' == n.(branches := n.branches[b := br], weights := n.weights[b := weight], sumWeight := n'.sumWeight, itemCnt := n'.itemCnt)
    requires var was := BranchSlots(n.branches[b], n.weights[b], BranchCap(n.level))[j];
      n'.sumWeight == n.sumWeight - WeightOf(was) + WeightOf(s) && n'.itemCnt == n.itemCnt - Occupied(was) + Occupied(s)
    ensures Valid(n') && Times(b, BranchCap(n.level)) + j < |Slots(n)|
    ensures Slots(n') == Slots(n)[Times(b, BranchCap(n.level)) + j := s]
  {
    hide *;
    RowLength(n);
    ValidBranch(n, b);
    Shape(n, n', b, br, weight);
    ChunksChanged(n, n', b, br, weight);
    SlotOf(n, b, j);
    FlatUpdate(Chunks(n), BranchCap(n.level), b, j, s);
    SlotsAre(n);
    SlotsAre(n');
    Update(Slots(n), Times(b, BranchCap(n.level)) + j, s);
    Sums(n);
    Unpick(s);
    Unpick(Slots(n)[Times(b, BranchCap(n.level)) + j]);
    Revalid(n, n', b, br, weight);
  }

  lemma SlotsAre(n: Node)
    ensures Slots(n) == Flat(Chunks(n))
  {
  }

  lemma Unpick(s: Slot)
    ensures Occupied(s) == if s.Full? then 1 else 0
  {
  }

  lemma Sums(n: Node)
    requires Valid(n)
    ensures n.sumWeight == Sum(Slots(n)) && n.itemCnt == Count(Slots(n)) && n.maxItems == Capacity(n.level)
    ensures |n.branches| == |n.weights| == BRANCHES == 8
  {
  }

  lemma Shape(n: Node, n': Node, b: nat, br: Branch, weight: nat)
    requires Valid(n) && b < BRANCHES
    requires n' == n.(branches := n.branches[b := br], weights := n.weights[b := weight], sumWeight := n'.sumWeight, itemCnt := n'.itemCnt)
    ensures |n.branches| == |n.weights| == |n'.branches| == |n'.weights| == BRANCHES && n'.level == n.level && n'.maxItems == n.maxItems
    ensures n'.branches == n.branches[b := br] && n'.weights == n.weights[b := weight]
  {
    hide *;
    Sums(n);
  }

  lemma ChunksChanged(n: Node, n': Node, b: nat, br: Branch, weight: nat)
    requires |n.branches| == |n.weights| == BRANCHES && n'.level == n.level && b < BRANCHES
    requires n'.branches == n.branches[b := br] && n'.weights == n.weights[b := weight]
    ensures Chunks(n') == Chunks(n)[b := BranchSlots(br, weight, BranchCap(n.level))]
  {
  }

  lemma Revalid(n: Node, n': Node, b: nat, br: Branch, weight: nat)
    requires Valid(n) && |n.branches| == |n.weights| == BRANCHES && n'.level == n.level && n'.maxItems == n.maxItems && b < BRANCHES
    requires n'.branches == n.branches[b := br] && n'.weights == n.weights[b := weight] && BranchOk(br, weight, n.level)
    requires n'.sumWeight == Sum(Slots(n')) && n'.itemCnt == Count(Slots(n'))
    ensures Valid(n')
  {
  }

  /** The slot of the node's row that is slot `j` of branch `b`. */
  lemma SlotOf(n: Node, b: nat, j: nat)
    requires Valid(n) && b < BRANCHES && j < BranchCap(n.level)
    ensures var row := BranchSlots(n.branches[b], n.weights[b], BranchCap(n.level));
      var k := Times(b, BranchCap(n.level)) + j;
      j < |row| == BranchCap(n.level) && k < |Slots(n)| && Slots(n)[k] == row[j]
  {
    RowLength(n);
    ValidBranch(n, b);
    FlatAt(Chunks(n), BranchCap(n.level), b, j);
  }

  // ----- insert -----

  method NewNode(level: nat) returns (n: Node)
    ensures Valid(n) && n.level == level && Slots(n) == Blank(Capacity(level)) && n.itemCnt == 0
  {
    n := Node(level, Capacity(level), seq(BRANCHES, i => Nothing), seq(BRANCHES, i => 0), 0, 0);
    NewIsBlank(n);
  }

  lemma NewIsBlank(n: Node)
    requires n == Node(n.level, Capacity(n.level), seq(BRANCHES, i => Nothing), seq(BRANCHES, i => 0), 0, 0)
    ensures Valid(n) && Slots(n) == Blank(Capacity(n.level))
  {
    var c := BranchCap(n.level);
    assert forall i :: 0 <= i < BRANCHES ==> Chunks(n)[i] == Blank(c);
    BlankChunks(Chunks(n), c);
  }

  lemma {:induction false} BlankChunks(chunks: seq<seq<Slot>>, c: nat)
    requires forall i :: 0 <= i < |chunks| ==> chunks[i] == Blank(c)
    ensures Flat(chunks) == Blank(Times(|chunks|, c)) && Sum(Flat(chunks)) == 0 && Count(Flat(chunks)) == 0
  {
    BlankIsNothing(Times(|chunks|, c));
    if chunks != [] {
      BlankChunks(chunks[1..], c);
      assert Blank(c) + Blank(Times(|chunks| - 1, c)) == Blank(Times(|chunks|, c));
    }
  }

  /** Whether a branch has no room: the guard of insert's loop. */
  predicate BranchFull(n: Node, b: nat)
    requires b < |n.branches|
  {
    n.branches[b] != Nothing && (n.branches[b].Leaf? || n.branches[b].node.itemCnt == n.branches[b].node.maxItems)
  }

  lemma FullMeans(n: Node, b: nat)
    requires Valid(n) && b < BRANCHES
    ensures BranchFull(n, b) <==> Count(Chunks(n)[b]) == BranchCap(n.level)
  {
    ValidBranch(n, b);
    match n.branches[b]
    case Nothing => BlankIsNothing(BranchCap(n.level));
    case Leaf(item) =>
      var s := [Full(item, n.weights[b])];
      assert s[1..] == [];
    case Sub(_) =>
  }

  /** insert's search: some branch has room, so it never runs off the end. */
  method FindBranch(n: Node) returns (b: nat)
    requires Valid(n) && n.itemCnt < n.maxItems
    ensures b < BRANCHES && !BranchFull(n, b)
  {
    RowLength(n);
    RoomSomewhere(Chunks(n), BranchCap(n.level));
    ghost var room :| 0 <= room < BRANCHES && Count(Chunks(n)[room]) < BranchCap(n.level);
    FullMeans(n, room);
    b := 0;
    while BranchFull(n, b)
      invariant b <= room
      decreases room - b
    {
      b := b + 1;
    }
  }

  /** A branch with room: at level 0 it is empty, above it holds nothing or a sub node
      with room. */
  lemma RoomThere(n: Node, b: nat)
    requires Valid(n) && b < BRANCHES && !BranchFull(n, b)
    ensures |n.branches| == |n.weights| == BRANCHES && !n.branches[b].Leaf?
    ensures n.level == 0 ==> n.branches[b] == Nothing
    ensures n.level > 0 ==> BranchCap(n.level) == Capacity(n.level - 1)
    ensures n.branches[b] == Nothing ==> Row(n, b) == Blank(BranchCap(n.level))
    ensures n.branches[b].Sub? ==> SubIn(n, b, n.branches[b].node) && n.branches[b].node.itemCnt < n.branches[b].node.maxItems
  {
    ValidBranch(n, b);
    if n.branches[b].Sub? {
      var sub := n.branches[b].node;
      RowLength(sub);
      CountBound(Slots(sub));
    }
  }

  /** The slots of one branch. */
  function Row(n: Node, b: nat): seq<Slot>
    requires b < |n.branches| == |n.weights|
  {
    BranchSlots(n.branches[b], n.weights[b], BranchCap(n.level))
  }

  /** A node that has the slots of a branch. */
  ghost predicate SubIn(n: Node, b: nat, sub: Node)
    requires b < |n.branches| == |n.weights|
  {
    n.level > 0 && Valid(sub) && sub.level == n.level - 1 && Slots(sub) == Row(n, b)
  }

  lemma SubIs(n: Node, b: nat, sub: Node)
    requires b < |n.branches| == |n.weights| && SubIn(n, b, sub)
    ensures n.level > 0 && Valid(sub) && sub.level == n.level - 1 && Slots(sub) == Row(n, b)
    ensures sub.maxItems == BranchCap(n.level)
  {
  }

  lemma NewIn(n: Node, b: nat, sub: Node)
    requires Valid(n) && b < |n.branches| == |n.weights| && n.level > 0 && Row(n, b) == Blank(BranchCap(n.level))
    requires Valid(sub) && sub.level == n.level - 1 && Slots(sub) == Blank(Capacity(sub.level)) && sub.itemCnt == 0
    ensures SubIn(n, b, sub) && sub.itemCnt < sub.maxItems
  {
  }

  /** A leaf put where nothing was. */
  lemma LeafPut(n: Node, b: nat, item: Item, weight: Weight, n': Node)
    requires Valid(n) && n.level == 0 && b < BRANCHES && n.branches[b] == Nothing
    requires n' == n.(branches := n.branches[b := Leaf(item)], weights := n.weights[b := n.weights[b] + weight],
                      sumWeight := n.sumWeight + weight, itemCnt := n.itemCnt + 1)
    ensures Valid(n') && b < |Slots(n)| && Slots(n)[b] == Empty && Slots(n') == Slots(n)[b := Full(item, weight)]
  {
    ValidBranch(n, b);
    TimesIsProduct(b, 1);
    SlotOf(n, b, 0);
    assert BranchSlots(Leaf(item), weight, 1) == Blank(1)[0 := Full(item, weight)];
    Changed(n, b, Leaf(item), weight, 0, Full(item, weight), n');
  }

  /** A sub node changed in slot `j`, stored back. */
  lemma SubPut(n: Node, b: nat, sub: Node, sub': Node, j: nat, s: Slot, n': Node)
    requires Valid(n) && b < |n.branches| == |n.weights| == |n'.weights| && SubIn(n, b, sub) && j < |Slots(sub)|
    requires Valid(sub') && sub'.level == sub.level && Slots(sub') == Slots(sub)[j := s]
    requires n' == n.(branches := n.branches[b := Sub(sub')], weights := n.weights[b := n'.weights[b]],
                      sumWeight := n'.sumWeight, itemCnt := n'.itemCnt)
    requires var diff := WeightOf(s) - WeightOf(Slots(sub)[j]);
      n'.weights[b] == n.weights[b] + diff && n'.sumWeight == n.sumWeight + diff
    requires n'.itemCnt == n.itemCnt - Occupied(Slots(sub)[j]) + Occupied(s)
    ensures Valid(n') && Times(b, sub.maxItems) + j < |Slots(n)|
    ensures Slots(n)[Times(b, sub.maxItems) + j] == Slots(sub)[j]
    ensures Slots(n') == Slots(n)[Times(b, sub.maxItems) + j := s]
  {
    hide *;
    SubIs(n, b, sub);
    Sums(n);
    Sums(sub');
    RowIs(n, b);
    ValidBranch(n, b);
    BranchRow(n.branches[b], n.weights[b], n.level);
    SlotOf(n, b, j);
    Update(Slots(sub), j, s);
    SubFits(n.level, sub', n'.weights[b], BranchCap(n.level));
    Changed(n, b, Sub(sub'), n'.weights[b], j, s, n');
  }

  lemma RowIs(n: Node, b: nat)
    requires b < |n.branches| == |n.weights|
    ensures Row(n, b) == BranchSlots(n.branches[b], n.weights[b], BranchCap(n.level))
  {
  }

  lemma SubFits(level: nat, sub: Node, weight: nat, c: nat)
    requires level > 0 && Valid(sub) && sub.level == level - 1 && weight == sub.sumWeight
    ensures BranchOk(Sub(sub), weight, level) && BranchSlots(Sub(sub), weight, c) == Slots(sub)
  {
  }

  /** insert: the item goes into the first branch with room; the index returned is the
      slot it fills. */
  method Insert(n: Node, item: Item, weight: Weight) returns (n': Node, idx: nat)
    requires Valid(n) && n.itemCnt < n.maxItems
    ensures Valid(n') && n'.level == n.level && n'.sumWeight == n.sumWeight + weight
    ensures idx < |Slots(n)| && Slots(n)[idx] == Empty && Slots(n') == Slots(n)[idx := Full(item, weight)]
    decreases n.level
  {
    hide *;
    var b := FindBranch(n);
    RoomThere(n, b);
    n' := n.(itemCnt := n.itemCnt + 1, sumWeight := n.sumWeight + weight, weights := n.weights[b := n.weights[b] + weight]);
    if n.level == 0 {
      n' := n'.(branches := n.branches[b := Leaf(item)]);
      LeafPut(n, b, item, weight, n');
      idx := b;
    } else {
      var sub;
      if n.branches[b] == Nothing {
        sub := NewNode(n.level - 1);
        NewIn(n, b, sub);
      } else {
        sub := n.branches[b].node;
      }
      SubIs(n, b, sub);
      var sub', subIdx := Insert(sub, item, weight);
      n' := n'.(branches := n.branches[b := Sub(sub')]);
      Filling(item, weight);
      SubPut(n, b, sub, sub', subIdx, Full(item, weight), n');
      TimesIsProduct(b, sub.maxItems);
      idx := sub.maxItems * b + subIdx;
    }
  }

  lemma Filling(item: Item, weight: Weight)
    ensures WeightOf(Full(item, weight)) == weight && WeightOf(Empty) == 0
    ensures Occupied(Full(item, weight)) == 1 && Occupied(Empty) == 0
  {
  }

  // ----- setWeight -----

  /** What a slot holds once its item has a weight: nothing at weight zero. */
  function Holding(item: Item, weight: nat): (s: Slot)
    ensures WeightOf(s) == weight && Occupied(s) == if weight == 0 then 0 else 1
  {
    if weight == 0 then Empty else Full(item, weight)
  }

  lemma LeafThere(n: Node, idx: nat)
    requires Valid(n) && n.level == 0 && idx < |Slots(n)| && Slots(n)[idx].Full?
    ensures idx < BRANCHES == |n.branches| == |n.weights|
    ensures n.branches[idx] == Leaf(Slots(n)[idx].item) && n.weights[idx] == Slots(n)[idx].weight
    ensures Row(n, idx) == [Slots(n)[idx]] && BranchCap(0) == 1
  {
    RowLength(n);
    TimesIsProduct(BRANCHES, 1);
    TimesIsProduct(idx, 1);
    SlotOf(n, idx, 0);
    ValidBranch(n, idx);
  }

  lemma LeafSet(n: Node, idx: nat, weight: nat, n': Node)
    requires Valid(n) && n.level == 0 && idx < |Slots(n)| && Slots(n)[idx].Full? && idx < |n.branches| == |n.weights|
    requires var was := Slots(n)[idx]; n'.sumWeight == n.sumWeight + weight - was.weight && n'.itemCnt == if weight == 0 then n.itemCnt - 1 else n.itemCnt
    requires n' == n.(branches := if weight == 0 then n.branches[idx := Nothing] else n.branches,
                      weights := n.weights[idx := weight], sumWeight := n'.sumWeight, itemCnt := n'.itemCnt)
    ensures Valid(n') && Slots(n') == Slots(n)[idx := Holding(Slots(n)[idx].item, weight)]
  {
    LeafThere(n, idx);
    var item := Slots(n)[idx].item;
    var br := if weight == 0 then Nothing else Leaf(item);
    assert n'.branches == n.branches[idx := br];
    assert BranchSlots(br, weight, 1) == [Holding(item, weight)];
    TimesIsProduct(idx, 1);
    Changed(n, idx, br, weight, 0, Holding(item, weight), n');
  }

  /** The branch a slot index falls into, as setWeight computes it. */
  lemma Locate(n: Node, idx: nat, c: nat, b: nat, j: int)
    requires Valid(n) && n.level > 0 && idx < |Slots(n)| && Slots(n)[idx].Full?
    requires c == n.maxItems / BRANCHES && c > 0 && b == idx / c && j == idx - b * c
    ensures b < BRANCHES == |n.branches| == |n.weights|
    ensures n.branches[b].Sub? && SubIn(n, b, n.branches[b].node)
    ensures 0 <= j < |Slots(n.branches[b].node)| && Times(b, c) + j == idx && Slots(n.branches[b].node)[j] == Slots(n)[idx]
  {
    hide *;
    RowLength(n);
    Sums(n);
    BranchItems(n);
    Divide(idx, BRANCHES, c);
    TimesIsProduct(b, c);
    SlotOf(n, b, j);
    RowIs(n, b);
    FullBranch(n, b, j);
  }

  lemma BranchItems(n: Node)
    requires Valid(n)
    ensures BRANCHES == 8 && n.maxItems / 8 == BranchCap(n.level) > 0 && n.maxItems == BRANCHES * BranchCap(n.level)
  {
    TimesIsProduct(BRANCHES, BranchCap(n.level));
  }

  lemma FullBranch(n: Node, b: nat, j: nat)
    requires Valid(n) && n.level > 0 && b < BRANCHES == |n.branches| == |n.weights| && j < |Row(n, b)| && Row(n, b)[j].Full?
    ensures n.branches[b].Sub? && SubIn(n, b, n.branches[b].node)
  {
    ValidBranch(n, b);
  }

  lemma MultiplyUp(m: nat, q: nat, c: nat)
    ensures q >= m ==> q * c >= m * c
  {
    if q >= m {
      assert q * c == m * c + (q - m) * c;
    }
  }

  lemma Divide(x: nat, m: nat, c: nat)
    requires c > 0 && x < m * c
    ensures x / c < m && (x / c) * c <= x && x - (x / c) * c < c
  {
    var q, r := x / c, x % c;
    assert x == q * c + r;
    MultiplyUp(m, q, c);
  }

  /** setWeight: one slot gets its new weight, or is emptied at weight zero. */
  method SetWeight(n: Node, idx: nat, weight: nat) returns (n': Node, diff: int)
    requires Valid(n) && idx < |Slots(n)| && Slots(n)[idx].Full?
    ensures Valid(n') && n'.level == n.level && diff == weight - Slots(n)[idx].weight && n'.sumWeight == n.sumWeight + diff
    ensures Slots(n') == Slots(n)[idx := Holding(Slots(n)[idx].item, weight)]
    decreases n.level
  {
    hide *;
    HasItem(n, idx);
    if n.level == 0 {
      LeafThere(n, idx);
      var oldWeight := n.weights[idx];
      diff := weight - oldWeight;
      n' := n.(weights := n.weights[idx := weight], sumWeight := n.sumWeight + diff);
      if weight == 0 {
        n' := n'.(branches := n.branches[idx := Nothing], itemCnt := n.itemCnt - 1);
      }
      LeafSet(n, idx, weight, n');
    } else {
      BranchItems(n);
      var branchItems := n.maxItems / BRANCHES;
      var branch := idx / branchItems;
      var subIdx := idx - branch * branchItems;
      Locate(n, idx, branchItems, branch, subIdx);
      var sub := n.branches[branch].node;
      SubIs(n, branch, sub);
      var sub';
      sub', diff := SetWeight(sub, subIdx, weight);
      SubWeight(n, branch, sub, subIdx);
      n' := n.(branches := n.branches[branch := Sub(sub')], weights := n.weights[branch := n.weights[branch] + diff],
               sumWeight := n.sumWeight + diff, itemCnt := if weight == 0 then n.itemCnt - 1 else n.itemCnt);
      Filling(Slots(n)[idx].item, Slots(n)[idx].weight);
      SubPut(n, branch, sub, sub', subIdx, Holding(Slots(n)[idx].item, weight), n');
    }
  }

  lemma {:induction false} SlotIn(slots: seq<Slot>, k: nat)
    requires k < |slots|
    ensures WeightOf(slots[k]) <= Sum(slots) && Occupied(slots[k]) <= Count(slots)
  {
    if k > 0 { SlotIn(slots[1..], k - 1); }
  }

  lemma HasItem(n: Node, idx: nat)
    requires Valid(n) && idx < |Slots(n)| && Slots(n)[idx].Full?
    ensures n.itemCnt >= 1 && n.sumWeight >= Slots(n)[idx].weight
  {
    SlotIn(Slots(n), idx);
  }

  lemma SubWeight(n: Node, b: nat, sub: Node, j: nat)
    requires Valid(n) && b < BRANCHES && b < |n.branches| == |n.weights| && n.branches[b] == Sub(sub) && SubIn(n, b, sub)
    requires j < |Slots(sub)| && Slots(sub)[j].Full?
    ensures n.weights[b] >= Slots(sub)[j].weight
  {
    ValidBranch(n, b);
    SlotIn(Slots(sub), j);
  }

  // ----- choose -----

  /** choose: the item in whose stretch the value falls, with its weight. */
  method Choose(n: Node, val: nat) returns (item: Item, weight: Weight)
    requires Valid(n) && val < Sum(Slots(n))
    ensures Slots(n)[Pick(Slots(n), val)] == Full(item, weight)
    decreases n.level
  {
    hide *;
    Sums(n);
    var i, v := 0, val;
    ghost var chunks := Chunks(n);
    RowLength(n);
    Nothing0(chunks);
    while n.weights[i] <= v
      invariant i < BRANCHES && v == val - SumAll(chunks[..i])
      decreases BRANCHES - i
    {
      v := v - n.weights[i];
      Further(chunks, i);
      i := i + 1;
      if i == BRANCHES {
        Whole(n, chunks);
        assert false;
      }
    }
    PickInBranch(chunks, BranchCap(n.level), i, val);
    SlotsAre(n);
    PickedBranch(n, i, v);
    if n.level == 0 {
      item, weight := n.branches[i].item, n.weights[i];
    } else {
      item, weight := Choose(n.branches[i].node, v);
    }
  }

  lemma Nothing0(chunks: seq<seq<Slot>>)
    ensures SumAll(chunks[..0]) == 0
  {
  }

  lemma {:induction false} Further(chunks: seq<seq<Slot>>, i: nat)
    requires i < |chunks|
    ensures SumAll(chunks[..i + 1]) == SumAll(chunks[..i]) + Sum(chunks[i])
  {
    if i == 0 {
      assert chunks[..1][1..] == [];
    } else {
      Further(chunks[1..], i - 1);
      assert chunks[..i + 1][1..] == chunks[1..][..i];
      assert chunks[..i][1..] == chunks[1..][..i - 1];
    }
  }

  lemma Whole(n: Node, chunks: seq<seq<Slot>>)
    requires chunks == Chunks(n) && |chunks| == BRANCHES
    ensures SumAll(chunks[..BRANCHES]) == Sum(Slots(n))
  {
    FlatSums(chunks);
    assert chunks[..BRANCHES] == chunks;
  }

  /** The picked slot of the branch the value falls into. */
  lemma PickedBranch(n: Node, b: nat, v: nat)
    requires Valid(n) && b < BRANCHES == |Chunks(n)| && v < Sum(Chunks(n)[b])
    ensures |n.branches| == |n.weights| == BRANCHES
    ensures Times(b, BranchCap(n.level)) + Pick(Chunks(n)[b], v) < |Slots(n)|
    ensures Slots(n)[Times(b, BranchCap(n.level)) + Pick(Chunks(n)[b], v)] == Chunks(n)[b][Pick(Chunks(n)[b], v)]
    ensures n.level == 0 ==> n.branches[b].Leaf? && n.weights[b] > 0 && Chunks(n)[b] == [Full(n.branches[b].item, n.weights[b])]
    ensures n.level > 0 ==> n.branches[b].Sub? && Slots(n.branches[b].node) == Chunks(n)[b]
    ensures n.level > 0 ==> n.branches[b].node.level == n.level - 1 && Valid(n.branches[b].node)
  {
    ValidBranch(n, b);
    RowLength(n);
    BlankIsNothing(BranchCap(n.level));
    SlotOf(n, b, Pick(Chunks(n)[b], v));
  }

  // ----- a new level -----

  function Raised(n: Node): Node {
    Node(n.level + 1, n.maxItems * BRANCHES, [Sub(n)] + seq(BRANCHES - 1, i => Nothing), [n.sumWeight] + seq(BRANCHES - 1, i => 0), n.sumWeight, n.itemCnt)
  }

  /** A new level on top adds blank slots after those there were. */
  lemma RaisedRow(n: Node) returns (m: nat)
    requires Valid(n)
    ensures Valid(Raised(n)) && Slots(Raised(n)) == Slots(n) + Blank(m)
    ensures Raised(n).itemCnt == n.itemCnt < Raised(n).maxItems && Raised(n).sumWeight == n.sumWeight
  {
    var r, c := Raised(n), Capacity(n.level);
    m := Times(BRANCHES - 1, c);
    var chunks := Chunks(r);
    RaisedChunks(n, r, chunks);
    BlankChunks(chunks[1..], c);
    BlankIsNothing(Times(BRANCHES - 1, c));
    Concat(Slots(n), Blank(Times(BRANCHES - 1, c)));
    RowLength(n);
    CountBound(Slots(n));
    TimesIsProduct(BRANCHES, c);
    RaisedBranches(n);
  }

  lemma RaisedChunks(n: Node, r: Node, chunks: seq<seq<Slot>>)
    requires r == Raised(n) && chunks == Chunks(r)
    ensures |chunks| == BRANCHES && chunks[0] == Slots(n)
    ensures forall i :: 0 <= i < BRANCHES - 1 ==> chunks[1..][i] == Blank(Capacity(n.level))
  {
    ChunkAt(r, 0);
    forall i | 0 <= i < BRANCHES - 1 ensures chunks[1..][i] == Blank(Capacity(n.level)) { ChunkAt(r, i + 1); }
  }

  lemma ChunkAt(n: Node, i: nat)
    requires i < |n.branches| == |n.weights|
    ensures Chunks(n)[i] == BranchSlots(n.branches[i], n.weights[i], BranchCap(n.level))
  {
  }

  lemma RaisedBranches(n: Node)
    requires Valid(n)
    ensures forall i :: 0 <= i < BRANCHES ==> BranchOk(Raised(n).branches[i], Raised(n).weights[i], n.level + 1)
  {
  }

  lemma Bounded(n: Node)
    requires Valid(n)
    ensures n.itemCnt <= n.maxItems
  {
    RowLength(n);
    CountBound(Slots(n));
  }
}
