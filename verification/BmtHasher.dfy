/** The concurrent hasher of bmt/bmt.go as a state machine: one goroutine per
    section climbs the tree, stores its digest on its side of a node, toggles the
    node's counter and either leaves (first to arrive) or combines and climbs on.

    Write launches the goroutines of all sections but the last; Sum then marks the
    path of the last section (finalise) and launches the last one. Every launch, every
    single write of finalise and every store, toggle and combine is one atomic step, in
    any order the scheduler likes: goroutines already launched run while finalise walks.
 */
module BmtHasher {
  import opened BmtReference

  const MAX_INT32 := 0x7fff_ffff

  /** atomic.AddInt32 wraps around. */
  function WrapInt32(x: int): int { if x > MAX_INT32 then x - 0x1_0000_0000 else x }

  /** Go's `%` truncates towards zero. */
  function Rem2(x: int): int { if x >= 0 then x % 2 else -((-x) % 2) }

  /** The toggle makes exactly the first of two arrivals wait as long as the counter
      has not wrapped around; from then on the first arrival no longer waits. */
  lemma TogglePair(state: int)
    requires state % 2 == 0 && -0x8000_0000 <= state <= MAX_INT32
    ensures var first := WrapInt32(state + 1); var second := WrapInt32(first + 1);
      (Rem2(first) == 1 && Rem2(second) != 1) <==> state >= 0
  {
    if state < 0 {
      assert Rem2(state + 1) == -((-(state + 1)) % 2);
    }
  }

  datatype Node = Node(left: Bytes, right: Bytes, state: int, unbalanced: bool, root: bool)

  type Tree = map<Pos, Node>

  /** `secs` is the chunk cut into sections, `depth` the height of the tree,
      `base` the tree as it was taken from the pool. */
  datatype Config = Config(H: BaseHash, hs: nat, depth: nat, secs: seq<Bytes>, base: Tree)

  datatype Thread =
    | Hashing(s: Bytes, d: nat)                                   // writeSegment's goroutine, before run
    | Store(n: Pos, isLeft: bool, i: nat, d: nat, s: Bytes)       // top of run's loop
    | Toggle(n: Pos, isLeft: bool, i: nat, d: nat)                // value stored
    | Combine(n: Pos, isLeft: bool, i: nat, d: nat)               // past the toggle
    | Done

  /** Where finalise is: its node, the side it came from, and which of the node's three
      writes is next (the unbalanced flag, the right side, the root flag). */
  datatype Cursor = Cursor(n: Pos, isLeft: bool, field: nat)

  /** `finalised` says that finalise has returned, `cursor` where it is until then.
      `results` is what has been sent on the result channel. `carrier` is a history
      variable: which goroutine computed the value leaving a node. */
  datatype State = State(nodes: Tree, threads: seq<Thread>, cursor: Cursor, finalised: bool,
                         results: seq<Bytes>, carrier: map<Pos, nat>)

  datatype Action = Launch | Finalise | Run(t: nat)

  function Top(c: Config): Pos { Pos(c.depth, 0) }

  predicate InTree(depth: nat, p: Pos) { p.h <= depth && Lo(p) < Hi(Pos(depth, 0)) }

  /** Index of the last section. */
  function Last(c: Config): nat requires |c.secs| > 0 { |c.secs| - 1 }

  // ----- the sequential pieces -----

  /** The depth finalise returns. */
  function FinaliseDepth(n: Pos): nat
    decreases n.i
  {
    if n.i == 0 then 0 else 1 + FinaliseDepth(Parent(n))
  }

  /** Where Sum starts finalise, for the last section. */
  predicate StartsAtParent(c: Config)
    requires |c.secs| > 0
  {
    |c.secs[Last(c)]| > c.hs && Last(c) > 0 && c.depth > 0
  }
  function FinaliseStart(c: Config): Pos
    requires |c.secs| > 0
  {
    var leaf := Pos(0, Last(c));
    if StartsAtParent(c) then Parent(leaf) else leaf
  }
  predicate FinaliseIsLeft(c: Config)
    requires |c.secs| > 0
  {
    if StartsAtParent(c) then Last(c) % 2 == 0 else true
  }

  /** releaseTree: clear the flags from `n` up to the top. */
  function Release(depth: nat, nodes: Tree, n: Pos): Tree
    requires n.h <= depth
    decreases depth - n.h
  {
    if n !in nodes then nodes
    else
      var nodes' := nodes[n := nodes[n].(unbalanced := false, root := n.h == depth && nodes[n].root)];
      if n.h == depth then nodes' else Release(depth, nodes', Parent(n))
  }

  // ----- the steps -----

  function Init(c: Config): State
    requires |c.secs| > 0
  {
    State(c.base, [], Cursor(FinaliseStart(c), FinaliseIsLeft(c), 0), false, [], map[])
  }

  predicate Enabled(c: Config, s: State, a: Action)
    requires |c.secs| > 0
  {
    match a
    case Launch => if s.finalised then |s.threads| == Last(c) else |s.threads| < Last(c)
    case Finalise => !s.finalised && |s.threads| == Last(c) && s.cursor.n in s.nodes
    case Run(t) =>
      t < |s.threads| &&
      match s.threads[t]
      case Hashing(_, _) => Pos(0, t) in s.nodes
      case Store(n, _, _, _, _) => n in s.nodes
      case Toggle(n, _, _, _) => n in s.nodes
      case Combine(n, _, _, _) => n in s.nodes
      case Done => false
  }

  /** writeSegment: a full section is hashed by its goroutine, a short one (or one
      whose leaf has no parent) enters run at the leaf. */
  function Launched(c: Config, t: nat): Thread
    requires t < |c.secs|
  {
    var d := if t == Last(c) then FinaliseDepth(FinaliseStart(c)) else c.depth;
    if |c.secs[t]| > c.hs && c.depth > 0 then Hashing(c.secs[t], d)
    else Store(Pos(0, t), true, 2 * t, d, c.secs[t])
  }

  function Step(c: Config, s: State, a: Action): State
    requires |c.secs| > 0 && Enabled(c, s, a)
  {
    match a
    case Launch => s.(threads := s.threads + [Launched(c, |s.threads|)])
    case Finalise => Mark(s)
    case Run(t) =>
      match s.threads[t]
      case Hashing(x, d) => Leave(c, s, t, Pos(0, t), t, d, c.H(x))
      case Store(n, isLeft, i, d, x) =>
        var nd := if isLeft then s.nodes[n].(left := x) else s.nodes[n].(right := x);
        s.(nodes := s.nodes[n := nd], threads := s.threads[t := Toggle(n, isLeft, i, d)])
      case Toggle(n, isLeft, i, d) =>
        if s.nodes[n].unbalanced then
          s.(threads := s.threads[t := Combine(n, isLeft, i, d)])
        else
          var state := WrapInt32(s.nodes[n].state + 1);
          s.(nodes := s.nodes[n := s.nodes[n].(state := state)],
             threads := s.threads[t := if Rem2(state) == 1 then Done else Combine(n, isLeft, i, d)])
      case Combine(n, isLeft, i, d) =>
        var nd := s.nodes[n];
        var x := if !nd.unbalanced || !isLeft || (i == 0 && d == 0) then c.H(nd.left + nd.right)
                 else nd.left + nd.right;
        Leave(c, s, t, n, i + 1, d, x)
  }

  /** One write of finalise; after the last write of a node it returns at an initial
      node and climbs from any other. */
  function Mark(s: State): State
    requires s.cursor.n in s.nodes
  {
    var Cursor(n, isLeft, field) := s.cursor;
    var nd := s.nodes[n];
    if field == 0 then
      s.(nodes := s.nodes[n := nd.(unbalanced := isLeft)], cursor := Cursor(n, isLeft, 1))
    else if field == 1 then
      s.(nodes := s.nodes[n := nd.(right := [])], cursor := Cursor(n, isLeft, 2))
    else if n.i == 0 then
      s.(nodes := s.nodes[n := nd.(root := true)], finalised := true)
    else
      s.(cursor := Cursor(Parent(n), IsLeft(n), 0))
  }

  /** With the value of `n` in hand: deliver it if `n` is the root, else climb. */
  function Leave(c: Config, s: State, t: nat, n: Pos, i: nat, d: nat, x: Bytes): State
    requires t < |s.threads| && n in s.nodes
  {
    var s' := s.(carrier := s.carrier[n := t]);
    if s.nodes[n].root then s'.(threads := s.threads[t := Done], results := s.results + [x])
    else s'.(threads := s.threads[t := Store(Parent(n), IsLeft(n), i, d, x)])
  }

  // ----- the tree between uses -----

  /** A tree as the pool promises it: flags clear, every counter even and far
      enough from wrap-around for `uses` more chunks. */
  ghost predicate Clean(depth: nat, nodes: Tree, uses: nat) {
    && (forall p :: p in nodes <==> InTree(depth, p))
    && (forall p :: p in nodes ==> CleanNode(nodes[p], p == Pos(depth, 0), uses))
  }

  predicate CleanNode(n: Node, top: bool, uses: nat) {
    !n.unbalanced && n.root == top && n.state % 2 == 0 &&
    (uses > 0 ==> 0 <= n.state <= MAX_INT32 + 1 - 2 * uses)
  }

  ghost predicate WellFormed(c: Config) {
    && Sections(c.hs, c.secs)
    && |c.secs| <= Hi(Top(c))
    && Clean(c.depth, c.base, 1)
  }

  // ----- the effective root -----

  predicate OnPath(c: Config, p: Pos)
    requires |c.secs| > 0
  {
    Lo(p) <= Last(c) < Hi(p)
  }

  /** Height of the smallest left-edge subtree that holds every section. */
  function RootHeight(c: Config, h: nat): (r: nat)
    requires |c.secs| > 0 && h <= c.depth && Last(c) < Hi(Top(c))
    ensures h <= r <= c.depth
    decreases c.depth - h
  {
    if Last(c) < Hi(Pos(h, 0)) then h else RootHeight(c, h + 1)
  }

  lemma {:induction false} RootHeightLeast(c: Config, h: nat)
    requires |c.secs| > 0 && h <= c.depth && Last(c) < Hi(Top(c))
    ensures Last(c) < Hi(Pos(RootHeight(c, h), 0))
    ensures RootHeight(c, h) > h ==> Last(c) >= Hi(Pos(RootHeight(c, h) - 1, 0))
    ensures h > 0 && Last(c) >= Hi(Pos(h - 1, 0)) ==> Last(c) >= Hi(Pos(RootHeight(c, h) - 1, 0))
    decreases c.depth - h
  {
    if Last(c) >= Hi(Pos(h, 0)) { RootHeightLeast(c, h + 1); }
  }

  function Root(c: Config): Pos
    requires |c.secs| > 0 && Last(c) < Hi(Top(c))
  {
    Pos(RootHeight(c, 0), 0)
  }

  ghost predicate Within(c: Config, p: Pos)
    requires |c.secs| > 0 && Last(c) < Hi(Top(c))
  {
    Lo(p) <= Last(c) && p.h <= Root(c).h
  }

  function Val(c: Config, p: Pos): Bytes
    requires Lo(p) < |c.secs|
  {
    Value(c.H, c.hs, c.secs, p)
  }

  predicate RightEmpty(c: Config, q: Pos)
    requires q.h > 0
  {
    Lo(Right(q)) >= |c.secs|
  }

  lemma {:induction false} LeftEdge(h: nat)
    ensures Lo(Pos(h, 0)) == 0
  {
    if h > 0 { LeftEdge(h - 1); }
  }

  /** Only the root reaches the root's height. */
  lemma AtRootHeight(c: Config, p: Pos)
    requires |c.secs| > 0 && Last(c) < Hi(Top(c))
    requires Lo(p) <= Last(c)
    ensures p.h == Root(c).h ==> p == Root(c)
    ensures OnPath(c, p) && p.i == 0 ==> p.h >= Root(c).h
    ensures p.h > Root(c).h ==> p.i == 0
    ensures Within(c, p) && p.h < Root(c).h ==> Within(c, Parent(p)) && InTree(c.depth, p)
    ensures Within(c, p) ==> InTree(c.depth, p)
  {
    RootHeightLeast(c, 0);
    if p.h < Root(c).h && p.i == 0 { HiGrows(p.h, Root(c).h - 1); }
    if p.h >= Root(c).h && p.i > 0 {
      LoMonotone(p.h, 0, p.i);
      HiGrows(Root(c).h, p.h);
      assert false;
    }
    ParentCovers(p);
  }

  lemma {:induction false} HiGrows(h: nat, k: nat)
    requires h <= k
    ensures Hi(Pos(h, 0)) <= Hi(Pos(k, 0))
  {
    if h < k {
      HiGrows(h, k - 1);
      LeftmostGrows(Pos(k, 0), Pos(k - 1, 0));
    }
  }

  lemma LeftmostGrows(q: Pos, p: Pos)
    requires q.h > 0 && p == Left(q)
    ensures Hi(p) <= Hi(q)
  {
    Children(q);
  }
}
