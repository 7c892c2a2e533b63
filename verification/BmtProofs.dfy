/** Every interleaving of the concurrent hasher computes the reference hash. */
module BmtProofs {
  import opened BmtReference
  import opened BmtHasher

  // ----- how far the value of a position has got on the edge above it -----

  datatype Status = Absent | Carried | Stored | Crossing | Crossed

  function Stat(s: State, p: Pos): Status {
    if p !in s.carrier || s.carrier[p] >= |s.threads| then Absent
    else match s.threads[s.carrier[p]]
      case Store(n, isLeft, _, _, _) => if n == Parent(p) && isLeft == IsLeft(p) then Carried else Crossed
      case Toggle(n, isLeft, _, _) => if n == Parent(p) && isLeft == IsLeft(p) then Stored else Crossed
      case Combine(n, isLeft, _, _) => if n == Parent(p) && isLeft == IsLeft(p) then Crossing else Crossed
      case Hashing(_, _) => Crossed
      case Done => Crossed
  }

  predicate Toggled(st: Status) { st == Crossing || st == Crossed }
  predicate Written(st: Status) { st == Stored || Toggled(st) }
  function Count(st: Status): nat { if Toggled(st) then 1 else 0 }

  // ----- the invariant, for chunks of more than one section -----

  ghost predicate Sized(c: Config) { 1 < |c.secs| <= Hi(Top(c)) }

  ghost predicate Big(c: Config) { WellFormed(c) && |c.secs| > 1 }

  ghost predicate CarrierOk(c: Config, s: State)
    requires Sized(c)
  {
    forall p :: p in s.carrier ==>
      && Within(c, p)
      && s.carrier[p] < |s.threads|
      && Lo(p) <= s.carrier[p] < Hi(p)
      && (OnPath(c, p) ==> s.finalised)
  }

  /** A goroutine at node `n`, arriving from the given side. */
  ghost predicate AtNode(c: Config, s: State, t: nat, n: Pos, isLeft: bool, i: nat)
    requires Sized(c)
  {
    && i >= t
    && Within(c, n) && n !in s.carrier
    && (n.h == 0 ==> n == Pos(0, Last(c)) && t == Last(c) && isLeft && |c.secs[Last(c)]| <= c.hs)
    && (n.h > 0 ==>
          var p := if isLeft then Left(n) else Right(n);
          Lo(p) < |c.secs| && p in s.carrier && s.carrier[p] == t && Pos(0, t) in s.carrier)
  }

  /** What a goroutine at `n` has brought there. */
  function Brought(c: Config, n: Pos, isLeft: bool): Bytes
    requires |c.secs| > 0
  {
    if n.h == 0 then c.secs[Last(c)]
    else
      var p := if isLeft then Left(n) else Right(n);
      if Lo(p) < |c.secs| then Val(c, p) else []
  }

  ghost predicate ThreadOk(c: Config, s: State, t: nat)
    requires Sized(c) && t < |s.threads|
  {
    t < |c.secs| &&
    match s.threads[t]
    case Hashing(x, _) => x == c.secs[t] && |x| > c.hs && Pos(0, t) !in s.carrier
    case Store(n, isLeft, i, _, x) => AtNode(c, s, t, n, isLeft, i) && x == Brought(c, n, isLeft)
    case Toggle(n, isLeft, i, _) =>
      && AtNode(c, s, t, n, isLeft, i)
      && (n.h == 0 ==> n in s.nodes && s.nodes[n].left == Brought(c, n, isLeft))
    case Combine(n, isLeft, i, _) =>
      && AtNode(c, s, t, n, isLeft, i)
      && (n.h == 0 ==> n in s.nodes && s.nodes[n].left == Brought(c, n, isLeft))
    case Done => Pos(0, t) in s.carrier
  }

  /** The bookkeeping of one inner node against the state of its two sides, whose
      values are `vl` and `vr`. */
  predicate Book(nd: Node, base: int, l: Status, r: Status, vl: Bytes, vr: Bytes,
                 rightEmpty: bool, finalised: bool, carried: bool)
  {
    && (Written(l) ==> nd.left == vl)
    && if rightEmpty then
         && (finalised ==> nd.right == [])
         && nd.state == base
         && (carried <==> l == Crossed)
       else
         && (Written(r) ==> nd.right == vr)
         && nd.state == WrapInt32(base + Count(l) + Count(r))
         && (l == Crossing ==> r == Crossed) && (r == Crossing ==> l == Crossed)
         && (carried <==> l == Crossed && r == Crossed)
  }

  /** finalise has done the given write at this height. */
  predicate Passed(s: State, q: Pos, field: nat) {
    s.finalised || s.cursor.n.h > q.h || (s.cursor.n.h == q.h && s.cursor.field >= field)
  }

  ghost predicate NodeOk(c: Config, s: State, q: Pos)
    requires |c.secs| > 0 && q.h > 0
  {
    && q in s.nodes && q in c.base && Lo(Left(q)) < |c.secs|
    && Book(s.nodes[q], c.base[q].state, Stat(s, Left(q)), Stat(s, Right(q)),
            Val(c, Left(q)), Brought(c, q, false), RightEmpty(c, q), Passed(s, q, 2), q in s.carrier)
  }

  /** The flags Sum's finalise leaves on `q`. */
  predicate Marked(c: Config, q: Pos)
    requires |c.secs| > 0 && Last(c) < Hi(Top(c))
  {
    OnPath(c, q) && FinaliseStart(c).h <= q.h <= Root(c).h
  }

  ghost predicate FlagsOk(c: Config, s: State)
    requires Sized(c)
  {
    forall q :: q in s.nodes ==> FlagOk(c, s, q)
  }

  ghost predicate FlagOk(c: Config, s: State, q: Pos)
    requires Sized(c) && q in s.nodes
  {
    && (s.nodes[q].unbalanced <==> Passed(s, q, 1) && Marked(c, q) && (q.h == 0 || RightEmpty(c, q)))
    && (s.nodes[q].root <==> q == Top(c) || (s.finalised && q == Root(c)))
    && (q.h == 0 && Marked(c, q) && Passed(s, q, 2) ==> s.nodes[q].right == [])
    && q in c.base && (!Within(c, q) || q.h == 0 ==> s.nodes[q].state == c.base[q].state)
  }

  /** Until it returns, finalise is on the path of the last section. */
  ghost predicate CursorOk(c: Config, s: State)
    requires Sized(c)
  {
    !s.finalised ==>
      && Marked(c, s.cursor.n) && s.cursor.field <= 2
      && s.cursor.isLeft == (s.cursor.n.h == 0 || RightEmpty(c, s.cursor.n))
  }

  ghost predicate Inv(c: Config, s: State)
    requires Sized(c)
  {
    && Shape(c.depth, s.nodes)
    && |s.threads| <= |c.secs| && (|s.threads| == |c.secs| ==> s.finalised)
    && (s.finalised ==> |s.threads| >= Last(c))
    && CursorOk(c, s)
    && CarrierOk(c, s)
    && ThreadsOk(c, s)
    && NodesOk(c, s)
    && FlagsOk(c, s)
    && s.results == (if Root(c) in s.carrier then [Val(c, Root(c))] else [])
  }

  ghost predicate ThreadsOk(c: Config, s: State)
    requires Sized(c)
  {
    forall t :: 0 <= t < |s.threads| ==> ThreadOk(c, s, t)
  }

  ghost predicate Shape(depth: nat, nodes: Tree) {
    forall p :: p in nodes <==> InTree(depth, p)
  }

  ghost predicate NodesOk(c: Config, s: State)
    requires Sized(c)
  {
    forall q {:trigger NodeOk(c, s, q)} :: Within(c, q) && q.h > 0 ==> NodeOk(c, s, q)
  }

  // ----- facts about the root -----

  lemma RootFacts(c: Config)
    requires Sized(c)
    ensures c.depth > 0
    ensures Root(c).h > 0 && !RightEmpty(c, Root(c)) && OnPath(c, Root(c)) && Within(c, Root(c))
    ensures Lo(Root(c)) == 0
  {
    var r := Root(c);
    RootHeightLeast(c, 0);
    LeftEdge(r.h);
    assert Hi(Pos(0, 0)) == 1;
    Children(r);
    assert Left(r) == Pos(r.h - 1, 0);
  }

  /** Within the tree, a node off the last section's path has both sides, and
      exactly one side of a node on the path is on the path. */
  lemma PathSplits(c: Config, q: Pos)
    requires Sized(c) && Within(c, q) && q.h > 0
    ensures Within(c, Left(q)) && Lo(Left(q)) < |c.secs|
    ensures !RightEmpty(c, q) ==> Within(c, Right(q)) && Lo(Right(q)) < |c.secs|
    ensures !OnPath(c, q) ==> !RightEmpty(c, q) && !OnPath(c, Left(q)) && !OnPath(c, Right(q))
    ensures OnPath(c, q) && RightEmpty(c, q) ==> OnPath(c, Left(q))
    ensures OnPath(c, q) && !RightEmpty(c, q) ==> OnPath(c, Right(q)) && !OnPath(c, Left(q))
    ensures RightEmpty(c, q) ==> q.i > 0 && Lo(q) > 0
  {
    Children(q);
    if RightEmpty(c, q) {
      AtRootHeight(c, q);
      RootFacts(c);
      LoMonotone(q.h, 0, q.i);
      LoBelowHi(Pos(q.h, 0));
    }
  }

  // ----- preservation, step by step -----

  lemma InvInit(c: Config)
    requires Big(c)
    ensures Inv(c, Init(c))
  {
    var s := Init(c);
    FinaliseStartOk(c);
    forall q | Within(c, q) && q.h > 0 ensures NodeOk(c, s, q) {
      AtRootHeight(c, q);
      PathSplits(c, q);
    }
    assert FlagsOk(c, s);
  }

  lemma LaunchThread(c: Config, s: State, u: nat)
    requires Big(c) && Enabled(c, s, Launch) && u <= |s.threads|
    requires CarrierOk(c, s)
    requires u < |s.threads| ==> ThreadOk(c, s, u)
    ensures ThreadOk(c, Step(c, s, Launch), u)
  {
    if u == |s.threads| {
      RootFacts(c);
      assert Lo(Pos(0, u)) == u && Hi(Pos(0, u)) == u + 1;
    }
  }

  lemma LaunchNode(c: Config, s: State, q: Pos)
    requires Sized(c) && Enabled(c, s, Launch) && Within(c, q) && q.h > 0
    requires forall p :: p in s.carrier ==> s.carrier[p] < |s.threads|
    requires NodeOk(c, s, q)
    ensures NodeOk(c, Step(c, s, Launch), q)
  {
    var s' := Step(c, s, Launch);
    assert Stat(s', Left(q)) == Stat(s, Left(q)) && Stat(s', Right(q)) == Stat(s, Right(q));
  }

  lemma FlagsStay(c: Config, s: State, s': State)
    requires Sized(c) && FlagsOk(c, s)
    requires s'.nodes == s.nodes && s'.finalised == s.finalised && s'.cursor == s.cursor
    ensures FlagsOk(c, s')
  {
    forall q | q in s.nodes ensures FlagOk(c, s', q) { assert FlagOk(c, s, q); }
  }

  lemma InvLaunch(c: Config, s: State)
    requires Big(c) && Inv(c, s) && Enabled(c, s, Launch)
    ensures Inv(c, Step(c, s, Launch))
  {
    hide NodeOk, FlagOk, ThreadOk, OnPath, Marked, Launched;
    var s' := Step(c, s, Launch);
    FlagsStay(c, s, s');
    forall u | 0 <= u < |s'.threads| ensures ThreadOk(c, s', u) { LaunchThread(c, s, u); }
    forall q | Within(c, q) && q.h > 0 ensures NodeOk(c, s', q) { LaunchNode(c, s, q); }
  }

  /** The node a goroutine stores into. */
  lemma StoreHere(c: Config, s: State, t: nat)
    requires Sized(c) && t < |s.threads| && s.threads[t].Store? && Enabled(c, s, Run(t))
    requires ThreadOk(c, s, t) && CarrierOk(c, s)
    requires s.threads[t].n.h > 0 && NodeOk(c, s, s.threads[t].n)
    ensures NodeOk(c, Step(c, s, Run(t)), s.threads[t].n)
  {
    var s' := Step(c, s, Run(t));
    var Store(q, isLeft, i, d, x) := s.threads[t];
    Children(q);
    var p, o := if isLeft then Left(q) else Right(q), if isLeft then Right(q) else Left(q);
    assert Stat(s, p) == Carried && Stat(s', p) == Stored;
    assert Stat(s', o) == Stat(s, o);
  }

  /** The inner node a goroutine is at; leaf positions stand for "none". */
  function At(th: Thread): Pos {
    match th
    case Store(n, _, _, _, _) => n
    case Toggle(n, _, _, _) => n
    case Combine(n, _, _, _) => n
    case Hashing(_, _) => Pos(0, 0)
    case Done => Pos(0, 0)
  }

  predicate SideOf(th: Thread) {
    match th
    case Store(_, isLeft, _, _, _) => isLeft
    case Toggle(_, isLeft, _, _) => isLeft
    case Combine(_, isLeft, _, _) => isLeft
    case _ => true
  }

  /** Moving a goroutine that is not on the edge above `p` does not concern `p`. */
  lemma StatFrame(s: State, s': State, t: nat, p: Pos)
    requires t < |s.threads| == |s'.threads| && s'.threads == s.threads[t := s'.threads[t]]
    requires p in s.carrier <==> p in s'.carrier
    requires p in s.carrier ==> s.carrier[p] == s'.carrier[p]
    requires At(s.threads[t]) == Parent(p) ==> SideOf(s.threads[t]) != IsLeft(p)
    requires At(s'.threads[t]) == Parent(p) ==> SideOf(s'.threads[t]) != IsLeft(p)
    ensures Stat(s', p) == Stat(s, p)
  {
  }

  /** Any other node: nothing it depends on has moved. */
  lemma ElsewhereNode(c: Config, s: State, s': State, t: nat, q: Pos)
    requires |c.secs| > 0 && q.h > 0 && NodeOk(c, s, q)
    requires q in s'.nodes && s'.nodes[q] == s.nodes[q] && s'.finalised == s.finalised && s'.cursor == s.cursor
    requires forall p :: p == q || p == Left(q) || p == Right(q) ==>
               (p in s.carrier <==> p in s'.carrier) && (p in s.carrier ==> s.carrier[p] == s'.carrier[p])
    requires t < |s.threads| == |s'.threads| && s'.threads == s.threads[t := s'.threads[t]]
    requires At(s.threads[t]) != q && At(s'.threads[t]) != q
    ensures NodeOk(c, s', q)
  {
    assert Parent(Left(q)) == q && Parent(Right(q)) == q;
    StatFrame(s, s', t, Left(q));
    StatFrame(s, s', t, Right(q));
  }

  /** Touching stored values and counters leaves shape and flags alone. */
  lemma FlagsFrame(c: Config, s: State, s': State, n: Pos, nd: Node)
    requires Sized(c) && FlagsOk(c, s) && Shape(c.depth, s.nodes)
    requires n in s.nodes && s'.finalised == s.finalised && s'.cursor == s.cursor && s'.nodes == s.nodes[n := nd]
    requires nd.unbalanced == s.nodes[n].unbalanced && nd.root == s.nodes[n].root
    requires n.h == 0 ==> nd.right == s.nodes[n].right
    requires !Within(c, n) || n.h == 0 ==> nd.state == s.nodes[n].state
    ensures FlagsOk(c, s') && Shape(c.depth, s'.nodes)
  {
  }

  lemma StoreThreads(c: Config, s: State, t: nat)
    requires Sized(c) && t < |s.threads| && s.threads[t].Store? && Enabled(c, s, Run(t))
    requires ThreadsOk(c, s)
    ensures ThreadsOk(c, Step(c, s, Run(t)))
  {
    assert ThreadOk(c, s, t);
    forall u | 0 <= u < |s.threads| ensures ThreadOk(c, Step(c, s, Run(t)), u) {
      assert ThreadOk(c, s, u);
    }
  }

  lemma StoreNodes(c: Config, s: State, t: nat)
    requires Sized(c) && t < |s.threads| && s.threads[t].Store? && Enabled(c, s, Run(t))
    requires ThreadOk(c, s, t) && CarrierOk(c, s) && NodesOk(c, s)
    ensures NodesOk(c, Step(c, s, Run(t)))
  {
    var s' := Step(c, s, Run(t));
    forall q | Within(c, q) && q.h > 0 ensures NodeOk(c, s', q) {
      if q == s.threads[t].n { StoreHere(c, s, t); } else { ElsewhereNode(c, s, s', t, q); }
    }
  }

  lemma InvStore(c: Config, s: State, t: nat, s': State)
    requires Sized(c) && Inv(c, s) && t < |s.threads| && s.threads[t].Store? && Enabled(c, s, Run(t))
    requires s' == Step(c, s, Run(t))
    ensures Inv(c, s')
  {
    assert ThreadOk(c, s, t);
    var n := s.threads[t].n;
    FlagsFrame(c, s, s', n, s'.nodes[n]);
    StoreThreads(c, s, t);
    StoreNodes(c, s, t);
  }

  // ----- toggling -----

  /** The flag a goroutine reads tells whether its node has a right side. */
  lemma FlagTells(c: Config, s: State, t: nat, n: Pos, isLeft: bool, i: nat)
    requires Sized(c) && CarrierOk(c, s) && FlagsOk(c, s) && n in s.nodes
    requires |s.threads| <= |c.secs| && (|s.threads| == |c.secs| ==> s.finalised)
    requires t < |s.threads| && AtNode(c, s, t, n, isLeft, i)
    ensures n.h == 0 ==> s.nodes[n].unbalanced && s.nodes[n].right == []
    ensures n.h > 0 ==> s.nodes[n].unbalanced == RightEmpty(c, n)
    ensures n.h > 0 && RightEmpty(c, n) ==> s.finalised && isLeft && t > 0
  {
    if n.h > 0 {
      PathSplits(c, n);
      Children(n);
    } else {
      assert Lo(n) == n.i && Hi(n) == n.i + 1;
    }
  }

  /** The toggle on plain values: the side `p` that toggles was stored; the first
      of two leaves for good, the second goes on. */
  lemma ToggleBook(nd: Node, base: int, l: Status, r: Status, vl: Bytes, vr: Bytes, fin: bool, carried: bool, isLeft: bool)
    requires Book(nd, base, l, r, vl, vr, false, fin, carried)
    requires base % 2 == 0 && 0 <= base < MAX_INT32
    requires (if isLeft then l else r) == Stored
    ensures
      var state := WrapInt32(nd.state + 1);
      var st := if Rem2(state) == 1 then Crossed else Crossing;
      Book(nd.(state := state), base, if isLeft then st else l, if isLeft then r else st, vl, vr, false, fin, carried)
  {
  }

  /** What a toggle does to the two sides of its node. */
  lemma ToggleStats(c: Config, s: State, t: nat)
    requires Sized(c) && t < |s.threads| && s.threads[t].Toggle? && Enabled(c, s, Run(t))
    requires ThreadOk(c, s, t) && s.threads[t].n.h > 0
    ensures
      var s', n, isLeft := Step(c, s, Run(t)), s.threads[t].n, s.threads[t].isLeft;
      var p, o := if isLeft then Left(n) else Right(n), if isLeft then Right(n) else Left(n);
      && Stat(s, p) == Stored && Stat(s', o) == Stat(s, o)
      && Stat(s', p) == if s.nodes[n].unbalanced || Rem2(WrapInt32(s.nodes[n].state + 1)) != 1 then Crossing else Crossed
  {
    hide OnPath, Brought, Val, Within, WrapInt32, Rem2, IsLeft, Parent;
    var s', n, isLeft := Step(c, s, Run(t)), s.threads[t].n, s.threads[t].isLeft;
    Children(n);
    StatFrame(s, s', t, if isLeft then Right(n) else Left(n));
  }

  lemma ToggleHere(c: Config, s: State, t: nat)
    requires Big(c) && t < |s.threads| && s.threads[t].Toggle? && Enabled(c, s, Run(t))
    requires ThreadOk(c, s, t)
    requires s.threads[t].n.h > 0 && NodeOk(c, s, s.threads[t].n)
    requires s.nodes[s.threads[t].n].unbalanced == RightEmpty(c, s.threads[t].n)
    ensures NodeOk(c, Step(c, s, Run(t)), s.threads[t].n)
  {
    hide Stat, OnPath, Brought, Val, Within;
    var Toggle(q, isLeft, i, d) := s.threads[t];
    Children(q);
    ToggleStats(c, s, t);
    if !RightEmpty(c, q) {
      assert CleanNode(c.base[q], q == Top(c), 1);
      ToggleBook(s.nodes[q], c.base[q].state, Stat(s, Left(q)), Stat(s, Right(q)), Val(c, Left(q)), Brought(c, q, false),
                 Passed(s, q, 2), q in s.carrier, isLeft);
    }
  }

  lemma ToggleNode(c: Config, s: State, t: nat, q: Pos)
    requires Big(c) && t < |s.threads| && s.threads[t].Toggle? && Enabled(c, s, Run(t))
    requires ThreadOk(c, s, t) && q.h > 0 && NodeOk(c, s, q)
    requires s.threads[t].n.h > 0 ==> s.nodes[s.threads[t].n].unbalanced == RightEmpty(c, s.threads[t].n)
    ensures NodeOk(c, Step(c, s, Run(t)), q)
  {
    if q == s.threads[t].n { ToggleHere(c, s, t); } else { ElsewhereNode(c, s, Step(c, s, Run(t)), t, q); }
  }

  lemma ToggleNodes(c: Config, s: State, t: nat)
    requires Big(c) && t < |s.threads| && s.threads[t].Toggle? && Enabled(c, s, Run(t))
    requires ThreadOk(c, s, t) && NodesOk(c, s)
    requires s.threads[t].n.h > 0 ==> s.nodes[s.threads[t].n].unbalanced == RightEmpty(c, s.threads[t].n)
    ensures NodesOk(c, Step(c, s, Run(t)))
  {
    var s' := Step(c, s, Run(t));
    forall q | Within(c, q) && q.h > 0 ensures NodeOk(c, s', q) {
      NodeAt(c, s, q);
      ToggleNode(c, s, t, q);
    }
  }

  lemma ToggleThread(c: Config, s: State, t: nat, u: nat)
    requires Sized(c) && t < |s.threads| && s.threads[t].Toggle? && Enabled(c, s, Run(t))
    requires u < |s.threads| && ThreadOk(c, s, u) && ThreadOk(c, s, t)
    requires s.threads[t].n.h == 0 ==> s.nodes[s.threads[t].n].unbalanced
    ensures ThreadOk(c, Step(c, s, Run(t)), u)
  {
  }

  lemma ToggleThreads(c: Config, s: State, t: nat)
    requires Sized(c) && t < |s.threads| && s.threads[t].Toggle? && Enabled(c, s, Run(t))
    requires ThreadsOk(c, s)
    requires s.threads[t].n.h == 0 ==> s.nodes[s.threads[t].n].unbalanced
    ensures ThreadsOk(c, Step(c, s, Run(t)))
  {
    forall u | 0 <= u < |s.threads| ensures ThreadOk(c, Step(c, s, Run(t)), u) {
      ThreadAt(c, s, t);
      ThreadAt(c, s, u);
      ToggleThread(c, s, t, u);
    }
  }

  lemma ToggleFlags(c: Config, s: State, t: nat, n: Pos)
    requires Sized(c) && t < |s.threads| && s.threads[t].Toggle? && s.threads[t].n == n && Enabled(c, s, Run(t))
    requires FlagsOk(c, s) && Shape(c.depth, s.nodes) && Within(c, n)
    requires n.h == 0 ==> s.nodes[n].unbalanced
    ensures FlagsOk(c, Step(c, s, Run(t))) && Shape(c.depth, Step(c, s, Run(t)).nodes)
  {
    var s' := Step(c, s, Run(t));
    if s.nodes[n].unbalanced {
      assert s'.nodes == s.nodes;
    } else {
      FlagsFrame(c, s, s', n, s'.nodes[n]);
    }
  }

  lemma InvToggle(c: Config, s: State, t: nat, s': State)
    requires Big(c) && Inv(c, s) && t < |s.threads| && s.threads[t].Toggle? && Enabled(c, s, Run(t))
    requires s' == Step(c, s, Run(t))
    ensures Inv(c, s')
  {
    ThreadAt(c, s, t);
    var Toggle(n, isLeft, i, d) := s.threads[t];
    FlagTells(c, s, t, n, isLeft, i);
    ToggleFlags(c, s, t, n);
    ToggleThreads(c, s, t);
    ToggleNodes(c, s, t);
  }

  // ----- leaving a node with its value -----

  /** A goroutine about to leave `n` upwards: from hashing its section, or past
      the toggle of `n`. */
  ghost predicate Leaving(c: Config, s: State, t: nat, n: Pos)
    requires Sized(c)
  {
    && t < |s.threads| && Within(c, n) && n in s.nodes && n !in s.carrier
    && match s.threads[t]
       case Hashing(_, _) => n == Pos(0, t)
       case Combine(m, isLeft, _, _) => m == n
       case _ => false
  }

  lemma LeaveHere(c: Config, s: State, s': State, t: nat, n: Pos, i: nat, d: nat, x: Bytes)
    requires Sized(c) && Leaving(c, s, t, n) && ThreadOk(c, s, t)
    requires s' == Leave(c, s, t, n, i, d, x)
    requires n.h > 0 && NodeOk(c, s, n)
    ensures NodeOk(c, s', n)
  {
    assert Parent(Left(n)) == n && Parent(Right(n)) == n && IsLeft(Left(n)) && !IsLeft(Right(n));
    var isLeft := s.threads[t].isLeft;
    var p, o := if isLeft then Left(n) else Right(n), if isLeft then Right(n) else Left(n);
    assert Stat(s, p) == Crossing && Stat(s', p) == Crossed;
    StatFrame(s, s', t, o);
  }

  lemma LeaveAbove(c: Config, s: State, s': State, t: nat, n: Pos, i: nat, d: nat, x: Bytes)
    requires |c.secs| > 0 && t < |s.threads| && n in s.nodes && n !in s.carrier && !s.nodes[n].root
    requires s' == Leave(c, s, t, n, i, d, x)
    requires At(s.threads[t]) != Parent(n)
    requires NodeOk(c, s, Parent(n))
    ensures NodeOk(c, s', Parent(n))
  {
    var q := Parent(n);
    var o := if IsLeft(n) then Right(q) else Left(q);
    assert n == (if IsLeft(n) then Left(q) else Right(q)) && Parent(o) == q && IsLeft(o) != IsLeft(n);
    assert Stat(s, n) == Absent && Stat(s', n) == Carried;
    StatFrame(s, s', t, o);
  }

  lemma LeaveNode(c: Config, s: State, s': State, t: nat, n: Pos, i: nat, d: nat, x: Bytes, q: Pos)
    requires Sized(c) && Leaving(c, s, t, n) && ThreadOk(c, s, t)
    requires q.h > 0 && NodeOk(c, s, q)
    requires s.nodes[n].root ==> q != Parent(n)
    requires s' == Leave(c, s, t, n, i, d, x)
    ensures NodeOk(c, s', q)
  {
    if q == n {
      LeaveHere(c, s, s', t, n, i, d, x);
    } else if q == Parent(n) {
      LeaveAbove(c, s, s', t, n, i, d, x);
    } else {
      ElsewhereNode(c, s, s', t, q);
    }
  }

  lemma LeaveNodes(c: Config, s: State, s': State, t: nat, n: Pos, i: nat, d: nat, x: Bytes)
    requires Sized(c) && Leaving(c, s, t, n) && ThreadOk(c, s, t) && NodesOk(c, s)
    requires s.nodes[n].root <==> n == Root(c)
    requires s' == Leave(c, s, t, n, i, d, x)
    ensures NodesOk(c, s')
  {
    forall q | Within(c, q) && q.h > 0 ensures NodeOk(c, s', q) {
      assert NodeOk(c, s, q);
      LeaveNode(c, s, s', t, n, i, d, x, q);
    }
  }

  /** No two goroutines are past the toggle of the same node. */
  lemma Alone(c: Config, s: State, t: nat, n: Pos, u: nat)
    requires Sized(c) && Leaving(c, s, t, n) && ThreadOk(c, s, t)
    requires u < |s.threads| && u != t && ThreadOk(c, s, u)
    requires n.h > 0 ==> NodeOk(c, s, n)
    ensures At(s.threads[u]) == n && (s.threads[u].Store? || s.threads[u].Toggle? || s.threads[u].Combine?) ==> false
    ensures s.threads[u].Hashing? ==> n != Pos(0, u)
  {
    if n.h > 0 {
      assert Parent(Left(n)) == n && Parent(Right(n)) == n && IsLeft(Left(n)) && !IsLeft(Right(n));
    }
  }

  lemma AtNodeFrame(c: Config, s: State, s': State, n: Pos, t: nat, u: nat, m: Pos, isLeft: bool, i: nat)
    requires Sized(c) && AtNode(c, s, u, m, isLeft, i) && m != n
    requires n !in s.carrier && s'.carrier == s.carrier[n := t]
    ensures AtNode(c, s', u, m, isLeft, i)
  {
  }

  lemma LeaveThread(c: Config, s: State, s': State, t: nat, n: Pos, i: nat, d: nat, x: Bytes, u: nat)
    requires Sized(c) && Leaving(c, s, t, n) && ThreadOk(c, s, t)
    requires u < |s.threads| && u != t && ThreadOk(c, s, u)
    requires n.h > 0 ==> NodeOk(c, s, n)
    requires s' == Leave(c, s, t, n, i, d, x)
    ensures ThreadOk(c, s', u)
  {
    Alone(c, s, t, n, u);
    assert s'.carrier == s.carrier[n := t] && s'.nodes == s.nodes && s'.threads[u] == s.threads[u];
    match s.threads[u] {
      case Store(m, isLeft, k, _, _) => AtNodeFrame(c, s, s', n, t, u, m, isLeft, k);
      case Toggle(m, isLeft, k, _) => AtNodeFrame(c, s, s', n, t, u, m, isLeft, k);
      case Combine(m, isLeft, k, _) => AtNodeFrame(c, s, s', n, t, u, m, isLeft, k);
      case Hashing(_, _) =>
      case Done =>
    }
  }

  lemma LeaverThread(c: Config, s: State, s': State, t: nat, n: Pos, i: nat, d: nat, x: Bytes)
    requires Sized(c) && Leaving(c, s, t, n) && ThreadOk(c, s, t) && i >= t && x == Val(c, n)
    requires s.nodes[n].root <==> n == Root(c)
    requires n != Root(c) && Within(c, Parent(n)) ==> NodeOk(c, s, Parent(n))
    requires s' == Leave(c, s, t, n, i, d, x)
    ensures ThreadOk(c, s', t)
  {
    AtRootHeight(c, n);
    ParentCovers(n);
    if n != Root(c) {
      var q := Parent(n);
      assert Within(c, q);
      assert Stat(s, n) == Absent;
      assert q !in s.carrier;
    }
  }

  lemma LeaveCarrier(c: Config, s: State, s': State, t: nat, n: Pos, i: nat, d: nat, x: Bytes)
    requires Sized(c) && Leaving(c, s, t, n) && CarrierOk(c, s)
    requires Lo(n) <= t < Hi(n) && (OnPath(c, n) ==> s.finalised)
    requires s' == Leave(c, s, t, n, i, d, x)
    ensures CarrierOk(c, s')
  {
  }

  /** The value a goroutine past the toggle computes is the value of its node. */
  lemma CombinedValue(c: Config, s: State, t: nat, n: Pos, isLeft: bool, i: nat, d: nat)
    requires Sized(c) && t < |s.threads| && s.threads[t] == Combine(n, isLeft, i, d) && ThreadOk(c, s, t)
    requires n in s.nodes
    requires n.h == 0 ==> s.nodes[n].unbalanced && s.nodes[n].right == []
    requires n.h > 0 ==> s.nodes[n].unbalanced == RightEmpty(c, n) && NodeOk(c, s, n)
    requires n.h > 0 && RightEmpty(c, n) ==> s.finalised && isLeft && t > 0
    ensures Step(c, s, Run(t)) == Leave(c, s, t, n, i + 1, d, Val(c, n))
  {
    var nd := s.nodes[n];
    if n.h == 0 {
      assert nd.left + nd.right == c.secs[Last(c)];
    } else {
      assert Parent(Left(n)) == n && Parent(Right(n)) == n && IsLeft(Left(n)) && !IsLeft(Right(n));
      var p := if isLeft then Left(n) else Right(n);
      assert Stat(s, p) == Crossing;
      if RightEmpty(c, n) {
        assert nd.left + nd.right == nd.left;
      }
    }
  }

  lemma InvLeave(c: Config, s: State, t: nat, n: Pos, i: nat, d: nat, s': State)
    requires Sized(c) && Inv(c, s) && Leaving(c, s, t, n) && i >= t
    requires Lo(n) <= t < Hi(n) && (OnPath(c, n) ==> s.finalised)
    requires s' == Leave(c, s, t, n, i, d, Val(c, n))
    ensures Inv(c, s')
  {
    hide NodeOk, FlagOk, ThreadOk, CarrierOk, OnPath, Marked;
    LeavesAtRoot(c, s, t, n);
    LeaveCarrier(c, s, s', t, n, i, d, Val(c, n));
    LeaveNodes(c, s, s', t, n, i, d, Val(c, n));
    LeaveThreads(c, s, s', t, n, i, d, Val(c, n));
    FlagsStay(c, s, s');
  }

  lemma LeavesAtRoot(c: Config, s: State, t: nat, n: Pos)
    requires Sized(c) && Inv(c, s) && Leaving(c, s, t, n) && (OnPath(c, n) ==> s.finalised)
    ensures ThreadOk(c, s, t) && (s.nodes[n].root <==> n == Root(c))
  {
    RootFacts(c);
    AtRootHeight(c, n);
    assert FlagOk(c, s, n);
  }

  lemma LeaveThreads(c: Config, s: State, s': State, t: nat, n: Pos, i: nat, d: nat, x: Bytes)
    requires Sized(c) && Leaving(c, s, t, n) && i >= t && x == Val(c, n)
    requires ThreadsOk(c, s) && NodesOk(c, s)
    requires s.nodes[n].root <==> n == Root(c)
    requires s' == Leave(c, s, t, n, i, d, x)
    ensures ThreadsOk(c, s')
  {
    assert ThreadOk(c, s, t);
    LeaverThread(c, s, s', t, n, i, d, x);
    forall u | 0 <= u < |s.threads| ensures ThreadOk(c, s', u) {
      if u != t { LeaveThread(c, s, s', t, n, i, d, x, u); }
    }
  }

  lemma InvHash(c: Config, s: State, t: nat, s': State)
    requires Sized(c) && Inv(c, s) && t < |s.threads| && s.threads[t].Hashing? && Enabled(c, s, Run(t))
    requires s' == Step(c, s, Run(t))
    ensures Inv(c, s')
  {
    assert ThreadOk(c, s, t);
    assert Lo(Pos(0, t)) == t && Hi(Pos(0, t)) == t + 1;
    RootFacts(c);
    InvLeave(c, s, t, Pos(0, t), t, s.threads[t].d, s');
  }

  /** Past the toggle, everything below the node has been delivered. */
  lemma BothSides(c: Config, s: State, t: nat)
    requires Sized(c) && t < |s.threads| && s.threads[t].Combine? && ThreadOk(c, s, t) && CarrierOk(c, s)
    requires s.threads[t].n.h > 0 && NodeOk(c, s, s.threads[t].n)
    ensures Lo(s.threads[t].n) <= t < Hi(s.threads[t].n)
    ensures OnPath(c, s.threads[t].n) ==> s.finalised
  {
    var Combine(n, isLeft, i, d) := s.threads[t];
    Children(n);
    PathSplits(c, n);
    var p, o := if isLeft then Left(n) else Right(n), if isLeft then Right(n) else Left(n);
    assert Stat(s, p) == Crossing;
    if !RightEmpty(c, n) { assert Stat(s, o) == Crossed; }
  }

  lemma CombineLeaves(c: Config, s: State, t: nat, n: Pos, isLeft: bool, i: nat, d: nat)
    requires Sized(c) && t < |s.threads| && s.threads[t] == Combine(n, isLeft, i, d) && n in s.nodes
    requires Inv(c, s)
    ensures Leaving(c, s, t, n) && i + 1 >= t
    ensures Lo(n) <= t < Hi(n) && (OnPath(c, n) ==> s.finalised)
    ensures Step(c, s, Run(t)) == Leave(c, s, t, n, i + 1, d, Val(c, n))
  {
    ThreadAt(c, s, t);
    FlagTells(c, s, t, n, isLeft, i);
    if n.h > 0 {
      NodeAt(c, s, n);
      BothSides(c, s, t);
    } else {
      assert Lo(n) == t && Hi(n) == t + 1;
    }
    CombinedValue(c, s, t, n, isLeft, i, d);
  }

  lemma ThreadAt(c: Config, s: State, t: nat)
    requires Sized(c) && ThreadsOk(c, s) && t < |s.threads|
    ensures ThreadOk(c, s, t)
  {
  }

  lemma NodeAt(c: Config, s: State, q: Pos)
    requires Sized(c) && NodesOk(c, s) && Within(c, q) && q.h > 0
    ensures NodeOk(c, s, q)
  {
  }

  lemma InvCombine(c: Config, s: State, t: nat, s': State)
    requires Sized(c) && Inv(c, s) && t < |s.threads| && s.threads[t].Combine? && Enabled(c, s, Run(t))
    requires s' == Step(c, s, Run(t))
    ensures Inv(c, s')
  {
    var Combine(n, isLeft, i, d) := s.threads[t];
    CombineLeaves(c, s, t, n, isLeft, i, d);
    InvLeave(c, s, t, n, i + 1, d, s');
  }

  // ----- finalise and release -----

  lemma PathUnique(c: Config, p: Pos, q: Pos)
    requires |c.secs| > 0 && OnPath(c, p) && OnPath(c, q) && p.h == q.h
    ensures p == q
  {
    if p.i < q.i { LoMonotone(p.h, p.i, q.i); }
    if q.i < p.i { LoMonotone(p.h, q.i, p.i); }
  }

  lemma PathClimbs(c: Config, n: Pos)
    requires Sized(c) && OnPath(c, n) && n.h <= Root(c).h && n.i != 0
    ensures OnPath(c, Parent(n)) && Parent(n).h <= Root(c).h && IsLeft(n) == RightEmpty(c, Parent(n))
  {
    AtRootHeight(c, n);
    ParentCovers(n);
    PathSplits(c, Parent(n));
  }

  lemma FinaliseStartOk(c: Config)
    requires Sized(c)
    ensures OnPath(c, FinaliseStart(c)) && FinaliseStart(c).h <= Root(c).h
    ensures FinaliseIsLeft(c) == (FinaliseStart(c).h == 0 || RightEmpty(c, FinaliseStart(c)))
  {
    var leaf := Pos(0, Last(c));
    assert Lo(leaf) == Last(c) && Hi(leaf) == Last(c) + 1;
    RootFacts(c);
    PathClimbs(c, leaf);
  }

  /** Where finalise is before and after a write; it returns at the effective root only. */
  lemma CursorMoves(c: Config, s: State, s': State)
    requires Sized(c) && CursorOk(c, s) && Enabled(c, s, Finalise) && s' == Step(c, s, Finalise)
    ensures CursorOk(c, s') && (s'.finalised <==> s.cursor.field == 2 && s.cursor.n == Root(c))
  {
    var n := s.cursor.n;
    AtRootHeight(c, n);
    RootFacts(c);
    if s.cursor.field == 2 && n.i != 0 { PathClimbs(c, n); }
  }

  /** A write of finalise concerns one node of the path. */
  lemma PassedMoves(c: Config, s: State, s': State, q: Pos, field: nat)
    requires Sized(c) && CursorOk(c, s) && Enabled(c, s, Finalise) && s' == Step(c, s, Finalise)
    requires OnPath(c, q) && q.h <= Root(c).h && 1 <= field <= 2
    ensures Passed(s', q, field) == (Passed(s, q, field) || (q == s.cursor.n && s.cursor.field + 1 == field))
  {
    CursorMoves(c, s, s');
    if q.h == s.cursor.n.h { PathUnique(c, q, s.cursor.n); }
  }

  /** A write of finalise changes one field of one node and no goroutine. */
  lemma FinaliseFrame(c: Config, s: State, s': State)
    requires |c.secs| > 0 && Enabled(c, s, Finalise) && s' == Step(c, s, Finalise)
    ensures s'.threads == s.threads && s'.carrier == s.carrier && s'.results == s.results
    ensures !s.finalised && |s.threads| == Last(c)
    ensures forall q :: q in s'.nodes <==> q in s.nodes
  {
  }

  lemma FinaliseWrites(c: Config, s: State, s': State, q: Pos)
    requires |c.secs| > 0 && Enabled(c, s, Finalise) && s' == Step(c, s, Finalise) && s.cursor.field <= 2
    requires q in s.nodes
    ensures q in s'.nodes && s'.nodes[q].left == s.nodes[q].left && s'.nodes[q].state == s.nodes[q].state
    ensures s'.nodes[q].right == if q == s.cursor.n && s.cursor.field == 1 then [] else s.nodes[q].right
    ensures s'.nodes[q].unbalanced ==
      if q == s.cursor.n && s.cursor.field == 0 then s.cursor.isLeft else s.nodes[q].unbalanced
    ensures s'.nodes[q].root == (s.nodes[q].root || (s'.finalised && q == s.cursor.n))
  {
  }

  lemma StatStays(s: State, s': State, q: Pos)
    requires s'.threads == s.threads && s'.carrier == s.carrier
    ensures Stat(s', q) == Stat(s, q)
  {
  }

  lemma FinaliseNode(c: Config, s: State, s': State, q: Pos)
    requires Sized(c) && CursorOk(c, s) && Enabled(c, s, Finalise) && s' == Step(c, s, Finalise)
    requires CarrierOk(c, s) && Within(c, q) && q.h > 0 && NodeOk(c, s, q)
    ensures NodeOk(c, s', q)
  {
    hide Step, Stat, OnPath, RightEmpty, Brought, Val, CursorOk, Passed;
    PathSplits(c, q);
    FinaliseFrame(c, s, s');
    CursorMeans(c, s);
    FinaliseWrites(c, s, s', q);
    StatStays(s, s', Left(q));
    StatStays(s, s', Right(q));
    if OnPath(c, q) {
      PassedMoves(c, s, s', q, 2);
      if !RightEmpty(c, q) { NotYet(c, s, Right(q)); }
    }
  }

  lemma CursorMeans(c: Config, s: State)
    requires Sized(c) && CursorOk(c, s) && !s.finalised
    ensures OnPath(c, s.cursor.n) && s.cursor.field <= 2
  {
  }

  /** Nothing on the path is under way before finalise has returned. */
  lemma NotYet(c: Config, s: State, q: Pos)
    requires Sized(c) && CarrierOk(c, s) && OnPath(c, q) && !s.finalised
    ensures Stat(s, q) == Absent
  {
  }

  /** Every single write of finalise keeps the invariant, whatever goroutines are under
      way. */
  lemma InvFinalise(c: Config, s: State, s': State)
    requires Big(c) && Inv(c, s) && Enabled(c, s, Finalise)
    requires s' == Step(c, s, Finalise)
    ensures Inv(c, s')
  {
    hide Step, NodeOk, FlagOk, CursorOk, OnPath, ThreadOk;
    CursorMoves(c, s, s');
    FinaliseFrame(c, s, s');
    forall q | q in s'.nodes ensures FlagOk(c, s', q) { FinaliseFlag(c, s, s', q); }
    forall q | Within(c, q) && q.h > 0 ensures NodeOk(c, s', q) {
      FinaliseNode(c, s, s', q);
    }
    FinaliseThreads(c, s, s');
  }

  lemma FinaliseFlag(c: Config, s: State, s': State, q: Pos)
    requires Sized(c) && CursorOk(c, s) && Enabled(c, s, Finalise) && s' == Step(c, s, Finalise)
    requires q in s.nodes && FlagOk(c, s, q)
    ensures FlagOk(c, s', q)
  {
    hide Step;
    CursorMoves(c, s, s');
    FinaliseFrame(c, s, s');
    FinaliseWrites(c, s, s', q);
    if Marked(c, q) {
      PassedMoves(c, s, s', q, 1);
      PassedMoves(c, s, s', q, 2);
    }
  }

  lemma FinaliseThreads(c: Config, s: State, s': State)
    requires Sized(c) && ThreadsOk(c, s) && |s.threads| == Last(c)
    requires s'.threads == s.threads && s'.carrier == s.carrier
    ensures ThreadsOk(c, s')
  {
    forall u | 0 <= u < |s.threads| ensures ThreadOk(c, s', u) { ThreadAt(c, s, u); }
  }

  /** Once finalise has returned exactly the path from its start to the effective root is
      marked: unbalanced where the last section is all there is, root at its end. */
  lemma FinaliseMarks(c: Config, s: State, q: Pos)
    requires Big(c) && Inv(c, s) && s.finalised && q in s.nodes
    ensures s.nodes[q].unbalanced <==>
      OnPath(c, q) && FinaliseStart(c).h <= q.h <= Root(c).h && (q.h == 0 || RightEmpty(c, q))
    ensures s.nodes[q].root <==> q == Top(c) || q == Root(c)
  {
  }
}
