/** The main results about the binary Merkle tree hasher: whatever the scheduler
    does, one result comes out, it is the reference hash, and the tree goes back to
    the pool fit for the next chunk.
 */
module BmtTheorem {
  import opened BmtReference
  import opened BmtHasher
  import opened BmtProofs

  /** `s'` is reached from `s` by the scheduler's choices `acts`. */
  ghost predicate Runs(c: Config, s: State, acts: seq<Action>, s': State)
    requires |c.secs| > 0
    decreases |acts|
  {
    if acts == [] then s == s'
    else Enabled(c, s, acts[0]) && Runs(c, Step(c, s, acts[0]), acts[1..], s')
  }

  // ----- a chunk of a single section -----

  ghost predicate SmallInv(c: Config, s: State)
    requires WellFormed(c) && |c.secs| == 1
  {
    var leaf := Pos(0, 0);
    && s.nodes.Keys == c.base.Keys && leaf in s.nodes
    && (forall q :: q in s.nodes && q != leaf ==> s.nodes[q] == c.base[q])
    && s.nodes[leaf].state == c.base[leaf].state
    && (if s.finalised then s.nodes[leaf].unbalanced && s.nodes[leaf].root && s.nodes[leaf].right == []
        else
          && s.threads == [] && s.cursor == Cursor(leaf, true, s.cursor.field) && s.cursor.field <= 2
          && (s.cursor.field >= 1 ==> s.nodes[leaf].unbalanced) && (s.cursor.field >= 2 ==> s.nodes[leaf].right == []))
    && (s.threads == [] ==> s.results == [])
    && |s.threads| <= 1
    && (|s.threads| == 1 ==>
          match s.threads[0]
          case Hashing(x, _) => x == c.secs[0] && s.results == []
          case Store(n, isLeft, i, d, x) => n == leaf && isLeft && i == 0 && d == 0 && x == c.secs[0] && s.results == []
          case Toggle(n, isLeft, i, d) =>
            n == leaf && isLeft && i == 0 && d == 0 && s.nodes[leaf].left == c.secs[0] && s.results == []
          case Combine(n, isLeft, i, d) =>
            n == leaf && isLeft && i == 0 && d == 0 && s.nodes[leaf].left == c.secs[0] && s.results == []
          case Done => s.results == [c.H(c.secs[0])])
  }

  lemma SmallLeaf(c: Config)
    requires WellFormed(c) && |c.secs| == 1
    ensures Pos(0, 0) in c.base
  {
    assert Lo(Pos(0, 0)) == 0;
    assert InTree(c.depth, Pos(0, 0));
  }

  lemma SmallStep(c: Config, s: State, a: Action, s': State)
    requires WellFormed(c) && |c.secs| == 1 && SmallInv(c, s) && Enabled(c, s, a)
    requires s' == Step(c, s, a)
    ensures SmallInv(c, s')
  {
    match a
    case Launch => SmallLaunch(c, s, s');
    case Finalise => SmallFinalise(c, s, s');
    case Run(t) => SmallRun(c, s, s');
  }

  lemma SmallFinalise(c: Config, s: State, s': State)
    requires WellFormed(c) && |c.secs| == 1 && SmallInv(c, s) && Enabled(c, s, Finalise) && s' == Step(c, s, Finalise)
    ensures SmallInv(c, s')
  {
  }

  lemma SmallLaunch(c: Config, s: State, s': State)
    requires WellFormed(c) && |c.secs| == 1 && SmallInv(c, s) && Enabled(c, s, Launch) && s' == Step(c, s, Launch)
    ensures SmallInv(c, s')
  {
    assert FinaliseDepth(Pos(0, 0)) == 0;
  }

  lemma SmallRun(c: Config, s: State, s': State)
    requires WellFormed(c) && |c.secs| == 1 && SmallInv(c, s) && Enabled(c, s, Run(0)) && s' == Step(c, s, Run(0))
    ensures SmallInv(c, s')
  {
    assert c.secs[0] + [] == c.secs[0];
    if s.threads[0].Combine? {
      assert s.nodes[Pos(0, 0)].left + s.nodes[Pos(0, 0)].right == c.secs[0];
    }
  }

  // ----- safety of every run -----

  ghost predicate Safe(c: Config, s: State)
    requires WellFormed(c)
  {
    if |c.secs| == 1 then SmallInv(c, s) else Inv(c, s)
  }

  lemma SafeInit(c: Config)
    requires WellFormed(c)
    ensures Safe(c, Init(c))
  {
    if |c.secs| == 1 { SmallLeaf(c); } else { InvInit(c); }
  }

  lemma SafeStep(c: Config, s: State, a: Action, s': State)
    requires WellFormed(c) && Safe(c, s) && Enabled(c, s, a) && s' == Step(c, s, a)
    ensures Safe(c, s')
  {
    if |c.secs| == 1 {
      SmallStep(c, s, a, s');
    } else {
      match a
      case Launch => InvLaunch(c, s);
      case Finalise => InvFinalise(c, s, s');
      case Run(t) =>
        match s.threads[t]
        case Hashing(_, _) => InvHash(c, s, t, s');
        case Store(_, _, _, _, _) => InvStore(c, s, t, s');
        case Toggle(_, _, _, _) => InvToggle(c, s, t, s');
        case Combine(_, _, _, _) => InvCombine(c, s, t, s');
    }
  }

  // ----- every run ends -----

  function Rank(c: Config, th: Thread): nat {
    var up := (n: Pos) => if n.h <= c.depth then 3 * (c.depth - n.h) else 0;
    match th
    case Hashing(_, _) => 3 * c.depth + 4
    case Store(n, _, _, _, _) => up(n) + 3
    case Toggle(n, _, _, _) => up(n) + 2
    case Combine(n, _, _, _) => up(n) + 1
    case Done => 0
  }

  function SumRank(c: Config, ths: seq<Thread>): nat {
    if ths == [] then 0 else Rank(c, ths[0]) + SumRank(c, ths[1..])
  }

  lemma {:induction false} SumRankUpdate(c: Config, ths: seq<Thread>, t: nat, th: Thread)
    requires t < |ths|
    ensures SumRank(c, ths[t := th]) + Rank(c, ths[t]) == SumRank(c, ths) + Rank(c, th)
  {
    if t == 0 {
      assert ths[0 := th][1..] == ths[1..];
    } else {
      SumRankUpdate(c, ths[1..], t - 1, th);
      assert ths[t := th][1..] == ths[1..][t - 1 := th];
    }
  }

  lemma {:induction false} SumRankAppend(c: Config, ths: seq<Thread>, th: Thread)
    ensures SumRank(c, ths + [th]) == SumRank(c, ths) + Rank(c, th)
  {
    if ths == [] {
      assert ths + [th] == [th];
      assert SumRank(c, [th]) == Rank(c, th) + SumRank(c, []);
    } else {
      SumRankAppend(c, ths[1..], th);
      assert (ths + [th])[1..] == ths[1..] + [th];
    }
  }

  /** m * k, for goroutines not yet launched. */
  function Owed(m: int, k: nat): (r: nat)
    ensures m == 1 ==> r == k
  {
    if m <= 0 then 0 else k + Owed(m - 1, k)
  }

  lemma {:induction false} OwedIsProduct(m: nat, k: nat)
    ensures Owed(m, k) == m * k
  {
    if m > 0 {
      OwedIsProduct(m - 1, k);
      assert m * k == (m - 1) * k + k;
    }
  }

  /** The writes finalise has still to do. */
  function WalkLeft(c: Config, s: State): nat {
    if s.finalised || s.cursor.n.h > c.depth || s.cursor.field > 2 then 0
    else 3 * (c.depth - s.cursor.n.h) + 3 - s.cursor.field
  }

  function Measure(c: Config, s: State): nat {
    Owed(|c.secs| - |s.threads|, 3 * c.depth + 5) + WalkLeft(c, s) + SumRank(c, s.threads)
  }

  /** finalise stays inside the tree. */
  predicate WalkInside(c: Config, s: State) {
    !s.finalised ==> s.cursor.field <= 2 && s.cursor.n.h <= c.depth && (s.cursor.n.h == c.depth ==> s.cursor.n.i == 0)
  }

  lemma WalkStaysInside(c: Config, s: State)
    requires WellFormed(c) && Safe(c, s)
    ensures WalkInside(c, s) && (!s.finalised ==> s.cursor.n in s.nodes)
  {
    if |c.secs| > 1 && !s.finalised {
      RootFacts(c);
      AtRootHeight(c, s.cursor.n);
    }
  }

  /** A goroutine that climbs stays inside the tree. */
  predicate Inside(c: Config, s: State, t: nat)
    requires t < |s.threads|
  {
    match s.threads[t]
    case Hashing(_, _) => Pos(0, t) in s.nodes && (s.nodes[Pos(0, t)].root || c.depth > 0)
    case Store(n, _, _, _, _) => n.h <= c.depth
    case Toggle(n, _, _, _) => n.h <= c.depth
    case Combine(n, _, _, _) => n in s.nodes && n.h <= c.depth && (s.nodes[n].root || n.h < c.depth)
    case Done => true
  }

  lemma StaysInside(c: Config, s: State, t: nat)
    requires WellFormed(c) && Safe(c, s) && t < |s.threads| && Enabled(c, s, Run(t))
    ensures Inside(c, s, t)
  {
    if |c.secs| > 1 {
      ThreadAt(c, s, t);
      RootFacts(c);
      if s.threads[t].Combine? { TopIsRoot(c, s, s.threads[t].n); }
    }
  }

  lemma TopIsRoot(c: Config, s: State, n: Pos)
    requires Sized(c) && FlagsOk(c, s) && n in s.nodes && Within(c, n)
    ensures s.nodes[n].root || n.h < c.depth
  {
    AtRootHeight(c, n);
  }

  lemma RankDrops(c: Config, s: State, t: nat)
    requires |c.secs| > 0 && t < |s.threads| && Enabled(c, s, Run(t)) && Inside(c, s, t)
    ensures var s' := Step(c, s, Run(t));
      && |s'.threads| == |s.threads| && s'.threads == s.threads[t := s'.threads[t]] && s'.finalised == s.finalised && s'.cursor == s.cursor
      && Rank(c, s'.threads[t]) < Rank(c, s.threads[t])
  {
  }

  lemma StepDescends(c: Config, s: State, a: Action)
    requires |c.secs| > 0 && Enabled(c, s, a)
    requires a.Run? ==> Inside(c, s, a.t)
    requires WalkInside(c, s)
    ensures Measure(c, Step(c, s, a)) < Measure(c, s)
  {
    var s' := Step(c, s, a);
    match a
    case Launch =>
      SumRankAppend(c, s.threads, Launched(c, |s.threads|));
    case Finalise =>
    case Run(t) =>
      RankDrops(c, s, t);
      SumRankUpdate(c, s.threads, t, s'.threads[t]);
  }

  lemma {:induction false} RunIsSafe(c: Config, s: State, acts: seq<Action>, s': State)
    requires WellFormed(c) && Safe(c, s) && Runs(c, s, acts, s')
    ensures Safe(c, s')
    ensures |acts| + Measure(c, s') <= Measure(c, s)
    decreases |acts|
  {
    if acts != [] {
      var m := Step(c, s, acts[0]);
      SafeStep(c, s, acts[0], m);
      if acts[0].Run? { StaysInside(c, s, acts[0].t); }
      WalkStaysInside(c, s);
      StepDescends(c, s, acts[0]);
      RunIsSafe(c, m, acts[1..], s');
    }
  }

  // ----- what a run leaves behind -----

  ghost predicate Quiescent(c: Config, s: State) {
    |s.threads| == |c.secs| && forall t :: 0 <= t < |s.threads| ==> s.threads[t].Done?
  }

  ghost predicate Stuck(c: Config, s: State)
    requires |c.secs| > 0
  {
    forall a :: !Enabled(c, s, a)
  }

  /** No goroutine ever waits or runs off the tree. */
  lemma StuckIsQuiescent(c: Config, s: State)
    requires WellFormed(c) && Safe(c, s) && Stuck(c, s)
    ensures Quiescent(c, s)
  {
    assert !Enabled(c, s, Launch) && !Enabled(c, s, Finalise);
    WalkStaysInside(c, s);
    forall t | 0 <= t < |s.threads| ensures s.threads[t].Done? {
      assert !Enabled(c, s, Run(t));
      if |c.secs| > 1 { ThreadNodeExists(c, s, t); }
    }
  }

  lemma ThreadNodeExists(c: Config, s: State, t: nat)
    requires WellFormed(c) && |c.secs| > 1 && Inv(c, s) && t < |s.threads|
    ensures s.threads[t].Done? || Enabled(c, s, Run(t))
  {
    ThreadAt(c, s, t);
    RootFacts(c);
    match s.threads[t]
    case Hashing(_, _) =>
      assert Lo(Pos(0, t)) == t;
      AtRootHeight(c, Pos(0, t));
    case Store(n, _, _, _, _) => AtRootHeight(c, n);
    case Toggle(n, _, _, _) => AtRootHeight(c, n);
    case Combine(n, _, _, _) => AtRootHeight(c, n);
    case Done =>
  }

  /** When every goroutine has finished, every position has been delivered. */
  lemma {:induction false} AllDelivered(c: Config, s: State, p: Pos)
    requires Sized(c) && ThreadsOk(c, s) && NodesOk(c, s) && CarrierOk(c, s)
    requires Quiescent(c, s) && Within(c, p)
    ensures p in s.carrier
    decreases p.h
  {
    if p.h == 0 {
      ThreadAt(c, s, p.i);
    } else {
      NodeAt(c, s, p);
      PathSplits(c, p);
      AllDelivered(c, s, Left(p));
      if !RightEmpty(c, p) { AllDelivered(c, s, Right(p)); }
    }
  }

  /** Once the root is delivered, so is everything below it... */
  lemma {:induction false} RootNeedsAll(c: Config, s: State, p: Pos)
    requires Sized(c) && NodesOk(c, s) && CarrierOk(c, s)
    requires Root(c) in s.carrier && Within(c, p)
    ensures p in s.carrier
    decreases Root(c).h - p.h
  {
    AtRootHeight(c, p);
    if p.h < Root(c).h {
      var q := Parent(p);
      RootNeedsAll(c, s, q);
      NodeAt(c, s, q);
      ParentCovers(p);
    }
  }

  /** ...so no goroutine is still at work when the result is sent. */
  lemma ResultMeansQuiescent(c: Config, s: State)
    requires WellFormed(c) && Safe(c, s) && s.results != []
    ensures Quiescent(c, s)
  {
    if |c.secs| > 1 {
      RootFacts(c);
      RootNeedsAll(c, s, Pos(0, Last(c)));
      forall t | 0 <= t < |s.threads| ensures s.threads[t].Done? {
        ThreadAt(c, s, t);
        match s.threads[t]
        case Hashing(_, _) => RootNeedsAll(c, s, Pos(0, t));
        case Store(n, _, _, _, _) => RootNeedsAll(c, s, n);
        case Toggle(n, _, _, _) => RootNeedsAll(c, s, n);
        case Combine(n, _, _, _) => RootNeedsAll(c, s, n);
        case Done =>
      }
    }
  }

  /** The hash of the chunk, as the tree defines it. */
  function Digest(c: Config): Bytes
    requires 0 < |c.secs| <= Hi(Top(c))
  {
    if |c.secs| == 1 then c.H(c.secs[0]) else Val(c, RootOf(c))
  }
  function RootOf(c: Config): (r: Pos)
    requires 0 < |c.secs| <= Hi(Top(c))
    ensures Lo(r) < |c.secs|
  {
    LeftEdge(Root(c).h);
    Root(c)
  }

  lemma QuiescentHasResult(c: Config, s: State)
    requires WellFormed(c) && Safe(c, s) && Quiescent(c, s)
    ensures s.results == [Digest(c)]
  {
    if |c.secs| > 1 {
      RootFacts(c);
      AllDelivered(c, s, Root(c));
    }
  }

  lemma OnlyTheDigest(c: Config, s: State)
    requires WellFormed(c) && Safe(c, s)
    ensures s.results == [] || s.results == [Digest(c)]
  {
    if s.results != [] {
      ResultMeansQuiescent(c, s);
      QuiescentHasResult(c, s);
    }
  }

  // ----- giving the tree back -----

  function Cleared(c: Config, start: nat, q: Pos, nd: Node): Node
    requires |c.secs| > 0
  {
    if OnPath(c, q) && start <= q.h then nd.(unbalanced := false, root := q.h == c.depth && nd.root) else nd
  }

  /** releaseTree clears exactly the path above the last section. */
  lemma {:induction false} ReleaseClears(c: Config, nodes: Tree, n: Pos, q: Pos)
    requires |c.secs| > 0 && OnPath(c, n) && n.h <= c.depth && q in nodes && q.h <= c.depth
    requires forall p :: OnPath(c, p) && p.h <= c.depth ==> p in nodes
    ensures q in Release(c.depth, nodes, n) && Release(c.depth, nodes, n)[q] == Cleared(c, n.h, q, nodes[q])
    decreases c.depth - n.h
  {
    if OnPath(c, q) && q.h == n.h { PathUnique(c, n, q); }
    if n.h < c.depth {
      ParentCovers(n);
      var nodes' := nodes[n := nodes[n].(unbalanced := false, root := false)];
      ReleaseClears(c, nodes', Parent(n), q);
    }
  }

  lemma {:induction false} ReleaseKeys(depth: nat, nodes: Tree, n: Pos)
    requires n.h <= depth
    ensures Release(depth, nodes, n).Keys == nodes.Keys
    decreases depth - n.h
  {
    if n in nodes && n.h < depth {
      ReleaseKeys(depth, nodes[n := nodes[n].(unbalanced := false, root := false)], Parent(n));
    }
  }

  /** The node a finished run leaves is clean again, with one use less to go. */
  lemma NodeReusable(c: Config, s: State, q: Pos, uses: nat)
    requires WellFormed(c) && Safe(c, s) && Quiescent(c, s) && q in s.nodes && uses > 0
    requires Clean(c.depth, c.base, uses)
    ensures CleanNode(Cleared(c, 0, q, s.nodes[q]), q == Top(c), uses - 1)
  {
    LeftEdge(c.depth);
    assert OnPath(c, Top(c));
    if q.h == c.depth && OnPath(c, q) { PathUnique(c, q, Top(c)); }
    SafeShape(c, s);
    if |c.secs| == 1 {
      assert Lo(Pos(0, 0)) == 0 && Hi(Pos(0, 0)) == 1;
      assert CleanNode(c.base[q], q == Top(c), uses);
    } else {
      RootFacts(c);
      BigNodeReusable(c, s, q, uses);
    }
  }

  lemma BigNodeReusable(c: Config, s: State, q: Pos, uses: nat)
    requires WellFormed(c) && |c.secs| > 1 && Inv(c, s) && Quiescent(c, s) && q in s.nodes && uses > 0
    requires Clean(c.depth, c.base, uses) && OnPath(c, Top(c)) && OnPath(c, Root(c))
    requires q.h == c.depth && OnPath(c, q) ==> q == Top(c)
    ensures CleanNode(Cleared(c, 0, q, s.nodes[q]), q == Top(c), uses - 1)
  {
    FlagsCleared(c, s, q);
    BaseClean(c, q, uses);
    if Within(c, q) && q.h > 0 {
      NodeAt(c, s, q);
      AllDelivered(c, s, q);
      CounterEven(c, s, q);
    } else {
      CounterIdle(c, s, q);
    }
    CleanAgain(Cleared(c, 0, q, s.nodes[q]), c.base[q], q == Top(c), uses);
  }

  lemma CleanAgain(nd: Node, base: Node, top: bool, uses: nat)
    requires uses > 0 && CleanNode(base, top, uses) && !nd.unbalanced && nd.root == top
    requires nd.state == base.state || nd.state == WrapInt32(base.state + 2)
    ensures CleanNode(nd, top, uses - 1)
  {
  }

  lemma BaseClean(c: Config, q: Pos, uses: nat)
    requires Clean(c.depth, c.base, uses) && InTree(c.depth, q)
    ensures q in c.base && CleanNode(c.base[q], q == Top(c), uses)
  {
  }

  lemma CounterIdle(c: Config, s: State, q: Pos)
    requires Sized(c) && FlagsOk(c, s) && q in s.nodes && (!Within(c, q) || q.h == 0)
    ensures q in c.base && s.nodes[q].state == c.base[q].state
  {
  }

  lemma CounterEven(c: Config, s: State, q: Pos)
    requires |c.secs| > 0 && q.h > 0 && NodeOk(c, s, q) && q in s.carrier
    ensures s.nodes[q].state == c.base[q].state || s.nodes[q].state == WrapInt32(c.base[q].state + 2)
  {
  }

  lemma FlagsCleared(c: Config, s: State, q: Pos)
    requires Sized(c) && FlagsOk(c, s) && q in s.nodes && OnPath(c, Top(c)) && OnPath(c, Root(c))
    requires q.h == c.depth && OnPath(c, q) ==> q == Top(c)
    ensures !Cleared(c, 0, q, s.nodes[q]).unbalanced
    ensures Cleared(c, 0, q, s.nodes[q]).root == (q == Top(c))
    ensures Cleared(c, 0, q, s.nodes[q]).state == s.nodes[q].state
  {
  }

  lemma Reusable(c: Config, s: State, uses: nat)
    requires WellFormed(c) && Safe(c, s) && Quiescent(c, s) && uses > 0
    requires Clean(c.depth, c.base, uses)
    ensures Clean(c.depth, Release(c.depth, s.nodes, Pos(0, Last(c))), uses - 1)
  {
    var leaf := Pos(0, Last(c));
    var r := Release(c.depth, s.nodes, leaf);
    assert Lo(leaf) == Last(c) && Hi(leaf) == Last(c) + 1;
    ReleaseKeys(c.depth, s.nodes, leaf);
    SafeShape(c, s);
    forall q | q in r ensures CleanNode(r[q], q == Top(c), uses - 1) {
      ReleaseClears(c, s.nodes, leaf, q);
      NodeReusable(c, s, q, uses);
    }
  }

  lemma SafeShape(c: Config, s: State)
    requires WellFormed(c) && Safe(c, s)
    ensures forall p :: p in s.nodes <==> InTree(c.depth, p)
    ensures forall p :: OnPath(c, p) && p.h <= c.depth ==> p in s.nodes
  {
    if |c.secs| == 1 { assert s.nodes.Keys == c.base.Keys; }
    forall p | OnPath(c, p) && p.h <= c.depth ensures InTree(c.depth, p) { }
  }

  // ----- the digest is the reference hash -----

  lemma DigestIsRefHash(c: Config, data: Bytes, k: nat)
    requires Sections(c.hs, c.secs) && |c.secs| <= Hi(Top(c))
    requires c.secs == Split(data, 2 * c.hs) && k >= 1 && |data| <= Scaled(c.hs, k + 1)
    ensures Digest(c) == RefHash(c.H, c.hs, data, Scaled(c.hs, k))
  {
    FlattenSplit(data, 2 * c.hs);
    if |c.secs| == 1 {
      assert Flatten(c.secs) == c.secs[0] + Flatten([]);
      assert data + [] == data;
    } else {
      BigDigest(c, k);
    }
  }

  lemma BigDigest(c: Config, k: nat)
    requires Sections(c.hs, c.secs) && Sized(c) && |Flatten(c.secs)| <= Scaled(c.hs, k + 1)
    ensures Digest(c) == RefHash(c.H, c.hs, Flatten(c.secs), Scaled(c.hs, k))
  {
    RootHoldsAll(c);
    RootFacts(c);
    var r := Root(c);
    FullLeft(c.hs, c.secs, r);
    if r.h > k {
      ScaledMonotone(c.hs, k + 1, r.h);
      assert false;
    }
    ValueIsRefHash(c.H, c.hs, c.secs, r, k);
  }

  lemma RootHoldsAll(c: Config)
    requires Sized(c)
    ensures Lo(Root(c)) < |c.secs| && Content(c.secs, Root(c)) == Flatten(c.secs)
  {
    var r := Root(c);
    RootFacts(c);
    ContentIsFlatten(c.secs, r);
    assert Hi(r) >= |c.secs|;
    assert c.secs[0..|c.secs|] == c.secs;
  }

  lemma EveryRun(c: Config, uses: nat, acts: seq<Action>, s: State)
    requires WellFormed(c) && uses > 0 && Clean(c.depth, c.base, uses) && Runs(c, Init(c), acts, s)
    ensures s.results == [] || s.results == [Digest(c)]
    ensures Stuck(c, s) ==> s.results == [Digest(c)]
    ensures s.results != [] ==> Quiescent(c, s) && Clean(c.depth, Release(c.depth, s.nodes, Pos(0, Last(c))), uses - 1)
    ensures |acts| + Measure(c, s) <= Measure(c, Init(c))
  {
    SafeInit(c);
    RunIsSafe(c, Init(c), acts, s);
    OnlyTheDigest(c, s);
    if Stuck(c, s) {
      StuckIsQuiescent(c, s);
      QuiescentHasResult(c, s);
    }
    if s.results != [] {
      ResultMeansQuiescent(c, s);
      Reusable(c, s, uses);
    }
  }

  /** The sections of a chunk within capacity fit the leaves. */
  lemma ChunkFits(hs: nat, count: nat, data: Bytes, depth: nat)
    requires hs > 0 && count > 0 && |data| <= count * hs && count <= 2 * Hi(Pos(depth, 0))
    ensures |Split(data, 2 * hs)| <= Hi(Pos(depth, 0)) && Sections(hs, Split(data, 2 * hs))
  {
    var top := Hi(Pos(depth, 0));
    ScaleUp(count, 2 * top, hs);
    assert (2 * top) * hs == top * (2 * hs);
    LoBelowHi(Pos(depth, 0));
    SplitCount(data, 2 * hs, top);
    SplitLengths(data, 2 * hs);
    if data == [] { assert |Split(data, 2 * hs)| == 1; }
  }

  lemma DataFacts(c: Config, count: nat, data: Bytes, uses: nat, k: nat)
    requires c.hs > 0 && count > 0 && |data| <= count * c.hs && c.secs == Split(data, 2 * c.hs)
    requires count <= 2 * Hi(Top(c))
    requires k >= 1 && count * c.hs <= Scaled(c.hs, k + 1)
    requires uses > 0 && Clean(c.depth, c.base, uses)
    ensures WellFormed(c) && Digest(c) == RefHash(c.H, c.hs, data, Scaled(c.hs, k))
  {
    ChunkFits(c.hs, count, data, c.depth);
    CleanWeaker(c.depth, c.base, uses);
    DigestIsRefHash(c, data, k);
  }

  lemma StartMeasure(c: Config)
    requires |c.secs| > 0
    ensures Measure(c, Init(c)) <= |c.secs| * (3 * c.depth + 5) + 3 * c.depth + 3
  {
    OwedIsProduct(|c.secs|, 3 * c.depth + 5);
    assert SumRank(c, []) == 0;
  }

  /** For every chunk within capacity, every base hash and every schedule: nothing
      but the reference hash is ever sent, it is sent exactly once when the run is
      over, the run does end, and by then all goroutines have finished and the
      released tree is clean for one use less. */
  lemma EveryInterleaving(c: Config, count: nat, data: Bytes, uses: nat, k: nat, acts: seq<Action>, s: State)
    requires c.hs > 0 && count > 0 && |data| <= count * c.hs && c.secs == Split(data, 2 * c.hs)
    requires count <= 2 * Hi(Top(c))
    requires k >= 1 && count * c.hs <= Scaled(c.hs, k + 1)
    requires uses > 0 && Clean(c.depth, c.base, uses)
    requires Runs(c, Init(c), acts, s)
    ensures s.results == [] || s.results == [RefHash(c.H, c.hs, data, Scaled(c.hs, k))]
    ensures Stuck(c, s) ==> s.results == [RefHash(c.H, c.hs, data, Scaled(c.hs, k))]
    ensures s.results != [] ==> Quiescent(c, s) && Clean(c.depth, Release(c.depth, s.nodes, Pos(0, Last(c))), uses - 1)
    ensures |acts| <= |c.secs| * (3 * c.depth + 5) + 3 * c.depth + 3
  {
    DataFacts(c, count, data, uses, k);
    EveryRun(c, uses, acts, s);
    StartMeasure(c);
  }

  lemma CleanWeaker(depth: nat, base: Tree, uses: nat)
    requires uses > 0 && Clean(depth, base, uses)
    ensures Clean(depth, base, 1)
  {
  }

  // ----- once a counter has wrapped around -----

  /** A node that is clean but for a counter below zero. */
  predicate Worn(nd: Node) { !nd.unbalanced && nd.state % 2 == 0 && -0x8000_0000 <= nd.state < 0 }

  /** What comes out of the left edge at height `h` for the first section alone: at every
      node it is combined with what the node still held. */
  ghost function Spoilt(c: Config, h: nat): Bytes
    requires |c.secs| > 0 && forall i :: 1 <= i <= h ==> Pos(i, 0) in c.base
  {
    if h == 0 then c.H(c.secs[0]) else c.H(Spoilt(c, h - 1) + c.base[Pos(h, 0)].right)
  }

  /** With a tree that is worn along the left edge up to height `k`, the first section's
      goroutine takes a wrong value past all those nodes before the second section is
      launched. Where that is the whole edge, the value is sent. */
  lemma WornTreeFails(c: Config, k: nat) returns (s: State)
    requires |c.secs| > 1 && |c.secs[0]| > c.hs && 1 <= k <= c.depth && Clean(c.depth, c.base, 0)
    requires forall h :: 1 <= h <= k ==> Pos(h, 0) in c.base && Worn(c.base[Pos(h, 0)])
    ensures Runs(c, Init(c), [Launch, Run(0)] + Turns(k), s) && |s.threads| == 1
    ensures if k == c.depth then s.results == [Spoilt(c, k)]
            else s.results == [] && s.threads[0] == Store(Pos(k + 1, 0), true, k, c.depth, Spoilt(c, k))
  {
    hide Runs, Clean, Spoilt;
    EdgeIn(c);
    var s1 := Step(c, Init(c), Launch);
    assert s1.threads == [Hashing(c.secs[0], c.depth)] && s1.nodes == c.base;
    var s2 := Step(c, s1, Run(0));
    RunsNone(c, s2);
    RunsFirst(c, s1, [Run(0)], [], s2);
    RunsFirst(c, Init(c), [Launch, Run(0)], [Run(0)], s2);
    SpoiltStart(c);
    assert s2.threads == [Store(Pos(1, 0), true, 0, c.depth, c.H(c.secs[0]))];
    s := WornClimb(c, s2, k, 0);
    RunsJoin(c, Init(c), [Launch, Run(0)], s2, Turns(k), s);
  }

  /** Every use adds two to the counters of the left edge, up to the effective root: the
      last use within range leaves a tree that is clean but worn there. */
  lemma WearsOut(c: Config, acts: seq<Action>, s: State, h: nat)
    requires WellFormed(c) && |c.secs| > 1 && Runs(c, Init(c), acts, s) && s.results != [] && 1 <= h <= Root(c).h
    ensures var used := Release(c.depth, s.nodes, Pos(0, Last(c))); var q := Pos(h, 0);
      && Clean(c.depth, used, 0) && q in used && q in c.base && used[q].state == WrapInt32(c.base[q].state + 2)
      && (c.base[q].state == MAX_INT32 - 1 ==> Worn(used[q]))
  {
    hide Clean, Runs, Release, Inv, WellFormed, WrapInt32;
    var q := Pos(h, 0);
    EveryRun(c, 1, acts, s) by { CleanOnce(c); }
    SafeInit(c);
    RunIsSafe(c, Init(c), acts, s);
    EdgeCounts(c, s, h);
    UsedNode(c, s, q);
    LastUse(c.base[q].state);
  }

  lemma CleanOnce(c: Config)
    requires WellFormed(c)
    ensures Clean(c.depth, c.base, 1)
  {
  }

  lemma LastUse(state: int)
    ensures state == MAX_INT32 - 1 ==> WrapInt32(state + 2) == -0x8000_0000
  {
  }

  lemma EdgeCounts(c: Config, s: State, h: nat)
    requires WellFormed(c) && |c.secs| > 1 && Safe(c, s) && Quiescent(c, s) && 1 <= h <= Root(c).h
    ensures var q := Pos(h, 0); q in s.nodes && q in c.base && s.nodes[q].state == WrapInt32(c.base[q].state + 2)
  {
    var q := Pos(h, 0);
    EdgeWithin(c, h);
    PathSplits(c, q);
    NodeAt(c, s, q);
    AllDelivered(c, s, q);
    TwoCounted(c, s, q);
  }

  lemma EdgeWithin(c: Config, h: nat)
    requires Sized(c) && h <= Root(c).h
    ensures Within(c, Pos(h, 0))
  {
    LeftEdge(h);
  }

  lemma TwoCounted(c: Config, s: State, q: Pos)
    requires |c.secs| > 0 && q.h > 0 && NodeOk(c, s, q) && q in s.carrier && !RightEmpty(c, q)
    ensures s.nodes[q].state == WrapInt32(c.base[q].state + 2)
  {
  }

  lemma UsedNode(c: Config, s: State, q: Pos)
    requires WellFormed(c) && Safe(c, s) && q in s.nodes
    ensures var used := Release(c.depth, s.nodes, Pos(0, Last(c)));
      Clean(c.depth, used, 0) ==> q in used && used[q].state == s.nodes[q].state && !used[q].unbalanced
  {
    var leaf := Pos(0, Last(c));
    assert Lo(leaf) == Last(c) && Hi(leaf) == Last(c) + 1;
    SafeShape(c, s);
    ReleaseKeys(c.depth, s.nodes, leaf);
    ReleaseClears(c, s.nodes, leaf, q);
  }

  // ----- when the wrong value differs -----

  ghost predicate Identity(H: BaseHash) { forall d :: H(d) == d }

  lemma {:induction false} IdentityValue(H: BaseHash, hs: nat, secs: seq<Bytes>, p: Pos)
    requires Identity(H) && Lo(p) < |secs|
    ensures Value(H, hs, secs, p) == Content(secs, p)
    decreases p.h
  {
    if p.h > 0 {
      IdentityValue(H, hs, secs, Left(p));
      if Lo(Right(p)) < |secs| { IdentityValue(H, hs, secs, Right(p)); }
    }
  }

  /** What the nodes of the left edge still held, from the lowest up. */
  ghost function Stale(c: Config, h: nat): Bytes
    requires forall i :: 1 <= i <= h ==> Pos(i, 0) in c.base
  {
    if h == 0 then [] else Stale(c, h - 1) + c.base[Pos(h, 0)].right
  }

  lemma {:induction false} SpoiltIdentity(c: Config, h: nat)
    requires Identity(c.H) && |c.secs| > 0 && forall i :: 1 <= i <= h ==> Pos(i, 0) in c.base
    ensures Spoilt(c, h) == c.secs[0] + Stale(c, h)
  {
    if h > 0 {
      SpoiltIdentity(c, h - 1);
      assert c.secs[0] + Stale(c, h - 1) + c.base[Pos(h, 0)].right == c.secs[0] + Stale(c, h);
    }
  }

  /** With the identity for a base hash the wrong value differs from the digest exactly if
      the stale bytes differ from the other sections, as they do where there are none. */
  lemma WornDiffers(c: Config)
    requires Identity(c.H) && Sized(c) && forall i :: 1 <= i <= c.depth ==> Pos(i, 0) in c.base
    ensures Spoilt(c, c.depth) == Digest(c) <==> Stale(c, c.depth) == Flatten(c.secs[1..])
    ensures Stale(c, c.depth) == [] && c.secs[1] != [] ==> Spoilt(c, c.depth) != Digest(c)
  {
    var x, stale, rest := c.secs[0], Stale(c, c.depth), Flatten(c.secs[1..]);
    SpoiltIdentity(c, c.depth);
    RootHoldsAll(c);
    IdentityValue(c.H, c.hs, c.secs, Root(c));
    assert Digest(c) == x + rest;
    assert x + stale == x + rest ==> (x + stale)[|x|..] == (x + rest)[|x|..];
    assert (x + stale)[|x|..] == stale && (x + rest)[|x|..] == rest;
    assert rest == c.secs[1] + Flatten(c.secs[1..][1..]);
  }

  /** Three steps of the first goroutine for each of `n` nodes. */
  function Turns(n: nat): seq<Action> { if n == 0 then [] else [Run(0), Run(0), Run(0)] + Turns(n - 1) }

  lemma EdgeIn(c: Config)
    requires |c.secs| > 1 && c.depth >= 1 && Clean(c.depth, c.base, 0)
    ensures Pos(0, 0) in c.base && !c.base[Pos(0, 0)].root
    ensures forall h :: 0 <= h <= c.depth && Pos(h, 0) in c.base ==> (c.base[Pos(h, 0)].root <==> h == c.depth)
  {
    LeftEdge(c.depth);
    assert Lo(Pos(0, 0)) == 0;
    LoBelowHi(Pos(c.depth, 0));
    assert InTree(c.depth, Pos(0, 0));
  }

  lemma SpoiltStart(c: Config)
    requires |c.secs| > 0
    ensures Spoilt(c, 0) == c.H(c.secs[0])
  {
  }

  lemma SpoiltNext(c: Config, h: nat)
    requires |c.secs| > 0 && forall i :: 1 <= i <= h + 1 ==> Pos(i, 0) in c.base
    ensures Spoilt(c, h + 1) == c.H(Spoilt(c, h) + c.base[Pos(h + 1, 0)].right)
  {
  }

  /** Up the left edge from height `h`, node by node. */
  lemma {:induction false} WornClimb(c: Config, s: State, k: nat, h: nat) returns (s': State)
    requires |c.secs| > 1 && h < k <= c.depth
    requires forall i :: 1 <= i <= k ==> Pos(i, 0) in c.base && Worn(c.base[Pos(i, 0)])
    requires forall i :: 1 <= i <= k ==> (c.base[Pos(i, 0)].root <==> i == c.depth)
    requires s.threads == [Store(Pos(h + 1, 0), true, h, c.depth, Spoilt(c, h))] && s.results == []
    requires forall i :: h < i <= k ==> Pos(i, 0) in s.nodes && s.nodes[Pos(i, 0)] == c.base[Pos(i, 0)]
    ensures Runs(c, s, Turns(k - h), s') && |s'.threads| == 1
    ensures if k == c.depth then s'.results == [Spoilt(c, k)]
            else s'.results == [] && s'.threads[0] == Store(Pos(k + 1, 0), true, k, c.depth, Spoilt(c, k))
    decreases k - h
  {
    hide Runs, Spoilt, Turns, Worn;
    var next := WornNode(c, s, h);
    SpoiltNext(c, h);
    TurnsMore(k - h - 1);
    if h + 1 == k {
      s' := next;
      TurnsNone();
      RunsNone(c, s');
    } else {
      s' := WornClimb(c, next, k, h + 1);
    }
    RunsJoin(c, s, [Run(0), Run(0), Run(0)], next, Turns(k - h - 1), s');
  }

  lemma TurnsNone()
    ensures Turns(0) == []
  {
  }

  lemma TurnsMore(n: nat)
    ensures Turns(n + 1) == [Run(0), Run(0), Run(0)] + Turns(n)
  {
  }

  /** Past one worn node. */
  lemma WornNode(c: Config, s: State, h: nat) returns (s': State)
    requires |c.secs| > 1 && |s.threads| == 1 && s.threads[0].Store? && s.results == []
    requires s.threads[0].n == Pos(h + 1, 0) && s.threads[0].isLeft && s.threads[0].i == h
    requires Pos(h + 1, 0) in s.nodes && Worn(s.nodes[Pos(h + 1, 0)])
    ensures Runs(c, s, [Run(0), Run(0), Run(0)], s')
    ensures var nd, x := s.nodes[Pos(h + 1, 0)], c.H(s.threads[0].s + s.nodes[Pos(h + 1, 0)].right);
      if nd.root then s'.threads == [Done] && s'.results == [x]
      else s'.threads == [Store(Pos(h + 2, 0), true, h + 1, s.threads[0].d, x)] && s'.results == []
    ensures forall p :: p in s.nodes && p != Pos(h + 1, 0) ==> p in s'.nodes && s'.nodes[p] == s.nodes[p]
  {
    hide Runs, WrapInt32, Rem2;
    var n, nd, d, x := Pos(h + 1, 0), s.nodes[Pos(h + 1, 0)], s.threads[0].d, s.threads[0].s;
    NegativeGoesOn(nd.state);
    var s1 := Step(c, s, Run(0));
    assert s1.threads == [Toggle(n, true, h, d)] && s1.nodes == s.nodes[n := nd.(left := x)];
    var s2 := Step(c, s1, Run(0));
    assert s2.threads == [Combine(n, true, h, d)] && s2.nodes == s.nodes[n := nd.(left := x, state := nd.state + 1)];
    s' := Step(c, s2, Run(0));
    RunsNone(c, s');
    RunsFirst(c, s2, [Run(0)], [], s');
    RunsFirst(c, s1, [Run(0), Run(0)], [Run(0)], s');
    RunsFirst(c, s, [Run(0), Run(0), Run(0)], [Run(0), Run(0)], s');
  }

  lemma NegativeGoesOn(state: int)
    requires state % 2 == 0 && -0x8000_0000 <= state < 0
    ensures WrapInt32(state + 1) == state + 1 && Rem2(state + 1) != 1
  {
  }

  lemma RunsNone(c: Config, s: State)
    requires |c.secs| > 0
    ensures Runs(c, s, [], s)
  {
  }

  lemma RunsFirst(c: Config, s: State, acts: seq<Action>, rest: seq<Action>, s': State)
    requires |c.secs| > 0 && |acts| > 0 && Enabled(c, s, acts[0]) && acts == [acts[0]] + rest
    requires Runs(c, Step(c, s, acts[0]), rest, s')
    ensures Runs(c, s, acts, s')
  {
    assert acts[1..] == rest;
  }

  lemma {:induction false} RunsJoin(c: Config, s: State, a: seq<Action>, m: State, b: seq<Action>, s': State)
    requires |c.secs| > 0 && Runs(c, s, a, m) && Runs(c, m, b, s')
    ensures Runs(c, s, a + b, s')
    decreases |a|
  {
    if a == [] {
      assert a + b == b;
    } else {
      RunsJoin(c, Step(c, s, a[0]), a[1..], m, b, s');
      assert (a + b)[0] == a[0] && (a + b)[1..] == a[1..] + b;
    }
  }
}
