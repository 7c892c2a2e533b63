/** The request distributor of les/distributor.go: a queue of requests in creation order,
    the choice of the next request and peer, and the wake-up tokens between the queue
    and the distributor's loop. Operations hold one lock, so each is one step.
 */
module Distributor {
  import opened Wrappers
  import WeightedSelect
  import WeightedSlots
  import Tree = WeightedTree

  type Peer = nat

  class Req {
    var order: nat        // 0 until first queued
    var open: bool        // whether sentChn is set
    var listed: bool      // whether element is set

    constructor ()
      ensures order == 0 && !open && !listed
    {
      order, open, listed := 0, false, false;
    }
  }

  /** What peers answer during one call of nextRequest: whether a peer can take a
      request, how long it has to wait first, and its selection weight if not at all;
      and the random numbers drawn then. */
  datatype Env = Env(peers: set<Peer>, can: (Req, Peer) -> bool, wait: (Req, Peer) -> nat, buffer: (Req, Peer) -> nat,
                     draws: (nat, nat) -> nat)

  ghost predicate Fair(e: Env) {
    forall t: nat, n: nat :: n > 0 ==> e.draws(t, n) < n
  }

  // ----- the choice -----

  /** Whether some peer can take the request. */
  ghost predicate Servable(e: Env, r: Req) {
    exists p :: p in e.peers && e.can(r, p)
  }

  /** `i` is the oldest request of the queue that the peer can take. */
  ghost predicate Oldest(e: Env, q: seq<Req>, p: Peer, i: nat) {
    p in e.peers && i < |q| && e.can(q[i], p) && forall j :: 0 <= j < i ==> !e.can(q[j], p)
  }

  /** The first `k` requests are those ahead of the first that some peer can take. */
  ghost predicate Hopeless(e: Env, q: seq<Req>, k: nat) {
    k <= |q| && (forall j :: 0 <= j < k ==> !Servable(e, q[j])) && (k < |q| ==> Servable(e, q[k]))
  }

  /** Those are dropped, and nothing else. */
  ghost predicate Swept(e: Env, q: seq<Req>, q': seq<Req>) {
    exists k: nat :: Hopeless(e, q, k) && q' == q[k..]
  }

  datatype Choice = Choice(peer: Peer, req: Req, wait: nat)

  /** A choice is right: the request is the oldest its peer can take; a peer that need
      not wait is taken if there is one, else one with the least wait. */
  ghost predicate Right(e: Env, q: seq<Req>, c: Choice) {
    && (exists i: nat :: Oldest(e, q, c.peer, i) && q[i] == c.req && e.wait(c.req, c.peer) == c.wait)
    && forall p, i: nat :: Oldest(e, q, p, i) ==> c.wait <= e.wait(q[i], p)
  }

  /** A lot for each peer that need not wait, for its oldest request and as long as its
      buffer allows, and no other. */
  ghost predicate Lots(e: Env, q: seq<Req>, lots: seq<WeightedSlots.Slot>) {
    && (forall k :: 0 <= k < |lots| && lots[k].Full? ==> HasLot(e, q, lots[k].item, lots[k].weight))
    && (forall p, i: nat :: Oldest(e, q, p, i) && e.wait(q[i], p) == 0 ==> exists k :: 0 <= k < |lots| && lots[k].Full? && lots[k].item == p)
    && (forall j, k :: 0 <= j < k < |lots| && lots[j].Full? && lots[k].Full? ==> lots[j].item != lots[k].item)
  }

  ghost predicate HasLot(e: Env, q: seq<Req>, p: Peer, weight: nat) {
    exists i: nat :: Oldest(e, q, p, i) && e.wait(q[i], p) == 0 && weight == e.buffer(q[i], p) + 1
  }

  /** The random number falls on the peer's lot. */
  ghost predicate Drawn(e: Env, q: seq<Req>, p: Peer)
    requires Fair(e)
  {
    exists lots :: Lots(e, q, lots) && FallsOn(e, lots, p)
  }

  ghost predicate FallsOn(e: Env, lots: seq<WeightedSlots.Slot>, p: Peer)
    requires Fair(e)
  {
    WeightedSlots.Sum(lots) > 0 && lots[WeightedSlots.Pick(lots, e.draws(0, WeightedSlots.Sum(lots)))].item == p
  }

  // ----- scanning the queue -----

  /** What a scan knows: the peers met, those that can send at once with their request,
      and the best of the others. */
  datatype Scan = Scan(checked: set<Peer>, ready: map<Peer, Req>, best: Option<Choice>)

  /** The scan has come past the peer's oldest request: it is ahead of `i`, or is `i`
      with the peer already asked. */
  ghost predicate Met(e: Env, q: seq<Req>, i: nat, asked: set<Peer>, p: Peer, j: nat) {
    Oldest(e, q, p, j) && (j < i || (j == i && p in asked))
  }

  ghost predicate Scanned(e: Env, q: seq<Req>, i: nat, asked: set<Peer>, s: Scan) {
    && (forall p :: p in s.checked ==> exists j: nat :: Met(e, q, i, asked, p, j))
    && (forall p :: p in s.ready ==> exists j: nat :: Met(e, q, i, asked, p, j) && q[j] == s.ready[p] && e.wait(q[j], p) == 0)
    && (s.best.Some? ==> exists j: nat :: Best(e, q, i, asked, s.best.value, j))
    && (forall p, j: nat :: Met(e, q, i, asked, p, j) ==> Noted(e, q, s, p, j))
  }

  ghost predicate Best(e: Env, q: seq<Req>, i: nat, asked: set<Peer>, c: Choice, j: nat) {
    Met(e, q, i, asked, c.peer, j) && q[j] == c.req && e.wait(c.req, c.peer) == c.wait > 0
  }

  /** The scan took note of a peer. */
  ghost predicate Noted(e: Env, q: seq<Req>, s: Scan, p: Peer, j: nat)
    requires j < |q|
  {
    && p in s.checked
    && (if e.wait(q[j], p) == 0 then p in s.ready else s.best.Some? && s.best.value.wait <= e.wait(q[j], p))
  }

  lemma ScanStart(e: Env, q: seq<Req>)
    ensures Scanned(e, q, 0, {}, Scan({}, map[], None))
  {
  }

  /** After all peers were asked about request `i` the scan goes on with the next. */
  lemma ScanNext(e: Env, q: seq<Req>, i: nat, s: Scan)
    requires Scanned(e, q, i, e.peers, s)
    ensures Scanned(e, q, i + 1, {}, s)
  {
    forall p, j: nat ensures Met(e, q, i, e.peers, p, j) <==> Met(e, q, i + 1, {}, p, j) { }
    if s.best.Some? {
      var j: nat :| Best(e, q, i, e.peers, s.best.value, j);
      assert Best(e, q, i + 1, {}, s.best.value, j);
    }
  }

  /** What asking one peer does to the scan. */
  function Asked(e: Env, q: seq<Req>, i: nat, s: Scan, p: Peer): Scan
    requires i < |q|
  {
    if p in s.checked || !e.can(q[i], p) then s
    else
      var wait := e.wait(q[i], p);
      var s' := s.(checked := s.checked + {p});
      if wait == 0 then s'.(ready := s.ready[p := q[i]])
      else if s.best.None? || wait < s.best.value.wait then s'.(best := Some(Choice(p, q[i], wait)))
      else s'
  }

  /** The peers met are those met before and, with its oldest request `i`, `p`. */
  ghost predicate MetAlso(e: Env, q: seq<Req>, i: nat, asked: set<Peer>, more: set<Peer>, p: Peer) {
    && Met(e, q, i, more, p, i)
    && forall p', j: nat :: Met(e, q, i, more, p', j) <==> Met(e, q, i, asked, p', j) || (p' == p && j == i)
  }

  lemma ScanSame(e: Env, q: seq<Req>, i: nat, asked: set<Peer>, more: set<Peer>, s: Scan)
    requires Scanned(e, q, i, asked, s) && forall p, j: nat :: Met(e, q, i, more, p, j) <==> Met(e, q, i, asked, p, j)
    ensures Scanned(e, q, i, more, s)
  {
    if s.best.Some? {
      var j: nat :| Best(e, q, i, asked, s.best.value, j);
      assert Best(e, q, i, more, s.best.value, j);
    }
  }

  /** A new scan that holds what the old one held, and the peer just met. */
  lemma ScanMore(e: Env, q: seq<Req>, i: nat, asked: set<Peer>, more: set<Peer>, s: Scan, p: Peer, s': Scan)
    requires Scanned(e, q, i, asked, s) && MetAlso(e, q, i, asked, more, p) && i < |q| && Noted(e, q, s', p, i)
    requires s'.checked == s.checked + {p}
    requires s'.ready == s.ready || (s'.ready == s.ready[p := q[i]] && e.wait(q[i], p) == 0)
    requires s'.best == s.best || (s'.best == Some(Choice(p, q[i], e.wait(q[i], p))) && e.wait(q[i], p) > 0)
    requires s.best.Some? ==> s'.best.value.wait <= s.best.value.wait
    ensures Scanned(e, q, i, more, s')
  {
    forall p' | p' in s'.checked ensures exists j: nat :: Met(e, q, i, more, p', j) {
      if p' in s.checked {
        var j: nat :| Met(e, q, i, asked, p', j);
        assert Met(e, q, i, more, p', j);
      }
    }
    if s'.best.Some? {
      if s'.best == s.best {
        var j: nat :| Best(e, q, i, asked, s.best.value, j);
        assert Best(e, q, i, more, s.best.value, j);
      } else {
        assert Best(e, q, i, more, s'.best.value, i);
      }
    }
    forall p', j: nat | Met(e, q, i, more, p', j) ensures Noted(e, q, s', p', j) {
      if p' != p || j != i { assert Noted(e, q, s, p', j); }
    }
  }

  lemma ScanOne(e: Env, q: seq<Req>, i: nat, asked: set<Peer>, s: Scan, p: Peer)
    requires Scanned(e, q, i, asked, s) && i < |q| && p in e.peers && p !in asked
    ensures Scanned(e, q, i, asked + {p}, Asked(e, q, i, s, p))
    ensures s.ready.Keys <= s.checked
  {
    MetMore(e, q, i, asked, s, p);
    if p in s.checked || !e.can(q[i], p) {
      ScanSame(e, q, i, asked, asked + {p}, s);
    } else {
      assert Met(e, q, i, asked + {p}, p, i);
      ScanMore(e, q, i, asked, asked + {p}, s, p, Asked(e, q, i, s, p));
    }
    forall p' | p' in s.ready ensures p' in s.checked {
      var j: nat :| Met(e, q, i, asked, p', j) && q[j] == s.ready[p'];
      assert Noted(e, q, s, p', j);
    }
  }

  lemma MetMore(e: Env, q: seq<Req>, i: nat, asked: set<Peer>, s: Scan, p: Peer)
    requires Scanned(e, q, i, asked, s) && i < |q| && p in e.peers && p !in asked
    ensures p !in s.checked ==> forall j: nat :: j < i ==> !e.can(q[j], p)
    ensures forall p', j: nat :: Met(e, q, i, asked + {p}, p', j) <==> Met(e, q, i, asked, p', j) || (p' == p && j == i && p !in s.checked && e.can(q[i], p))
  {
    if p !in s.checked { NoneCan(e, q, i, asked, s, p, i); }
  }

  lemma {:induction false} NoneCan(e: Env, q: seq<Req>, i: nat, asked: set<Peer>, s: Scan, p: Peer, n: nat)
    requires Scanned(e, q, i, asked, s) && i < |q| && p in e.peers && p !in s.checked && n <= i
    ensures forall j: nat :: j < n ==> !e.can(q[j], p)
  {
    if n > 0 {
      NoneCan(e, q, i, asked, s, p, n - 1);
      assert Met(e, q, i, asked, p, n - 1) ==> Noted(e, q, s, p, n - 1);
    }
  }

  /** At the end of the queue the scan holds the right choice. */
  lemma ScanReady(e: Env, q: seq<Req>, s: Scan, p: Peer)
    requires Scanned(e, q, |q|, {}, s) && p in s.ready
    ensures Right(e, q, Choice(p, s.ready[p], 0))
  {
    var j: nat :| Met(e, q, |q|, {}, p, j) && q[j] == s.ready[p] && e.wait(q[j], p) == 0;
    assert Oldest(e, q, p, j) && q[j] == s.ready[p] && e.wait(s.ready[p], p) == 0;
  }

  lemma ScanBest(e: Env, q: seq<Req>, s: Scan)
    requires Scanned(e, q, |q|, {}, s) && s.ready == map[]
    ensures s.best.Some? ==> Right(e, q, s.best.value) && s.best.value.wait > 0
    ensures s.best.None? ==> forall j :: 0 <= j < |q| ==> !Servable(e, q[j])
  {
    if s.best.Some? {
      var c := s.best.value;
      var j: nat :| Best(e, q, |q|, {}, c, j);
      assert Oldest(e, q, c.peer, j) && q[j] == c.req && e.wait(c.req, c.peer) == c.wait;
      forall p, i: nat | Oldest(e, q, p, i) ensures c.wait <= e.wait(q[i], p) { assert Met(e, q, |q|, {}, p, i); }
    } else {
      forall j | 0 <= j < |q| ensures !Servable(e, q[j]) {
        forall p | p in e.peers && e.can(q[j], p) ensures false {
          var i := FirstOf(e, q, p, j);
          assert Met(e, q, |q|, {}, p, i);
        }
      }
    }
  }

  lemma FirstOf(e: Env, q: seq<Req>, p: Peer, j: nat) returns (i: nat)
    requires p in e.peers && j < |q| && e.can(q[j], p)
    ensures Oldest(e, q, p, i) && i <= j
  {
    i := 0;
    while !e.can(q[i], p)
      invariant i <= j && forall m :: 0 <= m < i ==> !e.can(q[m], p)
      decreases j - i
    {
      i := i + 1;
    }
  }

  /** Until a request can be served no peer has been met. */
  lemma NoneMet(e: Env, q: seq<Req>, i: nat, s: Scan)
    requires Scanned(e, q, i, {}, s) && forall j :: 0 <= j < i && j < |q| ==> !Servable(e, q[j])
    ensures s.checked == {}
  {
  }

  // ----- the queue -----

  type Ranks = map<Req, nat>

  /** Ranks are positive, of their own, and not beyond the last one given out. */
  ghost predicate Ranked(ranks: Ranks, last: nat) {
    && (forall r :: r in ranks ==> 0 < ranks[r] <= last)
    && (forall r, r' :: r in ranks && r' in ranks && ranks[r] == ranks[r'] ==> r == r')
  }

  /** The queue holds ranked requests in strictly ascending order. */
  ghost predicate Ascending(q: seq<Req>, ranks: Ranks) {
    && (forall i :: 0 <= i < |q| ==> q[i] in ranks)
    && (forall i, j :: 0 <= i < j < |q| ==> ranks[q[i]] < ranks[q[j]])
  }

  ghost function Members(q: seq<Req>): set<Req> { set r | r in q }

  /** list.Remove of a request's element. */
  function Removed(q: seq<Req>, r: Req): seq<Req> {
    if q == [] then [] else if q[0] == r then q[1..] else [q[0]] + Removed(q[1..], r)
  }

  lemma {:induction false} RemovedAt(q: seq<Req>, k: nat)
    requires k < |q| && q[k] !in q[..k]
    ensures Removed(q, q[k]) == q[..k] + q[k + 1..]
  {
    if k > 0 {
      var rest := q[1..];
      assert q[..k][0] == q[0];
      assert rest[..k - 1] == q[..k][1..];
      RemovedAt(rest, k - 1);
      assert q[..k] == [q[0]] + rest[..k - 1];
    }
  }

  lemma RemovedKeeps(q: seq<Req>, ranks: Ranks, r: Req)
    requires Ascending(q, ranks) && r in q
    ensures var q' := Removed(q, r); Ascending(q', ranks) && |q'| == |q| - 1 && Members(q') == Members(q) - {r}
  {
    var k :| 0 <= k < |q| && q[k] == r;
    CutKeeps(q, ranks, k, q[..k] + q[k + 1..]);
    RemovedAt(q, k);
  }

  lemma CutKeeps(q: seq<Req>, ranks: Ranks, k: nat, q': seq<Req>)
    requires Ascending(q, ranks) && k < |q| && q' == q[..k] + q[k + 1..]
    ensures Ascending(q', ranks) && Members(q') == Members(q) - {q[k]} && q[k] !in q[..k]
  {
    assert forall i :: 0 <= i < |q'| ==> q'[i] == if i < k then q[i] else q[i + 1];
    CutMembers(q, ranks, k, q');
  }

  lemma CutMembers(q: seq<Req>, ranks: Ranks, k: nat, q': seq<Req>)
    requires Ascending(q, ranks) && k < |q| && q' == q[..k] + q[k + 1..]
    ensures Members(q') == Members(q) - {q[k]} && q[k] !in q[..k]
  {
    assert q == q[..k] + [q[k]] + q[k + 1..];
    assert q[k] !in q[..k] && q[k] !in q[k + 1..];
  }

  /** A request put in front of the first of higher rank. */
  lemma InsertedKeeps(q: seq<Req>, ranks: Ranks, r: Req, k: nat, q': seq<Req>)
    requires Ascending(q, ranks) && r in ranks && k <= |q| && q' == q[..k] + [r] + q[k..]
    requires (forall i :: 0 <= i < k ==> ranks[q[i]] < ranks[r]) && (k < |q| ==> ranks[r] < ranks[q[k]])
    ensures Ascending(q', ranks) && Members(q') == Members(q) + {r}
  {
    forall i | 0 <= i < |q'| ensures q'[i] == if i < k then q[i] else if i == k then r else q[i - 1] { }
    forall i | 0 <= i < |q| ensures q[i] in q' { assert q[i] == q'[if i < k then i else i + 1]; }
    assert q'[k] == r;
  }

  lemma AscendingStill(q: seq<Req>, ranks: Ranks, r: Req, rank: nat)
    requires Ascending(q, ranks) && (r in ranks ==> ranks[r] == rank)
    ensures Ascending(q, ranks[r := rank])
  {
  }

  lemma RankedStill(ranks: Ranks, last: nat, r: Req, rank: nat, last': nat)
    requires Ranked(ranks, last) && last <= last'
    requires if r in ranks then ranks[r] == rank else last < rank <= last'
    ensures Ranked(ranks[r := rank], last')
  {
  }

  class RequestDistributor {
    var queue: seq<Req>
    var last: nat                 // lastReqOrder
    ghost var known: set<Req>     // requests queued at some time
    var nextSent: bool            // loopNextSent
    var tokens: nat               // signals in loopChn, whose buffer holds two
    var sleeping: nat             // timers that will put a signal into loopChn
    var inHand: nat               // signals received by the loop, the lock not yet taken
    var sent: seq<(Req, Peer)>    // requests handed to peers

    ghost function RanksOf(): Ranks
      reads this`known, known
    {
      map r | r in known :: r.order
    }

    /** Exactly the queued requests have their channel open and their element set. */
    ghost predicate Marked()
      reads this`known, this`queue, known
    {
      forall r :: r in known ==> (r.open <==> r in Members(queue)) && (r.listed <==> r in Members(queue))
    }

    ghost predicate Orders()
      reads this`known, this`queue, this`last, known
    {
      Ranked(RanksOf(), last) && Ascending(queue, RanksOf()) && Marked()
    }

    /** At most one wake-up is under way, and nextSent says whether. */
    ghost predicate Tokens()
      reads this`tokens, this`sleeping, this`inHand, this`nextSent
    {
      tokens + sleeping + inHand == if nextSent then 1 else 0
    }

    /** No request waits without a wake-up under way. */
    ghost predicate Valid()
      reads this`known, this`queue, this`last, this`tokens, this`sleeping, this`inHand, this`nextSent, known
    {
      Orders() && Tokens() && (queue != [] ==> nextSent)
    }

    constructor ()
      ensures Valid() && queue == []
    {
      queue, last, known, nextSent, tokens, sleeping, inHand, sent := [], 0, {}, false, 0, 0, 0, [];
    }

    lemma Unfold()
      requires Orders()
      ensures Ranked(RanksOf(), last) && Ascending(queue, RanksOf()) && Marked() && RanksOf().Keys == known
      ensures forall r :: r in known ==> RanksOf()[r] == r.order
      ensures forall r :: r in known ==> (r.open <==> r in queue) && (r.listed <==> r in queue)
      ensures forall i :: 0 <= i < |queue| ==> queue[i] in known
    {
    }

    lemma Fold(ranks: Ranks)
      requires Ranked(ranks, last) && Ascending(queue, ranks) && ranks.Keys == known
      requires forall r :: r in known ==> ranks[r] == r.order
      requires forall r :: r in known ==> (r.open <==> r in Members(queue)) && (r.listed <==> r in Members(queue))
      ensures Orders() && RanksOf() == ranks
    {
      assert RanksOf() == ranks;
    }

    lemma Marks()
      requires Marked()
      ensures forall r :: r in known ==> (r.open <==> r in Members(queue)) && (r.listed <==> r in Members(queue))
    {
    }

    /** The place for a request: behind the last if it ranks higher, else in front of the
        first that does. */
    method Place(r: Req, ghost ranks: Ranks) returns (k: nat)
      requires Ascending(queue, ranks) && forall i :: 0 <= i < |queue| ==> ranks[queue[i]] == queue[i].order
      ensures k <= |queue|
      ensures forall i :: 0 <= i < k ==> queue[i].order < r.order
      ensures k < |queue| ==> r.order <= queue[k].order
    {
      k := |queue|;
      if |queue| > 0 && r.order <= queue[|queue| - 1].order {
        k := 0;
        while queue[k].order < r.order
          invariant k < |queue| && forall j :: 0 <= j < k ==> queue[j].order < r.order
          decreases |queue| - k
        {
          k := k + 1;
        }
      } else if |queue| > 0 {
        forall i | 0 <= i < |queue| ensures queue[i].order < r.order { }
      }
    }

    method Remove(r: Req)
      requires Orders() && r in known
      modifies this`queue, r`open, r`listed
      ensures Orders() && r !in queue && RanksOf() == old(RanksOf())
      ensures if old(r in queue) then queue == Removed(old(queue), r) && |queue| == |old(queue)| - 1 else queue == old(queue)
    {
      hide *;
      Unfold();
      Marks();
      ghost var ranks, q := RanksOf(), queue;
      r.open := false;
      if r.listed {
        RemovedKeeps(queue, ranks, r);
        queue := Removed(queue, r);
        r.listed := false;
        MembersAre(q);
      }
      MembersAre(queue);
      Fold(ranks);
    }

    /** queue: a new request goes to the end, a resent one to the place of its order. The
        signal fits into the channel, whose buffer holds two. */
    method Queue(r: Req)
      requires Valid() && r !in queue && (r !in known ==> r.order == 0 && !r.open && !r.listed)
      modifies this, r
      ensures Valid() && r in queue && known == old(known) + {r} && tokens <= 1
      ensures sent == old(sent) && inHand == old(inHand) && sleeping == old(sleeping)
      ensures r.order == if old(r in known) then old(r.order) else old(last) + 1
      ensures exists k :: 0 <= k <= |old(queue)| && queue == old(queue)[..k] + [r] + old(queue)[k..]
    {
      hide *;
      Open();
      Unfold();
      MembersAre(queue);
      ghost var ranks := RanksOf();
      RankedMeans(ranks, last);
      if r.order == 0 {
        last := last + 1;
        r.order := last;
      }
      RankedStill(ranks, old(last), r, r.order, last);
      AscendingStill(queue, ranks, r, r.order);
      Enlist(r, ranks[r := r.order]);
      if !nextSent {
        nextSent := true;
        tokens := tokens + 1;
      }
      Close();
    }

    /** A request with its order goes to its place. */
    method Enlist(r: Req, ghost ranks: Ranks)
      requires r !in queue && ranks.Keys == known + {r} && Ranked(ranks, last) && Ascending(queue, ranks)
      requires forall x :: x in known + {r} ==> ranks[x] == x.order
      requires forall x :: x in known + {r} ==> (x.open <==> x in queue) && (x.listed <==> x in queue)
      modifies this`queue, this`known, r`listed, r`open
      ensures Orders() && known == old(known) + {r} && r in queue
      ensures exists k :: 0 <= k <= |old(queue)| && queue == old(queue)[..k] + [r] + old(queue)[k..]
    {
      hide *;
      RankedMeans(ranks, last);
      AscendingMeans(queue, ranks);
      var k := Place(r, ranks);
      ghost var q := queue;
      queue := queue[..k] + [r] + queue[k..];
      InsertedKeeps(q, ranks, r, k, queue);
      MembersAre(q);
      MembersAre(queue);
      known := known + {r};
      r.listed := true;
      r.open := true;
      Fold(ranks);
    }

    /** The inner loop of nextRequest: all peers, in any order, are asked about request
        `i`. */
    method AskPeers(e: Env, q: seq<Req>, i: nat, scan: Scan, sel: WeightedSelect.Select) returns (canSend: bool, scan': Scan)
      requires Scanned(e, q, i, {}, scan) && i < |q| && sel.Valid() && Weighs(e, scan.ready, sel.Weights())
      modifies sel
      ensures Scanned(e, q, i, e.peers, scan') && sel.Valid() && Weighs(e, scan'.ready, sel.Weights())
      ensures canSend <==> exists p :: p in e.peers && p !in scan.checked && e.can(q[i], p)
    {
      hide *;
      canSend, scan' := false, scan;
      var left := e.peers;
      assert e.peers - left == {};
      while left != {}
        invariant left <= e.peers && Scanned(e, q, i, e.peers - left, scan')
        invariant sel.Valid() && Weighs(e, scan'.ready, sel.Weights())
        invariant canSend <==> exists p :: p in e.peers - left && p !in scan.checked && e.can(q[i], p)
        invariant forall p :: p in left ==> (p in scan'.checked <==> p in scan.checked)
      {
        var p :| p in left;
        ScanOne(e, q, i, e.peers - left, scan', p);
        AskedMeans(e, q, i, scan', p);
        assert e.peers - left + {p} == e.peers - (left - {p});
        if p !in scan'.checked && e.can(q[i], p) {
          canSend := true;
          if e.wait(q[i], p) == 0 {
            WeighsMore(e, scan'.ready, sel.Weights(), p, q[i]);
            WeightedSelect.PutMeans(sel.Weights(), p, e.buffer(q[i], p) + 1);
            sel.SetWeight(p, e.buffer(q[i], p) + 1);
          }
        }
        scan' := Asked(e, q, i, scan', p);
        left := left - {p};
      }
      assert e.peers - left == e.peers;
    }

    /** nextRequest: requests at the front that no peer can take are dropped. Nothing is
        chosen exactly if that empties the queue; otherwise the choice is right. */
    method NextRequest(e: Env) returns (c: Option<Choice>)
      requires Orders() && Fair(e)
      modifies this`queue, queue
      ensures Orders() && RanksOf() == old(RanksOf())
      ensures Swept(e, old(queue), queue)
      ensures c.None? <==> queue == []
      ensures c.Some? ==> c.value.req in queue && Right(e, old(queue), c.value)
      ensures c.Some? && c.value.wait == 0 ==> Drawn(e, old(queue), c.value.peer)
    {
      hide *;
      ghost var q := queue;
      var sel := new WeightedSelect.Select();
      var scan;
      ghost var k;
      scan, k := Sweep(e, sel);
      SweptIs(e, q, k, queue);
      if scan.ready != map[] {
        var ready := scan.ready;
        var current := (t: nat, p: Peer) => if p in ready then e.buffer(ready[p], p) + 1 else 0;
        ghost var w, turns, lots, idx := sel.Weights(), 0, Tree.Slots(sel.root), sel.idx;
        sel.Unfold();
        FairMeans(e);
        var r;
        r, turns := sel.Choose(current, e.draws);
        SomeReady(e, ready, w, sel.Weights(), current, turns, r);
        ScanReady(e, q, scan, r.value);
        c := Some(Choice(r.value, ready[r.value], 0));
        DrawnIs(e, q, scan, lots, idx, current, r.value);
        RightInTail(e, q, k, c.value);
      } else {
        ScanBest(e, q, scan);
        c := scan.best;
        if c.Some? {
          RightInTail(e, q, k, c.value);
        } else {
          NothingLeft(e, q, k);
        }
      }
    }

    /** The outer loop of nextRequest. */
    method Sweep(e: Env, sel: WeightedSelect.Select) returns (scan: Scan, ghost front: nat)
      requires Orders() && sel.Valid() && sel.Weights() == map[]
      modifies this`queue, queue, sel
      ensures Orders() && RanksOf() == old(RanksOf())
      ensures Hopeless(e, old(queue), front) && queue == old(queue)[front..]
      ensures Scanned(e, old(queue), |old(queue)|, {}, scan) && sel.Valid() && Weighs(e, scan.ready, sel.Weights())
    {
      hide *;
      var all, i, dropped := queue, 0, 0;
      scan := Scan({}, map[], None);
      ScanStart(e, all);
      WeighsNone(e);
      Unfold();
      assert all[0..] == all;
      while (e.peers != {} || i == dropped) && i < |all|
        invariant dropped <= i <= |all| && queue == all[dropped..] && (e.peers == {} ==> i == dropped)
        invariant Orders() && RanksOf() == old(RanksOf()) && known == old(known)
        invariant Scanned(e, all, i, {}, scan) && sel.Valid() && Weighs(e, scan.ready, sel.Weights())
        invariant forall j :: 0 <= j < dropped ==> !Servable(e, all[j])
        invariant dropped < i ==> Servable(e, all[dropped])
      {
        if i == dropped { NoneMet(e, all, i, scan); }
        ServableMeans(e, all[i]);
        var canSend;
        canSend, scan := AskPeers(e, all, i, scan, sel);
        ScanNext(e, all, i, scan);
        if !canSend && i == dropped {
          assert queue[0] == all[i];
          RemovedFirst(queue);
          Remove(all[i]);
          assert all[dropped..][1..] == all[dropped + 1..];
          dropped := dropped + 1;
        }
        i := i + 1;
      }
      front := dropped;
      HopelessIs(e, all, front);
    }

    /** The loop takes a signal out of the channel. */
    method Receive()
      requires Valid() && tokens > 0
      modifies this`tokens, this`inHand
      ensures Valid() && tokens == old(tokens) - 1 && inHand == 1
    {
      hide *;
      Open();
      tokens, inHand := tokens - 1, inHand + 1;
      Close();
    }

    /** A timer puts its signal into the channel, which has room. */
    method Wake()
      requires Valid() && sleeping > 0
      modifies this`tokens, this`sleeping
      ensures Valid() && tokens == 1 && sleeping == 0
    {
      hide *;
      Open();
      sleeping, tokens := sleeping - 1, tokens + 1;
      Close();
    }

    method Send(r: Req, p: Peer)
      requires Orders() && r in queue
      modifies this`queue, this`sent, r`open, r`listed
      ensures Orders() && RanksOf() == old(RanksOf()) && sent == old(sent) + [(r, p)]
      ensures Members(queue) <= Members(old(queue)) && |queue| == |old(queue)| - 1 && queue == Removed(old(queue), r)
    {
      hide *;
      Unfold();
      RemovedKeeps(queue, RanksOf(), r);
      Remove(r);
      sent := sent + [(r, p)];
    }

    /** What the loop does on a signal, under the lock: requests are sent as long as a
        peer can take one at once. `envs` are the answers of peers turn by turn, and `qs`
        the queues the turns start from. The loop ends; turn by turn it drops what nobody
        can take then and sends a right choice; it leaves requests behind only with a
        timer running and when no peer can take any at once, and loses none. */
    method OnSignal(envs: nat -> Env) returns (ghost qs: seq<seq<Req>>, ghost pairs: seq<(Req, Peer)>)
      requires Valid() && inHand == 1 && forall n: nat :: Fair(envs(n))
      modifies this, queue
      ensures Valid() && inHand == 0 && tokens == 0 && (queue != [] <==> sleeping == 1)
      ensures RanksOf() == old(RanksOf()) && known == old(known) && Members(queue) <= Members(old(queue))
      ensures sent == old(sent) + pairs && Turns(envs, old(queue), qs, pairs)
      ensures Swept(envs(|pairs|), qs[|pairs|], queue) && (queue != [] ==> NoneReady(envs(|pairs|), queue))
      ensures Accounted(envs, old(queue), queue, pairs)
    {
      hide *;
      Open();
      inHand, nextSent := 0, false;
      qs, pairs := Rounds(envs);
      TurnsMean(envs, old(queue), qs, pairs);
      AllAccounted(envs, old(queue), qs, pairs, queue);
      Close();
    }

    /** The turns of the loop, until one does not send. */
    method Rounds(envs: nat -> Env) returns (ghost qs: seq<seq<Req>>, ghost pairs: seq<(Req, Peer)>)
      requires Orders() && !nextSent && sleeping == 0 && forall n: nat :: Fair(envs(n))
      modifies this`queue, this`sent, this`nextSent, this`sleeping, queue
      ensures Orders() && RanksOf() == old(RanksOf()) && Members(queue) <= Members(old(queue))
      ensures nextSent == (queue != []) && sleeping == if nextSent then 1 else 0
      ensures sent == old(sent) + pairs && Turns(envs, old(queue), qs, pairs) && |qs| == |pairs| + 1
      ensures Swept(envs(|pairs|), qs[|pairs|], queue) && (queue != [] ==> NoneReady(envs(|pairs|), queue))
    {
      hide *;
      var n := 0;
      ghost var q0 := queue;
      qs, pairs := [queue], [];
      TurnsNone(envs, queue);
      while true
        invariant Orders() && RanksOf() == old(RanksOf()) && Members(queue) <= Members(q0) && !nextSent && sleeping == 0
        invariant sent == old(sent) + pairs && Turns(envs, q0, qs, pairs) && |qs| == n + 1 && |pairs| == n && qs[n] == queue
        decreases |queue|
      {
        AllIn(queue, q0);
        var again := TryNext(envs(n));
        if !again { break; }
        ghost var pair := sent[|sent| - 1];
        TurnsMore(envs, q0, qs, pairs, pair, queue);
        qs, pairs := qs + [queue], pairs + [pair];
        n := n + 1;
      }
    }

    /** One turn of the loop: a request is sent, or a timer started, or nothing is left. */
    method TryNext(e: Env) returns (again: bool)
      requires Orders() && Fair(e) && !nextSent && sleeping == 0
      modifies this`queue, this`sent, this`nextSent, this`sleeping, queue
      ensures Orders() && RanksOf() == old(RanksOf()) && Members(queue) <= Members(old(queue)) && old(sent) <= sent
      ensures again ==> !nextSent && sleeping == 0 && |queue| < |old(queue)|
      ensures again ==> |sent| == |old(sent)| + 1 && Turn(e, old(queue), sent[|old(sent)|], queue)
      ensures !again ==> sent == old(sent) && nextSent == (queue != []) && sleeping == (if nextSent then 1 else 0)
      ensures !again ==> Swept(e, old(queue), queue) && (queue != [] ==> NoneReady(e, queue))
    {
      hide *;
      ghost var q := queue;
      var c := NextRequest(e);
      TailMembers(e, q, queue);
      again := c.Some? && c.value.wait == 0;
      if again {
        ghost var q' := queue;
        AllIn(queue, q);
        Send(c.value.req, c.value.peer);
        TurnIs(e, q, c.value, q', queue);
      } else if c.Some? {
        NoneReadyIs(e, q, queue, c.value);
        nextSent := true;
        sleeping := sleeping + 1;
      }
    }

    lemma Open()
      requires Valid()
      ensures Orders() && tokens + sleeping + inHand == (if nextSent then 1 else 0) && (queue != [] ==> nextSent)
    {
    }

    lemma Close()
      requires Orders() && tokens + sleeping + inHand == (if nextSent then 1 else 0) && (queue != [] ==> nextSent)
      ensures Valid()
    {
    }

    /** cancel: true exactly if the request was still waiting. */
    method Cancel(r: Req) returns (ok: bool)
      requires Valid() && (r !in known ==> !r.open)
      modifies this`queue, r`open, r`listed
      ensures Valid() && ok == old(r in queue) && r !in queue
      ensures queue == if ok then Removed(old(queue), r) else old(queue)
    {
      hide *;
      Open();
      Unfold();
      if !r.open { return false; }
      Remove(r);
      ok := true;
      Close();
    }
  }

  /** The selection holds the peers that can send at once, by their buffer. */
  ghost predicate Weighs(e: Env, ready: map<Peer, Req>, w: map<Peer, nat>) {
    w.Keys == ready.Keys && forall p :: p in ready ==> w[p] == e.buffer(ready[p], p) + 1
  }

  lemma WeighsMore(e: Env, ready: map<Peer, Req>, w: map<Peer, nat>, p: Peer, r: Req)
    requires Weighs(e, ready, w)
    ensures Weighs(e, ready[p := r], w[p := e.buffer(r, p) + 1])
  {
  }

  /** The selection is not empty, so it yields one of its peers. */
  lemma SomeReady(e: Env, ready: map<Peer, Req>, w: map<Peer, WeightedSlots.Weight>, w': map<Peer, WeightedSlots.Weight>,
                  current: (nat, Peer) -> nat, turns: nat, r: Option<Peer>)
    requires Weighs(e, ready, w) && ready != map[] && WeightedSelect.Refreshed(w, w', current, turns)
    requires forall t, p :: p in ready ==> current(t, p) == e.buffer(ready[p], p) + 1
    requires (r.None? <==> w' == map[]) && (r.Some? ==> r.value in w')
    ensures r.Some? && r.value in ready
  {
    var p :| p in ready;
    assert p in w;
    assert !WeightedSelect.Shown(current, turns, p, 0);
  }

  /** The selection holds the lots, and their weights do not change. */
  lemma DrawnIs(e: Env, q: seq<Req>, s: Scan, lots: seq<WeightedSlots.Slot>, idx: map<Peer, nat>, current: (nat, Peer) -> nat, p: Peer)
    requires Fair(e) && Scanned(e, q, |q|, {}, s) && WeightedSelect.Indexed(lots, idx)
    requires Weighs(e, s.ready, WeightedSelect.WeightsOf(lots, idx)) && s.ready != map[]
    requires forall t, p :: p in s.ready ==> current(t, p) == e.buffer(s.ready[p], p) + 1
    requires Some(p) == WeightedSelect.Chosen(lots, current, e.draws, 0)
    ensures Drawn(e, q, p)
  {
    hide WeightedSelect.Chosen, WeightedSlots.Sum, WeightedSlots.Pick, Scanned, Lots;
    WeightedSelect.NoWeight(lots, idx);
    LotsAre(e, q, s, lots, idx);
    WeightedSelect.ChosenStep(lots, current, e.draws, 0);
    var k := WeightedSlots.Pick(lots, e.draws(0, WeightedSlots.Sum(lots)));
    assert lots[k].item in WeightedSelect.WeightsOf(lots, idx);
    assert FallsOn(e, lots, p);
  }

  lemma LotsAre(e: Env, q: seq<Req>, s: Scan, lots: seq<WeightedSlots.Slot>, idx: map<Peer, nat>)
    requires Scanned(e, q, |q|, {}, s) && WeightedSelect.Indexed(lots, idx)
    requires Weighs(e, s.ready, WeightedSelect.WeightsOf(lots, idx))
    ensures Lots(e, q, lots)
  {
    var w := WeightedSelect.WeightsOf(lots, idx);
    forall k | 0 <= k < |lots| && lots[k].Full? ensures HasLot(e, q, lots[k].item, lots[k].weight) {
      var p := lots[k].item;
      assert p in w;
      var j: nat :| Met(e, q, |q|, {}, p, j) && q[j] == s.ready[p] && e.wait(q[j], p) == 0;
      assert Oldest(e, q, p, j);
    }
    forall p, i: nat | Oldest(e, q, p, i) && e.wait(q[i], p) == 0 ensures exists k :: 0 <= k < |lots| && lots[k].Full? && lots[k].item == p {
      assert Met(e, q, |q|, {}, p, i);
      assert p in w;
      assert lots[idx[p]].item == p;
    }
  }

  lemma RightInTail(e: Env, q: seq<Req>, k: nat, c: Choice)
    requires Right(e, q, c) && Hopeless(e, q, k)
    ensures c.req in q[k..]
  {
    var i: nat :| Oldest(e, q, c.peer, i) && q[i] == c.req && e.wait(c.req, c.peer) == c.wait;
    assert Servable(e, q[i]);
    assert q[k..][i - k] == c.req;
  }

  lemma NothingLeft(e: Env, q: seq<Req>, k: nat)
    requires Hopeless(e, q, k) && forall j :: 0 <= j < |q| ==> !Servable(e, q[j])
    ensures q[k..] == []
  {
  }

  lemma AllIn(q: seq<Req>, q0: seq<Req>)
    requires Members(q) <= Members(q0)
    ensures forall i :: 0 <= i < |q| ==> q[i] in q0
  {
    forall i | 0 <= i < |q| ensures q[i] in q0 { assert q[i] in Members(q); }
  }

  lemma SweptIs(e: Env, q: seq<Req>, k: nat, q': seq<Req>)
    requires Hopeless(e, q, k) && q' == q[k..]
    ensures Swept(e, q, q')
  {
  }

  lemma TailMembers(e: Env, q: seq<Req>, q': seq<Req>)
    requires Swept(e, q, q')
    ensures Members(q') <= Members(q) && |q'| <= |q|
  {
  }

  lemma FairMeans(e: Env)
    requires Fair(e)
    ensures forall t: nat, n: nat :: n > 0 ==> e.draws(t, n) < n
  {
  }

  /** No peer can take a request of the queue at once. */
  ghost predicate NoneReady(e: Env, q: seq<Req>) {
    forall p, i: nat :: Oldest(e, q, p, i) ==> e.wait(q[i], p) > 0
  }

  lemma NoneReadyIs(e: Env, q: seq<Req>, q': seq<Req>, c: Choice)
    requires Right(e, q, c) && c.wait > 0 && Swept(e, q, q')
    ensures NoneReady(e, q')
  {
    var k: nat :| Hopeless(e, q, k) && q' == q[k..];
    forall p, i: nat | Oldest(e, q', p, i) ensures e.wait(q'[i], p) > 0 {
      forall j | 0 <= j < i + k ensures !e.can(q[j], p) {
        if j < k { assert !Servable(e, q[j]); } else { assert q[j] == q'[j - k]; }
      }
      assert Oldest(e, q, p, i + k);
    }
  }

  /** A turn that sends: what nobody can take is dropped from the front, and one of the
      rest, a right choice that need not wait, is sent to the peer drawn. */
  ghost predicate Turn(e: Env, q: seq<Req>, pair: (Req, Peer), q': seq<Req>) {
    && Right(e, q, Choice(pair.1, pair.0, 0))
    && Fair(e) && Drawn(e, q, pair.1)
    && exists k: nat :: Hopeless(e, q, k) && pair.0 in q[k..] && q' == Removed(q[k..], pair.0)
  }

  lemma TurnIs(e: Env, q: seq<Req>, c: Choice, rest: seq<Req>, q': seq<Req>)
    requires Right(e, q, c) && c.wait == 0 && Fair(e) && Drawn(e, q, c.peer) && Swept(e, q, rest) && c.req in rest && q' == Removed(rest, c.req)
    ensures Turn(e, q, (c.req, c.peer), q')
  {
    assert c == Choice(c.peer, c.req, 0);
    var k: nat :| Hopeless(e, q, k) && rest == q[k..];
  }

  /** Turn after turn, each in its own environment: `qs` are the queues before the turns
      and after the last. */
  ghost predicate Turns(envs: nat -> Env, q0: seq<Req>, qs: seq<seq<Req>>, pairs: seq<(Req, Peer)>) {
    && |qs| == |pairs| + 1 && qs[0] == q0
    && forall i :: 0 <= i < |pairs| ==> Turn(envs(i), qs[i], pairs[i], qs[i + 1])
  }

  lemma TurnsNone(envs: nat -> Env, q0: seq<Req>)
    ensures Turns(envs, q0, [q0], [])
  {
  }

  lemma TurnsMean(envs: nat -> Env, q0: seq<Req>, qs: seq<seq<Req>>, pairs: seq<(Req, Peer)>)
    requires Turns(envs, q0, qs, pairs)
    ensures |qs| == |pairs| + 1
  {
  }

  lemma TurnsMore(envs: nat -> Env, q0: seq<Req>, qs: seq<seq<Req>>, pairs: seq<(Req, Peer)>, pair: (Req, Peer), q': seq<Req>)
    requires Turns(envs, q0, qs, pairs) && Turn(envs(|pairs|), qs[|pairs|], pair, q')
    ensures Turns(envs, q0, qs + [q'], pairs + [pair])
  {
  }

  /** Every request is still queued, was sent, or at one of the turns nobody could take it. */
  ghost predicate Accounted(envs: nat -> Env, q0: seq<Req>, q: seq<Req>, sent: seq<(Req, Peer)>) {
    forall i :: 0 <= i < |q0| ==> q0[i] in q || SentTo(sent, q0[i]) || Abandoned(envs, |sent|, q0[i])
  }

  ghost predicate SentTo(sent: seq<(Req, Peer)>, r: Req) {
    exists j :: 0 <= j < |sent| && sent[j].0 == r
  }

  ghost predicate Abandoned(envs: nat -> Env, turns: nat, r: Req) {
    exists n: nat :: n <= turns && !Servable(envs(n), r)
  }

  lemma AllAccounted(envs: nat -> Env, q0: seq<Req>, qs: seq<seq<Req>>, pairs: seq<(Req, Peer)>, q: seq<Req>)
    requires Turns(envs, q0, qs, pairs) && Swept(envs(|pairs|), qs[|pairs|], q)
    ensures Accounted(envs, q0, q, pairs)
  {
    forall i | 0 <= i < |q0| ensures q0[i] in q || SentTo(pairs, q0[i]) || Abandoned(envs, |pairs|, q0[i]) {
      AccountedFrom(envs, q0, qs, pairs, q, q0[i], 0);
    }
  }

  /** Where a request that is queued before turn `n` ends up. */
  lemma {:induction false} AccountedFrom(envs: nat -> Env, q0: seq<Req>, qs: seq<seq<Req>>, pairs: seq<(Req, Peer)>, q: seq<Req>,
                                         r: Req, n: nat)
    requires Turns(envs, q0, qs, pairs) && Swept(envs(|pairs|), qs[|pairs|], q) && n <= |pairs| && r in qs[n]
    ensures r in q || SentTo(pairs, r) || Abandoned(envs, |pairs|, r)
    decreases |pairs| - n
  {
    hide Turn, Swept, Servable;
    if n == |pairs| {
      SweptSplits(envs(n), qs[n], q, r);
    } else {
      TurnSplits(envs(n), qs[n], pairs[n], qs[n + 1], r);
      if r in qs[n + 1] { AccountedFrom(envs, q0, qs, pairs, q, r, n + 1); }
    }
  }

  lemma TurnSplits(e: Env, q: seq<Req>, pair: (Req, Peer), q': seq<Req>, r: Req)
    requires Turn(e, q, pair, q') && r in q
    ensures r in q' || r == pair.0 || !Servable(e, r)
  {
    hide Right, Servable, Removed;
    var k: nat :| Hopeless(e, q, k) && pair.0 in q[k..] && q' == Removed(q[k..], pair.0);
    SweptSplits(e, q, q[k..], r);
    if r in q[k..] && r != pair.0 { RemovedOther(q[k..], pair.0, r); }
  }

  lemma SweptSplits(e: Env, q: seq<Req>, q': seq<Req>, r: Req)
    requires Swept(e, q, q') && r in q
    ensures r in q' || !Servable(e, r)
  {
    var k: nat :| Hopeless(e, q, k) && q' == q[k..];
    var j :| 0 <= j < |q| && q[j] == r;
    if j >= k { assert q'[j - k] == r; }
  }

  lemma {:induction false} RemovedOther(q: seq<Req>, x: Req, r: Req)
    requires r in q && r != x
    ensures r in Removed(q, x)
  {
    if q[0] != x && q[0] != r { RemovedOther(q[1..], x, r); }
  }

  lemma WeighsNone(e: Env)
    ensures Weighs(e, map[], map[])
  {
  }

  lemma ServableMeans(e: Env, r: Req)
    ensures Servable(e, r) <==> exists p :: p in e.peers && e.can(r, p)
  {
  }

  lemma RemovedFirst(q: seq<Req>)
    requires q != []
    ensures Removed(q, q[0]) == q[1..]
  {
  }

  lemma HopelessIs(e: Env, q: seq<Req>, k: nat)
    requires k <= |q| && (forall j :: 0 <= j < k ==> !Servable(e, q[j])) && (k < |q| ==> Servable(e, q[k]))
    ensures Hopeless(e, q, k)
  {
  }

  lemma AskedMeans(e: Env, q: seq<Req>, i: nat, s: Scan, p: Peer)
    requires i < |q|
    ensures p in s.checked || !e.can(q[i], p) ==> Asked(e, q, i, s, p) == s
    ensures p !in s.checked && e.can(q[i], p) ==> Asked(e, q, i, s, p).checked == s.checked + {p}
    ensures p !in s.checked && e.can(q[i], p) ==> Asked(e, q, i, s, p).ready == if e.wait(q[i], p) == 0 then s.ready[p := q[i]] else s.ready
  {
  }

  lemma RankedMeans(ranks: Ranks, last: nat)
    requires Ranked(ranks, last)
    ensures forall r :: r in ranks ==> 0 < ranks[r] <= last
    ensures forall r, r' :: r in ranks && r' in ranks && ranks[r] == ranks[r'] ==> r == r'
  {
  }

  lemma AscendingMeans(q: seq<Req>, ranks: Ranks)
    requires Ascending(q, ranks)
    ensures forall i :: 0 <= i < |q| ==> q[i] in ranks
  {
  }

  lemma MembersAre(q: seq<Req>)
    ensures forall r :: r in Members(q) <==> r in q
  {
  }
}
