/** The one-to-many event feed of event/feed.go. Subscribers, unsubscribers and one
    sender at a time work on two lists of select cases; while a Send is under way its
    `cases` is a prefix of the very slice that removals delete from.

    Cases are told apart by channel only, and a channel may be subscribed more than
    once, so what is live, delivered and removed is counted in multisets.
 */
module EventFeed {

  type Channel = nat
  datatype Case = RemoveSub | SendTo(ch: Channel)

  /** Index of the first real subscription: case 0 listens for removals. */
  const FIRST := 1

  type Cases = seq<Case>
  type Bag = multiset<Case>

  // ----- in-place changes, as values -----

  function Deleted(s: Cases, i: nat): (r: Cases)
    requires i < |s|
  {
    s[..i] + s[i + 1..]
  }

  function Swapped(s: Cases, i: nat, j: nat): (r: Cases)
    requires i < |s| && j < |s|
  {
    s[i := s[j]][j := s[i]]
  }

  lemma DeletedBag(s: Cases, i: nat)
    requires FIRST <= i < |s|
    ensures multiset(s[FIRST..]) == multiset(Deleted(s, i)[FIRST..]) + multiset{s[i]}
  {
    assert s[FIRST..] == s[FIRST..i] + [s[i]] + s[i + 1..];
    assert Deleted(s, i)[FIRST..] == s[FIRST..i] + s[i + 1..];
  }

  lemma DeletedWhole(s: Cases, i: nat)
    requires i < |s|
    ensures multiset(Deleted(s, i)) == multiset(s) - multiset{s[i]}
  {
    assert s == s[..i] + [s[i]] + s[i + 1..];
  }

  /** Deleting inside a prefix shortens it; deleting behind it leaves it alone. */
  lemma DeletedPrefix(s: Cases, i: nat, n: nat)
    requires FIRST <= i < |s| && FIRST <= n <= |s|
    ensures i < n ==> multiset(s[FIRST..n]) == multiset(Deleted(s, i)[FIRST..n - 1]) + multiset{s[i]}
    ensures i >= n ==> Deleted(s, i)[FIRST..n] == s[FIRST..n]
  {
    if i < n {
      assert s[FIRST..n] == s[FIRST..i] + [s[i]] + s[i + 1..n];
      assert Deleted(s, i)[FIRST..n - 1] == s[FIRST..i] + s[i + 1..n];
    }
  }

  lemma SwappedBag(s: Cases, i: nat, j: nat)
    requires FIRST <= i <= j < |s|
    ensures multiset(Swapped(s, i, j)[FIRST..]) == multiset(s[FIRST..])
  {
    var t := s[FIRST..];
    assert Swapped(s, i, j)[FIRST..] == Swapped(t, i - FIRST, j - FIRST);
    SwappedAll(t, i - FIRST, j - FIRST);
  }

  lemma SwappedAll(s: Cases, i: nat, j: nat)
    requires i < |s| && j < |s|
    ensures multiset(Swapped(s, i, j)) == multiset(s)
  {
  }

  /** Deactivating: the case is swapped to the end of the prefix, which shrinks. */
  lemma SwappedPrefix(s: Cases, i: nat, n: nat)
    requires FIRST <= i < n <= |s|
    ensures multiset(s[FIRST..n]) == multiset(Swapped(s, i, n - 1)[FIRST..n - 1]) + multiset{s[i]}
  {
    var t := Swapped(s, i, n - 1);
    if i < n - 1 {
      assert s[FIRST..n] == s[FIRST..i] + [s[i]] + s[i + 1..n - 1] + [s[n - 1]];
      assert t[FIRST..n - 1] == s[FIRST..i] + [s[n - 1]] + s[i + 1..n - 1];
    } else {
      assert s[FIRST..n] == s[FIRST..n - 1] + [s[n - 1]];
      assert t[FIRST..n - 1] == s[FIRST..n - 1];
    }
  }

  // ----- what is kept -----

  /** Case 0 is the removal case, all others are subscriptions. */
  ghost predicate Shape(s: Cases) {
    |s| >= FIRST && s[0] == RemoveSub && forall i :: FIRST <= i < |s| ==> s[i].SendTo?
  }

  /** The lists hold what is subscribed and what waits to be removed; a waiting removal
      concerns a case that has left the inbox. */
  ghost predicate Live(s: Cases, inbox: Cases, subs: Bag, waiting: Bag) {
    && Shape(s) && (forall i :: 0 <= i < |inbox| ==> inbox[i].SendTo?)
    && multiset(s[FIRST..]) + multiset(inbox) == subs + waiting && waiting <= multiset(s[FIRST..])
  }

  /** The book of one Send: the cases at its start, those delivered to, those removed,
      and among the removed those that went undelivered. */
  datatype Book = Book(start: Bag, delivered: Bag, removed: Bag, dropped: Bag)

  /** Every case of the start is still active, delivered or dropped; every case of the
      start is still listed or removed. */
  ghost predicate Balanced(s: Cases, n: nat, b: Book, nsent: nat) {
    && FIRST <= n <= |s| && nsent == |b.delivered|
    && b.start == b.delivered + multiset(s[FIRST..n]) + b.dropped
    && b.start == multiset(s[FIRST..]) + b.removed
    && b.dropped <= b.removed
  }

  lemma Opened(s: Cases)
    requires Shape(s)
    ensures var bag := multiset(s[FIRST..]); Balanced(s, |s|, Book(bag, multiset{}, multiset{}, multiset{}), 0)
  {
    assert s[FIRST..|s|] == s[FIRST..];
  }

  lemma Delivering(s: Cases, n: nat, b: Book, nsent: nat, i: nat)
    requires Balanced(s, n, b, nsent) && FIRST <= i < n
    ensures Balanced(Swapped(s, i, n - 1), n - 1, b.(delivered := b.delivered + multiset{s[i]}), nsent + 1)
  {
    SwappedBag(s, i, n - 1);
    SwappedPrefix(s, i, n);
  }

  lemma Removing(s: Cases, n: nat, b: Book, nsent: nat, i: nat)
    requires Balanced(s, n, b, nsent) && FIRST <= i < |s|
    ensures var gone := multiset{s[i]};
      if i < n then Balanced(Deleted(s, i), n - 1, b.(removed := b.removed + gone, dropped := b.dropped + gone), nsent)
      else Balanced(Deleted(s, i), n, b.(removed := b.removed + gone), nsent)
  {
    DeletedBag(s, i);
    DeletedPrefix(s, i, n);
  }

  /** What a finished Send did: each case of the start was delivered to, or removed
      before it could be; the number sent is the number of deliveries. */
  ghost predicate Settled(s: Cases, b: Book, nsent: nat) {
    && |s| >= FIRST && nsent == |b.delivered|
    && b.start == b.delivered + b.dropped && b.dropped <= b.removed
    && b.start == multiset(s[FIRST..]) + b.removed
  }

  lemma Closed(s: Cases, b: Book, nsent: nat)
    requires Shape(s) && Balanced(s, FIRST, b, nsent)
    ensures Settled(s, b, nsent)
  {
    assert s[FIRST..FIRST] == [];
  }

  /** With repeated subscriptions: never more often than subscribed, and short only by
      what was removed meanwhile. */
  lemma AsOftenAsSubscribed(s: Cases, b: Book, nsent: nat, c: Case)
    requires Shape(s) && Settled(s, b, nsent)
    ensures b.start[c] - b.removed[c] <= b.delivered[c] <= b.start[c]
  {
  }

  /** Only cancelled subscriptions wait or are removed: what waited at first and what
      was cancelled since covers what waits now and what was removed since. */
  ghost predicate Begun(waiting0: Bag, cancelled0: Bag, waiting: Bag, cancelled: Bag, removed: Bag) {
    cancelled0 <= cancelled && removed + waiting <= waiting0 + (cancelled - cancelled0)
  }

  lemma BegunNone(waiting: Bag, cancelled: Bag)
    ensures Begun(waiting, cancelled, waiting, cancelled, multiset{})
  {
  }

  lemma BegunOne(waiting0: Bag, cancelled0: Bag, waiting: Bag, cancelled: Bag)
    requires Begun(waiting0, cancelled0, waiting, cancelled, multiset{})
    ensures forall c: Case :: Begun(waiting0, cancelled0, waiting, cancelled + multiset{c}, multiset{})
    ensures forall c: Case :: Begun(waiting0, cancelled0, waiting + multiset{c}, cancelled + multiset{c}, multiset{})
  {
  }

  lemma BegunFurther(waiting0: Bag, cancelled0: Bag, waiting: Bag, cancelled: Bag, removed: Bag, waiting': Bag, cancelled': Bag)
    requires Begun(waiting0, cancelled0, waiting, cancelled, removed) && Begun(waiting, cancelled, waiting', cancelled', multiset{})
    ensures Begun(waiting0, cancelled0, waiting', cancelled', removed)
  {
    forall d ensures (removed + waiting')[d] <= (waiting0 + (cancelled' - cancelled0))[d] {
      assert (removed + waiting)[d] <= (waiting0 + (cancelled - cancelled0))[d];
      assert (multiset{} + waiting')[d] <= (waiting + (cancelled' - cancelled))[d];
    }
  }

  /** Exactly once: a channel subscribed once at the start of a Send gets the value at
      most once, and gets it unless its subscription is cancelled by the end. */
  lemma ExactlyOnce(s: Cases, b: Book, nsent: nat, waiting0: Bag, cancelled0: Bag, waiting: Bag, cancelled: Bag, c: Case)
    requires Settled(s, b, nsent) && Begun(waiting0, cancelled0, waiting, cancelled, b.removed) && b.start[c] == 1
    ensures b.delivered[c] <= 1
    ensures c !in waiting0 && cancelled[c] == cancelled0[c] ==> b.delivered[c] == 1 && c in s
  {
    if c !in waiting0 && cancelled[c] == cancelled0[c] {
      assert (b.removed + waiting)[c] <= (waiting0 + (cancelled - cancelled0))[c];
      assert c in multiset(s[FIRST..]);
      assert c in s[FIRST..];
    }
  }

  lemma BegunRemoved(waiting0: Bag, cancelled0: Bag, waiting: Bag, cancelled: Bag, removed: Bag, c: Case)
    requires Begun(waiting0, cancelled0, waiting, cancelled, removed) && c in waiting
    ensures Begun(waiting0, cancelled0, waiting - multiset{c}, cancelled, removed + multiset{c})
  {
  }

  /** Two counts that grew by the same. */
  ghost predicate Grown(a: Bag, b: Bag, a': Bag, b': Bag) {
    a' + b == a + b'
  }

  lemma GrownNone(a: Bag, b: Bag)
    ensures Grown(a, b, a, b)
  {
  }

  lemma GrownBy(a: Bag, b: Bag, a': Bag, b': Bag, c: Case)
    requires Grown(a, b, a', b')
    ensures Grown(a, b, a' + multiset{c}, b' + multiset{c})
  {
    assert a' + multiset{c} + b == (a' + b) + multiset{c};
    assert a + (b' + multiset{c}) == (a + b') + multiset{c};
  }

  lemma GrownFurther(a: Bag, b: Bag, a': Bag, b': Bag, a'': Bag, b'': Bag)
    requires Grown(a, b, a', b') && Grown(a', b', a'', b'')
    ensures Grown(a, b, a'', b'')
  {
    forall d ensures (a'' + b)[d] == (a + b'')[d] {
      assert (a' + b)[d] == (a + b')[d] && (a'' + b')[d] == (a' + b'')[d];
    }
  }

  lemma GrownFromNothing(a: Bag, a': Bag, b: Bag)
    requires Grown(a, multiset{}, a', b)
    ensures a' == a + b
  {
    assert a' + multiset{} == a';
  }

  lemma LiveDelivering(s: Cases, n: nat, inbox: Cases, subs: Bag, waiting: Bag, i: nat)
    requires Live(s, inbox, subs, waiting) && FIRST <= i < n <= |s|
    ensures Live(Swapped(s, i, n - 1), inbox, subs, waiting)
  {
    SwappedBag(s, i, n - 1);
  }

  lemma TakeRight(a: Bag, b: Bag, x: Bag, y: Bag, c: Case)
    requires (a + multiset{c}) + b == x + y && c in y
    ensures a + b == x + (y - multiset{c})
  {
    forall d ensures (a + b)[d] == (x + (y - multiset{c}))[d] {
      assert ((a + multiset{c}) + b)[d] == (x + y)[d];
    }
  }

  lemma TakeBoth(a: Bag, b: Bag, x: Bag, y: Bag, c: Case)
    requires a + (b + multiset{c}) == x + y && c in x
    ensures a + b == x - multiset{c} + y
  {
    forall d ensures (a + b)[d] == (x - multiset{c} + y)[d] {
      assert (a + (b + multiset{c}))[d] == (x + y)[d];
    }
  }

  lemma LiveRemoving(s: Cases, inbox: Cases, subs: Bag, waiting: Bag, i: nat)
    requires Live(s, inbox, subs, waiting) && FIRST <= i < |s| && s[i] in waiting
    ensures Live(Deleted(s, i), inbox, subs, waiting - multiset{s[i]})
  {
    DeletedBag(s, i);
    var t := Deleted(s, i);
    assert Shape(t);
    TakeRight(multiset(t[FIRST..]), multiset(inbox), subs, waiting, s[i]);
  }

  /** A removal that waits concerns a case that can be found. */
  lemma WaitingIsListed(s: Cases, inbox: Cases, subs: Bag, waiting: Bag, c: Case)
    requires Live(s, inbox, subs, waiting) && c in waiting
    ensures c.SendTo? && c in s
  {
    assert c in multiset(s[FIRST..]);
    assert c in s[FIRST..];
  }

  /** Not in the inbox, a live subscription is among the send cases and not yet waited
      for by all the removals it has. */
  lemma StartWaiting(s: Cases, inbox: Cases, subs: Bag, waiting: Bag, c: Case)
    requires Live(s, inbox, subs, waiting) && c in subs && c !in inbox
    ensures Live(s, inbox, subs - multiset{c}, waiting + multiset{c})
  {
    var left := multiset(s[FIRST..]) + multiset(inbox);
    assert multiset(inbox)[c] == 0 && left[c] == (subs + waiting)[c];
    assert (subs - multiset{c}) + (waiting + multiset{c}) == subs + waiting;
  }

  lemma Unboxed(s: Cases, inbox: Cases, subs: Bag, waiting: Bag, i: nat)
    requires Live(s, inbox, subs, waiting) && i < |inbox| && inbox[i] in subs
    ensures Live(s, Deleted(inbox, i), subs - multiset{inbox[i]}, waiting)
  {
    assert inbox == inbox[..i] + [inbox[i]] + inbox[i + 1..];
    var left, c := multiset(Deleted(inbox, i)), inbox[i];
    assert multiset(inbox) == left + multiset{c};
    TakeBoth(multiset(s[FIRST..]), left, subs, waiting, c);
  }

  lemma Boxed(s: Cases, inbox: Cases, subs: Bag, waiting: Bag, c: Case)
    requires Live(s, inbox, subs, waiting) && c.SendTo?
    ensures Live(s, inbox + [c], subs + multiset{c}, waiting)
  {
    var left := multiset(s[FIRST..]);
    assert multiset(inbox + [c]) == multiset(inbox) + multiset{c};
    assert left + (multiset(inbox) + multiset{c}) == (left + multiset(inbox)) + multiset{c};
    assert subs + multiset{c} + waiting == (subs + waiting) + multiset{c};
  }

  lemma Collected(s: Cases, inbox: Cases, subs: Bag, waiting: Bag)
    requires Live(s, inbox, subs, waiting)
    ensures Live(s + inbox, [], subs, waiting) && multiset((s + inbox)[FIRST..]) == subs + waiting
  {
    assert (s + inbox)[FIRST..] == s[FIRST..] + inbox;
  }

  /** find: the first case with the channel, or -1. */
  method Find(s: Cases, c: Case) returns (index: int)
    ensures index == -1 <==> c !in s
    ensures index != -1 ==> 0 <= index < |s| && s[index] == c && c !in s[..index]
  {
    var i := 0;
    while i < |s|
      invariant i <= |s| && c !in s[..i]
    {
      if s[i] == c { return i; }
      i := i + 1;
    }
    return -1;
  }

  class Feed {
    var store: array<Case>        // backing array of sendCases
    var len: nat                  // length of sendCases
    var inbox: Cases
    var locked: bool              // whether a Send holds the send lock
    var subs: Bag                 // subscriptions not being cancelled
    var waiting: Bag              // cancellations past the inbox, not yet carried out
    var delivered: Bag            // all values put on channels so far
    ghost var subscribed: Bag     // all subscriptions made so far
    ghost var cancelled: Bag      // all cancellations begun so far

    ghost function List(): Cases
      reads this`store, this`len, store
      requires len <= store.Length
    {
      store[..len]
    }

    /** Every subscription made is live or was cancelled, and every live one is listed or
        in the inbox. */
    ghost predicate Valid()
      reads this`store, this`len, this`inbox, this`subs, this`waiting, this`subscribed, this`cancelled, store
      ensures Valid() ==> len <= store.Length
    {
      len <= store.Length && Live(List(), inbox, subs, waiting) && subs + cancelled == subscribed
    }

    lemma Unfold()
      requires Valid()
      ensures FIRST == 1 <= len <= store.Length && Live(List(), inbox, subs, waiting) && subs + cancelled == subscribed
      ensures List() == store[..len] && |List()| == len
    {
    }

    lemma Fold()
      requires len <= store.Length && Live(store[..len], inbox, subs, waiting) && subs + cancelled == subscribed
      ensures Valid() && List() == store[..len]
    {
    }

    constructor ()
      ensures Valid() && !locked && subs == multiset{} && waiting == multiset{}
      ensures delivered == multiset{} && subscribed == multiset{} && cancelled == multiset{}
    {
      store, len, inbox, locked := new Case[1](_ => RemoveSub), 1, [], false;
      subs, waiting, delivered, subscribed, cancelled := multiset{}, multiset{}, multiset{}, multiset{}, multiset{};
    }

    /** delete, in place: the cases behind move up. */
    method DeleteCase(index: nat)
      requires index < len <= store.Length
      modifies this`len, store
      ensures len == old(len) - 1 && store[..len] == Deleted(old(store[..len]), index)
    {
      ghost var was := store[..len];
      var k := index;
      while k + 1 < len
        modifies store
        invariant index <= k < len
        invariant forall m :: 0 <= m < index ==> store[m] == was[m]
        invariant forall m :: index <= m < k ==> store[m] == was[m + 1]
        invariant forall m :: k <= m < len ==> store[m] == was[m]
      {
        store[k] := store[k + 1];
        k := k + 1;
      }
      len := len - 1;
      forall m | 0 <= m < len ensures store[m] == Deleted(was, index)[m] { }
    }

    /** deactivate, in place: the case trades places with the last of the prefix. */
    method Deactivate(index: nat, n: nat) returns (n': nat)
      requires index < n <= len <= store.Length
      modifies store
      ensures n' == n - 1 && store[..len] == Swapped(old(store[..len]), index, n - 1)
    {
      n' := n - 1;
      store[index], store[n'] := store[n'], store[index];
    }

    /** Subscribe: the case waits in the inbox for the next Send. */
    method Subscribe(ch: Channel)
      requires Valid()
      modifies this`inbox, this`subs, this`subscribed
      ensures Valid() && inbox == old(inbox) + [SendTo(ch)] && subs == old(subs) + multiset{SendTo(ch)}
      ensures subscribed == old(subscribed) + multiset{SendTo(ch)}
    {
      hide *;
      Unfold();
      Boxed(List(), inbox, subs, waiting, SendTo(ch));
      inbox := inbox + [SendTo(ch)];
      SubscribedMore(subs, cancelled, subscribed, SendTo(ch));
      subs, subscribed := subs + multiset{SendTo(ch)}, subscribed + multiset{SendTo(ch)};
      Fold();
    }

    /** The first half of remove, under the mutex: delete from the inbox if there. */
    method LeaveInbox(ch: Channel) returns (done: bool)
      requires Valid() && SendTo(ch) in subs
      modifies this`inbox, this`subs, this`waiting, this`cancelled
      ensures Valid() && subs == old(subs) - multiset{SendTo(ch)} && cancelled == old(cancelled) + multiset{SendTo(ch)}
      ensures done <==> SendTo(ch) in old(inbox)
      ensures waiting == if done then old(waiting) else old(waiting) + multiset{SendTo(ch)}
      ensures !done ==> inbox == old(inbox)
    {
      hide *;
      Unfold();
      var c := SendTo(ch);
      var index := Find(inbox, c);
      done := index != -1;
      if done {
        Unboxed(List(), inbox, subs, waiting, index);
        inbox := Deleted(inbox, index);
      } else {
        StartWaiting(List(), inbox, subs, waiting, c);
        waiting := waiting + multiset{c};
      }
      CancelledMore(subs, cancelled, subscribed, c);
      subs, cancelled := subs - multiset{c}, cancelled + multiset{c};
      Fold();
    }

    /** A waiting removal carried out: the case is found, and deleted. */
    method RemoveCase(ch: Channel) returns (index: nat)
      requires Valid() && SendTo(ch) in waiting
      modifies this`len, this`waiting, store
      ensures Valid() && waiting == old(waiting) - multiset{SendTo(ch)} && len == old(len) - 1
      ensures FIRST <= index < |old(List())| && old(List())[index] == SendTo(ch) && List() == Deleted(old(List()), index)
    {
      hide *;
      Unfold();
      var c := SendTo(ch);
      WaitingIsListed(List(), inbox, subs, waiting, c);
      var found := Find(store[..len], c);
      index := found;
      NotTheFirst(List(), inbox, subs, waiting, index);
      LiveRemoving(List(), inbox, subs, waiting, index);
      DeleteCase(index);
      waiting := waiting - multiset{c};
      Fold();
    }

    /** The second half of remove when no Send is in progress. */
    method RemoveIdle(ch: Channel)
      requires Valid() && !locked && SendTo(ch) in waiting
      modifies this`len, this`waiting, store
      ensures Valid() && waiting == old(waiting) - multiset{SendTo(ch)}
      ensures multiset(List()) == old(multiset(List())) - multiset{SendTo(ch)}
    {
      hide *;
      Unfold();
      ghost var before := List();
      var index := RemoveCase(ch);
      Unfold();
      DeletedWhole(before, index);
    }

    /** What other goroutines do while a Send runs: any number of subscriptions and of
        cancellations that reach the inbox, which may stay to wait for the Send. */
    method Others()
      requires Valid() && locked
      modifies this`inbox, this`subs, this`waiting, this`subscribed, this`cancelled
      ensures Valid() && Begun(old(waiting), old(cancelled), waiting, cancelled, multiset{}) && old(subscribed) <= subscribed
    {
      hide *;
      BegunNone(waiting, cancelled);
      var steps: nat := *;
      while steps > 0
        invariant Valid() && Begun(old(waiting), old(cancelled), waiting, cancelled, multiset{}) && old(subscribed) <= subscribed
      {
        BegunOne(old(waiting), old(cancelled), waiting, cancelled);
        var ch: Channel := *;
        if * {
          Subscribe(ch);
        } else if SendTo(ch) in subs {
          var _ := LeaveInbox(ch);
        }
        steps := steps - 1;
      }
    }
  
    /** The inbox is appended to sendCases. */
    method Collect()
      requires Valid()
      modifies this`store, this`len, this`inbox
      ensures Valid() && fresh(store) && inbox == [] && List() == old(List() + inbox)
      ensures multiset(List()[FIRST..]) == subs + waiting
    {
      hide *;
      Unfold();
      Collected(List(), inbox, subs, waiting);
      var all := store[..len] + inbox;
      store := new Case[|all|](i requires 0 <= i < |all| => all[i]);
      len := |all|;
      assert store[..len] == all;
      inbox := [];
      Fold();
    }

    /** One value handed over: the case leaves the active prefix. */
    method Deliver(chosen: nat, cases: nat, nsent: nat, ghost book: Book) returns (cases': nat, nsent': nat, ghost book': Book)
      requires Valid() && Balanced(List(), cases, book, nsent) && FIRST <= chosen < cases
      modifies this`delivered, store
      ensures Valid() && cases' == cases - 1 && delivered == old(delivered) + multiset{old(List()[chosen])}
      ensures Balanced(List(), cases', book', nsent') && book' == book.(delivered := book.delivered + multiset{old(List()[chosen])})
    {
      hide *;
      Unfold();
      BalancedMeans(List(), cases, book, nsent);
      Delivering(List(), cases, book, nsent, chosen);
      LiveDelivering(List(), cases, inbox, subs, waiting, chosen);
      book' := book.(delivered := book.delivered + multiset{List()[chosen]});
      delivered := delivered + multiset{store[chosen]};
      cases' := Deactivate(chosen, cases);
      nsent' := nsent + 1;
      Fold();
    }

    /** The fast path: every active case is tried once, without blocking. */
    method TrySends(cases: nat, nsent: nat, ghost book: Book) returns (cases': nat, nsent': nat, ghost book': Book)
      requires Valid() && Balanced(List(), cases, book, nsent)
      modifies this`delivered, store
      ensures Valid() && cases' <= cases && Grown(old(delivered), book.delivered, delivered, book'.delivered)
      ensures Balanced(List(), cases', book', nsent') && book' == book.(delivered := book'.delivered)
    {
      hide *;
      BalancedMeans(List(), cases, book, nsent);
      GrownNone(delivered, book.delivered);
      cases', nsent', book' := cases, nsent, book;
      var i := FIRST;
      while i < cases'
        invariant 1 == FIRST <= i && cases' <= cases
        invariant Grown(old(delivered), book.delivered, delivered, book'.delivered)
        invariant Valid() && Balanced(List(), cases', book', nsent') && book' == book.(delivered := book'.delivered)
        decreases cases' - i
      {
        var sent: bool := *;
        if sent {
          BalancedMeans(List(), cases', book', nsent');
          GrownBy(old(delivered), book.delivered, delivered, book'.delivered, List()[i]);
          cases', nsent', book' := Deliver(i, cases', nsent', book');
        } else {
          i := i + 1;
        }
      }
    }

    /** A removal received by the Send: the active prefix shrinks if the case was in it. */
    method RemoveDuring(ch: Channel, cases: nat, nsent: nat, ghost book: Book) returns (cases': nat, ghost book': Book)
      requires Valid() && Balanced(List(), cases, book, nsent) && SendTo(ch) in waiting
      modifies this`len, this`waiting, store
      ensures Valid() && cases' <= cases && len == old(len) - 1
      ensures waiting == old(waiting) - multiset{SendTo(ch)}
      ensures Balanced(List(), cases', book', nsent)
      ensures book' == book.(removed := book.removed + multiset{SendTo(ch)}, dropped := book'.dropped)
    {
      hide *;
      Unfold();
      ghost var before := List();
      var index := RemoveCase(ch);
      Removing(before, cases, book, nsent, index);
      Unfold();
      book' := book.(removed := book.removed + multiset{SendTo(ch)});
      cases' := cases;
      if index < cases {
        book' := book'.(dropped := book.dropped + multiset{SendTo(ch)});
        cases' := cases - 1;
      }
    }

    /** The blocking select: others move on, then a removal or a receiver comes through. */
    method Select(cases: nat, nsent: nat, ghost book: Book, ghost waiting0: Bag, ghost cancelled0: Bag) returns (cases': nat, nsent': nat, ghost book': Book)
      requires Valid() && locked && Balanced(List(), cases, book, nsent) && cases != FIRST
      requires Begun(waiting0, cancelled0, waiting, cancelled, book.removed)
      modifies this`len, this`inbox, this`subs, this`waiting, this`delivered, this`subscribed, this`cancelled, store
      ensures Valid() && len + cases' < old(len) + cases && Grown(old(delivered), book.delivered, delivered, book'.delivered)
      ensures Balanced(List(), cases', book', nsent') && book'.start == book.start
      ensures Begun(waiting0, cancelled0, waiting, cancelled, book'.removed) && old(subscribed) <= subscribed
    {
      hide *;
      Others();
      BegunFurther(waiting0, cancelled0, old(waiting), old(cancelled), book.removed, waiting, cancelled);
      BalancedMeans(List(), cases, book, nsent);
      GrownNone(delivered, book.delivered);
      var removal: bool := *;
      if removal && waiting != multiset{} {
        var c :| c in waiting;
        Unfold();
        WaitingIsListed(List(), inbox, subs, waiting, c);
        nsent' := nsent;
        BegunRemoved(waiting0, cancelled0, waiting, cancelled, book.removed, c);
        cases', book' := RemoveDuring(c.ch, cases, nsent, book);
      } else {
        var skip :| 0 <= skip < cases - FIRST;
        GrownBy(delivered, book.delivered, delivered, book.delivered, List()[FIRST + skip]);
        cases', nsent', book' := Deliver(FIRST + skip, cases, nsent, book);
      }
    }

    /** One turn of Send's loop: the fast path, then a select unless all are done. */
    method Round(cases: nat, nsent: nat, ghost book: Book, ghost waiting0: Bag, ghost cancelled0: Bag)
      returns (done: bool, cases': nat, nsent': nat, ghost book': Book)
      requires Valid() && locked && Balanced(List(), cases, book, nsent)
      requires Begun(waiting0, cancelled0, waiting, cancelled, book.removed)
      modifies this`len, this`inbox, this`subs, this`waiting, this`delivered, this`subscribed, this`cancelled, store
      ensures Valid() && Grown(old(delivered), book.delivered, delivered, book'.delivered)
      ensures if done then cases' == FIRST else len + cases' < old(len) + cases
      ensures Balanced(List(), cases', book', nsent') && book'.start == book.start
      ensures Begun(waiting0, cancelled0, waiting, cancelled, book'.removed) && old(subscribed) <= subscribed
    {
      hide *;
      cases', nsent', book' := TrySends(cases, nsent, book);
      done := cases' == FIRST;
      if !done {
        ghost var d, b := delivered, book'.delivered;
        cases', nsent', book' := Select(cases', nsent', book', waiting0, cancelled0);
        GrownFurther(old(delivered), book.delivered, d, b, delivered, book'.delivered);
      }
    }

    /** Send: all cases present when the lock was taken are delivered to, one at a time,
        except those removed first. */
    method Send() returns (nsent: nat, ghost book: Book)
      requires Valid() && !locked
      modifies this, store
      ensures Valid() && !locked
      ensures book.start == old(subs + waiting) && Settled(List(), book, nsent)
      ensures delivered == old(delivered) + book.delivered
      ensures Begun(old(waiting), old(cancelled), waiting, cancelled, book.removed) && old(subscribed) <= subscribed
      ensures subs + (cancelled - old(cancelled)) == old(subs) + (subscribed - old(subscribed))
    {
      hide *;
      Unfold();
      locked := true;
      Collect();
      Unfold();
      nsent := 0;
      var cases: nat := len;
      book := Book(subs + waiting, multiset{}, multiset{}, multiset{});
      IsShape(List(), inbox, subs, waiting);
      Opened(List());
      BegunNone(waiting, cancelled);
      GrownNone(delivered, multiset{});
      while true
        invariant Valid() && locked && fresh(store)
        invariant book.start == old(subs + waiting) && Balanced(List(), cases, book, nsent)
        invariant Grown(old(delivered), multiset{}, delivered, book.delivered)
        invariant Begun(old(waiting), old(cancelled), waiting, cancelled, book.removed) && old(subscribed) <= subscribed
        decreases len + cases
      {
        ghost var d, b := delivered, book.delivered;
        var done;
        done, cases, nsent, book := Round(cases, nsent, book, old(waiting), old(cancelled));
        GrownFurther(old(delivered), multiset{}, d, b, delivered, book.delivered);
        if done { break; }
      }
      Unfold();
      IsShape(List(), inbox, subs, waiting);
      Closed(List(), book, nsent);
      GrownFromNothing(old(delivered), delivered, book.delivered);
      SinceThen(old(subs), old(cancelled), old(subscribed), subs, cancelled, subscribed, old(waiting), waiting, book.removed);
      locked := false;
    }
  }

  lemma SubscribedMore(subs: Bag, cancelled: Bag, subscribed: Bag, c: Case)
    requires subs + cancelled == subscribed
    ensures (subs + multiset{c}) + cancelled == subscribed + multiset{c}
  {
  }

  lemma CancelledMore(subs: Bag, cancelled: Bag, subscribed: Bag, c: Case)
    requires subs + cancelled == subscribed && c in subs
    ensures (subs - multiset{c}) + (cancelled + multiset{c}) == subscribed
  {
  }

  /** Between two moments the live subscriptions change by those made and those cancelled. */
  lemma SinceThen(subs0: Bag, cancelled0: Bag, subscribed0: Bag, subs: Bag, cancelled: Bag, subscribed: Bag,
                  waiting0: Bag, waiting: Bag, removed: Bag)
    requires subs0 + cancelled0 == subscribed0 && subs + cancelled == subscribed && subscribed0 <= subscribed
    requires Begun(waiting0, cancelled0, waiting, cancelled, removed)
    ensures subs + (cancelled - cancelled0) == subs0 + (subscribed - subscribed0)
  {
    forall d ensures (subs + (cancelled - cancelled0))[d] == (subs0 + (subscribed - subscribed0))[d] {
      assert (subs0 + cancelled0)[d] == subscribed0[d] && (subs + cancelled)[d] == subscribed[d];
    }
  }

  lemma BalancedMeans(s: Cases, n: nat, b: Book, nsent: nat)
    requires Balanced(s, n, b, nsent)
    ensures FIRST == 1 <= n <= |s|
  {
  }

  lemma IsShape(s: Cases, inbox: Cases, subs: Bag, waiting: Bag)
    requires Live(s, inbox, subs, waiting)
    ensures Shape(s)
  {
  }

  lemma NotTheFirst(s: Cases, inbox: Cases, subs: Bag, waiting: Bag, i: nat)
    requires Live(s, inbox, subs, waiting) && i < |s| && s[i].SendTo?
    ensures FIRST <= i
  {
  }
}
