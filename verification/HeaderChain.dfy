/** The header chain of core/headerchain.go: stored headers and total difficulties, the
    canonical number index, the current header, and the caches in front of the store.
 */
module HeaderChain {
  import opened Wrappers

  type Hash = nat
  type TxHash = nat

  /** A header; `txs` are the transactions its root commits to. */
  datatype Header = Header(hash: Hash, parent: Hash, number: nat, difficulty: nat, txs: seq<TxHash>)
  type Headers = map<Hash, Header>

  // ----- the tree of stored headers -----

  /** Headers are stored under their own hash; all but genesis have their parent, one
      number lower, stored too. */
  ghost predicate Closed(hs: Headers, genesis: Header) {
    && genesis.number == 0 && genesis.hash in hs && hs[genesis.hash] == genesis
    && forall h :: h in hs ==> hs[h].hash == h && (hs[h] == genesis || ParentStored(hs, hs[h]))
  }

  ghost predicate ParentStored(hs: Headers, x: Header) {
    x.parent in hs && hs[x.parent].number + 1 == x.number
  }

  /** The ancestor of a header with a given number. */
  ghost function Ancestor(hs: Headers, genesis: Header, h: Hash, i: nat): (a: Hash)
    requires Closed(hs, genesis) && h in hs && i <= hs[h].number
    ensures a in hs && hs[a].number == i
    decreases hs[h].number
  {
    if hs[h].number == i then h else Ancestor(hs, genesis, hs[h].parent, i)
  }

  /** The sum of difficulties from genesis to a header. */
  ghost function Weight(hs: Headers, genesis: Header, h: Hash): nat
    requires Closed(hs, genesis) && h in hs
    decreases hs[h].number
  {
    if hs[h] == genesis then genesis.difficulty else hs[h].difficulty + Weight(hs, genesis, hs[h].parent)
  }

  /** Storing a header whose parent is stored. */
  lemma Extended(hs: Headers, genesis: Header, x: Header)
    requires Closed(hs, genesis) && ParentStored(hs, x) && (x.hash in hs ==> hs[x.hash] == x)
    ensures Closed(hs[x.hash := x], genesis)
  {
    var hs' := hs[x.hash := x];
    forall h | h in hs' ensures hs'[h].hash == h && (hs'[h] == genesis || ParentStored(hs', hs'[h])) {
      assert ParentStored(hs, hs'[h]) ==> ParentStored(hs', hs'[h]);
    }
  }

  /** Whether the parent path of a header reaches genesis. */
  ghost predicate Rooted(hs: Headers, genesis: Header, b: Header)
    decreases b.number
  {
    b == genesis || (ParentStored(hs, b) && Rooted(hs, genesis, hs[b.parent]))
  }

  /** A step down does not change whether genesis is reached. */
  lemma RootedStep(hs: Headers, genesis: Header, cur: Header)
    requires genesis.number == 0 && cur.number > 0
    ensures Rooted(hs, genesis, cur) <==> ParentStored(hs, cur) && Rooted(hs, genesis, hs[cur.parent])
  {
  }

  lemma {:induction false} AllRooted(hs: Headers, genesis: Header, h: Hash)
    requires Closed(hs, genesis) && h in hs
    ensures Rooted(hs, genesis, hs[h])
    decreases hs[h].number
  {
    if hs[h] != genesis { AllRooted(hs, genesis, hs[h].parent); }
  }

  /** Headers are stored under their own hash, and numbered from those parents that are
      stored; a parent may be missing. */
  ghost predicate Filed(hs: Headers, genesis: Header) {
    && genesis.number == 0 && genesis.hash in hs && hs[genesis.hash] == genesis
    && forall h :: h in hs ==> hs[h].hash == h && (hs[h] == genesis || (hs[h].number > 0 && Numbered(hs, hs[h])))
  }

  ghost predicate Numbered(hs: Headers, x: Header) {
    x.parent in hs ==> hs[x.parent].number + 1 == x.number
  }

  /** Headers whose hash commits to them: the parts of `x` that other headers repeat. */
  ghost predicate Consistent(hs: Headers, genesis: Header, x: Header) {
    && (x.hash in hs ==> hs[x.hash] == x) && Numbered(hs, x)
    && forall h :: h in hs && hs[h] != genesis && hs[h].parent == x.hash ==> hs[h].number == x.number + 1
  }

  lemma FiledMore(hs: Headers, genesis: Header, x: Header, hs': Headers)
    requires Filed(hs, genesis) && Consistent(hs, genesis, x) && x.parent in hs && hs' == hs[x.hash := x]
    ensures Filed(hs', genesis) && ParentStored(hs', x) && x.number > 0
  {
    forall h | h in hs' && hs'[h] != genesis ensures Numbered(hs', hs'[h]) {
      assert h in hs && hs[h] == hs'[h] ==> Numbered(hs, hs[h]);
    }
  }

  lemma FiledLess(hs: Headers, genesis: Header, gone: set<Hash>)
    requires Filed(hs, genesis) && genesis.hash !in gone
    ensures Filed(hs - gone, genesis)
  {
    var hs' := hs - gone;
    forall h | h in hs' && hs'[h] != genesis ensures Numbered(hs', hs'[h]) { assert Numbered(hs, hs[h]); }
  }

  lemma {:induction false} WeightKept(hs: Headers, genesis: Header, hs': Headers, h: Hash)
    requires Closed(hs, genesis) && Closed(hs', genesis) && h in hs && (forall k :: k in hs ==> k in hs' && hs'[k] == hs[k])
    ensures Weight(hs', genesis, h) == Weight(hs, genesis, h)
    decreases hs[h].number
  {
    if hs[h] != genesis { WeightKept(hs, genesis, hs', hs[h].parent); }
  }

  // ----- the canonical index -----

  /** The index holds the parent path of a header and nothing above it. */
  ghost predicate Path(hs: Headers, canon: map<nat, Hash>, genesis: Header, head: Header) {
    && (forall i: nat :: i in canon <==> i <= head.number)
    && canon[0] == genesis.hash && canon[head.number] == head.hash && head.hash in hs && hs[head.hash] == head
    && Linked(hs, canon, head.number)
  }

  /** Up to `n` the index runs along parent links. */
  ghost predicate Linked(hs: Headers, canon: map<nat, Hash>, n: nat) {
    forall i :: 0 <= i <= n ==> LinkAt(hs, canon, i)
  }

  ghost predicate LinkAt(hs: Headers, canon: map<nat, Hash>, i: nat) {
    && i in canon && canon[i] in hs && hs[canon[i]].hash == canon[i] && hs[canon[i]].number == i
    && (i > 0 ==> i - 1 in canon && hs[canon[i]].parent == canon[i - 1])
  }

  /** Such an index gives exactly the ancestors of the head. */
  lemma {:induction false} PathIsAncestry(hs: Headers, canon: map<nat, Hash>, genesis: Header, head: Header, i: nat)
    requires Closed(hs, genesis) && Path(hs, canon, genesis, head) && i <= head.number
    ensures canon[i] == Ancestor(hs, genesis, head.hash, i)
  {
    AncestryFrom(hs, canon, genesis, head, i, head.number);
  }

  lemma {:induction false} AncestryFrom(hs: Headers, canon: map<nat, Hash>, genesis: Header, head: Header, i: nat, j: nat)
    requires Closed(hs, genesis) && Path(hs, canon, genesis, head) && i <= j <= head.number
    ensures LinkAt(hs, canon, j) && Ancestor(hs, genesis, canon[j], i) == canon[i]
    decreases j - i
  {
    assert LinkAt(hs, canon, j);
    if i < j { AncestryFrom(hs, canon, genesis, head, i, j - 1); }
  }

  // ----- what a run of WriteHeader keeps -----

  /** Each stored header, and no other, has its total difficulty stored. */
  ghost predicate Weighed(hs: Headers, td: map<Hash, nat>, genesis: Header)
    requires Closed(hs, genesis)
  {
    && (forall h :: h in hs <==> h in td)
    && forall h :: h in hs ==> td[h] == Weight(hs, genesis, h)
  }

  ghost predicate Heaviest(td: map<Hash, nat>, h: Hash) {
    h in td && forall k :: k in td ==> td[k] <= td[h]
  }

  ghost predicate Good(hs: Headers, td: map<Hash, nat>, canon: map<nat, Hash>, genesis: Header, head: Header) {
    Closed(hs, genesis) && Weighed(hs, td, genesis) && Path(hs, canon, genesis, head) && Heaviest(td, head.hash)
  }

  /** What is left of that once headers have been deleted under others. */
  ghost predicate Sound(hs: Headers, td: map<Hash, nat>, canon: map<nat, Hash>, genesis: Header, head: Header) {
    Filed(hs, genesis) && (forall h :: h in hs <==> h in td) && Path(hs, canon, genesis, head)
  }

  lemma GoodIsSound(hs: Headers, td: map<Hash, nat>, canon: map<nat, Hash>, genesis: Header, head: Header)
    requires Good(hs, td, canon, genesis, head)
    ensures Sound(hs, td, canon, genesis, head)
  {
    forall h | h in hs && hs[h] != genesis ensures Numbered(hs, hs[h]) && hs[h].number > 0 {
      assert ParentStored(hs, hs[h]);
    }
  }

  lemma GoodGenesis(genesis: Header)
    requires genesis.number == 0
    ensures Good(map[genesis.hash := genesis], map[genesis.hash := genesis.difficulty], map[0 := genesis.hash], genesis, genesis)
  {
    assert LinkAt(map[genesis.hash := genesis], map[0 := genesis.hash], 0);
  }

  lemma Reweighed(hs: Headers, td: map<Hash, nat>, genesis: Header, x: Header, hs': Headers, td': map<Hash, nat>)
    requires Closed(hs, genesis) && Weighed(hs, td, genesis) && ParentStored(hs, x) && (x.hash in hs ==> hs[x.hash] == x)
    requires hs' == hs[x.hash := x] && td' == td[x.hash := x.difficulty + td[x.parent]]
    ensures Closed(hs', genesis) && Weighed(hs', td', genesis)
    ensures x.hash in hs ==> td' == td
  {
    Extended(hs, genesis, x);
    forall h | h in hs ensures Weight(hs', genesis, h) == td[h] { WeightKept(hs, genesis, hs', h); }
    NotRoot(hs, genesis, x);
  }

  lemma NotRoot(hs: Headers, genesis: Header, x: Header)
    requires Closed(hs, genesis) && ParentStored(hs, x)
    ensures x != genesis && x.number > 0
  {
  }

  /** A header off the canonical chain leaves the index alone. */
  lemma SideGood(hs: Headers, td: map<Hash, nat>, canon: map<nat, Hash>, genesis: Header, head: Header, x: Header, hs': Headers, td': map<Hash, nat>)
    requires Good(hs, td, canon, genesis, head) && ParentStored(hs, x) && (x.hash in hs ==> hs[x.hash] == x)
    requires hs' == hs[x.hash := x] && td' == td[x.hash := x.difficulty + td[x.parent]] && td'[x.hash] <= td[head.hash]
    ensures Good(hs', td', canon, genesis, head)
  {
    Reweighed(hs, td, genesis, x, hs', td');
    LinkedStill(hs, canon, head.number, hs');
  }

  lemma LinkedStill(hs: Headers, canon: map<nat, Hash>, n: nat, hs': Headers)
    requires Linked(hs, canon, n) && forall k :: k in hs ==> k in hs' && hs'[k] == hs[k]
    ensures Linked(hs', canon, n)
  {
    forall i | 0 <= i <= n ensures LinkAt(hs', canon, i) { assert LinkAt(hs, canon, i); }
  }

  // ----- the rewrite loop -----

  /** The index while stale assignments are overwritten: above `n` the new path down to
      a header whose parent is `h` at number `n`, from `n` down the old path. */
  ghost predicate Rewriting(hs: Headers, was: map<nat, Hash>, canon: map<nat, Hash>, x: Header, h: Hash, n: nat) {
    && h in hs && hs[h].number == n < x.number
    && (forall i: nat :: i <= n ==> (i in canon <==> i in was) && (i in was ==> canon[i] == was[i]))
    && (forall i: nat :: n < i < x.number ==> i in canon) && (forall i: nat :: x.number < i ==> i !in canon)
    && (forall i: nat :: n + 1 < i < x.number ==> LinkAt(hs, canon, i))
    && (if n + 1 == x.number then x.parent == h
        else canon[n + 1] in hs && hs[canon[n + 1]].number == n + 1 && hs[canon[n + 1]].parent == h && x.parent == canon[x.number - 1])
  }

  /** One stale assignment overwritten. */
  lemma RewriteOne(hs: Headers, was: map<nat, Hash>, canon: map<nat, Hash>, genesis: Header, x: Header, h: Hash, n: nat)
    requires Filed(hs, genesis) && Rewriting(hs, was, canon, x, h, n) && n > 0 && hs[h].parent in hs
    ensures ParentStored(hs, hs[h]) && Rewriting(hs, was, canon[n := h], x, hs[h].parent, n - 1)
  {
    hide LinkAt;
    assert Numbered(hs, hs[h]);
    RewriteLinks(hs, was, canon, x, h, n, canon[n := h]);
  }

  lemma RewriteLinks(hs: Headers, was: map<nat, Hash>, canon: map<nat, Hash>, x: Header, h: Hash, n: nat, canon': map<nat, Hash>)
    requires Rewriting(hs, was, canon, x, h, n) && canon' == canon[n := h] && forall k :: k in hs ==> hs[k].hash == k
    ensures forall i: nat :: n < i < x.number ==> LinkAt(hs, canon', i)
  {
    forall i: nat | n < i < x.number ensures LinkAt(hs, canon', i) {
      if n + 1 < i { assert LinkAt(hs, canon, i); }
    }
  }

  /** The loop stops at genesis at the latest. */
  lemma AtGenesis(hs: Headers, was: map<nat, Hash>, canon: map<nat, Hash>, genesis: Header, x: Header, h: Hash, n: nat)
    requires Filed(hs, genesis) && Rewriting(hs, was, canon, x, h, n) && 0 in was && was[0] == genesis.hash
    requires !(n in canon && canon[n] == h)
    ensures n > 0
  {
  }

  /** Where the index agrees, it goes on down to genesis. */
  lemma {:induction false} LinkedRooted(hs: Headers, was: map<nat, Hash>, genesis: Header, n: nat)
    requires Filed(hs, genesis) && Linked(hs, was, n) && 0 in was && was[0] == genesis.hash
    ensures n in was && was[n] in hs && Rooted(hs, genesis, hs[was[n]])
  {
    assert LinkAt(hs, was, n);
    if n > 0 {
      LinkedRooted(hs, was, genesis, n - 1);
      assert LinkAt(hs, was, n - 1);
    }
  }

  /** Once the index agrees it is the path of the new header. */
  lemma Rewritten(hs: Headers, was: map<nat, Hash>, canon: map<nat, Hash>, genesis: Header, x: Header, h: Hash, n: nat)
    requires Filed(hs, genesis) && Rewriting(hs, was, canon, x, h, n) && n in was && canon[n] == h
    requires x.hash in hs && hs[x.hash] == x && Linked(hs, was, n) && 0 in was && was[0] == genesis.hash
    ensures Path(hs, canon[x.number := x.hash], genesis, x)
  {
    var canon' := canon[x.number := x.hash];
    assert LinkAt(hs, was, n);
    forall i | 0 <= i <= x.number ensures LinkAt(hs, canon', i) {
      if i <= n {
        assert LinkAt(hs, was, i);
        if i > 0 { assert LinkAt(hs, was, i - 1); }
      } else if n + 1 < i < x.number {
        assert LinkAt(hs, canon, i);
      }
    }
    assert Linked(hs, canon', x.number);
    assert LinkAt(hs, canon', 0) && canon'[0] == genesis.hash;
    forall i: nat ensures i in canon' <==> i <= x.number {
      if i <= x.number { assert LinkAt(hs, canon', i); }
    }
  }

  /** Entries with numbers up to `n`. */
  function UpTo(canon: map<nat, Hash>, n: nat): map<nat, Hash> {
    map i | i in canon && i <= n :: canon[i]
  }

  /** The index cleared above a new header, before its path is written. */
  lemma Cleared(hs: Headers, canon: map<nat, Hash>, genesis: Header, head: Header, x: Header, hs': Headers)
    requires Filed(hs, genesis) && Path(hs, canon, genesis, head) && hs' == hs[x.hash := x] && ParentStored(hs', x)
    requires x.parent in hs && (x.hash in hs ==> hs[x.hash] == x)
    ensures var c := UpTo(canon, x.number); 0 in c && c[0] == genesis.hash && Rewriting(hs', c, c, x, x.parent, x.number - 1)
  {
  }

  /** Whatever an LRU cache kept when `hash` was added. */
  function Remembered<V>(cache: map<Hash, V>, kept: set<Hash>, hash: Hash, v: V): map<Hash, V> {
    (map h | h in cache && h in kept :: cache[h])[hash := v]
  }

  /** A cache holds only what is stored. */
  ghost predicate Mirrors<V>(cache: map<Hash, V>, store: map<Hash, V>) {
    forall h :: h in cache ==> h in store && cache[h] == store[h]
  }

  lemma MirrorsStill<V>(cache: map<Hash, V>, store: map<Hash, V>, hash: Hash, v: V)
    requires Mirrors(cache, store) && (hash in store ==> store[hash] == v)
    ensures Mirrors(cache, store[hash := v])
  {
  }

  lemma MirrorsBoth<V>(cache: map<Hash, V>, store: map<Hash, V>, kept: set<Hash>, hash: Hash, v: V)
    requires Mirrors(cache, store)
    ensures Mirrors(Remembered(cache, kept, hash, v), store[hash := v])
  {
  }

  lemma MirrorsMore<V>(cache: map<Hash, V>, store: map<Hash, V>, kept: set<Hash>, hash: Hash, v: V)
    requires Mirrors(cache, store) && hash in store && store[hash] == v
    ensures Mirrors(Remembered(cache, kept, hash, v), store)
  {
  }

  /** `Panic` stands for the nil header WriteHeader dereferences. */
  datatype Status = NonStat | CanonStat | SideStat | Panic

  class Chain {
    const genesis: Header
    var headers: Headers
    var td: map<Hash, nat>
    var canon: map<nat, Hash>
    var current: Header
    var headerCache: Headers
    var tdCache: map<Hash, nat>

    ghost predicate Cached()
      reads this
    {
      Mirrors(headerCache, headers) && Mirrors(tdCache, td)
    }

    ghost predicate Valid()
      reads this
    {
      Good(headers, td, canon, genesis, current) && Cached()
    }

    ghost predicate Usable()
      reads this
    {
      Sound(headers, td, canon, genesis, current) && Cached()
    }

    constructor (g: Header)
      requires g.number == 0
      ensures Valid() && Usable() && genesis == g && current == g
    {
      genesis, headers, td, canon, current := g, map[g.hash := g], map[g.hash := g.difficulty], map[0 := g.hash], g;
      headerCache, tdCache := map[], map[];
      new;
      GoodGenesis(g);
      GoodIsSound(headers, td, canon, g, g);
    }

    /** What the database returns: values are keyed by hash and number. */
    function ReadHeader(hash: Hash, number: int): Option<Header>
      reads this`headers
    {
      if hash in headers && headers[hash].number == number then Some(headers[hash]) else None
    }

    function ReadTd(hash: Hash, number: int): Option<nat>
      reads this`headers, this`td
    {
      if hash in headers && headers[hash].number == number && hash in td then Some(td[hash]) else None
    }

    /** GetTd: what is stored; a cached hash is found whatever number is asked for, any
        other only under its own. */
    method GetTd(hash: Hash, number: int) returns (r: Option<nat>)
      requires Cached()
      modifies this`tdCache
      ensures Cached()
      ensures hash in old(tdCache) ==> hash in td && r == Some(td[hash])
      ensures hash !in old(tdCache) ==> r == ReadTd(hash, number)
    {
      if hash in tdCache { return Some(tdCache[hash]); }
      r := ReadTd(hash, number);
      if r.None? { return; }
      var kept: set<Hash> := *;
      MirrorsMore(tdCache, td, kept, hash, r.value);
      tdCache := Remembered(tdCache, kept, hash, r.value);
    }

    /** GetHeader, likewise, from whatever store the cache mirrors. */
    method GetHeader(hash: Hash, number: int, ghost store: Headers) returns (r: Option<Header>)
      requires Mirrors(headerCache, store) && Mirrors(headers, store)
      modifies this`headerCache
      ensures Mirrors(headerCache, store)
      ensures hash in old(headerCache) ==> hash in store && r == Some(store[hash])
      ensures hash !in old(headerCache) ==> r == ReadHeader(hash, number)
    {
      if hash in headerCache { return Some(headerCache[hash]); }
      r := ReadHeader(hash, number);
      if r.None? { return; }
      var kept: set<Hash> := *;
      MirrorsMore(headerCache, store, kept, hash, r.value);
      headerCache := Remembered(headerCache, kept, hash, r.value);
    }

    /** The first loop of WriteHeader: canonical assignments above the new head go. */
    method DeleteAbove(number: nat, ghost top: nat)
      requires forall i: nat :: i in canon <==> i <= top
      modifies this`canon
      ensures canon == UpTo(old(canon), number)
    {
      var i := number + 1;
      while i in canon
        invariant number < i
        invariant forall k :: k in canon <==> k in old(canon) && !(number < k < i)
        invariant forall k :: k in canon ==> canon[k] == old(canon)[k]
        decreases top + 1 - i
      {
        canon := canon - {i};
        i := i + 1;
      }
      assert forall k :: k in canon ==> k <= number;
    }

    /** The second loop: stale assignments are overwritten until the index agrees. It
        finds every ancestor it needs exactly if the new header's path reaches genesis. */
    method Rewrite(x: Header, ghost was: map<nat, Hash>) returns (ok: bool)
      requires Filed(headers, genesis) && Mirrors(headerCache, headers) && ParentStored(headers, x)
      requires was == canon && Rewriting(headers, was, canon, x, x.parent, x.number - 1)
      requires x.hash in headers && headers[x.hash] == x && 0 in was && was[0] == genesis.hash
      requires forall n: nat :: n in was && n < x.number ==> Linked(headers, was, n)
      modifies this`canon, this`headerCache
      ensures Mirrors(headerCache, headers)
      ensures ok <==> Rooted(headers, genesis, x)
      ensures ok ==> Path(headers, canon[x.number := x.hash], genesis, x)
    {
      hide *;
      FiledMeans(headers, genesis);
      StoredBelow(headers, x);
      RootedStep(headers, genesis, x);
      var headHash, headNumber: nat := x.parent, x.number - 1;
      MirrorsSelf(headers);
      RewritingAt(headers, was, canon, x, headHash, headNumber);
      FoundBy(headHash, headNumber);
      var head := GetHeader(headHash, headNumber, headers);
      while !(headNumber in canon && canon[headNumber] == headHash)
        invariant Mirrors(headerCache, headers) && headNumber < x.number
        invariant Rewriting(headers, was, canon, x, headHash, headNumber)
        invariant headHash in headers && head == Some(headers[headHash])
        invariant Rooted(headers, genesis, x) <==> Rooted(headers, genesis, headers[headHash])
        decreases headNumber
      {
        RewritingAt(headers, was, canon, x, headHash, headNumber);
        AtGenesis(headers, was, canon, genesis, x, headHash, headNumber);
        RootedStep(headers, genesis, head.value);
        var parent := head.value.parent;
        FoundBy(parent, headNumber - 1);
        StoredBelow(headers, head.value);
        if parent in headers { RewriteOne(headers, was, canon, genesis, x, headHash, headNumber); }
        canon := canon[headNumber := headHash];
        if parent in headers { RewritingAt(headers, was, canon, x, parent, headNumber - 1); }
        headHash, headNumber := parent, headNumber - 1;
        head := GetHeader(headHash, headNumber, headers);
        if head.None? {
          return false;
        }
      }
      RewritingAt(headers, was, canon, x, headHash, headNumber);
      AgreesBelow(headers, was, canon, x, headHash, headNumber);
      LinkedRooted(headers, was, genesis, headNumber);
      Rewritten(headers, was, canon, genesis, x, headHash, headNumber);
      return true;
    }

    /** What GetHeader finds, the cache mirroring the headers. */
    lemma FoundBy(hash: Hash, number: int)
      requires Mirrors(headerCache, headers)
      ensures hash !in headers ==> hash !in headerCache && ReadHeader(hash, number) == None
      ensures hash in headers && headers[hash].number == number ==> ReadHeader(hash, number) == Some(headers[hash])
    {
    }

    /** WriteHeader: an unknown parent is refused; otherwise the header is stored with
        its total difficulty and becomes the head if it is heavier, or as heavy and the
        coin falls for it. A new head whose path does not reach genesis panics. */
    method WriteHeader(x: Header, coin: bool) returns (status: Status)
      requires Usable() && Consistent(headers, genesis, x)
      modifies this
      ensures status != Panic ==> Usable()
      ensures old(Valid()) ==> Valid() && status != Panic
      ensures status == NonStat <==> x.parent !in old(headers)
      ensures status == NonStat ==> unchanged(`headers) && unchanged(`td) && unchanged(`canon) && unchanged(`current)
      ensures status != NonStat ==> headers == old(headers)[x.hash := x] && x.parent in old(td) && old(current.hash in td)
      ensures status != NonStat ==> td == old(td)[x.hash := x.difficulty + old(td)[x.parent]]
      ensures status == CanonStat ==> current == x
      ensures status == SideStat ==> unchanged(`current) && unchanged(`canon)
      ensures status != NonStat ==> (status != SideStat <==> Takes(td[x.hash], old(td[current.hash]), coin))
      ensures status == SideStat ==> td[x.hash] <= old(td[current.hash])
      ensures status == CanonStat || status == Panic ==> td[x.hash] >= old(td[current.hash])
      ensures status != NonStat && td[x.hash] == old(td[current.hash]) ==> (status != SideStat <==> coin)
      ensures status == CanonStat ==> Rooted(headers, genesis, x)
      ensures status == Panic ==> !Rooted(headers, genesis, x) && unchanged(`current)
    {
      hide *;
      ghost var hs, tds, was, head := headers, td, canon, current;
      ghost var good := Good(headers, td, canon, genesis, current);
      Unfold();
      SoundMeans(hs, tds, was, genesis, head);
      ReadTdMeans(x.parent, x.number - 1);
      ReadTdMeans(head.hash, head.number);
      ConsistentMeans(hs, genesis, x);
      StoredBelow(hs, x);
      var ptd := GetTd(x.parent, x.number - 1);
      if ptd.None? {
        FoldBoth(good);
        return NonStat;
      }
      var localTd := GetTd(current.hash, current.number);
      var externTd := x.difficulty + ptd.value;
      Store(x, externTd);
      FiledMore(hs, genesis, x, headers);
      SideSound(hs, tds, was, genesis, head, x, headers, td);
      TakesMeans(externTd, localTd.value, coin);
      if Takes(externTd, localTd.value, coin) {
        var ok := MakeHead(x, hs);
        if good { GoodRooted(hs, tds, was, genesis, head, x, headers, td); }
        if !ok {
          return Panic;
        }
        SoundIs(headers, td, canon, genesis, current);
        if good { CanonGood(hs, tds, was, genesis, head, x, headers, td, canon); }
        status := CanonStat;
      } else {
        if good { SideGood(hs, tds, was, genesis, head, x, headers, td); }
        status := SideStat;
      }
      var kept: set<Hash> := *;
      MirrorsMore(headerCache, headers, kept, x.hash, x);
      headerCache := Remembered(headerCache, kept, x.hash, x);
      FoldBoth(good);
    }

    /** SetHead: rewinding below the height leaves exactly the path up to the new head;
        at or above the height nothing changes. All that a run of WriteHeader keeps holds
        again exactly if no remaining header has lost its parent and none is heavier than
        the new head. */
    method SetHead(head: nat)
      requires Usable()
      modifies this
      ensures Usable()
      ensures head >= old(current.number) ==> unchanged(`headers) && unchanged(`td) && unchanged(`canon) && unchanged(`current)
      ensures head < old(current.number) ==> current.number == head && head in old(canon) && current.hash == old(canon)[head]
      ensures Path(headers, canon, genesis, current) && canon == UpTo(old(canon), head)
      ensures headers == old(headers) - Above(old(canon), head) && td == old(td) - Above(old(canon), head)
      ensures old(Valid()) && head >= old(current.number) ==> Valid()
      ensures old(Valid()) && head < old(current.number) ==>
        (Valid() <==>
          && Unorphaned(old(headers), genesis, Above(old(canon), head))
          && NoneHeavier(old(td), Above(old(canon), head), old(canon)[head]))
    {
      hide *;
      Unfold();
      ghost var hs, tds, was, top := headers, td, canon, current;
      ghost var good := Good(headers, td, canon, genesis, current);
      SoundMeans(hs, tds, was, genesis, top);
      RewoundNone(hs, tds, was, genesis, top);
      MirrorsSelf(hs);
      var height := current.number;
      while current.number > head
        invariant Rewound(hs, tds, was, genesis, top, headers, td, current) && Mirrors(headerCache, hs) && Mirrors(headers, hs)
        invariant canon == was
        invariant if head < height then current.number >= head else headers == hs && td == tds && current == top
        decreases current.number
      {
        var hash := current.hash;
        RewoundOne(hs, tds, was, genesis, top, headers, td, current);
        MirrorsLess(headers, hs, hash);
        headers := headers - {hash};
        td := td - {hash};
        ReadHeaderMeans(current.parent, current.number - 1);
        var parent := GetHeader(current.parent, current.number - 1, hs);
        current := parent.value;
      }
      RewoundPath(hs, tds, was, genesis, top, headers, td, current);
      RewoundSound(hs, tds, was, genesis, top, headers, td, current);
      if good { RewoundGood(hs, tds, was, genesis, top, headers, td, current); }
      UpToHead(hs, was, genesis, top, head);
      RewoundMeans(hs, tds, was, genesis, top, headers, td, current);
      RollBack(height, head);
      headerCache, tdCache := map[], map[];
      CachedEmpty();
      FoldIff();
    }

    lemma ReadHeaderMeans(hash: Hash, number: int)
      ensures hash in headers && headers[hash].number == number ==> ReadHeader(hash, number) == Some(headers[hash])
    {
    }

    lemma ReadTdMeans(hash: Hash, number: int)
      requires Mirrors(tdCache, td) && (forall h :: h in headers <==> h in td)
      ensures hash !in headers ==> hash !in tdCache && ReadTd(hash, number) == None
      ensures hash in headers && headers[hash].number == number ==> hash in td && ReadTd(hash, number) == Some(td[hash])
    {
    }

    lemma FoldIff()
      requires Cached()
      ensures Valid() <==> Good(headers, td, canon, genesis, current)
      ensures Usable() <==> Sound(headers, td, canon, genesis, current)
    {
    }

    /** The index is cleared from the old height down to the new head. */
    method RollBack(height: nat, head: nat)
      requires forall i: nat :: i in canon ==> i <= height
      modifies this`canon
      ensures canon == UpTo(old(canon), head)
    {
      var i := height;
      while i > head
        invariant i <= height
        invariant forall k :: k in canon <==> k in old(canon) && (k <= i || k <= head)
        invariant forall k :: k in canon ==> canon[k] == old(canon)[k]
      {
        canon := canon - {i};
        i := i - 1;
      }
    }

    lemma CachedEmpty()
      requires headerCache == map[] && tdCache == map[]
      ensures Cached()
    {
    }

    lemma Unfold()
      requires Usable()
      ensures Sound(headers, td, canon, genesis, current) && Cached() && Mirrors(headerCache, headers) && Mirrors(tdCache, td)
      ensures Valid() <==> Good(headers, td, canon, genesis, current)
    {
    }

    lemma FoldBoth(good: bool)
      requires Sound(headers, td, canon, genesis, current) && Mirrors(headerCache, headers) && Mirrors(tdCache, td)
      requires good ==> Good(headers, td, canon, genesis, current)
      ensures Usable() && (good ==> Valid())
    {
    }

    /** WriteTd and the database's WriteHeader. */
    method Store(x: Header, externTd: nat)
      requires Mirrors(headerCache, headers) && Mirrors(tdCache, td)
      requires x.hash in headers ==> headers[x.hash] == x
      modifies this`headers, this`td, this`tdCache
      ensures headers == old(headers)[x.hash := x] && td == old(td)[x.hash := externTd]
      ensures Mirrors(headerCache, headers) && Mirrors(tdCache, td)
    {
      hide *;
      var kept: set<Hash> := *;
      MirrorsBoth(tdCache, td, kept, x.hash, externTd);
      td := td[x.hash := externTd];
      tdCache := Remembered(tdCache, kept, x.hash, externTd);
      MirrorsStill(headerCache, headers, x.hash, x);
      headers := headers[x.hash := x];
    }

    /** The canonical branch of WriteHeader. */
    method MakeHead(x: Header, ghost hs: Headers) returns (ok: bool)
      requires Filed(hs, genesis) && Path(hs, canon, genesis, current) && x.parent in hs && ParentStored(headers, x)
      requires (x.hash in hs ==> hs[x.hash] == x) && headers == hs[x.hash := x]
      requires Filed(headers, genesis) && Mirrors(headerCache, headers)
      modifies this`canon, this`headerCache, this`current
      ensures Mirrors(headerCache, headers) && (ok <==> Rooted(headers, genesis, x))
      ensures if ok then current == x && Path(headers, canon, genesis, current) else unchanged(`current)
    {
      hide *;
      Cleared(hs, canon, genesis, current, x, headers);
      ClearedLinks(hs, canon, genesis, current, x, headers);
      DeleteAbove(x.number, current.number);
      ok := Rewrite(x, canon);
      if !ok {
        return;
      }
      canon := canon[x.number := x.hash];
      current := x;
    }
  }

  /** The canonical hashes with numbers above `n`. */
  ghost function Above(canon: map<nat, Hash>, n: nat): set<Hash> {
    set i: nat | i in canon && i > n :: canon[i]
  }

  /** While rewinding: the headers above the cursor are gone, the cursor is still there. */
  ghost predicate Rewound(hs: Headers, td: map<Hash, nat>, canon: map<nat, Hash>, genesis: Header, head: Header,
                          hs': Headers, td': map<Hash, nat>, cur: Header) {
    && Path(hs, canon, genesis, head) && cur.number <= head.number && canon[cur.number] == cur.hash
    && cur.hash in hs && hs[cur.hash] == cur
    && hs' == hs - Above(canon, cur.number) && td' == td - Above(canon, cur.number)
  }

  lemma RewoundNone(hs: Headers, td: map<Hash, nat>, canon: map<nat, Hash>, genesis: Header, head: Header)
    requires Path(hs, canon, genesis, head)
    ensures Rewound(hs, td, canon, genesis, head, hs, td, head)
  {
    assert Above(canon, head.number) == {};
  }

  lemma RewoundOne(hs: Headers, td: map<Hash, nat>, canon: map<nat, Hash>, genesis: Header, head: Header,
                   hs': Headers, td': map<Hash, nat>, cur: Header)
    requires Rewound(hs, td, canon, genesis, head, hs', td', cur) && cur.number > 0
    ensures cur.parent in hs && Rewound(hs, td, canon, genesis, head, hs' - {cur.hash}, td' - {cur.hash}, hs[cur.parent])
    ensures cur.parent in hs' - {cur.hash} && (hs' - {cur.hash})[cur.parent] == hs[cur.parent] && hs[cur.parent].number == cur.number - 1
  {
    assert LinkAt(hs, canon, cur.number) && LinkAt(hs, canon, cur.number - 1);
    assert Above(canon, cur.number - 1) == Above(canon, cur.number) + {cur.hash};
    forall i: nat | i in canon ensures canon[i] == cur.parent ==> i == cur.number - 1 { assert LinkAt(hs, canon, i); }
  }

  /** Rewound to `n`, the index cut there is the path of the header reached. */
  lemma RewoundPath(hs: Headers, td: map<Hash, nat>, canon: map<nat, Hash>, genesis: Header, head: Header,
                    hs': Headers, td': map<Hash, nat>, cur: Header)
    requires Rewound(hs, td, canon, genesis, head, hs', td', cur)
    ensures Path(hs', UpTo(canon, cur.number), genesis, cur)
  {
    var c := UpTo(canon, cur.number);
    forall i | 0 <= i <= cur.number ensures LinkAt(hs', c, i) {
      assert LinkAt(hs, canon, i);
      NotAbove(hs, canon, head.number, cur.number, i);
    }
    NotAbove(hs, canon, head.number, cur.number, cur.number);
  }

  lemma RewoundMeans(hs: Headers, td: map<Hash, nat>, canon: map<nat, Hash>, genesis: Header, head: Header,
                     hs': Headers, td': map<Hash, nat>, cur: Header)
    requires Rewound(hs, td, canon, genesis, head, hs', td', cur)
    ensures cur.number in canon && canon[cur.number] == cur.hash
    ensures hs' == hs - Above(canon, cur.number) && td' == td - Above(canon, cur.number)
  {
  }

  /** Nothing is above the head of a path. */
  lemma UpToHead(hs: Headers, canon: map<nat, Hash>, genesis: Header, head: Header, n: nat)
    requires Path(hs, canon, genesis, head)
    ensures forall i: nat :: i in canon ==> i <= head.number
    ensures n >= head.number ==> UpTo(canon, n) == UpTo(canon, head.number) == canon && Above(canon, n) == Above(canon, head.number)
  {
    assert n >= head.number ==> Above(canon, n) == {} == Above(canon, head.number);
  }

  lemma NotAbove(hs: Headers, canon: map<nat, Hash>, top: nat, n: nat, i: nat)
    requires Linked(hs, canon, top) && (forall k: nat :: k in canon <==> k <= top) && i <= n <= top
    ensures canon[i] !in Above(canon, n)
  {
    forall k: nat | k in canon ensures canon[k] == canon[i] ==> k == i { assert LinkAt(hs, canon, k) && LinkAt(hs, canon, i); }
  }

  /** No header outside `gone` has its parent in it. */
  ghost predicate Unorphaned(hs: Headers, genesis: Header, gone: set<Hash>) {
    forall h :: h in hs && h !in gone && hs[h] != genesis ==> hs[h].parent !in gone
  }

  /** No header outside `gone` is heavier than `h`. */
  ghost predicate NoneHeavier(td: map<Hash, nat>, gone: set<Hash>, h: Hash) {
    h in td && forall k :: k in td && k !in gone ==> td[k] <= td[h]
  }

  lemma HeaviestAfter(hs: Headers, td: map<Hash, nat>, canon: map<nat, Hash>, genesis: Header, head: Header,
                      hs': Headers, td': map<Hash, nat>, cur: Header)
    requires Good(hs, td, canon, genesis, head) && Rewound(hs, td, canon, genesis, head, hs', td', cur)
    ensures Heaviest(td', cur.hash) <==> NoneHeavier(td, Above(canon, cur.number), canon[cur.number])
    ensures cur.number == head.number ==> Unorphaned(hs, genesis, Above(canon, cur.number))
    ensures cur.number == head.number ==> NoneHeavier(td, Above(canon, cur.number), canon[cur.number])
  {
    hide Linked, Closed, Above, Rewound;
    RewoundMeans(hs, td, canon, genesis, head, hs', td', cur);
    RewoundAt(hs, td, canon, genesis, head, hs', td', cur);
    assert forall k :: k in td' <==> k in td && k !in Above(canon, cur.number);
    assert forall k :: k in td' ==> td'[k] == td[k];
  }

  lemma RewoundAt(hs: Headers, td: map<Hash, nat>, canon: map<nat, Hash>, genesis: Header, head: Header,
                  hs': Headers, td': map<Hash, nat>, cur: Header)
    requires Rewound(hs, td, canon, genesis, head, hs', td', cur)
    ensures cur.hash in hs && cur.hash !in Above(canon, cur.number) && cur.number <= head.number
    ensures cur.number == head.number ==> Above(canon, cur.number) == {} && cur == head
  {
    NotAbove(hs, canon, head.number, cur.number, cur.number);
  }

  lemma RewoundSound(hs: Headers, td: map<Hash, nat>, canon: map<nat, Hash>, genesis: Header, head: Header,
                     hs': Headers, td': map<Hash, nat>, cur: Header)
    requires Sound(hs, td, canon, genesis, head) && Rewound(hs, td, canon, genesis, head, hs', td', cur)
    ensures Sound(hs', td', UpTo(canon, cur.number), genesis, cur)
  {
    hide LinkAt, Linked;
    RewoundPath(hs, td, canon, genesis, head, hs', td', cur);
    GenesisStays(hs, canon, genesis, head, cur.number);
    FiledLess(hs, genesis, Above(canon, cur.number));
  }

  lemma ClosedAfter(hs: Headers, genesis: Header, gone: set<Hash>)
    requires Closed(hs, genesis) && genesis.hash !in gone
    ensures Closed(hs - gone, genesis) <==> Unorphaned(hs, genesis, gone)
  {
    var left := hs - gone;
    if Unorphaned(hs, genesis, gone) {
      forall h | h in left ensures left[h].hash == h && (left[h] == genesis || ParentStored(left, left[h])) {
        assert left[h] == genesis || ParentStored(hs, left[h]);
      }
    } else {
      var h :| h in hs && h !in gone && hs[h] != genesis && hs[h].parent in gone;
      assert h in left && !ParentStored(left, left[h]);
    }
  }

  /** Rewinding can orphan side headers and can leave heavier ones behind: all that a run
      of WriteHeader keeps holds again exactly if it does neither. */
  lemma RewoundGood(hs: Headers, td: map<Hash, nat>, canon: map<nat, Hash>, genesis: Header, head: Header,
                    hs': Headers, td': map<Hash, nat>, cur: Header)
    requires Good(hs, td, canon, genesis, head) && Rewound(hs, td, canon, genesis, head, hs', td', cur)
    ensures Good(hs', td', UpTo(canon, cur.number), genesis, cur)
      <==> Unorphaned(hs, genesis, Above(canon, cur.number)) && NoneHeavier(td, Above(canon, cur.number), canon[cur.number])
  {
    hide *;
    HeaviestAfter(hs, td, canon, genesis, head, hs', td', cur);
    GoodMeans(hs, td, canon, genesis, head);
    RewoundMeans(hs, td, canon, genesis, head, hs', td', cur);
    RewoundPath(hs, td, canon, genesis, head, hs', td', cur);
    GenesisStays(hs, canon, genesis, head, cur.number);
    ClosedAfter(hs, genesis, Above(canon, cur.number));
    if Unorphaned(hs, genesis, Above(canon, cur.number)) {
      WeighedAfter(hs, td, genesis, Above(canon, cur.number));
      if Heaviest(td', cur.hash) { GoodIs(hs', td', UpTo(canon, cur.number), genesis, cur); }
    }
    if Good(hs', td', UpTo(canon, cur.number), genesis, cur) { GoodMeans(hs', td', UpTo(canon, cur.number), genesis, cur); }
  }

  predicate ChildOf(x: Header, p: Header) { x.parent == p.hash && x.number == p.number + 1 }

  /** A canonical chain of genesis, `a` and `b`, and `s` beside it on `p`. */
  predicate Forked(g: Header, a: Header, b: Header, s: Header, p: Header) {
    && g.number == 0 && ChildOf(a, g) && ChildOf(b, a) && ChildOf(s, p) && (p == g || p == a)
    && g.hash != a.hash && g.hash != b.hash && g.hash != s.hash && a.hash != b.hash && a.hash != s.hash && b.hash != s.hash
  }

  function ForkHeaders(g: Header, a: Header, b: Header, s: Header): Headers {
    map[g.hash := g, a.hash := a, b.hash := b, s.hash := s]
  }

  function ForkTd(g: Header, a: Header, b: Header, s: Header, p: Header): map<Hash, nat> {
    var wa := g.difficulty + a.difficulty;
    map[g.hash := g.difficulty, a.hash := wa, b.hash := wa + b.difficulty,
        s.hash := (if p == g then g.difficulty else wa) + s.difficulty]
  }

  function ForkIndex(g: Header, a: Header, b: Header): map<nat, Hash> {
    map[0 := g.hash, 1 := a.hash, 2 := b.hash]
  }

  lemma ForkClosed(g: Header, a: Header, b: Header, s: Header, p: Header)
    requires Forked(g, a, b, s, p)
    ensures Closed(ForkHeaders(g, a, b, s), g)
  {
    var hs := ForkHeaders(g, a, b, s);
    assert ParentStored(hs, a) && ParentStored(hs, b) && ParentStored(hs, s);
  }

  lemma ForkWeighed(g: Header, a: Header, b: Header, s: Header, p: Header)
    requires Forked(g, a, b, s, p) && Closed(ForkHeaders(g, a, b, s), g)
    ensures Weighed(ForkHeaders(g, a, b, s), ForkTd(g, a, b, s, p), g)
  {
    hide Closed;
    var hs := ForkHeaders(g, a, b, s);
    assert hs[g.hash] == g && hs[a.hash] == a && hs[b.hash] == b && hs[s.hash] == s;
    assert Weight(hs, g, g.hash) == g.difficulty;
    assert Weight(hs, g, a.hash) == g.difficulty + a.difficulty;
    assert Weight(hs, g, b.hash) == g.difficulty + a.difficulty + b.difficulty;
    assert Weight(hs, g, s.hash) == s.difficulty + Weight(hs, g, p.hash);
  }

  lemma ForkGood(g: Header, a: Header, b: Header, s: Header, p: Header)
    requires Forked(g, a, b, s, p) && (if p == g then s.difficulty <= a.difficulty + b.difficulty else s.difficulty <= b.difficulty)
    ensures Good(ForkHeaders(g, a, b, s), ForkTd(g, a, b, s, p), ForkIndex(g, a, b), g, b)
  {
    hide Closed, Weighed;
    ForkClosed(g, a, b, s, p);
    ForkWeighed(g, a, b, s, p);
    var hs, canon := ForkHeaders(g, a, b, s), ForkIndex(g, a, b);
    assert LinkAt(hs, canon, 0) && LinkAt(hs, canon, 1) && LinkAt(hs, canon, 2);
  }

  /** Rewinding can orphan: the side header of the head's number, rewound to genesis. */
  lemma RewindOrphans(g: Header, a: Header, b: Header, s: Header)
    requires Forked(g, a, b, s, a) && s.difficulty <= b.difficulty
    ensures
      var hs, td, canon := ForkHeaders(g, a, b, s), ForkTd(g, a, b, s, a), ForkIndex(g, a, b);
      var gone := Above(canon, 0);
      && Good(hs, td, canon, g, b) && !Good(hs - gone, td - gone, UpTo(canon, 0), g, g)
      && !Unorphaned(hs, g, gone)
  {
    ForkGood(g, a, b, s, a);
    var hs, canon := ForkHeaders(g, a, b, s), ForkIndex(g, a, b);
    assert canon[1] in Above(canon, 0) && s.hash !in Above(canon, 0);
    assert s.hash in hs - Above(canon, 0) && !ParentStored(hs - Above(canon, 0), s);
  }

  /** A child of the orphan is then stored and, being heavier than genesis, taken for the
      head, but its path does not reach genesis: WriteHeader panics. */
  lemma OrphanUnrooted(g: Header, a: Header, b: Header, s: Header, x: Header, coin: bool)
    requires Forked(g, a, b, s, a) && s.difficulty <= b.difficulty && ChildOf(x, s) && x.hash !in ForkHeaders(g, a, b, s)
    requires a.difficulty + s.difficulty + x.difficulty > 0
    ensures
      var canon := ForkIndex(g, a, b);
      var hs, td := ForkHeaders(g, a, b, s) - Above(canon, 0), ForkTd(g, a, b, s, a) - Above(canon, 0);
      && Sound(hs, td, UpTo(canon, 0), g, g) && Consistent(hs, g, x) && x.parent in hs && x.parent in td && g.hash in td
      && Takes(x.difficulty + td[x.parent], td[g.hash], coin) && !Rooted(hs[x.hash := x], g, x)
  {
    hide Good, Sound, Rewound;
    var hs, td, canon := ForkHeaders(g, a, b, s), ForkTd(g, a, b, s, a), ForkIndex(g, a, b);
    var gone := Above(canon, 0);
    assert canon[1] in gone && canon[2] in gone && gone == {a.hash, b.hash};
    ForkGood(g, a, b, s, a);
    GoodIsSound(hs, td, canon, g, b);
    ForkRewound(g, a, b, s);
    RewoundSound(hs, td, canon, g, b, hs - gone, td - gone, g);
    assert hs - gone == map[g.hash := g, s.hash := s];
    OrphanStays(g, a, s, x);
  }

  lemma OrphanStays(g: Header, a: Header, s: Header, x: Header)
    requires g.number == 0 && ChildOf(a, g) && ChildOf(s, a) && ChildOf(x, s)
    requires a.hash != g.hash && a.hash != s.hash && a.hash != x.hash && x.hash != g.hash && x.hash != s.hash && g.hash != s.hash
    ensures !Rooted(map[g.hash := g, s.hash := s][x.hash := x], g, x)
  {
    var hs := map[g.hash := g, s.hash := s][x.hash := x];
    RootedStep(hs, g, x);
    RootedStep(hs, g, s);
    assert !ParentStored(hs, s);
  }

  lemma ForkRewound(g: Header, a: Header, b: Header, s: Header)
    requires Forked(g, a, b, s, a) && s.difficulty <= b.difficulty
    ensures var hs, td, canon := ForkHeaders(g, a, b, s), ForkTd(g, a, b, s, a), ForkIndex(g, a, b);
      Rewound(hs, td, canon, g, b, hs - Above(canon, 0), td - Above(canon, 0), g)
  {
    ForkGood(g, a, b, s, a);
  }

  /** Rewinding can leave a heavier header behind, with nothing orphaned: one beside `a`,
      heavier than it but no heavier than the head, rewound to `a`. */
  lemma RewindLeavesHeavier(g: Header, a: Header, b: Header, t: Header)
    requires Forked(g, a, b, t, g) && a.difficulty < t.difficulty <= a.difficulty + b.difficulty
    ensures
      var hs, td, canon := ForkHeaders(g, a, b, t), ForkTd(g, a, b, t, g), ForkIndex(g, a, b);
      var gone := Above(canon, 1);
      && Good(hs, td, canon, g, b) && !Good(hs - gone, td - gone, UpTo(canon, 1), g, a)
      && Unorphaned(hs, g, gone) && !NoneHeavier(td, gone, a.hash)
  {
    ForkGood(g, a, b, t, g);
    var td, canon := ForkTd(g, a, b, t, g), ForkIndex(g, a, b);
    assert Above(canon, 1) == {b.hash} by { assert canon[2] in Above(canon, 1); }
    assert td[t.hash] > td[a.hash] && t.hash in td - {b.hash};
  }

  lemma GenesisStays(hs: Headers, canon: map<nat, Hash>, genesis: Header, head: Header, n: nat)
    requires Path(hs, canon, genesis, head) && n <= head.number
    ensures genesis.hash !in Above(canon, n)
  {
    NotAbove(hs, canon, head.number, n, 0);
  }

  lemma WeighedAfter(hs: Headers, td: map<Hash, nat>, genesis: Header, gone: set<Hash>)
    requires Closed(hs, genesis) && Weighed(hs, td, genesis) && Closed(hs - gone, genesis)
    ensures Weighed(hs - gone, td - gone, genesis)
  {
    forall h | h in hs - gone ensures Weight(hs - gone, genesis, h) == td[h] { WeightKept(hs - gone, genesis, hs, h); }
  }

  lemma GoodMeans(hs: Headers, td: map<Hash, nat>, canon: map<nat, Hash>, genesis: Header, head: Header)
    requires Good(hs, td, canon, genesis, head)
    ensures Closed(hs, genesis) && Weighed(hs, td, genesis) && Path(hs, canon, genesis, head) && Heaviest(td, head.hash)
    ensures head.hash in hs && hs[head.hash] == head && forall h :: h in hs <==> h in td
  {
  }

  lemma GoodIs(hs: Headers, td: map<Hash, nat>, canon: map<nat, Hash>, genesis: Header, head: Header)
    requires Closed(hs, genesis) && Weighed(hs, td, genesis) && Path(hs, canon, genesis, head) && Heaviest(td, head.hash)
    ensures Good(hs, td, canon, genesis, head)
  {
  }

  lemma SoundMeans(hs: Headers, td: map<Hash, nat>, canon: map<nat, Hash>, genesis: Header, head: Header)
    requires Sound(hs, td, canon, genesis, head)
    ensures Filed(hs, genesis) && Path(hs, canon, genesis, head) && (forall h :: h in hs <==> h in td)
    ensures head.hash in hs && hs[head.hash] == head
  {
  }

  lemma SoundIs(hs: Headers, td: map<Hash, nat>, canon: map<nat, Hash>, genesis: Header, head: Header)
    requires Filed(hs, genesis) && Path(hs, canon, genesis, head) && forall h :: h in hs <==> h in td
    ensures Sound(hs, td, canon, genesis, head)
  {
  }

  lemma SideSound(hs: Headers, td: map<Hash, nat>, canon: map<nat, Hash>, genesis: Header, head: Header, x: Header, hs': Headers, td': map<Hash, nat>)
    requires Sound(hs, td, canon, genesis, head) && Filed(hs', genesis) && x.hash in td' && (x.hash in hs ==> hs[x.hash] == x)
    requires hs' == hs[x.hash := x] && td' == td[x.hash := td'[x.hash]]
    ensures Sound(hs', td', canon, genesis, head) && forall h :: h in hs' <==> h in td'
  {
    LinkedStill(hs, canon, head.number, hs');
  }

  lemma FiledMeans(hs: Headers, genesis: Header)
    requires Filed(hs, genesis)
    ensures genesis.number == 0
  {
  }

  lemma ConsistentMeans(hs: Headers, genesis: Header, x: Header)
    requires Consistent(hs, genesis, x)
    ensures (x.hash in hs ==> hs[x.hash] == x) && (x.parent in hs ==> hs[x.parent].number == x.number - 1)
  {
  }

  lemma StoredBelow(hs: Headers, x: Header)
    ensures ParentStored(hs, x) <==> x.parent in hs && hs[x.parent].number + 1 == x.number
  {
  }

  lemma AgreesBelow(hs: Headers, was: map<nat, Hash>, canon: map<nat, Hash>, x: Header, h: Hash, n: nat)
    requires Rewriting(hs, was, canon, x, h, n) && n in canon
    ensures n in was && was[n] == canon[n]
  {
  }

  /** From a good state a new header's path always reaches genesis. */
  lemma GoodRooted(hs: Headers, td: map<Hash, nat>, canon: map<nat, Hash>, genesis: Header, head: Header, x: Header, hs': Headers, td': map<Hash, nat>)
    requires Good(hs, td, canon, genesis, head) && ParentStored(hs, x) && (x.hash in hs ==> hs[x.hash] == x)
    requires hs' == hs[x.hash := x]
    ensures Rooted(hs', genesis, x)
  {
    Extended(hs, genesis, x);
    AllRooted(hs', genesis, x.hash);
  }

  lemma TakesMeans(externTd: nat, localTd: nat, coin: bool)
    ensures Takes(externTd, localTd, coin) ==> externTd >= localTd
    ensures !Takes(externTd, localTd, coin) ==> externTd <= localTd
    ensures externTd == localTd ==> Takes(externTd, localTd, coin) == coin
  {
  }

  /** The heavier header takes over as the heaviest. */
  lemma CanonGood(hs: Headers, td: map<Hash, nat>, canon: map<nat, Hash>, genesis: Header, head: Header, x: Header,
                  hs': Headers, td': map<Hash, nat>, canon': map<nat, Hash>)
    requires Good(hs, td, canon, genesis, head) && ParentStored(hs, x) && (x.hash in hs ==> hs[x.hash] == x)
    requires hs' == hs[x.hash := x] && td' == td[x.hash := x.difficulty + td[x.parent]] && td'[x.hash] >= td[head.hash]
    requires Path(hs', canon', genesis, x)
    ensures Good(hs', td', canon', genesis, x)
  {
    hide Path;
    Reweighed(hs, td, genesis, x, hs', td');
  }

  lemma ClearedLinks(hs: Headers, canon: map<nat, Hash>, genesis: Header, head: Header, x: Header, hs': Headers)
    requires Path(hs, canon, genesis, head) && hs' == hs[x.hash := x] && (x.hash in hs ==> hs[x.hash] == x)
    ensures forall i: nat :: i in canon <==> i <= head.number
    ensures forall n: nat :: n in UpTo(canon, x.number) && n < x.number ==> Linked(hs', UpTo(canon, x.number), n)
  {
    var c := UpTo(canon, x.number);
    forall n: nat, i: nat | n in c && n < x.number && i <= n ensures LinkAt(hs', c, i) { assert LinkAt(hs, canon, i); }
  }

  /** Fork choice: heavier wins, a tie is left to the coin. */
  predicate Takes(externTd: nat, localTd: nat, coin: bool) {
    externTd > localTd || (externTd == localTd && coin)
  }

  lemma MirrorsSelf<V>(store: map<Hash, V>)
    ensures Mirrors(store, store)
  {
  }

  lemma MirrorsLess(more: Headers, store: Headers, hash: Hash)
    requires Mirrors(more, store)
    ensures Mirrors(more - {hash}, store)
  {
  }

  lemma RewritingAt(hs: Headers, was: map<nat, Hash>, canon: map<nat, Hash>, x: Header, h: Hash, n: nat)
    requires Rewriting(hs, was, canon, x, h, n)
    ensures h in hs && hs[h].number == n < x.number && (n in canon <==> n in was)
  {
  }
}
