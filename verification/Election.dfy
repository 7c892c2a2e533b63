/** The sampling of validators and miners of election/election.go. Go walks maps in any
    order; here a walk takes keys as they come, and the result is proved equal to a
    function of the candidates and the sample stream alone.

    Probabilities are real numbers; the rounding of 32-bit floats is not modelled.
 */
module Election {

  type Id = string
  datatype Prob = Prob(id: Id, value: real)
  datatype Tally = Tally(id: Id, value: int)

  function Truncate(x: real): int { if x >= 0.0 then x.Floor else -((-x).Floor) }

  // ----- one sample -----

  function SumTo(probs: seq<Prob>, n: nat): real
    requires n <= |probs|
  {
    if n == 0 then 0.0 else SumTo(probs, n - 1) + probs[n - 1].value
  }

  /** The sample stops at candidate `i`. */
  predicate Hits(probs: seq<Prob>, rand01: real, i: nat)
    requires i < |probs|
  {
    rand01 - SumTo(probs, i + 1) < probs[i].value
  }

  function FirstHit(probs: seq<Prob>, rand01: real, i: nat): nat
    requires i <= |probs|
    decreases |probs| - i
  {
    if i == |probs| || Hits(probs, rand01, i) then i else FirstHit(probs, rand01, i + 1)
  }

  function Sampled(probs: seq<Prob>, rand01: real): (id: Id)
    requires probs != []
    ensures exists i :: 0 <= i < |probs| && id == probs[i].id
  {
    FirstHitBound(probs, rand01, 0);
    var i := FirstHit(probs, rand01, 0);
    probs[if i < |probs| then i else 0].id
  }

  lemma {:induction false} FirstHitBound(probs: seq<Prob>, rand01: real, i: nat)
    requires i <= |probs|
    ensures i <= FirstHit(probs, rand01, i) <= |probs|
    decreases |probs| - i
  {
    if i < |probs| && !Hits(probs, rand01, i) { FirstHitBound(probs, rand01, i + 1); }
  }

  method Sample1NodesInValNodes(probs: seq<Prob>, rand01: real) returns (id: Id)
    requires probs != []
    ensures id == Sampled(probs, rand01)
    ensures if exists i :: 0 <= i < |probs| && Hits(probs, rand01, i)
            then exists i :: 0 <= i < |probs| && id == probs[i].id && Hits(probs, rand01, i) && forall j :: 0 <= j < i ==> !Hits(probs, rand01, j)
            else id == probs[0].id
  {
    var r, i := rand01, 0;
    FirstHitBound(probs, rand01, 0);
    while i < |probs|
      invariant 0 <= i <= |probs| && r == rand01 - SumTo(probs, i) && FirstHit(probs, rand01, i) == FirstHit(probs, rand01, 0)
      invariant forall j :: 0 <= j < i ==> !Hits(probs, rand01, j)
    {
      r := r - probs[i].value;
      if r < probs[i].value {
        assert Hits(probs, rand01, i);
        return probs[i].id;
      }
      i := i + 1;
    }
    return probs[0].id;
  }

  // ----- the votes -----

  /** Votes per node, the first nodes to make up the principals, and whether enough
      nodes were found. */
  datatype Votes = Votes(dict: map<Id, nat>, first: set<Id>, stopped: bool)

  function Cast(v: Votes, id: Id, k: nat, p: nat): Votes {
    var dict := v.dict[id := if id in v.dict then v.dict[id] + 1 else 1];
    if |dict| == k + p then Votes(dict, v.first, true)
    else if |dict| == k && v.first == {} then Votes(dict, dict.Keys, false)
    else Votes(dict, v.first, false)
  }

  /** The votes after `n` samples. */
  function After(probs: seq<Prob>, rand: nat -> real, k: nat, p: nat, n: nat): Votes
    requires probs != []
  {
    if n == 0 then Votes(map[], {}, false)
    else
      var v := After(probs, rand, k, p, n - 1);
      if v.stopped then v else Cast(v, Sampled(probs, rand(n - 1)), k, p)
  }

  lemma {:induction false} StoppedStays(probs: seq<Prob>, rand: nat -> real, k: nat, p: nat, n: nat, m: nat)
    requires probs != [] && n <= m && After(probs, rand, k, p, n).stopped
    ensures After(probs, rand, k, p, m) == After(probs, rand, k, p, n)
  {
    if n < m { StoppedStays(probs, rand, k, p, n, m - 1); }
  }

  function Ids(probs: seq<Prob>): set<Id> { set i | 0 <= i < |probs| :: probs[i].id }

  /** What the votes keep: at most `k + p` nodes; the first `k` are noted once more than
      `k` were found. */
  ghost predicate Orderly(probs: seq<Prob>, v: Votes, k: nat, p: nat) {
    && v.dict.Keys <= Ids(probs) && v.first <= v.dict.Keys && |v.dict| <= k + p
    && (v.stopped <==> |v.dict| == k + p) && (v.first == {} || |v.first| == k)
    && (|v.dict| > k ==> |v.first| == k) && (|v.dict| < k ==> v.first == {}) && (|v.dict| == k && p > 0 ==> |v.first| == k)
  }

  lemma CastOrderly(probs: seq<Prob>, v: Votes, id: Id, k: nat, p: nat)
    requires Orderly(probs, v, k, p) && !v.stopped && id in Ids(probs) && k >= 1
    ensures Orderly(probs, Cast(v, id, k, p), k, p)
  {
    var dict := v.dict[id := if id in v.dict then v.dict[id] + 1 else 1];
    assert dict.Keys == v.dict.Keys + {id};
    assert |dict| == |dict.Keys| && |v.dict| == |v.dict.Keys|;
  }

  lemma {:induction false} AfterOrderly(probs: seq<Prob>, rand: nat -> real, k: nat, p: nat, n: nat)
    requires probs != [] && k >= 1
    ensures Orderly(probs, After(probs, rand, k, p, n), k, p)
  {
    if n > 0 {
      AfterOrderly(probs, rand, k, p, n - 1);
      var v := After(probs, rand, k, p, n - 1);
      if !v.stopped { CastOrderly(probs, v, Sampled(probs, rand(n - 1)), k, p); }
    }
  }

  // ----- lists in the order of the candidates -----

  ghost predicate Distinct(probs: seq<Prob>) {
    forall i, j :: 0 <= i < j < |probs| ==> probs[i].id != probs[j].id
  }

  /** The candidates that have an entry, with it. */
  function Listed(probs: seq<Prob>, m: map<Id, int>): seq<Tally> {
    if probs == [] then []
    else
      var x := probs[|probs| - 1].id;
      Listed(probs[..|probs| - 1], m) + if x in m then [Tally(x, m[x])] else []
  }

  function Scaled(scale: real, x: Prob): int { Truncate(scale * x.value) }

  /** The candidates outside a set, with their scaled value. */
  function Others(probs: seq<Prob>, ks: set<Id>, scale: real): seq<Tally> {
    if probs == [] then []
    else
      var x := probs[|probs| - 1];
      Others(probs[..|probs| - 1], ks, scale) + if x.id in ks then [] else [Tally(x.id, Scaled(scale, x))]
  }

  /** The map a list of tallies is put into. */
  function MapOf(list: seq<Tally>): map<Id, int> {
    if list == [] then map[] else MapOf(list[..|list| - 1])[list[|list| - 1].id := list[|list| - 1].value]
  }

  lemma MapOfMore(list: seq<Tally>, t: Tally)
    ensures MapOf(list + [t]) == MapOf(list)[t.id := t.value]
  {
    assert (list + [t])[..|list|] == list;
  }

  method ToMap(list: seq<Tally>) returns (m: map<Id, int>)
    ensures m == MapOf(list)
  {
    m := map[];
    for i := 0 to |list|
      invariant m == MapOf(list[..i])
    {
      assert list[..i + 1][..i] == list[..i];
      m := m[list[i].id := list[i].value];
    }
    assert list[..|list|] == list;
  }

  /** Going over a map in whatever order. */
  method Walk(dict: map<Id, nat>) returns (list: seq<Tally>)
    ensures MapOf(list) == dict && |list| == |dict|
  {
    list := [];
    var keys := dict.Keys;
    assert |keys| == |dict|;
    while keys != {}
      invariant keys <= dict.Keys && |list| + |keys| == |dict|
      invariant MapOf(list).Keys == dict.Keys - keys && forall k :: k in MapOf(list) ==> MapOf(list)[k] == dict[k]
      decreases |keys|
    {
      var k :| k in keys;
      MapOfMore(list, Tally(k, dict[k]));
      list := list + [Tally(k, dict[k])];
      keys := keys - {k};
    }
  }

  /** sortfunc: three lists put into the order of the candidates; a principal is nothing
      else. */
  method SortFunc(probs: seq<Prob>, principal: seq<Tally>, backup: seq<Tally>, remaining: seq<Tally>)
    returns (a: seq<Tally>, b: seq<Tally>, c: seq<Tally>)
    ensures a == Listed(probs, MapOf(principal))
    ensures b == Listed(probs, MapOf(backup) - MapOf(principal).Keys)
    ensures c == Listed(probs, MapOf(remaining) - MapOf(principal).Keys)
  {
    var pm := ToMap(principal);
    var bm := ToMap(backup);
    var rm := ToMap(remaining);
    a, b, c := [], [], [];
    for i := 0 to |probs|
      invariant a == Listed(probs[..i], pm) && b == Listed(probs[..i], bm - pm.Keys) && c == Listed(probs[..i], rm - pm.Keys)
    {
      assert probs[..i + 1][..i] == probs[..i];
      var x := probs[i].id;
      if x in pm {
        a := a + [Tally(x, pm[x])];
        continue;
      }
      if x in bm { b := b + [Tally(x, bm[x])]; }
      if x in rm { c := c + [Tally(x, rm[x])]; }
    }
    assert probs[..|probs|] == probs;
  }

  // ----- laws of the lists -----

  lemma {:induction false} ListedMap(probs: seq<Prob>, m: map<Id, int>)
    ensures MapOf(Listed(probs, m)) == map x | x in m && x in Ids(probs) :: m[x]
  {
    if probs != [] {
      var rest, x := probs[..|probs| - 1], probs[|probs| - 1].id;
      ListedMap(rest, m);
      IdsMore(probs);
      if x in m {
        MapOfMore(Listed(rest, m), Tally(x, m[x]));
      } else {
        assert Listed(probs, m) == Listed(rest, m);
      }
    }
  }

  lemma IdsMore(probs: seq<Prob>)
    requires probs != []
    ensures Ids(probs) == Ids(probs[..|probs| - 1]) + {probs[|probs| - 1].id}
  {
    var rest := probs[..|probs| - 1];
    forall x | x in Ids(probs) ensures x in Ids(rest) || x == probs[|probs| - 1].id {
      var i :| 0 <= i < |probs| && probs[i].id == x;
      if i < |rest| { assert rest[i].id == x; }
    }
    forall x | x in Ids(rest) ensures x in Ids(probs) {
      var i :| 0 <= i < |rest| && rest[i].id == x;
      assert probs[i].id == x;
    }
  }

  lemma {:induction false} ListedSame(probs: seq<Prob>, m: map<Id, int>, m': map<Id, int>)
    requires forall x :: x in Ids(probs) ==> (x in m <==> x in m') && (x in m ==> m[x] == m'[x])
    ensures Listed(probs, m) == Listed(probs, m')
  {
    if probs != [] {
      IdsMore(probs);
      ListedSame(probs[..|probs| - 1], m, m');
    }
  }

  /** With distinct candidates every entry is listed once. */
  lemma {:induction false} ListedSize(probs: seq<Prob>, m: map<Id, int>)
    requires Distinct(probs)
    ensures |Listed(probs, m)| == |m.Keys * Ids(probs)|
  {
    if probs == [] {
      assert m.Keys * Ids(probs) == {};
    } else {
      var rest, x := probs[..|probs| - 1], probs[|probs| - 1].id;
      ListedSize(rest, m);
      IdsMore(probs);
      LastIsNew(probs);
      if x in m {
        assert m.Keys * Ids(probs) == m.Keys * Ids(rest) + {x};
      } else {
        assert m.Keys * Ids(probs) == m.Keys * Ids(rest);
      }
    }
  }

  lemma LastIsNew(probs: seq<Prob>)
    requires Distinct(probs) && probs != []
    ensures probs[|probs| - 1].id !in Ids(probs[..|probs| - 1]) && Distinct(probs[..|probs| - 1])
  {
  }

  lemma {:induction false} OthersKeys(probs: seq<Prob>, ks: set<Id>, scale: real)
    ensures MapOf(Others(probs, ks, scale)).Keys == Ids(probs) - ks
  {
    if probs != [] {
      var rest, last := probs[..|probs| - 1], probs[|probs| - 1];
      OthersKeys(rest, ks, scale);
      IdsMore(probs);
      OthersMore(probs, ks, scale);
    }
  }

  lemma OthersMore(probs: seq<Prob>, ks: set<Id>, scale: real)
    requires probs != []
    ensures var rest, last := probs[..|probs| - 1], probs[|probs| - 1]; var m := MapOf(Others(rest, ks, scale));
      MapOf(Others(probs, ks, scale)) == if last.id in ks then m else m[last.id := Scaled(scale, last)]
  {
    hide Scaled;
    var rest, last := probs[..|probs| - 1], probs[|probs| - 1];
    if last.id in ks {
      assert Others(probs, ks, scale) == Others(rest, ks, scale);
    } else {
      MapOfMore(Others(rest, ks, scale), Tally(last.id, Scaled(scale, last)));
    }
  }

  lemma {:induction false} OthersAt(probs: seq<Prob>, ks: set<Id>, scale: real, i: nat)
    requires Distinct(probs) && i < |probs| && probs[i].id !in ks
    ensures var m := MapOf(Others(probs, ks, scale)); probs[i].id in m && m[probs[i].id] == Scaled(scale, probs[i])
  {
    hide Scaled;
    OthersMore(probs, ks, scale);
    if i < |probs| - 1 {
      LastIsNew(probs);
      OthersAt(probs[..|probs| - 1], ks, scale, i);
    }
  }

  /** Others, put into a map and listed again, is as it was. */
  lemma OthersListed(probs: seq<Prob>, ks: set<Id>, scale: real)
    requires Distinct(probs)
    ensures Listed(probs, MapOf(Others(probs, ks, scale))) == Others(probs, ks, scale)
  {
    OthersListedIn(probs, ks, scale, probs);
  }

  lemma {:induction false} OthersListedIn(probs: seq<Prob>, ks: set<Id>, scale: real, part: seq<Prob>)
    requires Distinct(probs) && part <= probs
    ensures Listed(part, MapOf(Others(probs, ks, scale))) == Others(part, ks, scale)
  {
    if part != [] {
      OthersListedIn(probs, ks, scale, part[..|part| - 1]);
      var i := |part| - 1;
      assert part[i] == probs[i];
      OthersKeys(probs, ks, scale);
      if part[i].id !in ks { OthersAt(probs, ks, scale, i); }
    }
  }

  // ----- validators -----

  datatype Seats = Seats(principal: seq<Tally>, backup: seq<Tally>, remaining: seq<Tally>)

  function Only(m: map<Id, nat>, s: set<Id>): map<Id, nat> { map x | x in m && x in s :: m[x] }

  /** The result of an election with `k` principals, from candidates and votes alone. */
  function Seated(probs: seq<Prob>, v: Votes, k: nat): Seats {
    if |probs| <= k then Seats(Others(probs, {}, 100.0), [], [])
    else if |v.dict| <= k then Seats(Listed(probs, v.dict), [], Others(probs, v.dict.Keys, 1.0))
    else Seats(Listed(probs, Only(v.dict, v.first)), Listed(probs, v.dict - v.first), Others(probs, v.dict.Keys, 1.0))
  }

  /** All candidates, in order. */
  method All(probs: seq<Prob>) returns (list: seq<Tally>)
    ensures list == Others(probs, {}, 100.0)
  {
    list := [];
    for i := 0 to |probs|
      invariant list == Others(probs[..i], {}, 100.0)
    {
      assert probs[..i + 1][..i] == probs[..i];
      list := list + [Tally(probs[i].id, Truncate(100.0 * probs[i].value))];
    }
    assert probs[..|probs|] == probs;
  }

  /** The candidates with votes, and the others. */
  method Divide(probs: seq<Prob>, dict: map<Id, nat>) returns (voted: seq<Tally>, others: seq<Tally>)
    ensures voted == Listed(probs, dict) && others == Others(probs, dict.Keys, 1.0)
  {
    voted, others := [], [];
    for i := 0 to |probs|
      invariant voted == Listed(probs[..i], dict) && others == Others(probs[..i], dict.Keys, 1.0)
    {
      assert probs[..i + 1][..i] == probs[..i];
      var x := probs[i];
      if x.id in dict {
        voted := voted + [Tally(x.id, dict[x.id])];
      } else {
        assert 1.0 * x.value == x.value;
        others := others + [Tally(x.id, Truncate(x.value))];
      }
    }
    assert probs[..|probs|] == probs;
  }

  /** The votes parted by whether they came first, in whatever order they are met. */
  method Part(dict: map<Id, nat>, firstNodes: seq<Tally>) returns (principal: seq<Tally>, backup: seq<Tally>)
    ensures MapOf(principal) == Only(dict, MapOf(firstNodes).Keys) && MapOf(backup) == dict - MapOf(firstNodes).Keys
  {
    hide *;
    var tmpmap := ToMap(firstNodes);
    principal, backup := [], [];
    var keys := dict.Keys;
    PartNone(dict, tmpmap.Keys);
    while keys != {}
      invariant keys <= dict.Keys
      invariant MapOf(principal) == Only(dict, tmpmap.Keys - keys) && MapOf(backup) == dict - tmpmap.Keys - keys
    {
      var k :| k in keys;
      PartOne(dict, tmpmap.Keys, keys, k);
      if k in tmpmap {
        MapOfMore(principal, Tally(k, dict[k]));
        principal := principal + [Tally(k, dict[k])];
      } else {
        MapOfMore(backup, Tally(k, dict[k]));
        backup := backup + [Tally(k, dict[k])];
      }
      keys := keys - {k};
    }
    assert tmpmap.Keys - keys == tmpmap.Keys;
    assert dict - tmpmap.Keys - keys == dict - tmpmap.Keys;
  }

  lemma PartNone(dict: map<Id, nat>, s: set<Id>)
    ensures MapOf([]) == Only(dict, s - dict.Keys) && MapOf([]) == dict - s - dict.Keys
  {
  }

  lemma PartOne(dict: map<Id, nat>, s: set<Id>, keys: set<Id>, k: Id)
    requires k in keys && k in dict
    ensures Only(dict, s - (keys - {k})) == if k in s then Only(dict, s - keys)[k := dict[k]] else Only(dict, s - keys)
    ensures dict - s - (keys - {k}) == if k in s then dict - s - keys else (dict - s - keys)[k := dict[k]]
  {
  }

  /** The sampling loop of the validators, which stops early once enough nodes are found. */
  method Vote(probs: seq<Prob>, rand: nat -> real, k: nat, p: nat, maxSample: nat) returns (dict: map<Id, nat>, firstNodes: seq<Tally>)
    requires probs != [] && k >= 1
    ensures var v := After(probs, rand, k, p, maxSample); dict == v.dict && MapOf(firstNodes).Keys == v.first
  {
    hide *;
    dict, firstNodes := map[], [];
    ghost var v := Votes(map[], {}, false);
    AfterNone(probs, rand, k, p);
    var i := 0;
    while i < maxSample
      invariant i <= maxSample && v == After(probs, rand, k, p, i) && !v.stopped && dict == v.dict
      invariant MapOf(firstNodes).Keys == v.first && (firstNodes == [] <==> v.first == {})
    {
      var node := Sample1NodesInValNodes(probs, rand(i));
      AfterNext(probs, rand, k, p, i);
      CastMeans(v, node, k, p);
      v := Cast(v, node, k, p);
      dict := dict[node := if node in dict then dict[node] + 1 else 1];
      i := i + 1;
      if |dict| == k + p {
        StoppedStays(probs, rand, k, p, i, maxSample);
        break;
      } else if |dict| == k && |firstNodes| == 0 {
        firstNodes := Walk(dict);
        assert node in dict.Keys;
      }
    }
  }

  lemma AfterNone(probs: seq<Prob>, rand: nat -> real, k: nat, p: nat)
    requires probs != []
    ensures After(probs, rand, k, p, 0) == Votes(map[], {}, false) && MapOf([]).Keys == {}
  {
  }

  lemma AfterNext(probs: seq<Prob>, rand: nat -> real, k: nat, p: nat, n: nat)
    requires probs != [] && !After(probs, rand, k, p, n).stopped
    ensures After(probs, rand, k, p, n + 1) == Cast(After(probs, rand, k, p, n), Sampled(probs, rand(n)), k, p)
  {
  }

  lemma CastMeans(v: Votes, id: Id, k: nat, p: nat)
    ensures Cast(v, id, k, p).dict == v.dict[id := if id in v.dict then v.dict[id] + 1 else 1]
    ensures Cast(v, id, k, p).stopped <==> |Cast(v, id, k, p).dict| == k + p
    ensures Cast(v, id, k, p).first ==
      if !Cast(v, id, k, p).stopped && |Cast(v, id, k, p).dict| == k && v.first == {} then Cast(v, id, k, p).dict.Keys else v.first
  {
  }

  // ----- what an election promises -----

  ghost function Names(list: seq<Tally>): set<Id> { MapOf(list).Keys }

  lemma {:induction false} NamesAre(list: seq<Tally>, x: Id)
    ensures x in Names(list) <==> exists i :: 0 <= i < |list| && list[i].id == x
  {
    if list != [] {
      var rest := list[..|list| - 1];
      NamesAre(rest, x);
      if x in Names(rest) {
        var i :| 0 <= i < |rest| && rest[i].id == x;
        assert list[i].id == x;
      }
      if i :| 0 <= i < |list| && list[i].id == x && i < |rest| { assert rest[i].id == x; }
      assert list[|list| - 1].id in Names(list);
    }
  }

  /** The list keeps the order of the candidates. */
  ghost predicate InOrder(probs: seq<Prob>, list: seq<Tally>) {
    forall a, b :: 0 <= a < b < |list| ==> Follows(probs, list[a].id, list[b].id)
  }

  ghost predicate Follows(probs: seq<Prob>, x: Id, y: Id) {
    exists i, j :: 0 <= i < j < |probs| && probs[i].id == x && probs[j].id == y
  }

  lemma {:induction false} ListedInOrder(probs: seq<Prob>, m: map<Id, int>)
    ensures InOrder(probs, Listed(probs, m))
  {
    if probs != [] {
      var rest, last := probs[..|probs| - 1], |probs| - 1;
      ListedInOrder(rest, m);
      var list, less := Listed(probs, m), Listed(rest, m);
      forall a, b | 0 <= a < b < |list| ensures Follows(probs, list[a].id, list[b].id) {
        if b < |less| {
          assert Follows(rest, less[a].id, less[b].id);
          var i, j :| 0 <= i < j < |rest| && rest[i].id == less[a].id && rest[j].id == less[b].id;
          assert probs[i].id == list[a].id && probs[j].id == list[b].id;
        } else {
          ListedMap(rest, m);
          NamesAre(less, less[a].id);
          assert less[a].id in Ids(rest);
          var i :| 0 <= i < |rest| && rest[i].id == less[a].id;
          assert probs[i].id == list[a].id && probs[last].id == list[b].id;
        }
      }
    }
  }

  /** Lists that share out the candidates, each keeping their order. */
  ghost predicate Shared(probs: seq<Prob>, a: seq<Tally>, b: seq<Tally>, c: seq<Tally>) {
    && Parted(Names(a), Names(b), Names(c), Ids(probs)) && |a| + |b| + |c| == |probs|
    && InOrder(probs, a) && InOrder(probs, b) && InOrder(probs, c)
  }

  lemma {:induction false} IdCount(probs: seq<Prob>)
    requires Distinct(probs)
    ensures |Ids(probs)| == |probs|
  {
    if probs != [] {
      LastIsNew(probs);
      IdCount(probs[..|probs| - 1]);
      IdsMore(probs);
    }
  }

  /** Three sets part a set. */
  ghost predicate Parted(a: set<Id>, b: set<Id>, c: set<Id>, all: set<Id>) {
    a + b + c == all && a !! b && a !! c && b !! c
  }

  lemma PartedTwo(a: set<Id>, b: set<Id>, all: set<Id>)
    requires a + b == all && a !! b
    ensures Parted(a, b, {}, all) && Parted(a, {}, b, all)
  {
  }

  lemma PartedThree(a: set<Id>, b: set<Id>, ab: set<Id>, all: set<Id>)
    requires b == ab - a && a <= ab <= all
    ensures Parted(a, b, all - ab, all)
  {
  }

  lemma PartedSizes(a: set<Id>, b: set<Id>, c: set<Id>, all: set<Id>)
    requires Parted(a, b, c, all)
    ensures a <= all && b <= all && c <= all && |a| + |b| + |c| == |all|
  {
    assert |a + b| == |a| + |b|;
    assert |(a + b) + c| == |a + b| + |c|;
  }

  /** Maps that part the candidates give lists that share them out. */
  lemma SharedBy(probs: seq<Prob>, ma: map<Id, int>, mb: map<Id, int>, mc: map<Id, int>)
    requires Distinct(probs) && Parted(ma.Keys, mb.Keys, mc.Keys, Ids(probs))
    ensures Shared(probs, Listed(probs, ma), Listed(probs, mb), Listed(probs, mc))
    ensures |Listed(probs, ma)| == |ma.Keys| && |Listed(probs, mb)| == |mb.Keys|
  {
    hide *;
    PartedSizes(ma.Keys, mb.Keys, mc.Keys, Ids(probs));
    ListedFacts(probs, ma);
    ListedFacts(probs, mb);
    ListedFacts(probs, mc);
    IdCount(probs);
    SharedIs(probs, Listed(probs, ma), Listed(probs, mb), Listed(probs, mc));
  }

  lemma SharedIs(probs: seq<Prob>, a: seq<Tally>, b: seq<Tally>, c: seq<Tally>)
    requires Parted(Names(a), Names(b), Names(c), Ids(probs)) && |a| + |b| + |c| == |probs|
    requires InOrder(probs, a) && InOrder(probs, b) && InOrder(probs, c)
    ensures Shared(probs, a, b, c)
  {
  }

  lemma ListedFacts(probs: seq<Prob>, m: map<Id, int>)
    requires Distinct(probs) && m.Keys <= Ids(probs)
    ensures Names(Listed(probs, m)) == m.Keys && |Listed(probs, m)| == |m.Keys| && InOrder(probs, Listed(probs, m))
  {
    ListedMap(probs, m);
    ListedSize(probs, m);
    ListedInOrder(probs, m);
    assert m.Keys * Ids(probs) == m.Keys;
  }

  /** Validators: at most `k` principals and `p` backups, and no backup before there are
      `k` principals. */
  ghost predicate Well(probs: seq<Prob>, s: Seats, k: nat, p: nat) {
    && Shared(probs, s.principal, s.backup, s.remaining)
    && |s.principal| <= k && |s.backup| <= p && (s.backup != [] ==> |s.principal| == k)
  }

  lemma WellBy(probs: seq<Prob>, ma: map<Id, int>, mb: map<Id, int>, mc: map<Id, int>, k: nat, p: nat)
    requires Distinct(probs) && Parted(ma.Keys, mb.Keys, mc.Keys, Ids(probs))
    requires |ma.Keys| <= k && |mb.Keys| <= p && (mb.Keys != {} ==> |ma.Keys| == k)
    ensures Well(probs, Seats(Listed(probs, ma), Listed(probs, mb), Listed(probs, mc)), k, p)
  {
    hide *;
    SharedBy(probs, ma, mb, mc);
    WellIs(probs, Listed(probs, ma), Listed(probs, mb), Listed(probs, mc), k, p);
  }

  lemma WellIs(probs: seq<Prob>, a: seq<Tally>, b: seq<Tally>, c: seq<Tally>, k: nat, p: nat)
    requires Shared(probs, a, b, c) && |a| <= k && |b| <= p && (b != [] ==> |a| == k)
    ensures Well(probs, Seats(a, b, c), k, p)
  {
  }

  lemma AllWell(probs: seq<Prob>, k: nat, p: nat)
    requires Distinct(probs) && |probs| <= k
    ensures Well(probs, Seats(Others(probs, {}, 100.0), [], []), k, p)
  {
    hide *;
    ListedNone(probs);
    OthersListed(probs, {}, 100.0);
    OthersKeys(probs, {}, 100.0);
    IdCount(probs);
    PartedTwo(Ids(probs), {}, Ids(probs));
    assert Ids(probs) - {} == Ids(probs);
    var none: map<Id, int> := map[];
    assert none.Keys == {};
    WellBy(probs, MapOf(Others(probs, {}, 100.0)), none, none, k, p);
  }

  lemma FewWell(probs: seq<Prob>, dict: map<Id, nat>, k: nat, p: nat)
    requires Distinct(probs) && dict.Keys <= Ids(probs) && |dict.Keys| <= k
    ensures Well(probs, Seats(Listed(probs, dict), [], Others(probs, dict.Keys, 1.0)), k, p)
  {
    hide *;
    ListedNone(probs);
    OthersListed(probs, dict.Keys, 1.0);
    OthersKeys(probs, dict.Keys, 1.0);
    PartedTwo(dict.Keys, Ids(probs) - dict.Keys, Ids(probs));
    var none: map<Id, int> := map[];
    assert none.Keys == {};
    WellBy(probs, dict, none, MapOf(Others(probs, dict.Keys, 1.0)), k, p);
  }

  lemma ManyWell(probs: seq<Prob>, dict: map<Id, nat>, first: set<Id>, k: nat, p: nat)
    requires Distinct(probs) && dict.Keys <= Ids(probs) && first <= dict.Keys && |first| == k && |dict.Keys| <= k + p
    ensures Well(probs, Seats(Listed(probs, Only(dict, first)), Listed(probs, dict - first), Others(probs, dict.Keys, 1.0)), k, p)
  {
    hide *;
    OthersListed(probs, dict.Keys, 1.0);
    OthersKeys(probs, dict.Keys, 1.0);
    OnlyKeys(dict, first);
    PartedThree(first, dict.Keys - first, dict.Keys, Ids(probs));
    WellBy(probs, Only(dict, first), dict - first, MapOf(Others(probs, dict.Keys, 1.0)), k, p);
  }

  lemma SeatedWell(probs: seq<Prob>, v: Votes, k: nat, p: nat)
    requires Distinct(probs) && Orderly(probs, v, k, p) && k >= 1
    ensures Well(probs, Seated(probs, v, k), k, p)
  {
    hide *;
    SeatedIs(probs, v, k);
    OrderlyMeans(probs, v, k, p);
    if |probs| <= k {
      AllWell(probs, k, p);
    } else if |v.dict| <= k {
      FewWell(probs, v.dict, k, p);
    } else {
      ManyWell(probs, v.dict, v.first, k, p);
    }
  }

  lemma SeatedIs(probs: seq<Prob>, v: Votes, k: nat)
    ensures Seated(probs, v, k) ==
      if |probs| <= k then Seats(Others(probs, {}, 100.0), [], [])
      else if |v.dict| <= k then Seats(Listed(probs, v.dict), [], Others(probs, v.dict.Keys, 1.0))
      else Seats(Listed(probs, Only(v.dict, v.first)), Listed(probs, v.dict - v.first), Others(probs, v.dict.Keys, 1.0))
  {
  }

  lemma OrderlyMeans(probs: seq<Prob>, v: Votes, k: nat, p: nat)
    requires Orderly(probs, v, k, p)
    ensures v.dict.Keys <= Ids(probs) && v.first <= v.dict.Keys && |v.dict| == |v.dict.Keys| <= k + p
    ensures |v.dict| > k ==> |v.first| == k
  {
  }

  lemma OnlyKeys(dict: map<Id, nat>, s: set<Id>)
    requires s <= dict.Keys
    ensures Only(dict, s).Keys == s && (dict - s).Keys == dict.Keys - s && |dict.Keys - s| == |dict.Keys| - |s|
  {
    assert dict.Keys == s + (dict.Keys - s);
  }

  lemma {:induction false} ListedNone(probs: seq<Prob>)
    ensures Listed(probs, map[]) == []
  {
    if probs != [] { ListedNone(probs[..|probs| - 1]); }
  }

  /** The miners elected: those with votes, filled up from the front of the others. */
  function Mined(probs: seq<Prob>, dict: map<Id, nat>, n: nat): Seats {
    if |probs| <= n then Seats(Others(probs, {}, 100.0), [], [])
    else
      var voted, others := Listed(probs, dict), Others(probs, dict.Keys, 1.0);
      var more := if |voted| < n && n - |voted| <= |others| then n - |voted| else 0;
      var principal := MapOf(voted + others[..more]);
      Seats(Listed(probs, principal), Listed(probs, MapOf(others[more..]) - principal.Keys), [])
  }

  class Elector {
    var maxSample: nat
    var J: int
    var M: int
    var P: nat
    var N: int

    constructor ()
      ensures maxSample == 1000 && J == 0 && M == 11 && P == 5 && N == 21
    {
      maxSample, J, M, P, N := 1000, 0, 11, 5, 21;
    }

    /** SampleMPlusPNodes: the outcome depends on candidates and samples only, shares out
        the candidates in their order, and fills the principals first. */
    method SampleMPlusPNodes(probs: seq<Prob>, rand: nat -> real) returns (s: Seats)
      requires Distinct(probs) && M - J >= 1
      ensures s == Seated(probs, VotesOf(probs, rand, M - J, P, maxSample), M - J)
      ensures Well(probs, s, M - J, P)
    {
      hide *;
      var k: nat := M - J;
      ghost var v := VotesOf(probs, rand, k, P, maxSample);
      VotesOrderly(probs, rand, k, P, maxSample);
      SeatedWell(probs, v, k, P);
      SeatedIs(probs, v, k);
      if |probs| <= k {
        var principal := All(probs);
        var a, b, c := SortFunc(probs, principal, [], []);
        NoTally(probs, MapOf(principal).Keys);
        OthersListed(probs, {}, 100.0);
        return Seats(a, b, c);
      }
      VotesAre(probs, rand, k, P, maxSample);
      var dict, firstNodes := Vote(probs, rand, k, P, maxSample);
      OrderlyMeans(probs, v, k, P);
      var voted, remaining := Divide(probs, dict);
      if |dict| <= k {
        var a, b, c := SortFunc(probs, voted, [], remaining);
        NoTally(probs, MapOf(voted).Keys);
        Relisted(probs, dict);
        RestStays(probs, dict, MapOf(voted).Keys);
        return Seats(a, b, c);
      }
      var principal, backup := Part(dict, firstNodes);
      var a, b, c := SortFunc(probs, principal, backup, remaining);
      OnlyKeys(dict, v.first);
      RestStays(probs, dict, MapOf(principal).Keys);
      assert dict - v.first - v.first == dict - v.first;
      return Seats(a, b, c);
    }

    /** SampleMinerNodes. As many principals as asked for or as there are: unless none are
        asked for, or fewer, when each node sampled becomes one nonetheless. Sampling from
        no candidates, which only a negative number leads to, panics (`ok` is false). */
    method SampleMinerNodes(probs: seq<Prob>, rand: nat -> real, ms: int) returns (ok: bool, principal: seq<Tally>, backup: seq<Tally>)
      requires Distinct(probs)
      modifies this`N
      ensures N == ms && (ok <==> ms >= 0 || probs != [] || maxSample == 0)
      ensures var n := AtLeastZero(ms); var s := Mined(probs, VotesOf(probs, rand, n, 0, maxSample).dict, n);
        ok ==> principal == s.principal && backup == s.backup
      ensures ok ==> Shared(probs, principal, backup, [])
      ensures var n := AtLeastZero(ms);
        ok ==> (|principal| == (if n < |probs| then n else |probs|) <==> ms >= 1 || probs == [] || maxSample == 0)
    {
      hide *;
      ok := true;
      N := ms;
      AtLeastZeroIs(ms);
      ghost var n := AtLeastZero(ms);
      MinedWell(probs, rand, n, maxSample);
      if |probs| <= N {
        principal := All(probs);
        backup := [];
        MinedAll(probs, VotesOf(probs, rand, n, 0, maxSample).dict, n);
        OthersListed(probs, {}, 100.0);
        NoTally(probs, MapOf(principal).Keys);
      } else if probs == [] {
        MinedAll(probs, VotesOf(probs, rand, n, 0, maxSample).dict, n);
        OthersNone();
        return maxSample == 0, [], [];
      } else {
        VotesAre(probs, rand, n, 0, maxSample);
        var dict := VoteMiners(probs, rand, N, maxSample);
        principal, backup := Divide(probs, dict);
        AfterKeys(probs, rand, n, 0, maxSample);
        DivideSizes(probs, dict);
        if n >= 1 {
          AfterOrderly(probs, rand, n, 0, maxSample);
          OrderlyMeans(probs, After(probs, rand, n, 0, maxSample), n, 0);
        }
        MinedFill(probs, dict, n);
        var lenPM := |principal|;
        assert principal + backup[..0] == principal && backup[0..] == backup;
        if N > lenPM {
          principal := principal + backup[..N - lenPM];
          backup := backup[N - lenPM..];
        }
      }
      var rest;
      principal, backup, rest := SortFunc(probs, principal, backup, []);
    }
  }

  function AtLeastZero(x: int): nat { if x < 0 then 0 else x }

  lemma AtLeastZeroIs(x: int)
    ensures AtLeastZero(x) == if x < 0 then 0 else x
  {
  }

  lemma OthersNone()
    ensures Others([], {}, 100.0) == []
  {
  }

  function VotesOf(probs: seq<Prob>, rand: nat -> real, k: nat, p: nat, maxSample: nat): Votes {
    if probs == [] then Votes(map[], {}, false) else After(probs, rand, k, p, maxSample)
  }

  lemma VotesAre(probs: seq<Prob>, rand: nat -> real, k: nat, p: nat, maxSample: nat)
    requires probs != []
    ensures VotesOf(probs, rand, k, p, maxSample) == After(probs, rand, k, p, maxSample)
  {
  }

  lemma VotesOrderly(probs: seq<Prob>, rand: nat -> real, k: nat, p: nat, maxSample: nat)
    requires k >= 1
    ensures Orderly(probs, VotesOf(probs, rand, k, p, maxSample), k, p)
  {
    if probs != [] { AfterOrderly(probs, rand, k, p, maxSample); }
  }

  lemma NoTally(probs: seq<Prob>, ks: set<Id>)
    ensures Listed(probs, MapOf([]) - ks) == []
  {
    assert MapOf([]) - ks == map[];
    ListedNone(probs);
  }

  lemma Relisted(probs: seq<Prob>, m: map<Id, int>)
    ensures Listed(probs, MapOf(Listed(probs, m))) == Listed(probs, m)
    ensures MapOf(Listed(probs, m)).Keys <= m.Keys
  {
    ListedMap(probs, m);
    ListedSame(probs, MapOf(Listed(probs, m)), m);
  }

  lemma RestStays(probs: seq<Prob>, dict: map<Id, nat>, ks: set<Id>)
    requires Distinct(probs) && ks <= dict.Keys
    ensures Listed(probs, MapOf(Others(probs, dict.Keys, 1.0)) - ks) == Others(probs, dict.Keys, 1.0)
  {
    OthersKeys(probs, dict.Keys, 1.0);
    OthersListed(probs, dict.Keys, 1.0);
    var m := MapOf(Others(probs, dict.Keys, 1.0));
    assert m - ks == m;
  }

  // ----- miners -----

  /** The sampling loop of the miners. */
  method VoteMiners(probs: seq<Prob>, rand: nat -> real, wanted: int, maxSample: nat) returns (dict: map<Id, nat>)
    requires probs != []
    ensures dict == After(probs, rand, AtLeastZero(wanted), 0, maxSample).dict
  {
    hide *;
    ghost var n := AtLeastZero(wanted);
    AtLeastZeroIs(wanted);
    dict := map[];
    ghost var v := Votes(map[], {}, false);
    AfterNone(probs, rand, n, 0);
    var i := 0;
    while i < maxSample
      invariant i <= maxSample && v == After(probs, rand, n, 0, i) && !v.stopped && dict == v.dict
    {
      var node := Sample1NodesInValNodes(probs, rand(i));
      AfterNext(probs, rand, n, 0, i);
      CastMeans(v, node, n, 0);
      v := Cast(v, node, n, 0);
      dict := dict[node := if node in dict then dict[node] + 1 else 1];
      i := i + 1;
      assert node in dict && |dict| > 0;
      if |dict| == wanted {
        StoppedStays(probs, rand, n, 0, i, maxSample);
        break;
      }
    }
  }

  /** Only candidates get votes, and somebody does once a sample was taken. */
  lemma {:induction false} AfterKeys(probs: seq<Prob>, rand: nat -> real, k: nat, p: nat, n: nat)
    requires probs != []
    ensures After(probs, rand, k, p, n).dict.Keys <= Ids(probs) && (n > 0 <==> After(probs, rand, k, p, n).dict != map[])
  {
    hide *;
    AfterNone(probs, rand, k, p);
    if n > 0 {
      AfterKeys(probs, rand, k, p, n - 1);
      var v, id := After(probs, rand, k, p, n - 1), Sampled(probs, rand(n - 1));
      SampledIn(probs, rand(n - 1));
      if v.stopped {
        StoppedStays(probs, rand, k, p, n - 1, n);
        StoppedHas(probs, rand, k, p, n - 1);
      } else {
        AfterNext(probs, rand, k, p, n - 1);
        CastMeans(v, id, k, p);
        assert id in Cast(v, id, k, p).dict;
      }
    }
  }

  lemma SampledIn(probs: seq<Prob>, rand01: real)
    requires probs != []
    ensures Sampled(probs, rand01) in Ids(probs)
  {
  }

  lemma {:induction false} StoppedHas(probs: seq<Prob>, rand: nat -> real, k: nat, p: nat, n: nat)
    requires probs != [] && After(probs, rand, k, p, n).stopped
    ensures After(probs, rand, k, p, n).dict != map[]
  {
    hide *;
    AfterNone(probs, rand, k, p);
    var v, id := After(probs, rand, k, p, n - 1), Sampled(probs, rand(n - 1));
    if v.stopped {
      StoppedHas(probs, rand, k, p, n - 1);
      StoppedStays(probs, rand, k, p, n - 1, n);
    } else {
      AfterNext(probs, rand, k, p, n - 1);
      CastMeans(v, id, k, p);
      assert id in Cast(v, id, k, p).dict;
    }
  }

  lemma {:induction false} NamesConcat(a: seq<Tally>, b: seq<Tally>)
    ensures Names(a + b) == Names(a) + Names(b)
  {
    if b == [] {
      assert a + b == a;
    } else {
      var rest, t := b[..|b| - 1], b[|b| - 1];
      NamesConcat(a, rest);
      assert a + b == (a + rest) + [t];
      MapOfMore(a + rest, t);
    }
  }

  ghost predicate Different(list: seq<Tally>) {
    forall a, b :: 0 <= a < b < |list| ==> list[a].id != list[b].id
  }

  lemma InOrderDifferent(probs: seq<Prob>, list: seq<Tally>)
    requires Distinct(probs) && InOrder(probs, list)
    ensures Different(list)
  {
    forall a, b | 0 <= a < b < |list| ensures list[a].id != list[b].id { assert Follows(probs, list[a].id, list[b].id); }
  }

  lemma {:induction false} NamesCount(list: seq<Tally>)
    requires Different(list)
    ensures |Names(list)| == |list|
  {
    if list != [] {
      var rest, t := list[..|list| - 1], list[|list| - 1];
      NamesCount(rest);
      NamesAre(rest, t.id);
    }
  }

  lemma NamesSplit(list: seq<Tally>, m: nat)
    requires Different(list) && m <= |list|
    ensures Names(list[..m]) + Names(list[m..]) == Names(list) && Names(list[..m]) !! Names(list[m..]) && |Names(list[..m])| == m
  {
    assert list == list[..m] + list[m..];
    NamesConcat(list[..m], list[m..]);
    NamesCount(list[..m]);
    forall x | x in Names(list[..m]) ensures x !in Names(list[m..]) {
      NamesAre(list[..m], x);
      NamesAre(list[m..], x);
    }
  }

  /** Candidates with votes and the others make up all candidates. */
  lemma DivideSizes(probs: seq<Prob>, dict: map<Id, nat>)
    requires Distinct(probs) && dict.Keys <= Ids(probs)
    ensures |Listed(probs, dict)| == |dict.Keys| && |Others(probs, dict.Keys, 1.0)| == |probs| - |dict.Keys|
    ensures Names(Listed(probs, dict)) == dict.Keys && Names(Others(probs, dict.Keys, 1.0)) == Ids(probs) - dict.Keys
    ensures Different(Others(probs, dict.Keys, 1.0))
  {
    hide *;
    var others := Others(probs, dict.Keys, 1.0);
    ListedFacts(probs, dict);
    OthersKeys(probs, dict.Keys, 1.0);
    OthersListed(probs, dict.Keys, 1.0);
    ListedFacts(probs, MapOf(others));
    NamesMean(others);
    InOrderDifferent(probs, others);
    IdCount(probs);
    PartedTwo(dict.Keys, Ids(probs) - dict.Keys, Ids(probs));
    PartedSizes(dict.Keys, Ids(probs) - dict.Keys, {}, Ids(probs));
  }

  lemma MinedAll(probs: seq<Prob>, dict: map<Id, nat>, n: nat)
    requires |probs| <= n
    ensures Mined(probs, dict, n) == Seats(Others(probs, {}, 100.0), [], [])
  {
  }

  lemma MinedFill(probs: seq<Prob>, dict: map<Id, nat>, n: nat)
    requires |probs| > n && (n >= 1 ==> |Listed(probs, dict)| <= n) && |Others(probs, dict.Keys, 1.0)| == |probs| - |Listed(probs, dict)|
    ensures (if |Listed(probs, dict)| < n then n - |Listed(probs, dict)| else 0) <= |Others(probs, dict.Keys, 1.0)|
    ensures var voted, others := Listed(probs, dict), Others(probs, dict.Keys, 1.0); var more := if |voted| < n then n - |voted| else 0;
      Mined(probs, dict, n) == Seats(Listed(probs, MapOf(voted + others[..more])), Listed(probs, MapOf(others[more..]) - MapOf(voted + others[..more]).Keys), [])
  {
  }

  /** The lists share out the candidates; there are as many principals as were voted for
      and filled in. */
  lemma Filled(probs: seq<Prob>, dict: map<Id, nat>, more: nat)
    requires Distinct(probs) && dict.Keys <= Ids(probs) && more <= |Others(probs, dict.Keys, 1.0)|
    ensures var voted, others := Listed(probs, dict), Others(probs, dict.Keys, 1.0);
      var principal := MapOf(voted + others[..more]); var a, b := Listed(probs, principal), Listed(probs, MapOf(others[more..]) - principal.Keys);
      Shared(probs, a, b, []) && |a| == |dict.Keys| + more
  {
    hide *;
    var voted, others := Listed(probs, dict), Others(probs, dict.Keys, 1.0);
    DivideSizes(probs, dict);
    NamesSplit(others, more);
    NamesConcat(voted, others[..more]);
    NamesMean(voted + others[..more]);
    NamesMean(others[more..]);
    SharedTwo(probs, MapOf(voted + others[..more]), MapOf(others[more..]), dict.Keys, Names(others[..more]));
  }

  lemma Unaffected(m: map<Id, int>, ks: set<Id>)
    requires m.Keys !! ks
    ensures m - ks == m
  {
  }

  lemma SharedTwo(probs: seq<Prob>, pm: map<Id, int>, bm: map<Id, int>, a: set<Id>, b: set<Id>)
    requires Distinct(probs) && pm.Keys == a + b && a !! b && bm.Keys !! pm.Keys && pm.Keys + bm.Keys == Ids(probs)
    ensures Shared(probs, Listed(probs, pm), Listed(probs, bm - pm.Keys), []) && |Listed(probs, pm)| == |a| + |b|
  {
    hide *;
    Unaffected(bm, pm.Keys);
    PartedTwo(a, b, pm.Keys);
    PartedSizes(a, b, {}, pm.Keys);
    ListedNone(probs);
    PartedTwo(pm.Keys, bm.Keys, Ids(probs));
    var none: map<Id, int> := map[];
    assert none.Keys == {};
    SharedBy(probs, pm, bm, none);
  }

  lemma NamesMean(list: seq<Tally>)
    ensures Names(list) == MapOf(list).Keys
  {
  }

  lemma MinedWell(probs: seq<Prob>, rand: nat -> real, n: nat, maxSample: nat)
    requires Distinct(probs)
    ensures var s := Mined(probs, VotesOf(probs, rand, n, 0, maxSample).dict, n);
      Shared(probs, s.principal, s.backup, []) &&
      (|s.principal| == (if n < |probs| then n else |probs|) <==> n >= 1 || probs == [] || maxSample == 0)
  {
    hide *;
    var dict := VotesOf(probs, rand, n, 0, maxSample).dict;
    if |probs| <= n {
      MinedAll(probs, dict, n);
      AllShared(probs);
    } else {
      VotesAre(probs, rand, n, 0, maxSample);
      AfterKeys(probs, rand, n, 0, maxSample);
      DivideSizes(probs, dict);
      if n >= 1 {
        AfterOrderly(probs, rand, n, 0, maxSample);
        OrderlyMeans(probs, After(probs, rand, n, 0, maxSample), n, 0);
      }
      MinedFill(probs, dict, n);
      Filled(probs, dict, if |dict.Keys| < n then n - |dict.Keys| else 0);
      assert dict == map[] <==> dict.Keys == {};
    }
  }

  lemma AllShared(probs: seq<Prob>)
    requires Distinct(probs)
    ensures Shared(probs, Others(probs, {}, 100.0), [], []) && |Others(probs, {}, 100.0)| == |probs|
  {
    hide *;
    OthersListed(probs, {}, 100.0);
    OthersKeys(probs, {}, 100.0);
    ListedNone(probs);
    IdCount(probs);
    var all := MapOf(Others(probs, {}, 100.0));
    assert all.Keys == Ids(probs);
    PartedTwo(all.Keys, {}, Ids(probs));
    var none: map<Id, int> := map[];
    assert none.Keys == {};
    SharedBy(probs, all, none, none);
  }

  /** Asked for no miners, the election still seats some: any candidates, any number of
      samples, NewEle's 1000 among them. */
  lemma NoneAskedSomeSeated(probs: seq<Prob>, rand: nat -> real, maxSample: nat)
    requires Distinct(probs) && probs != [] && maxSample > 0
    ensures Mined(probs, VotesOf(probs, rand, 0, 0, maxSample).dict, 0).principal != []
  {
    MinedWell(probs, rand, 0, maxSample);
  }
}
