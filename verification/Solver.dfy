// What the best-response solver has found out so far: cached node values and solved groups.
module Solver {
  import opened Sums
  import opened BestResponse

  datatype Option<T> = None | Some(value: T)

  // One entry per information set; its nodes form a chain through the next fields.
  datatype Group = Group(key: Key, player: Player, first: nat, count: nat)
  datatype GroupState = Idle | Solving | Solved(selected: nat)

  // The snapshot that building leaves behind. It does not change while it is being solved.
  datatype Snapshot = Snapshot(flat: Flat, next: seq<Option<nat>>, groups: seq<Group>, table: map<Key, nat>)

  // Node i is a member of group g.
  predicate InGroup(s: Snapshot, g: nat, i: nat)
    requires g < |s.groups| && i < |s.flat.nodes|
  {
    s.flat.nodes[i].kind == Decision(s.groups[g].player, s.groups[g].key)
  }

  // A chain visits the members of its group from the last to the first.
  ghost predicate Precedes(s: Snapshot, g: nat, link: Option<nat>, bound: nat)
    requires g < |s.groups| && bound <= |s.flat.nodes|
  {
    match link
    case None => forall j: nat :: j < bound ==> !InGroup(s, g, j)
    case Some(i) => i < bound && InGroup(s, g, i) && forall j: nat :: i < j < bound ==> !InGroup(s, g, j)
  }

  ghost predicate GroupOk(s: Snapshot, g: nat)
    requires g < |s.groups|
  {
    var group := s.groups[g];
    && group.key in s.table && s.table[group.key] == g
    && Precedes(s, g, Some(group.first), |s.flat.nodes|)
  }

  ghost predicate NodeOk(s: Snapshot, i: nat)
    requires i < |s.flat.nodes| == |s.next|
  {
    var n := s.flat.nodes[i];
    n.kind.Decision? ==>
      && n.kind.key in s.table && s.table[n.kind.key] < |s.groups|
      && var g := s.table[n.kind.key];
      && InGroup(s, g, i)
      && n.count == s.groups[g].count
      && Precedes(s, g, s.next[i], i)
  }

  ghost predicate Indexed(s: Snapshot) {
    && |s.next| == |s.flat.nodes|
    && (forall g: nat :: g < |s.groups| ==> GroupOk(s, g))
    && (forall i: nat :: i < |s.flat.nodes| ==> NodeOk(s, i))
  }

  function Filled(cache: seq<Option<real>>): (v: seq<real>)
    ensures |v| == |cache|
  {
    seq(|cache|, (i: nat) requires i < |cache| => if cache[i].Some? then cache[i].value else 0.0)
  }

  // Any strategy will do where the responder does not move.
  function Anything(): Strategy {
    (k: Key, a: nat) => 0.0
  }

  ghost predicate KidsCached(s: Flat, cache: seq<Option<real>>, i: nat)
    requires Linked(s) && i < |s.nodes| == |cache|
  {
    forall a: nat :: a < s.nodes[i].count ==> cache[Kid(s, i, a)].Some?
  }

  // A cached value is right, given the values below it.
  ghost predicate CacheAt(s: Snapshot, r: Player, cache: seq<Option<real>>, states: seq<GroupState>, i: nat)
    requires Linked(s.flat) && Indexed(s) && i < |s.flat.nodes| == |cache| && |states| == |s.groups|
  {
    cache[i].Some? ==>
      if Own(s.flat, r, i) then
        assert NodeOk(s, i);
        var g := s.table[s.flat.nodes[i].kind.key];
        && states[g].Solved?
        && states[g].selected < s.flat.nodes[i].count
        && cache[Kid(s.flat, i, states[g].selected)] == cache[i]
      else
        && KidsCached(s.flat, cache, i)
        && cache[i].value == Backup(s.flat, r, Anything(), Filled(cache), i)
  }

  // The selected action is the first of those with the largest total.
  ghost predicate BestOf(s: Snapshot, r: Player, cache: seq<Option<real>>, g: nat, best: nat, n: nat)
    requires Linked(s.flat) && g < |s.groups| && |s.flat.nodes| == |cache|
  {
    && best < n
    && (forall a: nat :: a < n ==> TotalOf(s, r, cache, g, a) <= TotalOf(s, r, cache, g, best))
    && (forall a: nat :: a < best ==> TotalOf(s, r, cache, g, a) < TotalOf(s, r, cache, g, best))
  }

  function TotalOf(s: Snapshot, r: Player, cache: seq<Option<real>>, g: nat, a: nat): real
    requires Linked(s.flat) && g < |s.groups| && |s.flat.nodes| == |cache|
  {
    Total(s.flat, r, Filled(cache), s.groups[g].key, a)
  }

  // Every member's child under action a has a value.
  ghost predicate ActionCached(s: Snapshot, cache: seq<Option<real>>, g: nat, a: nat)
    requires Linked(s.flat) && g < |s.groups| && |s.flat.nodes| == |cache|
  {
    forall j: nat :: j < |cache| && InGroup(s, g, j) && a < s.flat.nodes[j].count ==> cache[Kid(s.flat, j, a)].Some?
  }

  ghost predicate SolvedAt(s: Snapshot, r: Player, cache: seq<Option<real>>, states: seq<GroupState>, g: nat)
    requires Linked(s.flat) && g < |s.groups| == |states| && |s.flat.nodes| == |cache|
  {
    s.groups[g].player == r && states[g].Solved? ==>
      && (forall a: nat :: a < s.groups[g].count ==> ActionCached(s, cache, g, a))
      && BestOf(s, r, cache, g, states[g].selected, s.groups[g].count)
  }

  ghost predicate Sound(s: Snapshot, r: Player, cache: seq<Option<real>>, states: seq<GroupState>) {
    && Linked(s.flat) && Indexed(s)
    && |cache| == |s.flat.nodes| && |states| == |s.groups|
    && (forall i: nat :: i < |cache| ==> CacheAt(s, r, cache, states, i))
    && (forall g: nat :: g < |states| ==> SolvedAt(s, r, cache, states, g))
  }

  ghost predicate Grows(cache: seq<Option<real>>, cache': seq<Option<real>>) {
    && |cache| == |cache'|
    && forall i: nat :: i < |cache| && cache[i].Some? ==> cache'[i] == cache[i]
  }

  // Totals and expectations over cached children do not change as the cache grows.
  lemma TotalGrows(s: Snapshot, r: Player, cache: seq<Option<real>>, cache': seq<Option<real>>, g: nat, a: nat)
    requires Linked(s.flat) && g < |s.groups| && |s.flat.nodes| == |cache| && s.groups[g].player == r
    requires Grows(cache, cache') && ActionCached(s, cache, g, a)
    ensures ActionCached(s, cache', g, a)
    ensures TotalOf(s, r, cache', g, a) == TotalOf(s, r, cache, g, a)
  {
    var f, f' := Share(s.flat, r, Filled(cache), s.groups[g].key, a), Share(s.flat, r, Filled(cache'), s.groups[g].key, a);
    forall j: nat | j < |cache| ensures f(j) == f'(j) {
      if Member(s.flat, r, s.groups[g].key, j) && a < s.flat.nodes[j].count {
        assert InGroup(s, g, j);
        assert Filled(cache)[Kid(s.flat, j, a)] == Filled(cache')[Kid(s.flat, j, a)];
      }
    }
    SumExt(f, f', 0, |cache|);
  }

  lemma BackedGrows(s: Flat, r: Player, cache: seq<Option<real>>, cache': seq<Option<real>>, i: nat, n: nat)
    requires Linked(s) && i < |s.nodes| == |cache| && n <= s.nodes[i].count
    requires Grows(cache, cache')
    requires forall a: nat :: a < n ==> cache[Kid(s, i, a)].Some?
    ensures Sum(Backed(s, r, Anything(), Filled(cache), i), 0, n) == Sum(Backed(s, r, Anything(), Filled(cache'), i), 0, n)
  {
    var f, f' := Backed(s, r, Anything(), Filled(cache), i), Backed(s, r, Anything(), Filled(cache'), i);
    forall a: nat | a < n ensures f(a) == f'(a) {
      assert Filled(cache)[Kid(s, i, a)] == Filled(cache')[Kid(s, i, a)];
    }
    SumExt(f, f', 0, n);
  }

  lemma CacheAtGrows(s: Snapshot, r: Player, cache: seq<Option<real>>, cache': seq<Option<real>>, states: seq<GroupState>, i: nat)
    requires Sound(s, r, cache, states) && Grows(cache, cache') && i < |cache| && cache'[i] == cache[i]
    ensures CacheAt(s, r, cache', states, i)
  {
    assert CacheAt(s, r, cache, states, i) && NodeOk(s, i);
    if cache[i].Some? && !Own(s.flat, r, i) {
      BackedGrows(s.flat, r, cache, cache', i, s.flat.nodes[i].count);
    }
  }

  lemma SolvedAtGrows(s: Snapshot, r: Player, cache: seq<Option<real>>, cache': seq<Option<real>>, states: seq<GroupState>, g: nat)
    requires Sound(s, r, cache, states) && Grows(cache, cache') && g < |states|
    ensures SolvedAt(s, r, cache', states, g)
  {
    assert SolvedAt(s, r, cache, states, g);
    if s.groups[g].player == r && states[g].Solved? {
      forall a: nat | a < s.groups[g].count
        ensures ActionCached(s, cache', g, a) && TotalOf(s, r, cache', g, a) == TotalOf(s, r, cache, g, a)
      {
        assert ActionCached(s, cache, g, a);
        TotalGrows(s, r, cache, cache', g, a);
      }
    }
  }

  // Caching one more right value keeps everything right.
  lemma CacheOne(s: Snapshot, r: Player, cache: seq<Option<real>>, states: seq<GroupState>, i: nat, x: real)
    requires Sound(s, r, cache, states) && i < |cache| && cache[i].None?
    requires CacheAt(s, r, cache[i := Some(x)], states, i)
    ensures Sound(s, r, cache[i := Some(x)], states)
  {
    var cache' := cache[i := Some(x)];
    forall j: nat | j < |cache| ensures CacheAt(s, r, cache', states, j) {
      if j != i {
        CacheAtGrows(s, r, cache, cache', states, j);
      }
    }
    forall g: nat | g < |states| ensures SolvedAt(s, r, cache', states, g) {
      SolvedAtGrows(s, r, cache, cache', states, g);
    }
  }

  // The expectation over cached children is right for their parent.
  lemma ExpectationIsRight(s: Snapshot, r: Player, cache: seq<Option<real>>, states: seq<GroupState>, i: nat, x: real)
    requires Linked(s.flat) && Indexed(s) && i < |s.flat.nodes| == |cache| && |states| == |s.groups|
    requires !Own(s.flat, r, i) && KidsCached(s.flat, cache, i)
    requires x == Backup(s.flat, r, Anything(), Filled(cache), i)
    ensures CacheAt(s, r, cache[i := Some(x)], states, i)
  {
    var cache' := cache[i := Some(x)];
    var f, f' := Backed(s.flat, r, Anything(), Filled(cache), i), Backed(s.flat, r, Anything(), Filled(cache'), i);
    forall a: nat | a < s.flat.nodes[i].count ensures f(a) == f'(a) {
      assert Kid(s.flat, i, a) != i;
    }
    SumExt(f, f', 0, s.flat.nodes[i].count);
  }

  // Following a selected edge to a cached child is right for the node.
  lemma SelectionIsRight(s: Snapshot, r: Player, cache: seq<Option<real>>, states: seq<GroupState>, i: nat, g: nat, x: real)
    requires Linked(s.flat) && Indexed(s) && i < |s.flat.nodes| == |cache| && |states| == |s.groups|
    requires Own(s.flat, r, i) && g < |states| && states[g].Solved? && states[g].selected < s.flat.nodes[i].count
    requires NodeOk(s, i) && g == s.table[s.flat.nodes[i].kind.key]
    requires cache[Kid(s.flat, i, states[g].selected)] == Some(x)
    ensures CacheAt(s, r, cache[i := Some(x)], states, i)
  {
  }

  // The first n children of i have values, and the given expectation so far.
  ghost predicate Expecting(s: Flat, r: Player, cache: seq<Option<real>>, i: nat, n: nat, x: real)
    requires Linked(s) && i < |s.nodes| == |cache| && n <= s.nodes[i].count
  {
    && (forall a: nat :: a < n ==> cache[Kid(s, i, a)].Some?)
    && x == Sum(Backed(s, r, Anything(), Filled(cache), i), 0, n)
  }

  lemma ExpectOne(s: Flat, r: Player, cache: seq<Option<real>>, cache': seq<Option<real>>, i: nat, n: nat, x: real, y: real)
    requires Linked(s) && i < |s.nodes| == |cache| && n < s.nodes[i].count && !Own(s, r, i)
    requires Expecting(s, r, cache, i, n, x) && Grows(cache, cache') && cache'[Kid(s, i, n)] == Some(y)
    ensures Expecting(s, r, cache', i, n + 1, x + Probability(s, i, n) * y)
  {
    BackedGrows(s, r, cache, cache', i, n);
    assert Backed(s, r, Anything(), Filled(cache'), i)(n) == Probability(s, i, n) * y;
  }

  // The members seen so far, those from bound on, have cached children and the given total.
  ghost predicate Tallied(s: Snapshot, r: Player, cache: seq<Option<real>>, g: nat, a: nat, bound: nat, total: real)
    requires Linked(s.flat) && g < |s.groups| && bound <= |s.flat.nodes| == |cache|
  {
    && (forall j: nat :: bound <= j < |cache| && InGroup(s, g, j) && a < s.flat.nodes[j].count ==> cache[Kid(s.flat, j, a)].Some?)
    && total == Sum(Share(s.flat, r, Filled(cache), s.groups[g].key, a), bound, |cache|)
  }

  lemma TalliedGrows(s: Snapshot, r: Player, cache: seq<Option<real>>, cache': seq<Option<real>>, g: nat, a: nat, bound: nat, total: real)
    requires Linked(s.flat) && g < |s.groups| && bound <= |s.flat.nodes| == |cache| && s.groups[g].player == r
    requires Tallied(s, r, cache, g, a, bound, total) && Grows(cache, cache')
    ensures Tallied(s, r, cache', g, a, bound, total)
  {
    var f, f' := Share(s.flat, r, Filled(cache), s.groups[g].key, a), Share(s.flat, r, Filled(cache'), s.groups[g].key, a);
    forall j: nat | bound <= j < |cache| ensures f(j) == f'(j) {
      if Member(s.flat, r, s.groups[g].key, j) && a < s.flat.nodes[j].count {
        assert InGroup(s, g, j);
        assert Filled(cache)[Kid(s.flat, j, a)] == Filled(cache')[Kid(s.flat, j, a)];
      }
    }
    SumExt(f, f', bound, |cache|);
  }

  lemma SumFrom(f: nat -> real, c: nat, bound: nat, n: nat)
    requires c < bound <= n
    requires forall j: nat :: c < j < bound ==> f(j) == 0.0
    ensures Sum(f, c, n) == f(c) + Sum(f, bound, n)
  {
    SumSplit(f, c, c + 1, n);
    SumSplit(f, c + 1, bound, n);
    SumZero(f, c + 1, bound);
    assert Sum(f, c, c + 1) == Sum(f, c, c) + f(c);
  }

  lemma ShareOfMember(s: Snapshot, r: Player, cache: seq<Option<real>>, g: nat, a: nat, c: nat)
    requires Linked(s.flat) && g < |s.groups| && |s.flat.nodes| == |cache| && s.groups[g].player == r
    requires c < |cache| && InGroup(s, g, c) && a < s.flat.nodes[c].count && cache[Kid(s.flat, c, a)].Some?
    ensures Share(s.flat, r, Filled(cache), s.groups[g].key, a)(c) == Reach(s.flat, r, c) * cache[Kid(s.flat, c, a)].value
  {
  }

  // Taking in the next member of the chain.
  lemma TallyOne(s: Snapshot, r: Player, cache: seq<Option<real>>, g: nat, a: nat, bound: nat, total: real, c: nat)
    requires Linked(s.flat) && g < |s.groups| && bound <= |s.flat.nodes| == |cache| && s.groups[g].player == r
    requires Tallied(s, r, cache, g, a, bound, total) && Precedes(s, g, Some(c), bound)
    requires a < s.flat.nodes[c].count && cache[Kid(s.flat, c, a)].Some?
    ensures Tallied(s, r, cache, g, a, c, total + Reach(s.flat, r, c) * cache[Kid(s.flat, c, a)].value)
  {
    var f := Share(s.flat, r, Filled(cache), s.groups[g].key, a);
    forall j: nat | c < j < bound ensures f(j) == 0.0 {
      assert !InGroup(s, g, j);
    }
    SumFrom(f, c, bound, |cache|);
    ShareOfMember(s, r, cache, g, a, c);
  }

  lemma TallyNext(s: Snapshot, r: Player, cache: seq<Option<real>>, cache': seq<Option<real>>, g: nat, a: nat, bound: nat, total: real,
                  c: nat, x: real, total': real)
    requires Linked(s.flat) && g < |s.groups| && bound <= |s.flat.nodes| == |cache| && s.groups[g].player == r
    requires Tallied(s, r, cache, g, a, bound, total) && Grows(cache, cache') && Precedes(s, g, Some(c), bound)
    requires a < s.flat.nodes[c].count && cache'[Kid(s.flat, c, a)] == Some(x)
    requires total' == total + Reach(s.flat, r, c) * x
    ensures Tallied(s, r, cache', g, a, c, total')
  {
    TalliedGrows(s, r, cache, cache', g, a, bound, total);
    TallyOne(s, r, cache', g, a, bound, total, c);
  }

  // At the end of the chain the tally is the total.
  lemma TallyDone(s: Snapshot, r: Player, cache: seq<Option<real>>, g: nat, a: nat, bound: nat, total: real)
    requires Linked(s.flat) && g < |s.groups| && bound <= |s.flat.nodes| == |cache| && s.groups[g].player == r
    requires Tallied(s, r, cache, g, a, bound, total) && Precedes(s, g, None, bound)
    ensures ActionCached(s, cache, g, a) && total == TotalOf(s, r, cache, g, a)
  {
    var f := Share(s.flat, r, Filled(cache), s.groups[g].key, a);
    forall j: nat | j < bound ensures f(j) == 0.0 {
      assert !InGroup(s, g, j);
    }
    SumSplit(f, 0, bound, |cache|);
    SumZero(f, 0, bound);
  }

  lemma BestGrows(s: Snapshot, r: Player, cache: seq<Option<real>>, cache': seq<Option<real>>, g: nat, best: nat, n: nat)
    requires Linked(s.flat) && g < |s.groups| && |s.flat.nodes| == |cache| && s.groups[g].player == r
    requires Grows(cache, cache') && forall a: nat :: a < n ==> ActionCached(s, cache, g, a)
    ensures forall a: nat :: a < n ==> ActionCached(s, cache', g, a) && TotalOf(s, r, cache', g, a) == TotalOf(s, r, cache, g, a)
    ensures BestOf(s, r, cache, g, best, n) ==> BestOf(s, r, cache', g, best, n)
  {
    forall a: nat | a < n
      ensures ActionCached(s, cache', g, a) && TotalOf(s, r, cache', g, a) == TotalOf(s, r, cache, g, a)
    {
      TotalGrows(s, r, cache, cache', g, a);
    }
  }

  // What a search over the first n actions has found.
  ghost predicate BestSoFar(s: Snapshot, r: Player, cache: seq<Option<real>>, g: nat, best: nat, n: nat, max: real)
    requires Linked(s.flat) && g < |s.groups| && |s.flat.nodes| == |cache|
  {
    && (forall a: nat :: a < n ==> ActionCached(s, cache, g, a))
    && (n > 0 ==> BestOf(s, r, cache, g, best, n) && max == TotalOf(s, r, cache, g, best))
  }

  // Recomputing a cached value gives the same value.
  lemma CacheAgain(s: Snapshot, r: Player, cache: seq<Option<real>>, states: seq<GroupState>, i: nat, x: real)
    requires Sound(s, r, cache, states) && i < |cache| && cache[i].Some?
    requires CacheAt(s, r, cache[i := Some(x)], states, i)
    ensures cache[i := Some(x)] == cache
  {
    var cache' := cache[i := Some(x)];
    assert CacheAt(s, r, cache, states, i) && NodeOk(s, i);
    if !Own(s.flat, r, i) {
      var f, f' := Backed(s.flat, r, Anything(), Filled(cache), i), Backed(s.flat, r, Anything(), Filled(cache'), i);
      forall a: nat | a < s.flat.nodes[i].count ensures f(a) == f'(a) {
        assert Kid(s.flat, i, a) != i;
      }
      SumExt(f, f', 0, s.flat.nodes[i].count);
    }
  }

  // Changing the state of a group that is not solved keeps everything right, if its new state is.
  lemma ChangeState(s: Snapshot, r: Player, cache: seq<Option<real>>, states: seq<GroupState>, g: nat, state: GroupState)
    requires Sound(s, r, cache, states) && g < |states| && !states[g].Solved?
    requires SolvedAt(s, r, cache, states[g := state], g)
    ensures Sound(s, r, cache, states[g := state])
  {
    var states' := states[g := state];
    forall j: nat | j < |cache| ensures CacheAt(s, r, cache, states', j) {
      assert CacheAt(s, r, cache, states, j) && NodeOk(s, j);
    }
    forall k: nat | k < |states| ensures SolvedAt(s, r, cache, states', k) {
      assert SolvedAt(s, r, cache, states, k);
    }
  }

  // ---- A finished search ----

  function Choices(s: Snapshot, states: seq<GroupState>): map<Key, nat> {
    map k | k in s.table && s.table[k] < |states| && states[s.table[k]].Solved? :: states[s.table[k]].selected
  }

  function Keys(s: Snapshot): (keys: seq<Key>)
    ensures |keys| == |s.groups|
  {
    seq(|s.groups|, (g: nat) requires g < |s.groups| => s.groups[g].key)
  }

  lemma KeysList(s: Snapshot, r: Player)
    requires Indexed(s)
    ensures Lists(s.flat, r, Keys(s))
  {
    forall g: nat, g': nat | g < g' < |s.groups| ensures Keys(s)[g] != Keys(s)[g'] {
      assert GroupOk(s, g) && GroupOk(s, g');
    }
    forall i: nat | i < |s.flat.nodes| && Own(s.flat, r, i) ensures s.flat.nodes[i].kind.key in Keys(s) {
      assert NodeOk(s, i);
      assert Keys(s)[s.table[s.flat.nodes[i].kind.key]] == s.flat.nodes[i].kind.key;
    }
  }

  lemma IndexedSameActions(s: Snapshot)
    requires Indexed(s)
    ensures SameActions(s.flat)
  {
    forall i: nat, j: nat | i < |s.flat.nodes| && j < |s.flat.nodes|
      && s.flat.nodes[i].kind.Decision? && s.flat.nodes[i].kind == s.flat.nodes[j].kind
      ensures s.flat.nodes[i].count == s.flat.nodes[j].count
    {
      assert NodeOk(s, i) && NodeOk(s, j);
    }
  }

  // Once the root has a value, so has every node.
  lemma {:induction false} AllCached(s: Snapshot, r: Player, cache: seq<Option<real>>, states: seq<GroupState>, i: nat)
    requires Preorder(s.flat) && Sound(s, r, cache, states) && cache[0].Some? && i < |cache|
    ensures cache[i].Some?
  {
    if i > 0 {
      var p, a := ParentOf(s.flat, i);
      AllCached(s, r, cache, states, p);
      assert CacheAt(s, r, cache, states, p);
      if Own(s.flat, r, p) {
        assert NodeOk(s, p);
        var g := s.table[s.flat.nodes[p].kind.key];
        assert SolvedAt(s, r, cache, states, g) && ActionCached(s, cache, g, a);
      }
    }
  }

  lemma ValueOfNode(s: Snapshot, r: Player, cache: seq<Option<real>>, states: seq<GroupState>, i: nat)
    requires Sound(s, r, cache, states) && i < |cache| && cache[i].Some?
    ensures ValueAt(s.flat, r, Pure(Choices(s, states)), Filled(cache), i)
  {
    var v, pure := Filled(cache), Pure(Choices(s, states));
    assert CacheAt(s, r, cache, states, i) && NodeOk(s, i);
    if Own(s.flat, r, i) {
      var key := s.flat.nodes[i].kind.key;
      var f, best := Backed(s.flat, r, pure, v, i), states[s.table[key]].selected;
      forall a: nat | a < s.flat.nodes[i].count && a != best ensures f(a) == 0.0 {
        assert Weight(s.flat, r, pure, i, a) == 0.0;
      }
      SumOnly(f, best, 0, s.flat.nodes[i].count);
    } else {
      SumExt(Backed(s.flat, r, pure, v, i), Backed(s.flat, r, Anything(), v, i), 0, s.flat.nodes[i].count);
    }
  }

  // A sound search whose root has a value has solved the whole tree.
  lemma FinishedIsSolved(s: Snapshot, r: Player, cache: seq<Option<real>>, states: seq<GroupState>)
    requires Preorder(s.flat) && Sound(s, r, cache, states) && cache[0].Some?
    ensures BestResponse.Solved(s.flat, r, Filled(cache), Choices(s, states))
  {
    forall i: nat | i < |cache|
      ensures ValueAt(s.flat, r, Pure(Choices(s, states)), Filled(cache), i)
      ensures Chosen(s.flat, r, Filled(cache), Choices(s, states), i)
    {
      AllCached(s, r, cache, states, i);
      ValueOfNode(s, r, cache, states, i);
      assert CacheAt(s, r, cache, states, i) && NodeOk(s, i);
      if Own(s.flat, r, i) {
        var g := s.table[s.flat.nodes[i].kind.key];
        assert SolvedAt(s, r, cache, states, g);
        forall a: nat | a < s.flat.nodes[i].count
          ensures Total(s.flat, r, Filled(cache), s.groups[g].key, a) <= Total(s.flat, r, Filled(cache), s.groups[g].key, states[g].selected)
        {
          assert TotalOf(s, r, cache, g, a) <= TotalOf(s, r, cache, g, states[g].selected);
        }
      }
    }
  }

  // Solving the other player's groups leaves this player's findings right.
  lemma SoundDespiteOther(s: Snapshot, r: Player, cache: seq<Option<real>>, states: seq<GroupState>, states': seq<GroupState>)
    requires Sound(s, r, cache, states) && |states'| == |states|
    requires forall g: nat :: g < |states| && s.groups[g].player == r ==> states'[g] == states[g]
    ensures Sound(s, r, cache, states')
  {
    forall i: nat | i < |cache| ensures CacheAt(s, r, cache, states', i) {
      assert CacheAt(s, r, cache, states, i) && NodeOk(s, i);
    }
    forall g: nat | g < |states| ensures SolvedAt(s, r, cache, states', g) {
      assert SolvedAt(s, r, cache, states, g);
    }
  }

  // Before a search nothing is claimed, so everything claimed is right.
  lemma NothingFound(s: Snapshot, r: Player, cache: seq<Option<real>>, states: seq<GroupState>)
    requires Linked(s.flat) && Indexed(s) && |cache| == |s.flat.nodes| && |states| == |s.groups|
    requires forall i: nat :: i < |cache| ==> cache[i].None?
    requires forall g: nat :: g < |states| ==> states[g].Idle?
    ensures Sound(s, r, cache, states)
  {
  }
}
