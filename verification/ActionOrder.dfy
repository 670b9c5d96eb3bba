// When the order of actions matters: a traversal that keeps snapshots refuses an information set that it meets
// again with another list of actions, and the sequential one may not. Here is exactly when they part.
module ActionOrder {
  import opened ExternalSampling
  import opened SnapshotRefinement
  import Construction
  import Play

  // A visit to an information set, and the actions it offered there.
  datatype Meeting = Meeting(key: Key, actions: seq<Action>)

  type Lists = map<Key, seq<Action>>

  // ---- The meetings of a walk, in order ----

  function Met(mode: Mode, g: Rules, mix: nat -> nat, t: Tree, own: real, s0: State, average: bool): seq<Meeting>
    decreases t, |Kids(t)| + 1
  {
    var s := s0.(visits := Capped(s0.visits));
    match t
    case Leaf(_) => []
    case Nature(_) => MetByChance(mode, g, mix, t, own, s, average)
    case Turn(player, key, branches) =>
      if !Play.PlayerIsValid(g.players, player) || !(1 <= |branches| <= g.maxActions) then [] else MetAt(mode, g, mix, t, own, s, average)
  }

  function MetByChance(mode: Mode, g: Rules, mix: nat -> nat, t: Tree, own: real, s: State, average: bool): seq<Meeting>
    requires t.Nature?
    decreases t, |Kids(t)|, 2
  {
    var odds := OddsOf(t.branches);
    var d := Draw(odds, s.random, mix);
    if !ChanceOk(odds, g.maxActions) || d.status != Construction.Success || odds[d.index] <= 0.0 then [] else
      Met(mode, g, mix, t.branches[d.index].next, own, s.(random := d.random), average)
  }

  function MetAt(mode: Mode, g: Rules, mix: nat -> nat, t: Tree, own: real, s: State, average: bool): seq<Meeting>
    requires t.Turn? && 1 <= |t.branches|
    decreases t, |Kids(t)|, 3
  {
    var l := Look(mode, s, t.key, ActionsOf(t.branches));
    [Meeting(t.key, ActionsOf(t.branches))]
    + if l.status != Construction.Success || |l.p| != |t.branches| then [] else MetBelow(mode, g, mix, t, l.p, own, l.state, average)
  }

  function MetBelow(mode: Mode, g: Rules, mix: nat -> nat, t: Tree, p: seq<real>, own: real, s: State, average: bool): seq<Meeting>
    requires t.Turn? && |p| == |t.branches| && |p| > 0
    decreases t, |Kids(t)|, 2
  {
    if average then MetByAverage(mode, g, mix, t, p, own, s) else
    if t.player == g.target then MetInBranches(mode, g, mix, t, p, own, s, |p|) else MetByOpponent(mode, g, mix, t, p, own, s)
  }

  function MetInBranches(mode: Mode, g: Rules, mix: nat -> nat, t: Tree, p: seq<real>, own: real, s: State, n: nat): seq<Meeting>
    requires t.Turn? && |p| == |t.branches| && n <= |p|
    decreases t, n, 0
  {
    if n == 0 then [] else
      var before := Branches(mode, g, mix, t, p, own, s, n - 1);
      MetInBranches(mode, g, mix, t, p, own, s, n - 1)
      + if before.status != Construction.Success then []
        else Met(mode, g, mix, t.branches[n - 1].next, Weighted(own, p[n - 1]), before.state, false)
  }

  function MetByOpponent(mode: Mode, g: Rules, mix: nat -> nat, t: Tree, p: seq<real>, own: real, s: State): seq<Meeting>
    requires t.Turn? && |p| == |t.branches|
    decreases t, |Kids(t)|, 1
  {
    var a := Sample(mode, s, t.key, ActionsOf(t.branches), p, mix);
    if a.status != Construction.Success || a.index >= |p| || p[a.index] <= 0.0 then [] else
      var s1 := if g.players <= 2 then Add(a.state, t.key, Zeros(|p|), Scaled(1.0, p)) else a.state;
      Met(mode, g, mix, t.branches[a.index].next, own, s1, false)
  }

  function MetByAverage(mode: Mode, g: Rules, mix: nat -> nat, t: Tree, p: seq<real>, weight: real, s: State): seq<Meeting>
    requires t.Turn? && |p| == |t.branches| && |p| > 0
    decreases t, |Kids(t)|, 1
  {
    if t.player == g.target && weight < 0.0 then [] else
      var s1 := if t.player == g.target then Add(s, t.key, Zeros(|p|), Scaled(weight, p)) else s;
      var random := Advance(s1.random);
      var action := Uniform(mix(random), |p|);
      var child := WeightBelow(g, t, p, weight, action);
      if child == 0.0 then [] else Met(mode, g, mix, t.branches[action].next, child, s1.(random := random), true)
  }

  // The meetings of a whole traversal, both passes of it where there are two.
  function Meetings(mode: Mode, g: Rules, mix: nat -> nat, t: Tree, s: State): seq<Meeting> {
    if !CanTraverse(g) then [] else
      var r := Walk(mode, g, mix, t, 1.0, s, false);
      Met(mode, g, mix, t, 1.0, s, false)
      + if r.status != Construction.Success || g.players <= 2 then [] else Met(mode, g, mix, t, 1.0, r.state, true)
  }

  // ---- One list for each information set ----

  ghost predicate SameList(ms: seq<Meeting>, i: nat, j: nat)
    requires i < |ms| && j < |ms|
  {
    ms[i].key == ms[j].key ==> ms[i].actions == ms[j].actions
  }

  // No information set is met with two lists of actions.
  ghost predicate OneListEach(ms: seq<Meeting>) {
    forall i: nat, j: nat :: i < |ms| && j < |ms| ==> SameList(ms, i, j)
  }

  // The same, against lists noted before.
  ghost predicate FitsAt(seen: Lists, ms: seq<Meeting>, i: nat)
    requires i < |ms|
  {
    ms[i].key in seen ==> ms[i].actions == seen[ms[i].key]
  }

  ghost predicate Fits(seen: Lists, ms: seq<Meeting>) {
    OneListEach(ms) && forall i: nat :: i < |ms| ==> FitsAt(seen, ms, i)
  }

  // The first list met of each information set.
  function Noted(seen: Lists, ms: seq<Meeting>): Lists
    decreases |ms|
  {
    if ms == [] then seen else
      var before := Noted(seen, ms[..|ms| - 1]);
      var m := ms[|ms| - 1];
      if m.key in before then before else before[m.key := m.actions]
  }

  lemma {:induction false} NotedIs(seen: Lists, ms: seq<Meeting>, k: Key)
    ensures k in Noted(seen, ms) <==> k in seen || exists i: nat :: i < |ms| && ms[i].key == k
    ensures k in seen ==> Noted(seen, ms)[k] == seen[k]
    ensures k in Noted(seen, ms) && k !in seen ==> exists i: nat :: i < |ms| && ms[i] == Meeting(k, Noted(seen, ms)[k])
    decreases |ms|
  {
    if ms != [] {
      var front := ms[..|ms| - 1];
      NotedIs(seen, front, k);
      NotedIs(seen, front, ms[|ms| - 1].key);
      if i: nat :| i < |ms| && ms[i].key == k && i < |front| {
        assert front[i] == ms[i];
      }
      if k in Noted(seen, front) && k !in seen {
        var i: nat :| i < |front| && front[i] == Meeting(k, Noted(seen, front)[k]);
        assert ms[i] == front[i];
      }
      if k == ms[|ms| - 1].key {
        assert ms[|ms| - 1].key == k;
      }
    }
  }

  lemma {:induction false} NotedTwice(seen: Lists, a: seq<Meeting>, b: seq<Meeting>)
    ensures Noted(seen, a + b) == Noted(Noted(seen, a), b)
    decreases |b|
  {
    if b == [] {
      assert a + b == a;
    } else {
      assert (a + b)[..|a + b| - 1] == a + b[..|b| - 1];
      NotedTwice(seen, a, b[..|b| - 1]);
    }
  }

  // Two walks fit one after the other when the second fits what the first has noted.
  lemma FitsTwice(seen: Lists, a: seq<Meeting>, b: seq<Meeting>)
    ensures Fits(seen, a + b) <==> Fits(seen, a) && Fits(Noted(seen, a), b)
  {
    if Fits(seen, a + b) {
      FitsFirst(seen, a, b);
      FitsSecond(seen, a, b);
    }
    if Fits(seen, a) && Fits(Noted(seen, a), b) {
      FitsBoth(seen, a, b);
    }
  }

  lemma FitsFirst(seen: Lists, a: seq<Meeting>, b: seq<Meeting>)
    requires Fits(seen, a + b)
    ensures Fits(seen, a)
  {
    var ms := a + b;
    forall i: nat, j: nat | i < |a| && j < |a| ensures SameList(a, i, j) {
      assert SameList(ms, i, j) && ms[i] == a[i] && ms[j] == a[j];
    }
    forall i: nat | i < |a| ensures FitsAt(seen, a, i) {
      assert FitsAt(seen, ms, i) && ms[i] == a[i];
    }
  }

  lemma FitsSecond(seen: Lists, a: seq<Meeting>, b: seq<Meeting>)
    requires Fits(seen, a + b)
    ensures Fits(Noted(seen, a), b)
  {
    var ms := a + b;
    forall i: nat, j: nat | i < |b| && j < |b| ensures SameList(b, i, j) {
      assert SameList(ms, |a| + i, |a| + j) && ms[|a| + i] == b[i] && ms[|a| + j] == b[j];
    }
    forall i: nat | i < |b| ensures FitsAt(Noted(seen, a), b, i) {
      var k := b[i].key;
      assert ms[|a| + i] == b[i] && FitsAt(seen, ms, |a| + i);
      NotedIs(seen, a, k);
      if k in Noted(seen, a) && k !in seen {
        var j: nat :| j < |a| && a[j] == Meeting(k, Noted(seen, a)[k]);
        assert ms[j] == a[j] && SameList(ms, j, |a| + i);
      }
    }
  }

  lemma AcrossSame(seen: Lists, a: seq<Meeting>, b: seq<Meeting>, i: nat, j: nat)
    requires Fits(seen, a) && Fits(Noted(seen, a), b) && i < |a| && j < |b| && a[i].key == b[j].key
    ensures a[i].actions == b[j].actions
  {
    var k := a[i].key;
    NotedIs(seen, a, k);
    assert FitsAt(Noted(seen, a), b, j) && FitsAt(seen, a, i);
    if k !in seen {
      var h: nat :| h < |a| && a[h] == Meeting(k, Noted(seen, a)[k]);
      assert SameList(a, h, i);
    }
  }

  lemma FitsBoth(seen: Lists, a: seq<Meeting>, b: seq<Meeting>)
    requires Fits(seen, a) && Fits(Noted(seen, a), b)
    ensures Fits(seen, a + b)
  {
    var ms := a + b;
    forall i: nat, j: nat | i < |ms| && j < |ms| ensures SameList(ms, i, j) {
      if i < |a| && j < |a| {
        assert SameList(a, i, j);
      } else if i >= |a| && j >= |a| {
        assert SameList(b, i - |a|, j - |a|);
      } else if ms[i].key == ms[j].key {
        if i < |a| {
          AcrossSame(seen, a, b, i, j - |a|);
        } else {
          AcrossSame(seen, a, b, j, i - |a|);
        }
      }
    }
    forall i: nat | i < |ms| ensures FitsAt(seen, ms, i) {
      if i < |a| {
        assert FitsAt(seen, a, i);
      } else {
        assert FitsAt(Noted(seen, a), b, i - |a|);
        NotedIs(seen, a, ms[i].key);
      }
    }
  }

  // ---- The two walks, step by step ----

  function ListsOf(c: State): Lists {
    map k | k in c.memo :: c.memo[k].actions
  }

  lemma SameLists(c: State, c': State)
    requires c'.memo == c.memo
    ensures ListsOf(c') == ListsOf(c)
  {
  }

  // Where the sequential walk succeeds, the other succeeds exactly when the meetings fit what it has noted, and
  // has then noted them.
  ghost predicate Exact(seqStatus: Construction.Status, snapStatus: Construction.Status, c: State, c': State, ms: seq<Meeting>) {
    seqStatus == Construction.Success ==>
      && (snapStatus == Construction.Success <==> Fits(ListsOf(c), ms))
      && (snapStatus == Construction.Success ==> ListsOf(c') == Noted(ListsOf(c), ms))
  }

  lemma ExactNothing(status: Construction.Status, c: State, c': State)
    requires c'.memo == c.memo
    ensures Exact(status, status, c, c', [])
  {
    SameLists(c, c');
  }

  // One part after another.
  lemma ExactThen(q1: Construction.Status, s1: Construction.Status, q2: Construction.Status, s2: Construction.Status,
                  c: State, c1: State, c2: State, a: seq<Meeting>, b: seq<Meeting>)
    requires q2 == Construction.Success ==> q1 == Construction.Success
    requires s1 != Construction.Success ==> s2 != Construction.Success
    requires Exact(q1, s1, c, c1, a)
    requires q1 == Construction.Success && s1 == Construction.Success ==> Exact(q2, s2, c1, c2, b)
    ensures Exact(q2, s2, c, c2, a + b)
  {
    FitsTwice(ListsOf(c), a, b);
    NotedTwice(ListsOf(c), a, b);
  }

  lemma StaysProfiled(profile: Profile, s: State, s': State)
    requires Profiled(profile, s) && Keeps(Snapshots(Unchanging(profile)), s, s')
    ensures Profiled(profile, s')
  {
    var shared := Unchanging(profile);
    forall key | key in s.memo ensures ReadAt(shared, s, key) {
      assert ProfiledAt(profile, s, key);
      assert s.memo[key].probabilities == shared(0, key, |s.memo[key].actions|);
    }
    assert FromShared(Snapshots(shared), s');
    forall key | key in s'.memo ensures ProfiledAt(profile, s', key) {
      assert ReadAt(shared, s', key);
    }
  }

  lemma LinkedProfiled(v: View, q: State, c: State)
    requires Linked(v, q, c)
    ensures Profiled(v.profile, c)
  {
    forall key | key in c.memo ensures ProfiledAt(v.profile, c, key) {
      assert LinkedAt(v, q, c, key);
    }
  }

  lemma FitsOne(seen: Lists, m: Meeting)
    ensures Fits(seen, [m]) <==> (m.key in seen ==> m.actions == seen[m.key])
    ensures Noted(seen, [m]) == if m.key in seen then seen else seen[m.key := m.actions]
  {
    var ms := [m];
    if m.key in seen ==> m.actions == seen[m.key] {
      assert FitsAt(seen, ms, 0);
      assert forall i: nat, j: nat :: i < |ms| && j < |ms| ==> SameList(ms, i, j);
    }
    if Fits(seen, ms) {
      assert FitsAt(seen, ms, 0);
    }
    assert ms[..0] == [];
    assert Noted(seen, []) == seen;
  }

  lemma LookExact(v: View, q: State, c: State, key: Key, actions: seq<Action>)
    requires Linked(v, q, c)
    ensures var lq, lc := Look(Sequential(v.profile), q, key, actions), Look(Snapshots(Unchanging(v.profile)), c, key, actions);
      Exact(lq.status, lc.status, c, lc.state, [Meeting(key, actions)])
  {
    var lc := Look(Snapshots(Unchanging(v.profile)), c, key, actions);
    FitsOne(ListsOf(c), Meeting(key, actions));
    if lc.status == Construction.Success {
      if key in c.memo {
        SameLists(c, lc.state);
      } else {
        NewList(c, lc.state, key, actions);
      }
    }
  }

  lemma NewList(c: State, c': State, key: Key, actions: seq<Action>)
    requires key in c'.memo && c'.memo == c.memo[key := c'.memo[key]] && c'.memo[key].actions == actions
    ensures ListsOf(c') == ListsOf(c)[key := actions]
  {
  }

  lemma SampleLists(mode: Mode, c: State, key: Key, actions: seq<Action>, p: seq<real>, mix: nat -> nat)
    requires mode.Snapshots?
    ensures ListsOf(Sample(mode, c, key, actions, p, mix).state) == ListsOf(c)
  {
    var c' := Sample(mode, c, key, actions, p, mix).state;
    assert c'.memo.Keys == c.memo.Keys;
    forall k | k in c.memo ensures c'.memo[k].actions == c.memo[k].actions {
    }
  }

  lemma {:induction false} WalkExact(v: View, g: Rules, mix: nat -> nat, t: Tree, own: real, q: State, c: State, average: bool)
    requires !v.strict && Linked(v, q, c)
    ensures var rq, rc := Walk(Sequential(v.profile), g, mix, t, own, q, average),
                          Walk(Snapshots(Unchanging(v.profile)), g, mix, t, own, c, average);
      Exact(rq.status, rc.status, c, rc.state, Met(Sequential(v.profile), g, mix, t, own, q, average))
    decreases t, |Kids(t)| + 1
  {
    var q1, c1 := q.(visits := Capped(q.visits)), c.(visits := Capped(c.visits));
    var rc := Walk(Snapshots(Unchanging(v.profile)), g, mix, t, own, c, average);
    AlikeLinked(v, q, c, q1, c1);
    SameLists(c, c1);
    match t
    case Leaf(_) =>
      ExactNothing(Construction.Success, c, rc.state);
    case Nature(_) =>
      ChanceExact(v, g, mix, t, own, q1, c1, average);
    case Turn(player, key, branches) =>
      if Play.PlayerIsValid(g.players, player) && 1 <= |branches| <= g.maxActions {
        AtExact(v, g, mix, t, own, q1, c1, average);
      }
  }

  lemma {:induction false} ChanceExact(v: View, g: Rules, mix: nat -> nat, t: Tree, own: real, q: State, c: State, average: bool)
    requires !v.strict && t.Nature? && Linked(v, q, c)
    ensures var rq, rc := WalkChance(Sequential(v.profile), g, mix, t, own, q, average),
                          WalkChance(Snapshots(Unchanging(v.profile)), g, mix, t, own, c, average);
      Exact(rq.status, rc.status, c, rc.state, MetByChance(Sequential(v.profile), g, mix, t, own, q, average))
    decreases t, |Kids(t)|, 2
  {
    var odds := OddsOf(t.branches);
    var d := Draw(odds, c.random, mix);
    if ChanceOk(odds, g.maxActions) && d.status == Construction.Success && odds[d.index] > 0.0 {
      var q1, c1 := q.(random := d.random), c.(random := d.random);
      AlikeLinked(v, q, c, q1, c1);
      SameLists(c, c1);
      WalkExact(v, g, mix, t.branches[d.index].next, own, q1, c1, average);
    }
  }

  lemma {:induction false} AtExact(v: View, g: Rules, mix: nat -> nat, t: Tree, own: real, q: State, c: State, average: bool)
    requires !v.strict && t.Turn? && 1 <= |t.branches| && Linked(v, q, c)
    ensures var rq, rc := Meet(Sequential(v.profile), g, mix, t, own, q, average),
                          Meet(Snapshots(Unchanging(v.profile)), g, mix, t, own, c, average);
      Exact(rq.status, rc.status, c, rc.state, MetAt(Sequential(v.profile), g, mix, t, own, q, average))
    decreases t, |Kids(t)|, 3
  {
    var actions, mc, mq := ActionsOf(t.branches), Snapshots(Unchanging(v.profile)), Sequential(v.profile);
    var lq, lc := Look(mq, q, t.key, actions), Look(mc, c, t.key, actions);
    LinkedProfiled(v, q, c);
    LookKeeps(mc, c, t.key, actions);
    StaysProfiled(v.profile, c, lc.state);
    LookExact(v, q, c, t.key, actions);
    LookLinked(v, Unchanging(v.profile), q, c, t.key, actions);
    var rq, rc := Meet(mq, g, mix, t, own, q, average), Meet(mc, g, mix, t, own, c, average);
    if rq.status == Construction.Success {
      if lc.status == Construction.Success {
        BelowExact(v, g, mix, t, lq.p, own, lq.state, lc.state, average);
      }
      ExactThen(lq.status, lc.status, rq.status, rc.status, c, lc.state, rc.state, [Meeting(t.key, actions)],
                MetBelow(mq, g, mix, t, lq.p, own, lq.state, average));
    }
  }

  lemma {:induction false} BelowExact(v: View, g: Rules, mix: nat -> nat, t: Tree, p: seq<real>, own: real, q: State, c: State,
                                      average: bool)
    requires !v.strict && t.Turn? && |p| == |t.branches| && |p| > 0 && Linked(v, q, c)
    requires t.key in c.memo && c.memo[t.key].actions == ActionsOf(t.branches) && c.memo[t.key].probabilities == p
    ensures var rq, rc := WalkTurn(Sequential(v.profile), g, mix, t, p, own, q, average),
                          WalkTurn(Snapshots(Unchanging(v.profile)), g, mix, t, p, own, c, average);
      Exact(rq.status, rc.status, c, rc.state, MetBelow(Sequential(v.profile), g, mix, t, p, own, q, average))
    decreases t, |Kids(t)|, 2
  {
    if average {
      AverageExact(v, g, mix, t, p, own, q, c);
    } else if t.player == g.target {
      TargetExact(v, g, mix, t, p, own, q, c);
    } else {
      OpponentExact(v, g, mix, t, p, own, q, c);
    }
  }

  lemma {:induction false} TargetExact(v: View, g: Rules, mix: nat -> nat, t: Tree, p: seq<real>, own: real, q: State, c: State)
    requires !v.strict && t.Turn? && |p| == |t.branches| && Linked(v, q, c)
    ensures var rq, rc := WalkTarget(Sequential(v.profile), g, mix, t, p, own, q),
                          WalkTarget(Snapshots(Unchanging(v.profile)), g, mix, t, p, own, c);
      Exact(rq.status, rc.status, c, rc.state, MetInBranches(Sequential(v.profile), g, mix, t, p, own, q, |p|))
    decreases t, |Kids(t)|, 1
  {
    var mc := Snapshots(Unchanging(v.profile));
    BranchesExact(v, g, mix, t, p, own, q, c, |p|);
    SameLists(Branches(mc, g, mix, t, p, own, c, |p|).state, WalkTarget(mc, g, mix, t, p, own, c).state);
  }

  lemma BranchesAlone(v: View, g: Rules, mix: nat -> nat, t: Tree, p: seq<real>, own: real, q: State, c: State, n: nat)
    requires !v.strict && t.Turn? && |p| == |t.branches| && n <= |p| && Linked(v, q, c)
    ensures LoopsAgree(v, Branches(Sequential(v.profile), g, mix, t, p, own, q, n),
                       Branches(Snapshots(Unchanging(v.profile)), g, mix, t, p, own, c, n))
  {
    var mc := Snapshots(Unchanging(v.profile));
    LinkedProfiled(v, q, c);
    BranchesKeeps(mc, g, mix, t, p, own, c, n);
    StaysProfiled(v.profile, c, Branches(mc, g, mix, t, p, own, c, n).state);
    BranchesRefine(v, Unchanging(v.profile), g, mix, t, p, own, q, c, n);
  }

  lemma {:induction false} BranchesExact(v: View, g: Rules, mix: nat -> nat, t: Tree, p: seq<real>, own: real, q: State, c: State,
                                         n: nat)
    requires !v.strict && t.Turn? && |p| == |t.branches| && n <= |p| && Linked(v, q, c)
    ensures var bq, bc := Branches(Sequential(v.profile), g, mix, t, p, own, q, n),
                          Branches(Snapshots(Unchanging(v.profile)), g, mix, t, p, own, c, n);
      Exact(bq.status, bc.status, c, bc.state, MetInBranches(Sequential(v.profile), g, mix, t, p, own, q, n))
    decreases t, n, 0
  {
    var mc, mq := Snapshots(Unchanging(v.profile)), Sequential(v.profile);
    if n == 0 {
      ExactNothing(Construction.Success, c, c);
    } else {
      BranchesExact(v, g, mix, t, p, own, q, c, n - 1);
      BranchesAlone(v, g, mix, t, p, own, q, c, n - 1);
      var bq, bc := Branches(mq, g, mix, t, p, own, q, n - 1), Branches(mc, g, mix, t, p, own, c, n - 1);
      var next := t.branches[n - 1].next;
      if bc.status == Construction.Success {
        WalkExact(v, g, mix, next, Weighted(own, p[n - 1]), bq.state, bc.state, false);
      }
      var more := if bq.status != Construction.Success then [] else Met(mq, g, mix, next, Weighted(own, p[n - 1]), bq.state, false);
      ExactThen(bq.status, bc.status, Branches(mq, g, mix, t, p, own, q, n).status, Branches(mc, g, mix, t, p, own, c, n).status,
                c, bc.state, Branches(mc, g, mix, t, p, own, c, n).state,
                MetInBranches(mq, g, mix, t, p, own, q, n - 1), more);
    }
  }

  lemma {:induction false} OpponentExact(v: View, g: Rules, mix: nat -> nat, t: Tree, p: seq<real>, own: real, q: State, c: State)
    requires !v.strict && t.Turn? && |p| == |t.branches| && Linked(v, q, c)
    requires t.key in c.memo && c.memo[t.key].actions == ActionsOf(t.branches) && c.memo[t.key].probabilities == p
    ensures var rq, rc := WalkOpponent(Sequential(v.profile), g, mix, t, p, own, q),
                          WalkOpponent(Snapshots(Unchanging(v.profile)), g, mix, t, p, own, c);
      Exact(rq.status, rc.status, c, rc.state, MetByOpponent(Sequential(v.profile), g, mix, t, p, own, q))
    decreases t, |Kids(t)|, 1
  {
    var actions, shared := ActionsOf(t.branches), Unchanging(v.profile);
    SampleLinked(v, shared, q, c, t.key, actions, p, mix);
    SampleLists(Snapshots(shared), c, t.key, actions, p, mix);
    var aq, ac := Sample(Sequential(v.profile), q, t.key, actions, p, mix), Sample(Snapshots(shared), c, t.key, actions, p, mix);
    if ac.status == Construction.Success && ac.index < |p| && p[ac.index] > 0.0 {
      var q1 := if g.players <= 2 then Add(aq.state, t.key, Zeros(|p|), Scaled(1.0, p)) else aq.state;
      var c1 := if g.players <= 2 then Add(ac.state, t.key, Zeros(|p|), Scaled(1.0, p)) else ac.state;
      AlikeLinked(v, aq.state, ac.state, q1, c1);
      SameLists(ac.state, c1);
      WalkExact(v, g, mix, t.branches[ac.index].next, own, q1, c1, false);
    }
  }

  lemma {:induction false} AverageExact(v: View, g: Rules, mix: nat -> nat, t: Tree, p: seq<real>, weight: real, q: State, c: State)
    requires !v.strict && t.Turn? && |p| == |t.branches| && |p| > 0 && Linked(v, q, c)
    ensures var rq, rc := WalkAverage(Sequential(v.profile), g, mix, t, p, weight, q),
                          WalkAverage(Snapshots(Unchanging(v.profile)), g, mix, t, p, weight, c);
      Exact(rq.status, rc.status, c, rc.state, MetByAverage(Sequential(v.profile), g, mix, t, p, weight, q))
    decreases t, |Kids(t)|, 1
  {
    if !(t.player == g.target && weight < 0.0) {
      var random := Advance(c.random);
      var q1 := if t.player == g.target then Add(q, t.key, Zeros(|p|), Scaled(weight, p)) else q;
      var c1 := if t.player == g.target then Add(c, t.key, Zeros(|p|), Scaled(weight, p)) else c;
      var action := Uniform(mix(random), |p|);
      var q2, c2 := q1.(random := random), c1.(random := random);
      AlikeLinked(v, q, c, q2, c2);
      SameLists(c, c2);
      var child := WeightBelow(g, t, p, weight, action);
      if child != 0.0 {
        WalkExact(v, g, mix, t.branches[action].next, child, q2, c2, true);
      } else {
        ExactNothing(Construction.Success, c, c2);
      }
    }
  }

  // ---- Whole traversals ----

  lemma FitsNothing(ms: seq<Meeting>)
    ensures Fits(map[], ms) <==> OneListEach(ms)
  {
    forall i: nat | i < |ms| ensures FitsAt(map[], ms, i) {
    }
  }

  // One worker alone: the traversal with snapshots succeeds exactly when the sequential one does and meets no
  // information set with two lists of actions; and then they end alike. In particular, where the sequential
  // traversal succeeds, they part exactly when it meets some information set with two lists.
  lemma AloneIff(profile: Profile, g: Rules, mix: nat -> nat, t: Tree, random: nat, nodes: map<Key, nat>)
    ensures var rq := Traverse(Sequential(profile), g, mix, t, Start(random, nodes));
      var rc := Traverse(Snapshots(Unchanging(profile)), g, mix, t, Start(random, nodes));
      && (rc.status == Construction.Success <==>
            rq.status == Construction.Success
            && OneListEach(Meetings(Sequential(profile), g, mix, t, Start(random, nodes))))
      && (rc.status == Construction.Success ==> SameOutcome(rq, rc))
  {
    var mq, mc, s := Sequential(profile), Snapshots(Unchanging(profile)), Start(random, nodes);
    var v := View(profile, key => [], false);
    AloneProfiled(profile, Unchanging(profile), g, mix, t, random, nodes);
    TraverseRefines(v, Unchanging(profile), g, mix, t, random, nodes);
    TraverseExact(v, g, mix, t, random, nodes);
    FitsNothing(Meetings(mq, g, mix, t, s));
    assert ListsOf(s) == map[];
  }

  lemma TraverseExact(v: View, g: Rules, mix: nat -> nat, t: Tree, random: nat, nodes: map<Key, nat>)
    requires !v.strict
    ensures var s := Start(random, nodes);
      var rq, rc := Traverse(Sequential(v.profile), g, mix, t, s), Traverse(Snapshots(Unchanging(v.profile)), g, mix, t, s);
      Exact(rq.status, rc.status, s, rc.state, Meetings(Sequential(v.profile), g, mix, t, s))
  {
    var mq, mc, s := Sequential(v.profile), Snapshots(Unchanging(v.profile)), Start(random, nodes);
    assert Linked(v, s, s);
    WalkExact(v, g, mix, t, 1.0, s, s, false);
    WalkAlone(v, g, mix, t, 1.0, s, s, false);
    var wq, wc := Walk(mq, g, mix, t, 1.0, s, false), Walk(mc, g, mix, t, 1.0, s, false);
    if g.players > 2 {
      if wc.status == Construction.Success {
        WalkExact(v, g, mix, t, 1.0, wq.state, wc.state, true);
      }
      var more := if wq.status != Construction.Success then [] else Met(mq, g, mix, t, 1.0, wq.state, true);
      ExactThen(wq.status, wc.status, Traverse(mq, g, mix, t, s).status, Traverse(mc, g, mix, t, s).status, s, wc.state,
                Traverse(mc, g, mix, t, s).state, Met(mq, g, mix, t, 1.0, s, false), more);
    } else {
      assert Met(mq, g, mix, t, 1.0, s, false) + [] == Met(mq, g, mix, t, 1.0, s, false);
    }
  }

  lemma WalkAlone(v: View, g: Rules, mix: nat -> nat, t: Tree, own: real, q: State, c: State, average: bool)
    requires !v.strict && Linked(v, q, c)
    ensures Agrees(v, Walk(Sequential(v.profile), g, mix, t, own, q, average),
                   Walk(Snapshots(Unchanging(v.profile)), g, mix, t, own, c, average))
  {
    var mc := Snapshots(Unchanging(v.profile));
    LinkedProfiled(v, q, c);
    WalkKeeps(mc, g, mix, t, own, c, average);
    StaysProfiled(v.profile, c, Walk(mc, g, mix, t, own, c, average).state);
    WalkRefines(v, Unchanging(v.profile), g, mix, t, own, q, c, average);
  }
}
