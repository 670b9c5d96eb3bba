// Which games the evaluator accepts, said of the game itself.
module EvaluationChecks {
  import opened Sums
  import opened BestResponse
  import opened GameTree
  import opened Construction
  import opened Layout
  import opened Optimality
  import RegretMatching

  ghost predicate Within(x: real, bound: real) {
    -bound <= x <= bound
  }

  // x is as near to zero as rounding explains: by 1e-12, or by 1e-8 of the size of u or of w.
  ghost predicate Near(x: real, u: real, w: real) {
    || Within(x, 0.000000000001)
    || Within(x, 0.00000001 * u) || Within(x, 0.00000001 * -u)
    || Within(x, 0.00000001 * w) || Within(x, 0.00000001 * -w)
  }

  // The terms add up to one, as far as rounding lets them.
  ghost predicate NearOne(sum: real) {
    || 1.0 - 0.000000000001 <= sum <= 1.0 + 0.000000000001
    || 1.0 - 0.00000001 <= sum <= 1.0
    || (1.0 <= sum && sum - 1.0 <= sum * 0.00000001)
  }

  // What a position must be: opposite utilities at the end of the game, a distribution over some but not too many
  // branches at a chance node, and at a decision non-negative strategy sums for just its actions, if any are stored.
  ghost predicate Admissible(store: Store, uniform: bool, max: nat, t: Tree) {
    match t
    case Leaf(u0, u1) => Near(u0 + u1, u0, u1)
    case Nature(bs) =>
      && 0 < |bs| <= max
      && (forall a :: 0 <= a < |bs| ==> 0.0 <= bs[a].probability <= 1.0)
      && NearOne(Sum((a: nat) => if a < |bs| then bs[a].probability else 0.0, 0, |bs|))
    case Turn(_, key, bs) =>
      && 0 < |bs| <= max
      && (if key in store then |store[key]| == |bs| && forall a :: 0 <= a < |bs| ==> store[key][a] >= 0.0 else uniform)
  }

  // Positions that a player cannot tell apart belong to one player and offer the same actions in the same order.
  ghost predicate LookAlike(t: Tree, u: Tree) {
    t.Turn? && u.Turn? && t.key == u.key ==>
      && t.player == u.player && |t.branches| == |u.branches|
      && forall a :: 0 <= a < |t.branches| ==> t.branches[a].action == u.branches[a].action
  }

  ghost predicate WellFormed(store: Store, uniform: bool, max: nat, vs: seq<Visit>) {
    && (forall i :: 0 <= i < |vs| ==> Admissible(store, uniform, max, vs[i].tree))
    && (forall i, j :: 0 <= i < |vs| && 0 <= j < |vs| ==> LookAlike(vs[i].tree, vs[j].tree))
  }

  lemma NearZeroSum(u0: real, u1: real)
    ensures IsZeroSum(u0, u1) <==> Near(u0 + u1, u0, u1)
  {
    NearScale(u0 + u1, u0, u1, if Abs(u0) > Abs(u1) then Abs(u0) else Abs(u1));
  }

  // The larger of the two sizes is the one that counts.
  lemma NearScale(x: real, u: real, w: real, scale: real)
    requires scale == if Abs(u) > Abs(w) then Abs(u) else Abs(w)
    ensures Near(x, u, w) <==> Abs(x) <= ABS_EPSILON || Abs(x) <= scale * REL_EPSILON
  {
  }

  lemma NearOneSum(sum: real)
    ensures SumIsOne(sum) <==> NearOne(sum)
  {
  }

  lemma PassesAlone(store: Store, uniform: bool, max: nat, t: Tree)
    ensures CheckAlone(store, uniform, max, t) == Success <==> Admissible(store, uniform, max, t)
  {
    match t
    case Leaf(u0, u1) => NearZeroSum(u0, u1);
    case Nature(bs) =>
      NearOneSum(Sum(Probabilities(bs), 0, |bs|));
      SumExt(Probabilities(bs), (a: nat) => if a < |bs| then bs[a].probability else 0.0, 0, |bs|);
    case Turn(_, _, _) =>
  }

  lemma AllPassIff(store: Store, uniform: bool, max: nat, vs: seq<Visit>)
    ensures AllPass(store, uniform, max, vs) <==> forall i :: 0 <= i < |vs| ==> Admissible(store, uniform, max, vs[i].tree)
  {
    forall i: nat | i < |vs|
      ensures CheckAlone(store, uniform, max, vs[i].tree) == Success <==> Admissible(store, uniform, max, vs[i].tree)
    {
      PassesAlone(store, uniform, max, vs[i].tree);
    }
  }

  lemma DifferOrAlike(t: Tree, u: Tree)
    ensures LookAlike(t, u) <==> !Differ(t, u)
  {
  }

  lemma AgreeIff(vs: seq<Visit>)
    ensures Agree(vs) <==> forall i, j :: 0 <= i < |vs| && 0 <= j < |vs| ==> LookAlike(vs[i].tree, vs[j].tree)
  {
    forall i: nat, j: nat | i < |vs| && j < |vs| ensures LookAlike(vs[i].tree, vs[j].tree) <==> !Differ(vs[i].tree, vs[j].tree) {
      DifferOrAlike(vs[i].tree, vs[j].tree);
    }
  }

  // The evaluator builds exactly the games all of whose positions are admissible and whose information sets are consistent.
  lemma BuildsIff(store: Store, uniform: bool, max: nat, vs: seq<Visit>)
    ensures FirstFailure(store, uniform, max, [], vs) == Success <==> WellFormed(store, uniform, max, vs)
  {
    SucceedsIff(store, uniform, max, [], vs);
    assert [] + vs == vs;
    AllPassIff(store, uniform, max, vs);
    AgreeIff(vs);
  }

  // ---- What an error means ----

  // What is wrong with a position, told by the error.
  ghost predicate Faulty(store: Store, uniform: bool, max: nat, t: Tree, status: Status) {
    match status
    case Success => false
    case BufferTooSmall => |Branches(t)| > max && |Branches(t)| > 0
    case NotFound => t.Turn? && 0 < |t.branches| <= max && t.key !in store && !uniform
    case NumericError =>
      && t.Turn? && 0 < |t.branches| <= max && t.key in store && |store[t.key]| == |t.branches|
      && exists a :: 0 <= a < |t.branches| && store[t.key][a] < 0.0
    case InvalidArgument =>
      match t
      case Leaf(u0, u1) => !Near(u0 + u1, u0, u1)
      case Nature(bs) =>
        || bs == []
        || (|bs| <= max && exists a :: 0 <= a < |bs| && (bs[a].probability < 0.0 || bs[a].probability > 1.0))
        || (|bs| <= max && !NearOne(Sum((a: nat) => if a < |bs| then bs[a].probability else 0.0, 0, |bs|)))
      case Turn(_, key, bs) => bs == [] || (|bs| <= max && key in store && |store[key]| != |bs|)
  }

  lemma FaultIsNamed(store: Store, uniform: bool, max: nat, t: Tree)
    requires CheckAlone(store, uniform, max, t) != Success
    ensures Faulty(store, uniform, max, t, CheckAlone(store, uniform, max, t))
  {
    match t
    case Leaf(u0, u1) => NearZeroSum(u0, u1);
    case Nature(bs) =>
      NearOneSum(Sum(Probabilities(bs), 0, |bs|));
      SumExt(Probabilities(bs), (a: nat) => if a < |bs| then bs[a].probability else 0.0, 0, |bs|);
    case Turn(_, _, _) =>
  }

  // The i-th position is the first that does not fit, and status says why.
  ghost predicate FirstFault(store: Store, uniform: bool, max: nat, vs: seq<Visit>, i: nat, status: Status)
    requires i < |vs|
  {
    && (forall k :: 0 <= k < i ==> Admissible(store, uniform, max, vs[k].tree))
    && (forall j, k :: 0 <= j < i && 0 <= k < i ==> LookAlike(vs[j].tree, vs[k].tree))
    && (|| Faulty(store, uniform, max, vs[i].tree, status)
        || (status == InvalidArgument && exists j :: 0 <= j < i && !LookAlike(vs[j].tree, vs[i].tree)))
  }

  lemma FaultAt(store: Store, uniform: bool, max: nat, vs: seq<Visit>, i: nat, status: Status)
    requires i < |vs| && FirstFailure(store, uniform, max, [], vs[..i]) == Success
    requires status == Check(store, uniform, max, vs[..i], vs[i].tree) != Success
    ensures FirstFault(store, uniform, max, vs, i, status)
  {
    BuildsIff(store, uniform, max, vs[..i]);
    forall k | 0 <= k < i ensures Admissible(store, uniform, max, vs[k].tree) {
      assert vs[..i][k] == vs[k];
    }
    forall j, k | 0 <= j < i && 0 <= k < i ensures LookAlike(vs[j].tree, vs[k].tree) {
      assert vs[..i][j] == vs[j] && vs[..i][k] == vs[k];
    }
    if CheckAlone(store, uniform, max, vs[i].tree) != Success {
      FaultIsNamed(store, uniform, max, vs[i].tree);
    } else {
      var j: nat :| j < i && Differ(vs[..i][j].tree, vs[i].tree);
      DifferOrAlike(vs[j].tree, vs[i].tree);
    }
  }

  // A construction that fails names the first position, in pre-order, that does not fit, and why.
  lemma FailureIsNamed(store: Store, uniform: bool, max: nat, vs: seq<Visit>) returns (i: nat)
    requires FirstFailure(store, uniform, max, [], vs) != Success
    ensures i < |vs| && FirstFault(store, uniform, max, vs, i, FirstFailure(store, uniform, max, [], vs))
  {
    assert vs[..|vs|] == vs;
    i := 0;
    while Check(store, uniform, max, vs[..i], vs[i].tree) == Success
      invariant i < |vs| && FirstFailure(store, uniform, max, [], vs[..i]) == Success
      decreases |vs| - i
    {
      OnePosition(store, uniform, max, vs, i);
      i := i + 1;
    }
    OnePosition(store, uniform, max, vs, i);
    FaultAt(store, uniform, max, vs, i, Check(store, uniform, max, vs[..i], vs[i].tree));
    assert vs == vs[..i + 1] + vs[i + 1..];
    FailureOfSum(store, uniform, max, [], vs[..i + 1], vs[i + 1..]);
  }

  lemma OnePosition(store: Store, uniform: bool, max: nat, vs: seq<Visit>, i: nat)
    requires i < |vs| && FirstFailure(store, uniform, max, [], vs[..i]) == Success
    ensures FirstFailure(store, uniform, max, [], vs[..i + 1]) == Check(store, uniform, max, vs[..i], vs[i].tree)
  {
    assert vs[..i + 1] == vs[..i] + [vs[i]] && [] + vs[..i] == vs[..i];
    FailureOfSum(store, uniform, max, [], vs[..i], [vs[i]]);
  }

  // ---- Games that are exactly zero-sum ----

  // All but the ends of the game.
  ghost predicate WellFormedAbove(store: Store, uniform: bool, max: nat, vs: seq<Visit>) {
    && (forall i :: 0 <= i < |vs| && !vs[i].tree.Leaf? ==> Admissible(store, uniform, max, vs[i].tree))
    && (forall i, j :: 0 <= i < |vs| && 0 <= j < |vs| ==> LookAlike(vs[i].tree, vs[j].tree))
  }

  lemma {:induction false} ExactBelow(store: Store, v: Visit, i: nat)
    requires ExactlyZeroSum(v.tree) && i < |Visits(store, v)|
    ensures ExactlyZeroSum(Visits(store, v)[i].tree)
    decreases v.tree, |Branches(v.tree)| + 1
  {
    if i > 0 {
      ExactBefore(store, v, |Branches(v.tree)|, i - 1);
    }
  }

  lemma {:induction false} ExactBefore(store: Store, v: Visit, n: nat, i: nat)
    requires ExactlyZeroSum(v.tree) && n <= |Branches(v.tree)| && i < |VisitsBefore(store, v, n)|
    ensures ExactlyZeroSum(VisitsBefore(store, v, n)[i].tree)
    decreases v.tree, n
  {
    var before, below := VisitsBefore(store, v, n - 1), Visits(store, Child(store, v, n - 1));
    assert VisitsBefore(store, v, n) == before + below;
    if i < |before| {
      ExactBefore(store, v, n - 1, i);
    } else {
      ExactBelow(store, Child(store, v, n - 1), i - |before|);
    }
  }

  // Where every end pays exactly opposite amounts, the rest of the checks is all there is, and the profile values pass too.
  lemma ExactIsWellFormed(store: Store, uniform: bool, max: nat, t: Tree)
    requires ExactlyZeroSum(t) && WellFormedAbove(store, uniform, max, Visits(store, Root(t)))
    ensures WellFormed(store, uniform, max, Visits(store, Root(t)))
    ensures Near(ProfileUtility(store, t, Player0) + ProfileUtility(store, t, Player1),
                 ProfileUtility(store, t, Player0), ProfileUtility(store, t, Player1))
  {
    var vs := Visits(store, Root(t));
    forall i | 0 <= i < |vs| ensures Admissible(store, uniform, max, vs[i].tree) {
      ExactBelow(store, Root(t), i);
    }
    ZeroSumProfile(store, t);
  }

  // What building a whole game tells.
  lemma BuildMeans(store: Store, uniform: bool, max: nat, t: Tree)
    ensures var vs := Visits(store, Root(t));
      var built := FirstFailure(store, uniform, max, [], vs);
      && (built == Success <==> WellFormed(store, uniform, max, vs))
      && (built != Success ==> exists i: nat :: i < |vs| && FirstFault(store, uniform, max, vs, i, built))
      && (ExactlyZeroSum(t) && WellFormedAbove(store, uniform, max, vs) ==>
            && built == Success
            && ProfileUtility(store, t, Player0) + ProfileUtility(store, t, Player1) == 0.0
            && Near(ProfileUtility(store, t, Player0) + ProfileUtility(store, t, Player1),
                    ProfileUtility(store, t, Player0), ProfileUtility(store, t, Player1)))
  {
    var vs := Visits(store, Root(t));
    BuildsIff(store, uniform, max, vs);
    if FirstFailure(store, uniform, max, [], vs) != Success {
      var i := FailureIsNamed(store, uniform, max, vs);
    }
    if ExactlyZeroSum(t) && WellFormedAbove(store, uniform, max, vs) {
      ExactIsWellFormed(store, uniform, max, t);
      ZeroSumProfile(store, t);
    }
  }
}
