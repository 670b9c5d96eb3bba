// Games as the traversals meet them: a state that actions change and undo restores, and the tree of everything
// that can follow.
module Play {
  const MAX_PLAYERS: nat := 4

  predicate CountIsValid(count: nat) {
    1 <= count <= MAX_PLAYERS
  }

  // A game of one player keeps a second seat, from which utilities can be looked at.
  predicate PlayerIsValid(count: nat, player: nat) {
    CountIsValid(count) && player < if count < 2 then 2 else count
  }

  datatype Actor = ByChance | ByPlayer(player: nat)

  // The callbacks of a game.
  datatype Rules<!S> = Rules(
    players: nat,
    terminal: S -> bool,
    utility: (S, nat) -> real,
    actor: S -> Actor,
    actions: S -> seq<int>,
    odds: (S, int) -> real,
    key: S -> int,
    apply: (S, int) -> S,
    undo: S -> S)

  class GameState<S> {
    const rules: Rules<S>
    var position: S

    constructor (rules: Rules<S>, position: S)
      ensures this.rules == rules && this.position == position
    {
      this.rules, this.position := rules, position;
    }

    method Apply(action: int)
      modifies this
      ensures position == rules.apply(old(position), action)
    {
      position := rules.apply(position, action);
    }

    method Undo()
      modifies this
      ensures position == rules.undo(old(position))
    {
      position := rules.undo(position);
    }
  }

  // ---- What can follow ----

  datatype Branch = Branch(action: int, probability: real, next: Tree)

  // The utility at an end is each seat's.
  datatype Tree =
    | End(utility: nat -> real)
    | Chance(branches: seq<Branch>)
    | Move(player: nat, key: int, branches: seq<Branch>)

  function Kids(t: Tree): seq<Branch> {
    if t.End? then [] else t.branches
  }

  // t is what can follow s. Undo takes back the action just applied.
  ghost predicate Unfolds<S>(rules: Rules<S>, s: S, t: Tree)
    decreases t, 2
  {
    match t
    case End(utility) => rules.terminal(s) && forall seat: nat :: utility(seat) == rules.utility(s, seat)
    case Chance(branches) => !rules.terminal(s) && rules.actor(s) == ByChance && Follows(rules, s, t)
    case Move(player, key, branches) =>
      !rules.terminal(s) && rules.actor(s) == ByPlayer(player) && key == rules.key(s) && Follows(rules, s, t)
  }

  ghost predicate Follows<S>(rules: Rules<S>, s: S, t: Tree)
    requires !t.End?
    decreases t, 1
  {
    && |rules.actions(s)| == |t.branches|
    && forall a: nat :: a < |t.branches| ==> FollowsAt(rules, s, t, a)
  }

  ghost predicate FollowsAt<S>(rules: Rules<S>, s: S, t: Tree, a: nat)
    requires !t.End? && a < |t.branches|
    decreases t, 0
  {
    var b := t.branches[a];
    && a < |rules.actions(s)| && b.action == rules.actions(s)[a]
    && (t.Chance? ==> b.probability == rules.odds(s, b.action))
    && rules.undo(rules.apply(s, b.action)) == s && Unfolds(rules, rules.apply(s, b.action), b.next)
  }
}
