// One shard of the concurrent information store, as the whole store is made of. Lookups take no lock:
// they read the active table once and then probe it cell by cell, while a writer holding the shard's
// lock may fill a cell or publish a larger table. Tables that have been replaced stay readable.
module ShardedStore {
  import opened ProbeTable
  import opened Hashing

  datatype Option<T> = None | Some(value: T)

  // A cell as the shard stores it: a node with three bits of its key's hash beside it.
  datatype Stored = Empty | Tagged(tag: nat, node: nat)
  datatype Node = Node(key: Key, actionCount: nat)

  // A reservation concerns all shards at once; in one shard it only holds the lock.
  datatype Op = Find(key: Key) | GetOrCreate(key: Key, actionCount: nat) | Reserve(minimum: nat)
  // Failed is a lack of memory or a refusal by the node initialiser.
  datatype Result = NotFound | Found(node: nat) | Created(node: nat) | Mismatch | Failed

  datatype Phase =
    | Begin
    | Scanning(table: nat, probe: nat)
    | Loading(table: nat, index: nat)
    | Waiting
    | Holding
    | Allocated(node: nat)
    | Publishing(node: nat)
    | Leaving(result: Result, at: nat)

  // A finished operation: it began when the history had length since + 1, and took effect at at.
  datatype Answer = Answer(op: Op, since: nat, at: nat, result: Result)
  datatype Thread = Thread(ops: seq<Op>, phase: Phase, since: nat, answers: seq<Answer>)

  // The last table is the active one. The program's lock is one byte; whose it is, and the history
  // of the map after each step, are recorded for the statements below.
  datatype State = State(
    tables: seq<seq<Stored>>,
    nodes: seq<Node>,
    owner: Option<nat>,
    threads: seq<Thread>,
    past: seq<map<Key, nat>>)

  const MAX_CAPACITY: nat := 0x1000_0000_0000_0000

  function LoadLimit(capacity: nat): nat {
    capacity - capacity / 4
  }

  function CellOf(slot: Stored, nodes: seq<Node>): Cell {
    if slot.Tagged? && slot.node < |nodes| then Used(nodes[slot.node].key, slot.node) else Free
  }

  function Cells(slots: seq<Stored>, nodes: seq<Node>): (cells: seq<Cell>)
    ensures |cells| == |slots|
  {
    seq(|slots|, (i: nat) requires i < |slots| => CellOf(slots[i], nodes))
  }

  function SlotsOf(cells: seq<Cell>): (slots: seq<Stored>)
    ensures |slots| == |cells|
  {
    seq(|cells|, (i: nat) requires i < |cells| =>
      if cells[i].Used? then Tagged(Tag(cells[i].key), cells[i].node) else Empty)
  }

  // The comparison the probe makes: tags first, and the key itself only when they agree.
  predicate Matches(slot: Stored, nodes: seq<Node>, key: Key) {
    slot.Tagged? && slot.tag == Tag(key) && slot.node < |nodes| && nodes[slot.node].key == key
  }

  function Active(s: State): seq<Stored>
    requires s.tables != []
  {
    s.tables[|s.tables| - 1]
  }

  function Contents(s: State): map<Key, nat>
    requires s.past != []
  {
    s.past[|s.past| - 1]
  }

  // ---- The steps ----

  // Every step extends the history, whether or not it changes the map.
  function Tick(s: State): State {
    if s.past == [] then s else s.(past := s.past + [Contents(s)])
  }

  function WithPhase(s: State, t: nat, phase: Phase): State
    requires t < |s.threads|
  {
    Tick(s.(threads := s.threads[t := s.threads[t].(phase := phase)]))
  }

  function Finish(s: State, t: nat, at: nat, result: Result): State
    requires t < |s.threads| && s.threads[t].ops != []
  {
    var th := s.threads[t];
    var answer := Answer(th.ops[0], th.since, at, result);
    Tick(s.(threads := s.threads[t := Thread(th.ops[1..], Begin, 0, th.answers + [answer])]))
  }

  // The next step of thread t; ok says whether an allocation, or an initialiser, succeeds. None
  // when the thread has nothing left to do or waits for the lock.
  function Next(s: State, t: nat, ok: bool): Option<State>
    requires t < |s.threads|
  {
    var th := s.threads[t];
    if th.ops == [] || th.ops[0].Reserve? || s.past == [] || s.tables == [] then None else
      match th.phase
      case Begin => Some(NextBegin(s, t))
      case Scanning(table, probe) => if table < |s.tables| then Some(NextScanning(s, t, table, probe)) else None
      case Loading(table, index) =>
        if table < |s.tables| && index < |s.tables[table]| && s.tables[table][index].Tagged? then
          Some(NextLoading(s, t, s.tables[table][index].node))
        else None
      case Waiting =>
        if s.owner.None? then Some(WithPhase(s.(owner := Some(t)), t, Holding)) else None
      case Holding => Some(NextHolding(s, t, ok))
      case Allocated(node) => Some(NextAllocated(s, t, node, ok))
      case Publishing(node) => Some(NextPublishing(s, t, node))
      case Leaving(result, at) => Some(Finish(s.(owner := None), t, at, result))
  }

  // The one read of the active table that a lookup makes.
  function NextBegin(s: State, t: nat): State
    requires t < |s.threads| && s.threads[t].ops != [] && s.past != [] && s.tables != []
  {
    var th := s.threads[t];
    Tick(s.(threads := s.threads[t := th.(phase := Scanning(|s.tables| - 1, 0), since := |s.past| - 1)]))
  }

  function NextScanning(s: State, t: nat, table: nat, probe: nat): State
    requires t < |s.threads| && s.threads[t].ops != [] && table < |s.tables|
  {
    var th := s.threads[t];
    var slots := s.tables[table];
    var key := if th.ops[0].Reserve? then 0 else th.ops[0].key;
    if probe >= |slots| || slots[Slot(ShardHome(|slots|), |slots|, key, probe)].Empty? then
      if th.ops[0].Find? then Finish(s, t, th.since, NotFound) else WithPhase(s, t, Waiting)
    else
      var index := Slot(ShardHome(|slots|), |slots|, key, probe);
      if Matches(slots[index], s.nodes, key) then WithPhase(s, t, Loading(table, index))
      else WithPhase(s, t, Scanning(table, probe + 1))
  }

  // The answer for a key whose node is known.
  function Known(op: Op, nodes: seq<Node>, node: nat): Result {
    if op.GetOrCreate? && node < |nodes| && nodes[node].actionCount != op.actionCount then Mismatch else Result.Found(node)
  }

  function NextLoading(s: State, t: nat, node: nat): State
    requires t < |s.threads| && s.threads[t].ops != [] && s.past != []
  {
    Finish(s, t, |s.past| - 1, Known(s.threads[t].ops[0], s.nodes, node))
  }

  function Grown(s: State, capacity: nat): State
    requires s.tables != [] && capacity > 0
  {
    var cells := Cells(Active(s), s.nodes);
    s.(tables := s.tables + [SlotsOf(Rehashed(cells, ShardHome(capacity), capacity, |cells|))])
  }

  function TargetFor(minimum: nat, capacity: nat): nat
    decreases MAX_CAPACITY - capacity
  {
    if minimum <= LoadLimit(capacity) || capacity == 0 || 2 * capacity > MAX_CAPACITY then capacity
    else TargetFor(minimum, 2 * capacity)
  }

  // With the lock held nothing else can write, so the table is looked up again as a whole.
  function NextHolding(s: State, t: nat, ok: bool): State
    requires t < |s.threads| && s.threads[t].ops != [] && s.past != [] && s.tables != []
  {
    var now := |s.past| - 1;
    match s.threads[t].ops[0]
    case GetOrCreate(key, count) =>
      var cells := Cells(Active(s), s.nodes);
      if cells == [] then WithPhase(s, t, Leaving(Failed, now)) else
        var r := Locate(cells, ShardHome(|cells|), key);
        if r.Found? && r.index < |cells| && cells[r.index].Used? then
          WithPhase(s, t, Leaving(Known(s.threads[t].ops[0], s.nodes, cells[r.index].node), now))
        else if ok then
          WithPhase(s.(nodes := s.nodes + [Node(key, count)]), t, Allocated(|s.nodes|))
        else
          WithPhase(s, t, Leaving(Failed, now))
    case _ => WithPhase(s, t, Leaving(Failed, now))
  }

  // A table at its load limit is replaced before the key goes in. If it cannot be, the node goes.
  function NextAllocated(s: State, t: nat, node: nat, ok: bool): State
    requires t < |s.threads| && s.past != [] && s.tables != []
  {
    var capacity := |Active(s)|;
    if Count(Cells(Active(s), s.nodes)) < LoadLimit(capacity) then
      WithPhase(s, t, Publishing(node))
    else if ok && 0 < 2 * capacity <= MAX_CAPACITY then
      WithPhase(Grown(s, 2 * capacity), t, Publishing(node))
    else
      WithPhase(s.(nodes := if s.nodes == [] then [] else s.nodes[..|s.nodes| - 1]), t, Leaving(Failed, |s.past| - 1))
  }

  // The one store that makes the key visible.
  function NextPublishing(s: State, t: nat, node: nat): State
    requires t < |s.threads| && s.threads[t].ops != [] && s.past != [] && s.tables != []
  {
    var slots := Active(s);
    var key := if s.threads[t].ops[0].Reserve? then 0 else s.threads[t].ops[0].key;
    if slots == [] then WithPhase(s, t, Leaving(Failed, |s.past| - 1)) else
      var r := Locate(Cells(slots, s.nodes), ShardHome(|slots|), key);
      if !r.Vacant? || r.index >= |slots| then WithPhase(s, t, Leaving(Failed, |s.past| - 1)) else
        var th := s.threads[t].(phase := Leaving(Created(node), |s.past|));
        s.(tables := s.tables[|s.tables| - 1 := slots[r.index := Tagged(Tag(key), node)]],
           threads := s.threads[t := th],
           past := s.past + [Contents(s)[key := node]])
  }

  // ---- What every step keeps ----

  ghost predicate Within(m: map<Key, nat>, n: map<Key, nat>) {
    forall k :: k in m ==> k in n && n[k] == m[k]
  }

  // Every tag is that of its node's key, and every node in a table is the one the map knows.
  ghost predicate SlotOk(slot: Stored, nodes: seq<Node>, contents: map<Key, nat>) {
    slot.Tagged? ==>
      && slot.node < |nodes| && slot.tag == Tag(nodes[slot.node].key)
      && nodes[slot.node].key in contents && contents[nodes[slot.node].key] == slot.node
  }

  ghost predicate ShardTableOk(slots: seq<Stored>, nodes: seq<Node>, contents: map<Key, nat>) {
    && IsCapacity(|slots|) && |slots| <= MAX_CAPACITY
    && TableOk(Cells(slots, nodes), ShardHome(|slots|))
    && forall c: nat :: c < |slots| ==> SlotOk(slots[c], nodes, contents)
  }

  ghost predicate NodesOk(nodes: seq<Node>, contents: map<Key, nat>) {
    forall k :: k in contents ==> contents[k] < |nodes| && nodes[contents[k]].key == k
  }

  ghost predicate HasLock(phase: Phase) {
    phase.Holding? || phase.Allocated? || phase.Publishing? || phase.Leaving?
  }

  // The result of op is what the map gave it at instant at, which lies within the operation.
  ghost predicate AnswerOk(past: seq<map<Key, nat>>, nodes: seq<Node>, op: Op, since: nat, at: nat, result: Result) {
    && since <= at < |past|
    && match op
       case Reserve(_) => false
       case Find(key) =>
         (match result
          case Found(node) => key in past[at] && past[at][key] == node
          case NotFound => key !in past[at]
          case _ => false)
       case GetOrCreate(key, count) =>
         match result
         case Found(node) => key in past[at] && past[at][key] == node < |nodes| && nodes[node].actionCount == count
         case Mismatch => key in past[at] && past[at][key] < |nodes| && nodes[past[at][key]].actionCount != count
         case Created(node) =>
           && since < at && key !in past[at - 1] && past[at] == past[at - 1][key := node]
           && node < |nodes| && nodes[node] == Node(key, count)
         case Failed => key !in past[at]
         case _ => false
  }

  // What a lookup in progress knows: the probes so far met other keys, and all the keys of the map
  // when it began are in the table it reads.
  ghost predicate ScanOk(s: State, key: Key, since: nat, table: nat, probe: nat) {
    && table < |s.tables| && since < |s.past|
    && var cells := Cells(s.tables[table], s.nodes);
    && probe <= |cells| && |cells| > 0
    && Crowded(cells, ShardHome(|cells|), key, probe)
    && (forall j: nat :: j < probe ==> cells[Slot(ShardHome(|cells|), |cells|, key, j)].key != key)
    && AllIn(cells, s.past[since])
  }

  ghost predicate AllIn(cells: seq<Cell>, m: map<Key, nat>) {
    forall k :: k in m ==> Has(cells, k, m[k])
  }

  ghost predicate PhaseOk(s: State, t: nat)
    requires t < |s.threads| && s.past != [] && s.tables != []
  {
    var th, contents := s.threads[t], Contents(s);
    if th.ops == [] then th.phase.Begin? else
      var op := th.ops[0];
      match th.phase
      case Begin => true
      case Scanning(table, probe) => !op.Reserve? && ScanOk(s, op.key, th.since, table, probe)
      case Loading(table, index) =>
        && !op.Reserve? && th.since < |s.past|
        && table < |s.tables| && index < |s.tables[table]|
        && Cells(s.tables[table], s.nodes)[index].Used? && Cells(s.tables[table], s.nodes)[index].key == op.key
      case Waiting => !op.Find? && th.since < |s.past|
      case Holding => !op.Find? && th.since < |s.past|
      case Allocated(node) => NewNode(s, op, th.since, node)
      case Publishing(node) =>
        && NewNode(s, op, th.since, node)
        && Count(Cells(Active(s), s.nodes)) < LoadLimit(|Active(s)|)
      case Leaving(result, at) => AnswerOk(s.past, s.nodes, op, th.since, at, result)
  }

  // The node being made is the last, and its key is not in the map yet.
  ghost predicate NewNode(s: State, op: Op, since: nat, node: nat)
    requires s.past != []
  {
    && op.GetOrCreate? && since < |s.past|
    && node + 1 == |s.nodes| && s.nodes[node] == Node(op.key, op.actionCount) && op.key !in Contents(s)
  }

  ghost predicate AnswersOk(s: State, t: nat)
    requires t < |s.threads|
  {
    forall i: nat :: i < |s.threads[t].answers| ==>
      var a := s.threads[t].answers[i];
      AnswerOk(s.past, s.nodes, a.op, a.since, a.at, a.result)
  }

  ghost predicate OwnerOk(s: State, t: nat)
    requires t < |s.threads|
  {
    HasLock(s.threads[t].phase) <==> s.owner == Some(t)
  }

  ghost predicate Monotone(past: seq<map<Key, nat>>) {
    forall i: nat, j: nat :: i <= j < |past| ==> Within(past[i], past[j])
  }

  ghost predicate TablesOk(s: State)
    requires s.past != [] && s.tables != []
  {
    && (forall i: nat :: i < |s.tables| ==> ShardTableOk(s.tables[i], s.nodes, Contents(s)))
    && Represents(Cells(Active(s), s.nodes), Contents(s))
    && Count(Cells(Active(s), s.nodes)) <= LoadLimit(|Active(s)|)
    && NodesOk(s.nodes, Contents(s))
  }

  ghost predicate Inv(s: State) {
    && s.past != [] && s.tables != []
    && TablesOk(s)
    && Monotone(s.past)
    && forall t: nat :: t < |s.threads| ==> PhaseOk(s, t) && AnswersOk(s, t) && OwnerOk(s, t)
  }

  // ---- Frames ----

  lemma MonotoneMore(past: seq<map<Key, nat>>, m: map<Key, nat>)
    requires past != [] && Monotone(past) && Within(past[|past| - 1], m)
    ensures Monotone(past + [m])
  {
    forall i: nat, j: nat | i <= j < |past + [m]| ensures Within((past + [m])[i], (past + [m])[j]) {
      if i < |past| && j == |past| {
        assert Within(past[i], past[|past| - 1]);
      }
    }
  }

  // Nodes that the map knows are still there.
  ghost predicate NodesKept(nodes: seq<Node>, nodes': seq<Node>, contents: map<Key, nat>) {
    forall n: nat :: n < |nodes| && nodes[n].key in contents && contents[nodes[n].key] == n ==> n < |nodes'| && nodes'[n] == nodes[n]
  }

  lemma AnswerKept(past: seq<map<Key, nat>>, m: map<Key, nat>, nodes: seq<Node>, nodes': seq<Node>, op: Op, since: nat, at: nat, result: Result)
    requires past != [] && Monotone(past) && NodesOk(nodes, past[|past| - 1]) && NodesKept(nodes, nodes', past[|past| - 1])
    requires AnswerOk(past, nodes, op, since, at, result)
    ensures AnswerOk(past + [m], nodes', op, since, at, result)
  {
    assert Within(past[at], past[|past| - 1]);
  }

  lemma AnswersKept(s: State, s': State, t: nat, m: map<Key, nat>)
    requires Inv(s) && t < |s.threads| && t < |s'.threads| && s'.threads[t].answers == s.threads[t].answers
    requires s'.past == s.past + [m] && NodesKept(s.nodes, s'.nodes, Contents(s))
    ensures AnswersOk(s', t)
  {
    assert AnswersOk(s, t);
    forall i: nat | i < |s'.threads[t].answers|
      ensures var a := s'.threads[t].answers[i]; AnswerOk(s'.past, s'.nodes, a.op, a.since, a.at, a.result)
    {
      var a := s.threads[t].answers[i];
      AnswerKept(s.past, m, s.nodes, s'.nodes, a.op, a.since, a.at, a.result);
    }
  }

  // Used cells keep their entries, in every table there is.
  ghost predicate CellsGrow(cells: seq<Cell>, cells': seq<Cell>) {
    |cells'| == |cells| && forall c: nat :: c < |cells| && cells[c].Used? ==> cells'[c] == cells[c]
  }

  ghost predicate TablesGrow(s: State, s': State) {
    && |s.tables| <= |s'.tables|
    && forall i: nat :: i < |s.tables| ==> CellsGrow(Cells(s.tables[i], s.nodes), Cells(s'.tables[i], s'.nodes))
  }

  lemma ScanKept(s: State, s': State, key: Key, since: nat, table: nat, probe: nat, m: map<Key, nat>)
    requires ScanOk(s, key, since, table, probe) && TablesGrow(s, s') && s'.past == s.past + [m]
    ensures ScanOk(s', key, since, table, probe)
  {
    var cells, cells' := Cells(s.tables[table], s.nodes), Cells(s'.tables[table], s'.nodes);
    assert CellsGrow(cells, cells');
    forall k | k in s.past[since] ensures Has(cells', k, s.past[since][k]) {
      assert Has(cells, k, s.past[since][k]);
      var c: nat :| c < |cells| && cells[c] == Used(k, s.past[since][k]);
      assert cells'[c] == cells[c];
    }
  }

  // A thread that does not hold the lock is not disturbed by one that does.
  lemma OtherKept(s: State, s': State, t: nat, u: nat, m: map<Key, nat>)
    requires Inv(s) && u < |s.threads| == |s'.threads| && s'.threads[u] == s.threads[u] && !HasLock(s.threads[u].phase)
    requires s'.past == s.past + [m] && s'.tables != [] && TablesGrow(s, s') && NodesKept(s.nodes, s'.nodes, Contents(s))
    ensures PhaseOk(s', u) && AnswersOk(s', u)
  {
    AnswersKept(s, s', u, m);
    assert PhaseOk(s, u);
    var th := s.threads[u];
    if th.ops != [] {
      match th.phase
      case Scanning(table, probe) =>
        ScanKept(s, s', th.ops[0].key, th.since, table, probe, m);
      case Loading(table, index) =>
        assert CellsGrow(Cells(s.tables[table], s.nodes), Cells(s'.tables[table], s'.nodes));
      case _ =>
    }
  }

  lemma SameCellsGrow(s: State, s': State)
    requires s'.tables == s.tables && s'.nodes == s.nodes
    ensures TablesGrow(s, s')
  {
  }

  // A step that changes only thread t, and perhaps takes or returns the lock.
  lemma PrivateKeeps(s: State, s': State, t: nat)
    requires Inv(s) && t < |s.threads| && s' == s.(threads := s'.threads, owner := s'.owner, past := s.past + [Contents(s)])
    requires |s'.threads| == |s.threads| && s'.threads == s.threads[t := s'.threads[t]]
    requires PhaseOk(s', t) && AnswersOk(s', t)
    requires s.owner == s'.owner || ((s.owner.None? || s.owner.value == t) && (s'.owner.None? || s'.owner.value == t))
    requires OwnerOk(s', t)
    ensures Inv(s')
  {
    MonotoneMore(s.past, Contents(s));
    SameCellsGrow(s, s');
    forall u: nat | u < |s'.threads| ensures PhaseOk(s', u) && AnswersOk(s', u) && OwnerOk(s', u) {
      assert OwnerOk(s, u) && PhaseOk(s, u);
      if u != t {
        if HasLock(s.threads[u].phase) {
          HolderKept(s, s', u);
        } else {
          OtherKept(s, s', t, u, Contents(s));
        }
      }
    }
  }

  lemma HolderKept(s: State, s': State, u: nat)
    requires Inv(s) && u < |s.threads| == |s'.threads| && s'.threads[u] == s.threads[u] && HasLock(s.threads[u].phase)
    requires s'.tables == s.tables && s'.nodes == s.nodes && s'.past == s.past + [Contents(s)]
    ensures PhaseOk(s', u) && AnswersOk(s', u)
  {
    AnswersKept(s, s', u, Contents(s));
    assert PhaseOk(s, u);
    var th := s.threads[u];
    if th.phase.Leaving? && th.ops != [] {
      AnswerKept(s.past, Contents(s), s.nodes, s'.nodes, th.ops[0], th.since, th.phase.at, th.phase.result);
    }
  }

  // A step of the lock's holder that adds to the tables, the nodes or the map.
  lemma HolderKeeps(s: State, s': State, t: nat, m: map<Key, nat>)
    requires Inv(s) && t < |s.threads| && s.owner == s'.owner == Some(t) && s'.past == s.past + [m] && Within(Contents(s), m)
    requires |s'.threads| == |s.threads| && s'.threads == s.threads[t := s'.threads[t]]
    requires s'.tables != [] && TablesGrow(s, s') && NodesKept(s.nodes, s'.nodes, Contents(s))
    requires TablesOk(s') && PhaseOk(s', t) && AnswersOk(s', t) && HasLock(s'.threads[t].phase)
    ensures Inv(s')
  {
    MonotoneMore(s.past, m);
    forall u: nat | u < |s'.threads| ensures PhaseOk(s', u) && AnswersOk(s', u) && OwnerOk(s', u) {
      assert OwnerOk(s, u);
      if u != t {
        OtherKept(s, s', t, u, m);
      }
    }
  }

  // ---- Lookups ----

  // The tag never turns away a matching key: with the tags in order, comparing tags first and then
  // keys is the same as comparing keys.
  lemma TagNeverRejects(slot: Stored, nodes: seq<Node>, contents: map<Key, nat>, key: Key)
    requires SlotOk(slot, nodes, contents)
    ensures Matches(slot, nodes, key) <==> CellOf(slot, nodes).Used? && CellOf(slot, nodes).key == key
  {
  }

  lemma BeginStep(s: State, t: nat)
    requires Inv(s) && t < |s.threads| && s.threads[t].ops != [] && s.threads[t].phase.Begin? && !s.threads[t].ops[0].Reserve?
    ensures Inv(NextBegin(s, t))
  {
    var s' := NextBegin(s, t);
    assert PhaseOk(s, t) && OwnerOk(s, t) && ShardTableOk(Active(s), s.nodes, Contents(s));
    CapacityRange(|Active(s)|);
    assert s'.past[|s.past| - 1] == Contents(s);
    AnswersKept(s, s', t, Contents(s));
    PrivateKeeps(s, s', t);
  }

  // When a probe ends without a match, the key was not in the map when the lookup began.
  lemma ScanMissed(s: State, key: Key, since: nat, table: nat, probe: nat)
    requires Inv(s) && ScanOk(s, key, since, table, probe)
    requires var cells := Cells(s.tables[table], s.nodes);
      probe < |cells| ==> cells[Slot(ShardHome(|cells|), |cells|, key, probe)].Free?
    ensures key !in s.past[since]
  {
    var cells := Cells(s.tables[table], s.nodes);
    assert ShardTableOk(s.tables[table], s.nodes, Contents(s));
    LocateIs(cells, ShardHome(|cells|), key, probe);
  }

  lemma FinishStep(s: State, s': State, t: nat, at: nat, result: Result)
    requires Inv(s) && t < |s.threads| && s.threads[t].ops != []
    requires s' == Finish(s.(owner := s'.owner), t, at, result)
    requires AnswerOk(s.past, s.nodes, s.threads[t].ops[0], s.threads[t].since, at, result)
    requires (s.owner == s'.owner && !HasLock(s.threads[t].phase)) || (s.owner == Some(t) && s'.owner.None?)
    ensures Inv(s')
  {
    var th := s.threads[t];
    assert OwnerOk(s, t) && AnswersOk(s, t);
    forall i: nat | i < |s'.threads[t].answers|
      ensures var a := s'.threads[t].answers[i]; AnswerOk(s'.past, s'.nodes, a.op, a.since, a.at, a.result)
    {
      if i < |th.answers| {
        var a := th.answers[i];
        AnswerKept(s.past, Contents(s), s.nodes, s.nodes, a.op, a.since, a.at, a.result);
      } else {
        AnswerKept(s.past, Contents(s), s.nodes, s.nodes, th.ops[0], th.since, at, result);
      }
    }
    PrivateKeeps(s, s', t);
  }

  // A private step to another phase of the same operation.
  lemma PhaseStep(s: State, t: nat, phase: Phase)
    requires Inv(s) && t < |s.threads| && s.threads[t].ops != []
    requires PhaseOk(WithPhase(s, t, phase), t) && (HasLock(phase) <==> HasLock(s.threads[t].phase))
    ensures Inv(WithPhase(s, t, phase))
  {
    var s' := WithPhase(s, t, phase);
    assert OwnerOk(s, t);
    AnswersKept(s, s', t, Contents(s));
    PrivateKeeps(s, s', t);
  }

  lemma ScanStep(s: State, t: nat, table: nat, probe: nat)
    requires Inv(s) && t < |s.threads| && s.threads[t].ops != [] && s.threads[t].phase == Scanning(table, probe) && table < |s.tables|
    ensures Inv(NextScanning(s, t, table, probe))
  {
    var th, slots := s.threads[t], s.tables[table];
    assert PhaseOk(s, t);
    var key := th.ops[0].key;
    var cells := Cells(slots, s.nodes);
    assert ShardTableOk(slots, s.nodes, Contents(s));
    var index := Slot(ShardHome(|slots|), |slots|, key, probe);
    assert SlotOk(slots[index], s.nodes, Contents(s));
    TagNeverRejects(slots[index], s.nodes, Contents(s), key);
    if probe >= |slots| || slots[index].Empty? {
      ScanMissed(s, key, th.since, table, probe);
      if th.ops[0].Find? {
        FinishStep(s, NextScanning(s, t, table, probe), t, th.since, NotFound);
      } else {
        PhaseStep(s, t, Waiting);
      }
    } else if Matches(slots[index], s.nodes, key) {
      PhaseStep(s, t, Loading(table, index));
    } else {
      var s' := WithPhase(s, t, Scanning(table, probe + 1));
      assert s'.past[th.since] == s.past[th.since];
      PhaseStep(s, t, Scanning(table, probe + 1));
    }
  }

  // A node found for a key answers the operation, now.
  lemma KnownIsRight(s: State, op: Op, since: nat, node: nat)
    requires Inv(s) && since < |s.past| && !op.Reserve? && op.key in Contents(s) && Contents(s)[op.key] == node
    ensures AnswerOk(s.past, s.nodes, op, since, |s.past| - 1, Known(op, s.nodes, node))
  {
  }

  lemma LoadStep(s: State, t: nat, table: nat, index: nat)
    requires Inv(s) && t < |s.threads| && s.threads[t].ops != [] && s.threads[t].phase == Loading(table, index)
    requires table < |s.tables| && index < |s.tables[table]| && s.tables[table][index].Tagged?
    ensures Inv(NextLoading(s, t, s.tables[table][index].node))
  {
    var th, node := s.threads[t], s.tables[table][index].node;
    assert PhaseOk(s, t) && ShardTableOk(s.tables[table], s.nodes, Contents(s));
    assert SlotOk(s.tables[table][index], s.nodes, Contents(s));
    KnownIsRight(s, th.ops[0], th.since, node);
    FinishStep(s, NextLoading(s, t, node), t, |s.past| - 1, Known(th.ops[0], s.nodes, node));
  }

  lemma LockStep(s: State, t: nat)
    requires Inv(s) && t < |s.threads| && s.threads[t].ops != [] && s.threads[t].phase.Waiting? && s.owner.None?
    ensures Inv(WithPhase(s.(owner := Some(t)), t, Holding))
  {
    var s' := WithPhase(s.(owner := Some(t)), t, Holding);
    assert PhaseOk(s, t);
    AnswersKept(s, s', t, Contents(s));
    PrivateKeeps(s, s', t);
  }

  lemma LeaveStep(s: State, t: nat, result: Result, at: nat)
    requires Inv(s) && t < |s.threads| && s.threads[t].ops != [] && s.threads[t].phase == Leaving(result, at)
    ensures Inv(Finish(s.(owner := None), t, at, result))
  {
    assert PhaseOk(s, t) && OwnerOk(s, t);
    FinishStep(s, Finish(s.(owner := None), t, at, result), t, at, result);
  }

  // ---- Writing ----

  lemma SlotsRoundTrip(cells: seq<Cell>, nodes: seq<Node>)
    requires forall c: nat :: c < |cells| && cells[c].Used? ==> cells[c].node < |nodes| && nodes[cells[c].node].key == cells[c].key
    ensures Cells(SlotsOf(cells), nodes) == cells
  {
  }

  // A sound table stays sound when its nodes are stored with their tags.
  lemma TaggedTableOk(cells: seq<Cell>, nodes: seq<Node>, m: map<Key, nat>)
    requires IsCapacity(|cells|) && |cells| <= MAX_CAPACITY
    requires TableOk(cells, ShardHome(|cells|)) && Represents(cells, m) && NodesOk(nodes, m)
    ensures Cells(SlotsOf(cells), nodes) == cells && ShardTableOk(SlotsOf(cells), nodes, m)
  {
    SlotsRoundTrip(cells, nodes);
  }

  // A replacement table stands for the same map, and is sound.
  lemma GrownOk(s: State, capacity: nat)
    requires Inv(s) && IsCapacity(capacity) && |Active(s)| < capacity <= MAX_CAPACITY
    ensures var slots := SlotsOf(Rehashed(Cells(Active(s), s.nodes), ShardHome(capacity), capacity, |Active(s)|));
      && ShardTableOk(slots, s.nodes, Contents(s))
      && Represents(Cells(slots, s.nodes), Contents(s))
      && Count(Cells(slots, s.nodes)) == Count(Cells(Active(s), s.nodes))
  {
    var old_cells := Cells(Active(s), s.nodes);
    assert ShardTableOk(Active(s), s.nodes, Contents(s));
    ShardHomeOk(capacity);
    RehashKeepsMap(old_cells, ShardHome(capacity), capacity, Contents(s));
    TaggedTableOk(Rehashed(old_cells, ShardHome(capacity), capacity, |old_cells|), s.nodes, Contents(s));
  }

  lemma DoubledLimit(capacity: nat, larger: nat)
    requires IsCapacity(capacity) && capacity < larger
    ensures LoadLimit(capacity) <= LoadLimit(larger)
    ensures larger == 2 * capacity ==> LoadLimit(capacity) < LoadLimit(larger)
  {
    CapacityRange(capacity);
  }

  lemma GrownTables(s: State, capacity: nat)
    requires Inv(s) && IsCapacity(capacity) && |Active(s)| < capacity <= MAX_CAPACITY
    ensures TablesOk(Grown(s, capacity)) && TablesGrow(s, Grown(s, capacity))
    ensures |Active(Grown(s, capacity))| == capacity
    ensures Count(Cells(Active(Grown(s, capacity)), s.nodes)) == Count(Cells(Active(s), s.nodes))
  {
    GrownOk(s, capacity);
    var s' := Grown(s, capacity);
    assert ShardTableOk(Active(s), s.nodes, Contents(s));
    DoubledLimit(|Active(s)|, capacity);
    forall i: nat | i < |s'.tables| ensures ShardTableOk(s'.tables[i], s'.nodes, Contents(s')) {
      if i < |s.tables| {
        assert ShardTableOk(s.tables[i], s.nodes, Contents(s));
      }
    }
  }

  // The lock's holder publishes a larger table and goes on.
  lemma GrowStep(s: State, t: nat, capacity: nat, phase: Phase)
    requires Inv(s) && t < |s.threads| && s.threads[t].ops != [] && s.owner == Some(t) && HasLock(phase)
    requires IsCapacity(capacity) && |Active(s)| < capacity <= MAX_CAPACITY
    requires PhaseOk(WithPhase(Grown(s, capacity), t, phase), t)
    ensures Inv(WithPhase(Grown(s, capacity), t, phase))
  {
    var s' := WithPhase(Grown(s, capacity), t, phase);
    GrownTables(s, capacity);
    AnswersKept(s, s', t, Contents(s));
    HolderKeeps(s, s', t, Contents(s));
  }

  lemma {:induction false} TargetIsCapacity(minimum: nat, capacity: nat)
    requires IsCapacity(capacity) && capacity <= MAX_CAPACITY
    ensures IsCapacity(TargetFor(minimum, capacity)) && capacity <= TargetFor(minimum, capacity) <= MAX_CAPACITY
    decreases MAX_CAPACITY - capacity
  {
    CapacityRange(capacity);
    if !(minimum <= LoadLimit(capacity) || 2 * capacity > MAX_CAPACITY) {
      DoubleCapacity(capacity);
      TargetIsCapacity(minimum, 2 * capacity);
    }
  }

  // Cells do not change when a node that no table refers to comes or goes.
  lemma SameCells(s: State, nodes': seq<Node>, i: nat)
    requires Inv(s) && i < |s.tables| && NodesKept(s.nodes, nodes', Contents(s))
    ensures Cells(s.tables[i], nodes') == Cells(s.tables[i], s.nodes)
    ensures ShardTableOk(s.tables[i], nodes', Contents(s))
  {
    assert ShardTableOk(s.tables[i], s.nodes, Contents(s));
    forall c: nat | c < |s.tables[i]| ensures CellOf(s.tables[i][c], nodes') == CellOf(s.tables[i][c], s.nodes) {
      assert SlotOk(s.tables[i][c], s.nodes, Contents(s));
    }
    assert Cells(s.tables[i], nodes') == Cells(s.tables[i], s.nodes);
    forall c: nat | c < |s.tables[i]| ensures SlotOk(s.tables[i][c], nodes', Contents(s)) {
      assert SlotOk(s.tables[i][c], s.nodes, Contents(s));
    }
  }

  // The lock's holder makes a node, or gives it back.
  lemma NodeStep(s: State, t: nat, nodes': seq<Node>, phase: Phase)
    requires Inv(s) && t < |s.threads| && s.threads[t].ops != [] && s.owner == Some(t) && HasLock(phase)
    requires NodesKept(s.nodes, nodes', Contents(s))
    requires PhaseOk(WithPhase(s.(nodes := nodes'), t, phase), t)
    ensures Inv(WithPhase(s.(nodes := nodes'), t, phase))
  {
    var s' := WithPhase(s.(nodes := nodes'), t, phase);
    forall i: nat | i < |s.tables|
      ensures ShardTableOk(s'.tables[i], s'.nodes, Contents(s')) && CellsGrow(Cells(s.tables[i], s.nodes), Cells(s'.tables[i], s'.nodes))
    {
      SameCells(s, nodes', i);
    }
    SameCells(s, nodes', |s.tables| - 1);
    AnswersKept(s, s', t, Contents(s));
    HolderKeeps(s, s', t, Contents(s));
  }

  // What the lock's holder does about a key: answers with its node, makes one, or gives up.
  ghost predicate CreateTurn(s: State, t: nat, ok: bool, s': State)
    requires t < |s.threads| && s.threads[t].ops != [] && s.threads[t].ops[0].GetOrCreate? && s.past != [] && s.tables != []
  {
    var op, now := s.threads[t].ops[0], |s.past| - 1;
    if op.key in Contents(s) then s' == WithPhase(s, t, Leaving(Known(op, s.nodes, Contents(s)[op.key]), now))
    else if ok then s' == WithPhase(s.(nodes := s.nodes + [Node(op.key, op.actionCount)]), t, Allocated(|s.nodes|))
    else s' == WithPhase(s, t, Leaving(Failed, now))
  }

  lemma HoldingTurn(s: State, t: nat, ok: bool)
    requires Inv(s) && t < |s.threads| && s.threads[t].ops != [] && s.threads[t].ops[0].GetOrCreate?
    ensures CreateTurn(s, t, ok, NextHolding(s, t, ok))
  {
    assert ShardTableOk(Active(s), s.nodes, Contents(s));
    var cells := Cells(Active(s), s.nodes);
    CapacityRange(|cells|);
    LocateFinds(cells, ShardHome(|cells|), Contents(s), s.threads[t].ops[0].key);
  }

  lemma HoldingCreate(s: State, t: nat, ok: bool)
    requires Inv(s) && t < |s.threads| && s.threads[t].ops != [] && s.threads[t].phase.Holding? && s.threads[t].ops[0].GetOrCreate?
    ensures Inv(NextHolding(s, t, ok))
  {
    var s' := NextHolding(s, t, ok);
    HoldingTurn(s, t, ok);
    HoldingKeeps(s, t, ok, s');
  }

  lemma HoldingKeeps(s: State, t: nat, ok: bool, s': State)
    requires Inv(s) && t < |s.threads| && s.threads[t].ops != [] && s.threads[t].phase.Holding? && s.threads[t].ops[0].GetOrCreate?
    requires CreateTurn(s, t, ok, s')
    ensures Inv(s')
  {
    var op := s.threads[t].ops[0];
    assert PhaseOk(s, t) && OwnerOk(s, t);
    if op.key in Contents(s) {
      HoldingFound(s, t, op, Contents(s)[op.key]);
    } else if ok {
      HoldingMakes(s, t, op);
    } else {
      PhaseStep(s, t, Leaving(Failed, |s.past| - 1));
    }
  }

  lemma HoldingFound(s: State, t: nat, op: Op, node: nat)
    requires Inv(s) && t < |s.threads| && s.threads[t].ops != [] && s.threads[t].phase.Holding? && s.threads[t].ops[0] == op
    requires op.GetOrCreate? && op.key in Contents(s) && Contents(s)[op.key] == node
    ensures Inv(WithPhase(s, t, Leaving(Known(op, s.nodes, node), |s.past| - 1)))
  {
    assert PhaseOk(s, t);
    var now, result := |s.past| - 1, Known(op, s.nodes, node);
    KnownIsRight(s, op, s.threads[t].since, node);
    AnswerKept(s.past, Contents(s), s.nodes, s.nodes, op, s.threads[t].since, now, result);
    PhaseStep(s, t, Leaving(result, now));
  }

  lemma HoldingMakes(s: State, t: nat, op: Op)
    requires Inv(s) && t < |s.threads| && s.threads[t].ops != [] && s.threads[t].phase.Holding? && s.threads[t].ops[0] == op
    requires op.GetOrCreate? && op.key !in Contents(s) && s.owner == Some(t)
    ensures Inv(WithPhase(s.(nodes := s.nodes + [Node(op.key, op.actionCount)]), t, Allocated(|s.nodes|)))
  {
    assert PhaseOk(s, t);
    NodeStep(s, t, s.nodes + [Node(op.key, op.actionCount)], Allocated(|s.nodes|));
  }

  lemma AllocatedGrows(s: State, t: nat, node: nat)
    requires Inv(s) && t < |s.threads| && s.threads[t].ops != [] && s.threads[t].phase == Allocated(node)
    requires 0 < 2 * |Active(s)| <= MAX_CAPACITY
    ensures Inv(WithPhase(Grown(s, 2 * |Active(s)|), t, Publishing(node)))
  {
    assert PhaseOk(s, t) && OwnerOk(s, t) && ShardTableOk(Active(s), s.nodes, Contents(s));
    var capacity := |Active(s)|;
    DoubleCapacity(capacity);
    DoubledLimit(capacity, 2 * capacity);
    GrownTables(s, 2 * capacity);
    GrowStep(s, t, 2 * capacity, Publishing(node));
  }

  lemma AllocatedGivesUp(s: State, t: nat, node: nat)
    requires Inv(s) && t < |s.threads| && s.threads[t].ops != [] && s.threads[t].phase == Allocated(node)
    ensures s.nodes != []
    ensures Inv(WithPhase(s.(nodes := s.nodes[..|s.nodes| - 1]), t, Leaving(Failed, |s.past| - 1)))
  {
    assert PhaseOk(s, t) && OwnerOk(s, t);
    NodeStep(s, t, s.nodes[..|s.nodes| - 1], Leaving(Failed, |s.past| - 1));
  }

  lemma AllocatedFits(s: State, t: nat, node: nat)
    requires Inv(s) && t < |s.threads| && s.threads[t].ops != [] && s.threads[t].phase == Allocated(node)
    requires Count(Cells(Active(s), s.nodes)) < LoadLimit(|Active(s)|)
    ensures Inv(WithPhase(s, t, Publishing(node)))
  {
    assert PhaseOk(s, t);
    PhaseStep(s, t, Publishing(node));
  }

  // What becomes of a new node: it can go in, after growth it can go in, or it goes away.
  ghost predicate AllocatedTurn(s: State, t: nat, node: nat, ok: bool, s': State)
    requires t < |s.threads| && s.past != [] && s.tables != [] && s.nodes != []
  {
    var capacity := |Active(s)|;
    if Count(Cells(Active(s), s.nodes)) < LoadLimit(capacity) then s' == WithPhase(s, t, Publishing(node))
    else if ok && 0 < 2 * capacity <= MAX_CAPACITY then s' == WithPhase(Grown(s, 2 * capacity), t, Publishing(node))
    else s' == WithPhase(s.(nodes := s.nodes[..|s.nodes| - 1]), t, Leaving(Failed, |s.past| - 1))
  }

  lemma AllocatedStep(s: State, t: nat, node: nat, ok: bool)
    requires Inv(s) && t < |s.threads| && s.threads[t].ops != [] && s.threads[t].phase == Allocated(node)
    ensures Inv(NextAllocated(s, t, node, ok))
  {
    assert PhaseOk(s, t);
    AllocatedKeeps(s, t, node, ok, NextAllocated(s, t, node, ok));
  }

  lemma AllocatedKeeps(s: State, t: nat, node: nat, ok: bool, s': State)
    requires Inv(s) && t < |s.threads| && s.threads[t].ops != [] && s.threads[t].phase == Allocated(node) && s.nodes != []
    requires AllocatedTurn(s, t, node, ok, s')
    ensures Inv(s')
  {
    var capacity := |Active(s)|;
    if Count(Cells(Active(s), s.nodes)) < LoadLimit(capacity) {
      AllocatedFits(s, t, node);
    } else if ok && 0 < 2 * capacity <= MAX_CAPACITY {
      AllocatedGrows(s, t, node);
    } else {
      AllocatedGivesUp(s, t, node);
    }
  }

  // What the store of the tagged node does to the tables.
  lemma PublishTables(s: State, slots: seq<Stored>, key: Key, node: nat, index: nat, s': State)
    requires Inv(s) && slots == Active(s) && key !in Contents(s) && node < |s.nodes| && s.nodes[node].key == key
    requires Count(Cells(slots, s.nodes)) < LoadLimit(|slots|) && index < |slots|
    requires |slots| > 0 && Locate(Cells(slots, s.nodes), ShardHome(|slots|), key) == Vacant(index)
    requires s'.tables == s.tables[|s.tables| - 1 := slots[index := Tagged(Tag(key), node)]] && s'.nodes == s.nodes
    requires s'.past == s.past + [Contents(s)[key := node]]
    ensures TablesOk(s') && TablesGrow(s, s')
  {
    var cells, after := Cells(slots, s.nodes), slots[index := Tagged(Tag(key), node)];
    assert ShardTableOk(slots, s.nodes, Contents(s));
    InsertOk(cells, ShardHome(|slots|), Contents(s), key, node);
    CountInsert(cells, index, Used(key, node));
    assert Cells(after, s.nodes) == cells[index := Used(key, node)];
    forall i: nat | i < |s'.tables| ensures ShardTableOk(s'.tables[i], s'.nodes, Contents(s')) {
      assert ShardTableOk(s.tables[i], s.nodes, Contents(s));
      forall c: nat | c < |s'.tables[i]| ensures SlotOk(s'.tables[i][c], s.nodes, Contents(s')) {
        assert SlotOk(s.tables[i][c], s.nodes, Contents(s));
      }
    }
  }

  // The store itself: the map gains the key at this instant, and at no other.
  lemma PublishStep(s: State, t: nat, node: nat)
    requires Inv(s) && t < |s.threads| && s.threads[t].ops != [] && s.threads[t].phase == Publishing(node)
    ensures Inv(NextPublishing(s, t, node))
  {
    assert PhaseOk(s, t) && OwnerOk(s, t) && ShardTableOk(Active(s), s.nodes, Contents(s));
    var slots, key, s' := Active(s), s.threads[t].ops[0].key, NextPublishing(s, t, node);
    var cells := Cells(slots, s.nodes);
    CapacityRange(|slots|);
    LocateFinds(cells, ShardHome(|slots|), Contents(s), key);
    NeverFull(cells, ShardHome(|slots|), key);
    var index := Locate(cells, ShardHome(|slots|), key).index;
    PublishTables(s, slots, key, node, index, s');
    AnswersKept(s, s', t, Contents(s)[key := node]);
    assert s'.past[|s.past| - 1] == Contents(s);
    HolderKeeps(s, s', t, Contents(s)[key := node]);
  }

  // Every step of every thread keeps the invariant.
  lemma NextKeeps(s: State, t: nat, ok: bool)
    requires Inv(s) && t < |s.threads| && Next(s, t, ok).Some?
    ensures Inv(Next(s, t, ok).value) && |Next(s, t, ok).value.threads| == |s.threads|
  {
    assert PhaseOk(s, t);
    match s.threads[t].phase
    case Begin => BeginStep(s, t);
    case Scanning(table, probe) => ScanStep(s, t, table, probe);
    case Loading(table, index) => LoadStep(s, t, table, index);
    case Waiting => LockStep(s, t);
    case Holding => HoldingCreate(s, t, ok);
    case Allocated(node) => AllocatedStep(s, t, node, ok);
    case Publishing(node) => PublishStep(s, t, node);
    case Leaving(result, at) => LeaveStep(s, t, result, at);
  }

  // ---- What the other shards, and reservations, do to this one ----

  // Time passes.
  lemma TickKeeps(s: State)
    requires Inv(s)
    ensures Inv(Tick(s))
  {
    var s' := Tick(s);
    MonotoneMore(s.past, Contents(s));
    SameCellsGrow(s, s');
    forall u: nat | u < |s'.threads| ensures PhaseOk(s', u) && AnswersOk(s', u) && OwnerOk(s', u) {
      assert OwnerOk(s, u);
      if HasLock(s.threads[u].phase) {
        HolderKept(s, s', u);
      } else {
        OtherKept(s, s', u, u, Contents(s));
      }
    }
  }

  function Given(s: State, t: nat, op: Op): State
    requires t < |s.threads|
  {
    s.(threads := s.threads[t := s.threads[t].(ops := [op])])
  }

  // An idle thread takes up an operation.
  lemma GivenKeeps(s: State, t: nat, op: Op)
    requires Inv(s) && t < |s.threads| && s.threads[t].ops == []
    ensures Inv(Given(s, t, op))
  {
    var s' := Given(s, t, op);
    assert PhaseOk(s, t) && OwnerOk(s, t) && AnswersOk(s, t);
    forall u: nat | u < |s'.threads| ensures PhaseOk(s', u) && AnswersOk(s', u) && OwnerOk(s', u) {
      assert PhaseOk(s, u) && AnswersOk(s, u) && OwnerOk(s, u);
    }
  }

  // An idle thread takes the lock for a reservation, and gives it back.
  function Taken(s: State, t: nat, op: Op): State
    requires t < |s.threads| && s.past != []
  {
    Tick(s.(owner := Some(t), threads := s.threads[t := s.threads[t].(ops := [op], phase := Holding, since := |s.past| - 1)]))
  }

  function Dropped(s: State, t: nat): State
    requires t < |s.threads|
  {
    Tick(s.(owner := None, threads := s.threads[t := s.threads[t].(ops := [], phase := Begin)]))
  }

  ghost predicate Reserving(s: State, t: nat, op: Op) {
    t < |s.threads| && op.Reserve? && s.owner == Some(t) && s.threads[t].ops == [op] && s.threads[t].phase.Holding?
  }

  lemma TakenKeeps(s: State, t: nat, op: Op)
    requires Inv(s) && t < |s.threads| && s.threads[t].ops == [] && s.owner.None? && op.Reserve?
    ensures Inv(Taken(s, t, op)) && Reserving(Taken(s, t, op), t, op)
  {
    var s' := Taken(s, t, op);
    AnswersKept(s, s', t, Contents(s));
    PrivateKeeps(s, s', t);
  }

  lemma DroppedKeeps(s: State, t: nat, op: Op)
    requires Inv(s) && Reserving(s, t, op)
    ensures Inv(Dropped(s, t))
  {
    var s' := Dropped(s, t);
    AnswersKept(s, s', t, Contents(s));
    PrivateKeeps(s, s', t);
  }

  // A replacement table, and its publication.
  function Replacement(s: State, capacity: nat): seq<Stored>
    requires s.tables != [] && capacity > 0
  {
    var cells := Cells(Active(s), s.nodes);
    SlotsOf(Rehashed(cells, ShardHome(capacity), capacity, |cells|))
  }

  function Replaced(s: State, table: seq<Stored>): State {
    Tick(s.(tables := s.tables + [table]))
  }

  lemma ReplacedKeeps(s: State, t: nat, op: Op, capacity: nat)
    requires Inv(s) && Reserving(s, t, op) && IsCapacity(capacity) && |Active(s)| < capacity <= MAX_CAPACITY
    ensures Inv(Replaced(s, Replacement(s, capacity))) && Reserving(Replaced(s, Replacement(s, capacity)), t, op)
    ensures |Active(Replaced(s, Replacement(s, capacity)))| == capacity
  {
    assert PhaseOk(s, t);
    GrownTables(s, capacity);
    GrowStep(s, t, capacity, Holding);
    assert WithPhase(Grown(s, capacity), t, Holding) == Replaced(s, Replacement(s, capacity));
  }

  // A step changes its own thread only, whose finished operations stay as they are.
  ghost predicate Local(s: State, s': State, t: nat)
    requires t < |s.threads|
  {
    && |s'.threads| == |s.threads| && s'.threads == s.threads[t := s'.threads[t]]
    && |s'.past| == |s.past| + 1 && s'.past[..|s.past|] == s.past
    && (s'.owner == s.owner || s'.owner == Some(t) || s'.owner.None?)
  }

  // A step that publishes nothing leaves the map as it is.
  ghost predicate Quiet(s: State, s': State, t: nat)
    requires t < |s.threads| && s.past != []
  {
    Local(s, s', t) && s'.past == s.past + [Contents(s)]
  }

  lemma HoldingIsQuiet(s: State, t: nat, ok: bool)
    requires t < |s.threads| && s.threads[t].ops != [] && s.past != [] && s.tables != []
    ensures Quiet(s, NextHolding(s, t, ok), t)
  {
  }

  lemma AllocatedIsQuiet(s: State, t: nat, node: nat, ok: bool)
    requires t < |s.threads| && s.past != [] && s.tables != []
    ensures Quiet(s, NextAllocated(s, t, node, ok), t)
  {
  }

  lemma ScanningIsQuiet(s: State, t: nat, table: nat, probe: nat)
    requires t < |s.threads| && s.threads[t].ops != [] && table < |s.tables| && s.past != []
    ensures Quiet(s, NextScanning(s, t, table, probe), t)
  {
  }

  lemma PublishingIsLocal(s: State, t: nat, node: nat)
    requires t < |s.threads| && s.threads[t].ops != [] && s.past != [] && s.tables != []
    ensures Local(s, NextPublishing(s, t, node), t)
  {
  }

  lemma QuietContents(s: State, t: nat, ok: bool)
    requires t < |s.threads| && s.past != [] && !s.threads[t].phase.Publishing? && Next(s, t, ok).Some?
    ensures Quiet(s, Next(s, t, ok).value, t)
  {
    match s.threads[t].phase
    case Scanning(table, probe) => ScanningIsQuiet(s, t, table, probe);
    case Holding => HoldingIsQuiet(s, t, ok);
    case Allocated(node) => AllocatedIsQuiet(s, t, node, ok);
    case _ =>
  }

  lemma NextIsLocal(s: State, t: nat, ok: bool)
    requires t < |s.threads| && Next(s, t, ok).Some?
    ensures Local(s, Next(s, t, ok).value, t)
  {
    if s.threads[t].phase.Publishing? {
      PublishingIsLocal(s, t, s.threads[t].phase.node);
    } else {
      QuietContents(s, t, ok);
    }
  }

  ghost predicate Extends<T>(a: seq<T>, b: seq<T>) {
    |a| <= |b| && b[..|a|] == a
  }

  // An operation under way goes on, or is finished and becomes the last answer.
  lemma NextAnswers(s: State, t: nat, ok: bool, op: Op)
    requires Inv(s) && t < |s.threads| && s.threads[t].ops == [op] && Next(s, t, ok).Some?
    ensures var s' := Next(s, t, ok).value; var th := s'.threads[t];
      && (th.ops == [op] ==> th.answers == s.threads[t].answers)
      && (th.ops != [op] ==> (th.ops == [] && |th.answers| == |s.threads[t].answers| + 1
                              && Extends(s.threads[t].answers, th.answers)
                              && th.answers[|th.answers| - 1].op == op))
  {
    assert PhaseOk(s, t);
  }

  // While one thread holds the lock, the others change neither tables, nodes nor lock.
  lemma OthersOnlyRead(s: State, t: nat, ok: bool)
    requires Inv(s) && t < |s.threads| && s.owner.Some? && s.owner.value != t && Next(s, t, ok).Some?
    ensures var s' := Next(s, t, ok).value; s'.tables == s.tables && s'.nodes == s.nodes && s'.owner == s.owner
  {
    assert PhaseOk(s, t) && OwnerOk(s, t);
  }

  // A lookup never waits, and the lock's holder can always go on.
  lemma OnlyTheLockStops(s: State, t: nat, ok: bool)
    requires Inv(s) && t < |s.threads| && s.threads[t].ops != [] && !s.threads[t].ops[0].Reserve?
    requires s.threads[t].phase.Waiting? ==> s.owner.None?
    ensures Next(s, t, ok).Some?
  {
    assert PhaseOk(s, t);
  }

  // A step adds no key to the map but that of the operation.
  ghost predicate OnlyGains(m: map<Key, nat>, m': map<Key, nat>, op: Op) {
    forall k :: k in m' ==> k in m || (!op.Reserve? && k == op.key)
  }

  lemma NextContents(s: State, t: nat, ok: bool, op: Op)
    requires Inv(s) && t < |s.threads| && s.threads[t].ops == [op] && Next(s, t, ok).Some?
    ensures Next(s, t, ok).value.past != [] && OnlyGains(Contents(s), Contents(Next(s, t, ok).value), op)
  {
    NextIsLocal(s, t, ok);
    if s.threads[t].phase.Publishing? {
      PublishContents(s, t, s.threads[t].phase.node, op);
    } else {
      QuietContents(s, t, ok);
    }
  }

  lemma PublishContents(s: State, t: nat, node: nat, op: Op)
    requires s.past != [] && s.tables != [] && t < |s.threads| && s.threads[t].ops == [op] && !op.Reserve?
    ensures NextPublishing(s, t, node).past != [] && OnlyGains(Contents(s), Contents(NextPublishing(s, t, node)), op)
  {
  }

  // ---- A fresh shard ----

  function Ready(workers: nat): (threads: seq<Thread>)
    ensures |threads| == workers
  {
    seq(workers, t => Thread([], Begin, 0, []))
  }

  // A prepared shard: a sound table for the nodes there are, and threads about to use it.
  function Start(slots: seq<Stored>, nodes: seq<Node>, contents: map<Key, nat>, workers: nat): State {
    State([slots], nodes, None, Ready(workers), [contents])
  }

  ghost predicate StartOk(slots: seq<Stored>, nodes: seq<Node>, contents: map<Key, nat>) {
    && ShardTableOk(slots, nodes, contents) && NodesOk(nodes, contents)
    && Represents(Cells(slots, nodes), contents) && Count(Cells(slots, nodes)) <= LoadLimit(|slots|)
  }

  lemma StartsOk(slots: seq<Stored>, nodes: seq<Node>, contents: map<Key, nat>, workers: nat)
    requires StartOk(slots, nodes, contents)
    ensures Inv(Start(slots, nodes, contents, workers))
  {
  }

  // What any table says, active or retired, the map says too, and the active table.
  lemma TablesAgree(s: State, i: nat, c: nat)
    requires Inv(s) && i < |s.tables| && c < |s.tables[i]| && Cells(s.tables[i], s.nodes)[c].Used?
    ensures var cell := Cells(s.tables[i], s.nodes)[c];
      cell.key in Contents(s) && Contents(s)[cell.key] == cell.node && Has(Cells(Active(s), s.nodes), cell.key, cell.node)
  {
    assert ShardTableOk(s.tables[i], s.nodes, Contents(s)) && SlotOk(s.tables[i][c], s.nodes, Contents(s));
  }

  // ---- Preparing a shard from the sequential table ----

  function ShardCells(cells: seq<Cell>, shard: nat): (r: seq<Cell>)
    ensures |r| == |cells|
  {
    seq(|cells|, (i: nat) requires i < |cells| => if cells[i].Used? && ShardOf(cells[i].key) == shard then cells[i] else Free)
  }

  function ShardMap(m: map<Key, nat>, shard: nat): map<Key, nat> {
    map k | k in m && ShardOf(k) == shard :: m[k]
  }

  lemma PartRepresents(cells: seq<Cell>, m: map<Key, nat>, shard: nat)
    requires Represents(cells, m)
    ensures Represents(ShardCells(cells, shard), ShardMap(m, shard))
  {
    var part := ShardCells(cells, shard);
    forall k | k in ShardMap(m, shard) ensures Has(part, k, m[k]) {
      assert Has(cells, k, m[k]);
      var c: nat :| c < |cells| && cells[c] == Used(k, m[k]);
      assert part[c] == cells[c];
    }
  }

  lemma {:induction false} PartIsSmaller(cells: seq<Cell>, shard: nat)
    ensures Count(ShardCells(cells, shard)) <= Count(cells)
    decreases |cells|
  {
    if cells != [] {
      var n := |cells| - 1;
      PartIsSmaller(cells[..n], shard);
      assert ShardCells(cells, shard)[..n] == ShardCells(cells[..n], shard);
    }
  }

  // The capacity a shard starts with: at least its part of the old table's, and enough for its nodes.
  function BaseCapacity(capacity: nat): nat {
    if capacity / SHARD_COUNT < 8 then 8 else capacity / SHARD_COUNT
  }

  function PreparedCapacity(cells: seq<Cell>, shard: nat): nat {
    TargetFor(Count(ShardCells(cells, shard)), BaseCapacity(|cells|))
  }

  lemma BaseIsCapacity(capacity: nat)
    requires IsCapacity(capacity)
    ensures IsCapacity(BaseCapacity(capacity)) && BaseCapacity(capacity) <= capacity
  {
    var k: nat :| 3 <= k < 64 && capacity == Pow2(k);
    assert Pow2(3) == 8;
    CapacityRange(capacity);
    Quartered(k);
    SmallPowers();
    if k < 5 {
      Pow2Grows(k, 4);
    }
  }

  lemma SmallPowers()
    ensures Pow2(4) == 16 && Pow2(3) == 8
  {
    assert Pow2(4) == 2 * Pow2(3);
  }

  lemma Quartered(k: nat)
    requires k >= 2
    ensures Pow2(k) / SHARD_COUNT == Pow2(k - 2)
  {
    assert Pow2(k) == 2 * Pow2(k - 1);
    assert Pow2(k - 1) == 2 * Pow2(k - 2);
  }

  lemma PowersApart(capacity: nat, limit: nat)
    requires IsCapacity(capacity) && IsCapacity(limit) && capacity < limit
    ensures 2 * capacity <= limit
  {
    var j: nat :| 3 <= j < 64 && capacity == Pow2(j);
    var k: nat :| 3 <= k < 64 && limit == Pow2(k);
    if k <= j {
      Pow2Grows(k, j);
    } else {
      Pow2Grows(j + 1, k);
    }
  }

  // Doubling finds a capacity for whatever fits a larger one.
  lemma {:induction false} TargetIsEnough(minimum: nat, capacity: nat, limit: nat)
    requires IsCapacity(capacity) && IsCapacity(limit) && capacity <= limit <= MAX_CAPACITY && minimum <= LoadLimit(limit)
    ensures minimum <= LoadLimit(TargetFor(minimum, capacity))
    decreases limit - capacity
  {
    CapacityRange(capacity);
    if minimum > LoadLimit(capacity) {
      PowersApart(capacity, limit);
      DoubleCapacity(capacity);
      TargetIsEnough(minimum, 2 * capacity, limit);
    }
  }

  function PreparedSlots(cells: seq<Cell>, shard: nat): seq<Stored> {
    var capacity := PreparedCapacity(cells, shard);
    if capacity == 0 then [] else SlotsOf(Rehashed(ShardCells(cells, shard), ShardHome(capacity), capacity, |cells|))
  }

  // Distributing a sound sequential table gives each shard a sound table for exactly its keys, at the
  // capacity the code chooses, which is always enough.
  lemma PreparedIsOk(cells: seq<Cell>, home: Home, m: map<Key, nat>, nodes: seq<Node>, shard: nat)
    requires TableOk(cells, home) && Represents(cells, m) && NodesOk(nodes, m)
    requires IsCapacity(|cells|) && |cells| <= MAX_CAPACITY && Count(cells) <= LoadLimit(|cells|)
    ensures Count(ShardCells(cells, shard)) <= LoadLimit(PreparedCapacity(cells, shard))
    ensures StartOk(PreparedSlots(cells, shard), nodes, ShardMap(m, shard))
  {
    var part, capacity := ShardCells(cells, shard), PreparedCapacity(cells, shard);
    PartIsSmaller(cells, shard);
    BaseIsCapacity(|cells|);
    TargetIsEnough(Count(part), BaseCapacity(|cells|), |cells|);
    TargetIsCapacity(Count(part), BaseCapacity(|cells|));
    CapacityRange(capacity);
    ShardHomeOk(capacity);
    PartRepresents(cells, m, shard);
    RehashKeepsMap(part, ShardHome(capacity), capacity, ShardMap(m, shard));
    TaggedTableOk(Rehashed(part, ShardHome(capacity), capacity, |part|), nodes, ShardMap(m, shard));
  }
}
