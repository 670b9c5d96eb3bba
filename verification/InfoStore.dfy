// The sequential information store: an open-addressed table that grows, and an arena that owns the
// nodes, never moves them and takes back what a failed insertion used.
module InfoStore {
  import opened ProbeTable
  import opened Hashing

  datatype Status = Success | InvalidArgument | OutOfMemory | NotFound | InitializerFailed(code: int)

  const SIZE_MAX: nat := WORD - 1
  const INITIAL_CAPACITY: nat := 8
  const ENTRY_SIZE: nat := 16
  const NODE_HEADER: nat := 40
  const NODE_ALIGNMENT: nat := 8
  const BLOCK_HEADER: nat := 48
  const BLOCK_CAPACITY: nat := 1048576

  datatype Block = Block(capacity: nat, used: nat)
  // A node's place in the arena is its identity; the learning arrays follow it there.
  datatype Node = Node(key: Key, actionCount: nat, block: nat, offset: nat)

  function NodeSize(actionCount: nat): nat {
    NODE_HEADER + 16 * actionCount
  }

  function Align(n: nat): (a: nat)
    ensures n <= a < n + NODE_ALIGNMENT && a % NODE_ALIGNMENT == 0
  {
    ((n + NODE_ALIGNMENT - 1) / NODE_ALIGNMENT) * NODE_ALIGNMENT
  }

  // ---- The arena ----

  ghost predicate NodeOk(blocks: seq<Block>, n: Node) {
    && n.block < |blocks|
    && n.offset % NODE_ALIGNMENT == 0
    && n.offset + NodeSize(n.actionCount) <= blocks[n.block].used <= blocks[n.block].capacity
  }

  ghost predicate Disjoint(m: Node, n: Node) {
    m.block == n.block ==> m.offset + NodeSize(m.actionCount) <= n.offset || n.offset + NodeSize(n.actionCount) <= m.offset
  }

  // The nodes lie in used parts of their blocks and do not overlap.
  ghost predicate ArenaOk(blocks: seq<Block>, nodes: seq<Node>) {
    && (forall i: nat :: i < |nodes| ==> NodeOk(blocks, nodes[i]))
    && (forall i: nat, j: nat :: i < j < |nodes| ==> Disjoint(nodes[i], nodes[j]))
  }

  // Where the arena stood: how many blocks, and how much of the newest was used.
  datatype Mark = Mark(count: nat, used: nat)

  function MarkOf(blocks: seq<Block>): Mark {
    Mark(|blocks|, if blocks == [] then 0 else blocks[|blocks| - 1].used)
  }

  // Frees the blocks made since the mark, and the rest of the newest one before them.
  function RolledBack(blocks: seq<Block>, mark: Mark): seq<Block>
    requires mark.count <= |blocks|
  {
    var kept := blocks[..mark.count];
    if kept == [] then kept else kept[mark.count - 1 := kept[mark.count - 1].(used := mark.used)]
  }

  // What the arena looks like once a node of this size has been given room.
  function Roomier(blocks: seq<Block>, size: nat): (r: (seq<Block>, nat, nat))
    ensures r.1 < |r.0|
  {
    var last := |blocks| - 1;
    if blocks != [] && Align(blocks[last].used) <= blocks[last].capacity
       && size <= blocks[last].capacity - Align(blocks[last].used)
    then
      var offset := Align(blocks[last].used);
      (blocks[last := blocks[last].(used := offset + size)], last, offset)
    else
      var capacity := if size > BLOCK_CAPACITY then size else BLOCK_CAPACITY;
      (blocks + [Block(capacity, size)], |blocks|, 0)
  }

  // A new node overlaps none of the others, and the others stay where they are.
  lemma AllocationIsFresh(blocks: seq<Block>, nodes: seq<Node>, key: Key, count: nat)
    requires ArenaOk(blocks, nodes)
    ensures var (blocks', b, offset) := Roomier(blocks, NodeSize(count));
      && ArenaOk(blocks', nodes + [Node(key, count, b, offset)])
      && blocks'[b].used == offset + NODE_HEADER + 8 * count + 8 * count
  {
    var (blocks', b, offset) := Roomier(blocks, NodeSize(count));
    var nodes' := nodes + [Node(key, count, b, offset)];
    forall i: nat | i < |nodes'| ensures NodeOk(blocks', nodes'[i]) {
      if i < |nodes| {
        assert NodeOk(blocks, nodes[i]);
      }
    }
    forall i: nat, j: nat | i < j < |nodes'| ensures Disjoint(nodes'[i], nodes'[j]) {
      assert NodeOk(blocks, nodes[i]);
      if j < |nodes| {
        assert Disjoint(nodes[i], nodes[j]);
      }
    }
  }

  // Rolling back to the mark taken before an allocation restores the arena exactly.
  lemma RollbackRestores(blocks: seq<Block>, size: nat)
    ensures MarkOf(blocks).count <= |Roomier(blocks, size).0|
    ensures RolledBack(Roomier(blocks, size).0, MarkOf(blocks)) == blocks
  {
  }

  // ---- The store ----

  function LoadLimit(capacity: nat): nat {
    capacity - capacity / 4
  }

  class InfoStore {
    var entries: array<Cell>
    var size: nat
    var growthCount: nat
    var blocks: seq<Block>
    var nodes: seq<Node>
    // The map that the table stands for, from keys to places in nodes.
    ghost var contents: map<Key, nat>

    ghost predicate Valid()
      reads this, entries
    {
      && IsCapacity(entries.Length)
      && TableOk(entries[..], HomeOf(entries.Length))
      && Represents(entries[..], contents)
      && size == Count(entries[..]) <= LoadLimit(entries.Length)
      && ArenaOk(blocks, nodes)
      && (forall k :: k in contents ==> contents[k] < |nodes| && nodes[contents[k]].key == k && nodes[contents[k]].actionCount > 0)
    }

    // Nothing that a caller could observe has changed.
    twostate predicate Untouched()
      reads this, entries
    {
      && contents == old(contents) && nodes == old(nodes) && blocks == old(blocks) && size == old(size)
      && growthCount == old(growthCount) && entries == old(entries) && entries[..] == old(entries[..])
    }

    constructor ()
      ensures Valid() && contents == map[] && nodes == []
    {
      entries := new Cell[INITIAL_CAPACITY](_ => Free);
      size, growthCount, blocks, nodes, contents := 0, 0, [], [], map[];
      new;
      assert Pow2(3) == INITIAL_CAPACITY;
      assert IsCapacity(INITIAL_CAPACITY);
      HomeOfOk(INITIAL_CAPACITY);
      CountBlank(entries[..]);
    }

    // There is always a free cell, so no lookup runs out of cells.
    lemma AlwaysRoom(key: Key)
      requires Valid()
      ensures !ProbeTable.Locate(entries[..], HomeOf(entries.Length), key).Full?
    {
      CapacityRange(entries.Length);
      NeverFull(entries[..], HomeOf(entries.Length), key);
    }

    method Locate(key: Key) returns (r: Located)
      requires Valid()
      ensures r == ProbeTable.Locate(entries[..], HomeOf(entries.Length), key)
      ensures !r.Full?
      ensures key in contents <==> r.Found?
      ensures r.Found? ==> r.index < entries.Length && entries[r.index] == Used(key, contents[key])
    {
      AlwaysRoom(key);
      LocateFinds(entries[..], HomeOf(entries.Length), contents, key);
      r := LocateIn(entries, key);
    }

    method Find(key: Key) returns (status: Status, node: nat)
      requires Valid()
      ensures status == if key in contents then Success else NotFound
      ensures status == Success ==> node == contents[key] < |nodes| && nodes[node].key == key
    {
      var r := Locate(key);
      if r.Found? {
        return Success, entries[r.index].node;
      }
      return NotFound, 0;
    }

    // Moves the table to a larger array. The nodes stay where they are. memory says whether the
    // allocation succeeds.
    method Rebuild(capacity: nat, memory: bool) returns (status: Status)
      requires Valid() && IsCapacity(capacity) && capacity > entries.Length
      modifies this`entries, this`growthCount
      ensures status == if capacity > SIZE_MAX / ENTRY_SIZE || !memory then OutOfMemory else Success
      ensures Valid()
      ensures status != Success ==> entries == old(entries) && growthCount == old(growthCount)
      ensures status == Success ==> entries.Length == capacity && fresh(entries) && growthCount == old(growthCount) + 1
    {
      if capacity > SIZE_MAX / ENTRY_SIZE || !memory {
        return OutOfMemory;
      }
      HomeOfOk(capacity);
      ghost var old_cells := entries[..];
      var fresh_entries := Carry(entries, capacity);
      RehashKeepsMap(old_cells, HomeOf(capacity), capacity, contents);
      CapacityRange(capacity);
      CapacityRange(entries.Length);
      entries := fresh_entries;
      growthCount := growthCount + 1;
      status := Success;
    }

    // Room for a node in the newest block, or in a new one. memory says whether a new block could
    // be had.
    method Allocate(key: Key, actionCount: nat, memory: bool) returns (status: Status)
      requires Valid()
      modifies this`blocks, this`nodes
      ensures Valid()
      ensures status == Success || status == OutOfMemory || status == InvalidArgument
      ensures status != Success ==> blocks == old(blocks) && nodes == old(nodes)
      ensures status == Success ==> blocks == Roomier(old(blocks), NodeSize(actionCount)).0
      ensures status == Success ==> |nodes| == |old(nodes)| + 1 && nodes[..|old(nodes)|] == old(nodes)
      ensures actionCount <= (SIZE_MAX - NODE_HEADER) / 16 && NodeSize(actionCount) <= SIZE_MAX - BLOCK_HEADER && memory ==>
        status == Success
      ensures status == Success ==> nodes[|old(nodes)|].key == key && nodes[|old(nodes)|].actionCount == actionCount
    {
      if actionCount > (SIZE_MAX - NODE_HEADER) / 16 {
        return InvalidArgument;
      }
      var (blocks', b, offset) := Roomier(blocks, NodeSize(actionCount));
      if |blocks'| > |blocks| && (blocks'[b].capacity > SIZE_MAX - BLOCK_HEADER || !memory) {
        return OutOfMemory;
      }
      AllocationIsFresh(blocks, nodes, key, actionCount);
      nodes := nodes + [Node(key, actionCount, b, offset)];
      blocks := blocks';
      status := Success;
    }

    // Takes back the node allocated last, after which the arena is as it was at the mark.
    method Rollback(mark: Mark, ghost blocks0: seq<Block>, ghost nodes0: seq<Node>)
      requires Valid() && mark.count <= |blocks| && nodes != []
      requires RolledBack(blocks, mark) == blocks0 && nodes[..|nodes| - 1] == nodes0
      requires ArenaOk(blocks0, nodes0) && forall k :: k in contents ==> contents[k] < |nodes0|
      modifies this`blocks, this`nodes
      ensures Valid() && blocks == blocks0 && nodes == nodes0
    {
      blocks := blocks[..mark.count];
      if blocks != [] {
        blocks := blocks[mark.count - 1 := blocks[mark.count - 1].(used := mark.used)];
      }
      nodes := nodes[..|nodes| - 1];
    }

    // Finds the node of key, or makes one. Either a node is there afterwards, new only if the key
    // was absent and at a place no other node has, or nothing has changed.
    method GetOrCreate(key: Key, actionCount: nat, blockMemory: bool, tableMemory: bool, initialized: Status)
      returns (status: Status, node: nat)
      requires Valid()
      modifies this, entries
      ensures Valid()
      ensures status != Success ==> Untouched()
      ensures status == Success && key in old(contents) ==> Untouched() && node == contents[key]
      ensures key in old(contents) ==>
        status == if actionCount > 0 && old(nodes)[old(contents)[key]].actionCount == actionCount then Success else InvalidArgument
      ensures status == Success && key !in old(contents) ==>
        && node == |old(nodes)| && contents == old(contents)[key := node]
        && |nodes| == |old(nodes)| + 1 && nodes[..|old(nodes)|] == old(nodes)
        && nodes[node].key == key && nodes[node].actionCount == actionCount && size == old(size) + 1
      ensures old(size) < LoadLimit(old(entries).Length) ==> entries == old(entries)
      ensures entries == old(entries) || fresh(entries)
      ensures key !in old(contents) && 0 < actionCount <= (SIZE_MAX - NODE_HEADER) / 16
              && blockMemory && tableMemory && initialized == Success
              && NodeSize(actionCount) <= SIZE_MAX - BLOCK_HEADER && 2 * old(entries).Length <= SIZE_MAX / ENTRY_SIZE
              ==> status == Success
      ensures status == Success && key !in old(contents) ==>
        entries.Length == if 4 * old(size) < 3 * old(entries).Length then old(entries).Length else 2 * old(entries).Length
    {
      if actionCount == 0 {
        return InvalidArgument, 0;
      }
      var r := Locate(key);
      if r.Found? {
        node := entries[r.index].node;
        if nodes[node].actionCount != actionCount {
          return InvalidArgument, 0;
        }
        return Success, node;
      }
      status, node := Create(key, actionCount, blockMemory, tableMemory, initialized);
    }

    // The key is absent: a node is allocated, initialised and entered, or all of that is undone.
    method Create(key: Key, actionCount: nat, blockMemory: bool, tableMemory: bool, initialized: Status)
      returns (status: Status, node: nat)
      requires Valid() && key !in contents && actionCount > 0
      modifies this, entries
      ensures Valid()
      ensures status != Success ==> Untouched()
      ensures status == Success ==>
        && node == |old(nodes)| && contents == old(contents)[key := node]
        && |nodes| == |old(nodes)| + 1 && nodes[..|old(nodes)|] == old(nodes)
        && nodes[node].key == key && nodes[node].actionCount == actionCount && size == old(size) + 1
      ensures old(size) < LoadLimit(old(entries).Length) ==> entries == old(entries)
      ensures entries == old(entries) || fresh(entries)
      ensures actionCount <= (SIZE_MAX - NODE_HEADER) / 16 && blockMemory && tableMemory && initialized == Success
              && NodeSize(actionCount) <= SIZE_MAX - BLOCK_HEADER && 2 * old(entries).Length <= SIZE_MAX / ENTRY_SIZE
              ==> status == Success
      ensures status == Success ==>
        entries.Length == if 4 * old(size) < 3 * old(entries).Length then old(entries).Length else 2 * old(entries).Length
    {
      var mark := MarkOf(blocks);
      node := |nodes|;
      status := Allocate(key, actionCount, blockMemory);
      if status != Success {
        return;
      }
      RollbackRestores(old(blocks), NodeSize(actionCount));
      status := initialized;
      if status == Success {
        status := Enter(key, node, tableMemory);
      }
      if status != Success {
        Rollback(mark, old(blocks), old(nodes));
        node := 0;
      }
    }

    // Enters the key, after growing the table if it has to.
    method Enter(key: Key, node: nat, memory: bool) returns (status: Status)
      requires Valid() && key !in contents && node < |nodes| && nodes[node].key == key && nodes[node].actionCount > 0
      modifies this`entries, this`growthCount, this`size, this`contents, entries
      ensures Valid()
      ensures status != Success ==>
        entries == old(entries) && entries[..] == old(entries[..]) && growthCount == old(growthCount) && size == old(size)
        && contents == old(contents)
      ensures status == Success ==> contents == old(contents)[key := node] && size == old(size) + 1
      ensures old(size) < LoadLimit(old(entries).Length) ==> entries == old(entries)
      ensures entries == old(entries) || fresh(entries)
      ensures memory && 2 * old(entries).Length <= SIZE_MAX / ENTRY_SIZE ==> status == Success
      ensures status == Success ==>
        entries.Length == if 4 * old(size) < 3 * old(entries).Length then old(entries).Length else 2 * old(entries).Length
    {
      status := MakeRoom(key, memory);
      if status == Success {
        var r := Locate(key);
        Insert(key, r, node);
      }
    }

    // Doubles the table when it has reached its load limit.
    method MakeRoom(key: Key, memory: bool) returns (status: Status)
      requires Valid()
      modifies this`entries, this`growthCount
      ensures Valid()
      ensures status != Success ==> entries == old(entries) && growthCount == old(growthCount) && status == OutOfMemory
      ensures status == Success ==> size < LoadLimit(entries.Length)
      ensures size < LoadLimit(old(entries).Length) ==> entries == old(entries) && growthCount == old(growthCount) && status == Success
      ensures entries == old(entries) || fresh(entries)
      ensures memory && 2 * old(entries).Length <= SIZE_MAX / ENTRY_SIZE ==> status == Success
      ensures status == Success ==> entries.Length == if 4 * size < 3 * old(entries).Length then old(entries).Length else 2 * old(entries).Length
    {
      CapacityRange(entries.Length);
      if size < LoadLimit(entries.Length) {
        return Success;
      }
      if entries.Length > SIZE_MAX / 2 {
        return OutOfMemory;
      }
      DoubleCapacity(entries.Length);
      status := Rebuild(2 * entries.Length, memory);
    }

    // Writes the key and its node to the vacant cell where the lookup ended.
    method Insert(key: Key, r: Located, node: nat)
      requires Valid() && size < LoadLimit(entries.Length) && key !in contents
      requires r == ProbeTable.Locate(entries[..], HomeOf(entries.Length), key)
      requires node < |nodes| && nodes[node].key == key && nodes[node].actionCount > 0
      modifies this`size, this`contents, entries
      ensures Valid() && contents == old(contents)[key := node] && size == old(size) + 1
    {
      AlwaysRoom(key);
      LocateFinds(entries[..], HomeOf(entries.Length), contents, key);
      ghost var cells := entries[..];
      InsertOk(cells, HomeOf(entries.Length), contents, key, node);
      CountInsert(cells, r.index, Used(key, node));
      entries[r.index] := Used(key, node);
      assert entries[..] == cells[r.index := Used(key, node)];
      size := size + 1;
      contents := contents[key := node];
    }

    // Grows the table until the wanted number of nodes fits without growing again.
    method Reserve(minimum: nat, memory: bool) returns (status: Status)
      requires Valid()
      modifies this`entries, this`growthCount
      ensures Valid() && (status == Success || status == OutOfMemory)
      ensures status == Success ==> minimum <= LoadLimit(entries.Length)
      ensures status != Success ==> entries == old(entries) && growthCount == old(growthCount)
      ensures minimum <= LoadLimit(old(entries).Length) ==> status == Success && entries == old(entries)
      ensures entries == old(entries) || fresh(entries)
      ensures memory && Attainable(minimum) ==> status == Success
    {
      var target;
      status, target := TargetCapacity(minimum, entries.Length);
      if Attainable(minimum) {
        TargetIsAttainable(minimum, entries.Length, target);
      }
      if status == Success && target != entries.Length {
        status := Rebuild(target, memory);
      }
    }
  }

  // Some table that can be had admits so many nodes.
  ghost predicate Attainable(minimum: nat) {
    exists capacity: nat :: IsCapacity(capacity) && capacity <= SIZE_MAX / ENTRY_SIZE && minimum <= LoadLimit(capacity)
  }

  // A doubling whose half would not do is no larger than any capacity that does.
  lemma NoLargerThanNeeded(minimum: nat, target: nat, capacity: nat)
    requires IsCapacity(target) && IsCapacity(capacity) && minimum > LoadLimit(target / 2) && minimum <= LoadLimit(capacity)
    ensures target <= capacity
  {
    var j: nat :| 3 <= j < 64 && target == Pow2(j);
    var k: nat :| 3 <= k < 64 && capacity == Pow2(k);
    assert Pow2(j) == 2 * Pow2(j - 1);
    if j <= k {
      Pow2Grows(j, k);
    } else {
      Pow2Grows(k, j - 1);
    }
  }

  lemma TargetIsAttainable(minimum: nat, capacity: nat, target: nat)
    requires IsCapacity(capacity) && IsCapacity(target) && capacity <= target && Attainable(minimum)
    requires target > capacity ==> minimum > LoadLimit(target / 2)
    ensures minimum > LoadLimit(capacity) || target > capacity ==> target <= SIZE_MAX / ENTRY_SIZE
  {
    var enough: nat :| IsCapacity(enough) && enough <= SIZE_MAX / ENTRY_SIZE && minimum <= LoadLimit(enough);
    if target > capacity {
      NoLargerThanNeeded(minimum, target, enough);
    }
  }

  // The smallest doubling of a capacity whose load limit admits the wanted number of nodes.
  method TargetCapacity(minimum: nat, capacity: nat) returns (status: Status, target: nat)
    requires IsCapacity(capacity)
    ensures status == Success || status == OutOfMemory
    ensures IsCapacity(target) && target >= capacity
    ensures status == Success ==> minimum <= LoadLimit(target)
    ensures target > capacity ==> target % 2 == 0 && minimum > LoadLimit(target / 2)
    ensures target > capacity ==> minimum > LoadLimit(capacity)
    ensures status == OutOfMemory ==> minimum > LoadLimit(capacity) && target > SIZE_MAX / 2
  {
    target := capacity;
    while minimum > LoadLimit(target)
      invariant IsCapacity(target) && target >= capacity
      invariant target > capacity ==> target % 2 == 0 && minimum > LoadLimit(target / 2) && minimum > LoadLimit(capacity)
      decreases WORD - target
    {
      CapacityRange(target);
      if target > SIZE_MAX / 2 {
        return OutOfMemory, target;
      }
      DoubleCapacity(target);
      target := 2 * target;
    }
    status := Success;
  }

  // A new array holding every entry of the old one, carried over in cell order.
  method Carry(entries: array<Cell>, capacity: nat) returns (carried: array<Cell>)
    requires capacity > entries.Length && HomeOk(HomeOf(capacity), capacity) && Distinct(entries[..])
    ensures fresh(carried) && carried.Length == capacity
    ensures carried[..] == Rehashed(entries[..], HomeOf(capacity), capacity, entries.Length)
  {
    var home := HomeOf(capacity);
    carried := new Cell[capacity](_ => Free);
    ghost var cells := entries[..];
    assert carried[..] == Blank(capacity);
    for i := 0 to entries.Length
      invariant entries[..] == cells && carried[..] == Rehashed(cells, home, capacity, i)
    {
      RehashedOk(cells, home, capacity, i);
      if entries[i].Used? {
        var r := LocateIn(carried, entries[i].key);
        LocateFinds(carried[..], home, MapOf(cells, i), entries[i].key);
        carried[r.index] := entries[i];
      }
    }
  }

  // The probe itself, over any array of cells.
  method LocateIn(entries: array<Cell>, key: Key) returns (r: Located)
    requires entries.Length > 0
    ensures r == ProbeTable.Locate(entries[..], HomeOf(entries.Length), key)
  {
    var home := HomeOf(entries.Length);
    for i := 0 to entries.Length
      invariant ProbeTable.Locate(entries[..], home, key) == LocateFrom(entries[..], home, key, i)
    {
      var c := Slot(home, entries.Length, key, i);
      if entries[c].Free? {
        return Vacant(c);
      }
      if entries[c].key == key {
        return Found(c);
      }
    }
    return Full;
  }
}
