// The table of a traversal's workspace, from nodes to the numbers of their entries: open addressing over
// entry numbers, rebuilt from the entries whenever it is three quarters full.
module IndexTable {
  import opened ProbeTable

  const INITIAL_CAPACITY: nat := 64

  // The cell where probing for a node begins; a node is named by its key.
  function HomeFor(hash: Key -> nat, capacity: nat): Home {
    (k: Key) => if capacity == 0 then 0 else hash(k) % capacity
  }

  lemma HomeForOk(hash: Key -> nat, capacity: nat)
    requires capacity > 0
    ensures HomeOk(HomeFor(hash, capacity), capacity)
  {
  }

  // Entries beyond this many make the table grow.
  function Limit(capacity: nat): nat {
    capacity - capacity / 4
  }

  // The table stands for the map, which has n keys, and is not too full.
  ghost predicate Holds(cells: seq<Cell>, hash: Key -> nat, table: map<Key, nat>, n: nat) {
    && |cells| >= INITIAL_CAPACITY
    && TableOk(cells, HomeFor(hash, |cells|)) && Represents(cells, table)
    && Count(cells) == n <= Limit(|cells|)
  }

  // Quantified so that only proofs that name the number of keys look inside.
  ghost predicate IndexOk(cells: seq<Cell>, hash: Key -> nat, table: map<Key, nat>) {
    forall n: nat :: n == |table| ==> Holds(cells, hash, table, n)
  }

  lemma HoldsRoom(cells: seq<Cell>, hash: Key -> nat, table: map<Key, nat>)
    requires IndexOk(cells, hash, table)
    ensures INITIAL_CAPACITY <= |cells| && |table| <= Limit(|cells|)
    ensures |cells| % 4 == 0 ==> 4 * Limit(|cells|) == 3 * |cells|
  {
    assert Holds(cells, hash, table, |table|);
  }

  lemma BlankOk(hash: Key -> nat, capacity: nat)
    requires capacity >= INITIAL_CAPACITY
    ensures IndexOk(Blank(capacity), hash, map[]) && Count(Blank(capacity)) == 0
  {
    HomeForOk(hash, capacity);
    CountBlank(Blank(capacity));
  }

  method Probe(cells: seq<Cell>, hash: Key -> nat, key: Key) returns (r: Located)
    requires |cells| > 0
    ensures r == Locate(cells, HomeFor(hash, |cells|), key)
  {
    var home := HomeFor(hash, |cells|);
    for i := 0 to |cells|
      invariant Locate(cells, home, key) == LocateFrom(cells, home, key, i)
    {
      var c := Slot(home, |cells|, key, i);
      if cells[c].Free? {
        return Vacant(c);
      }
      if cells[c].key == key {
        return Found(c);
      }
    }
    return Full;
  }

  // A lookup finds the entry of the node, or the free cell where it would go.
  lemma ProbeFinds(cells: seq<Cell>, hash: Key -> nat, table: map<Key, nat>, key: Key)
    requires IndexOk(cells, hash, table)
    ensures |cells| > 0
    ensures var r := Locate(cells, HomeFor(hash, |cells|), key);
      && !r.Full? && r.index < |cells| && (r.Found? <==> key in table)
      && (r.Found? ==> cells[r.index] == Used(key, table[key]))
  {
    assert Holds(cells, hash, table, |table|);
    LocateFinds(cells, HomeFor(hash, |cells|), table, key);
    NeverFull(cells, HomeFor(hash, |cells|), key);
  }

  // Writing an entry's number into that cell adds the node to what the table stands for.
  lemma EnteredOk(cells: seq<Cell>, hash: Key -> nat, table: map<Key, nat>, key: Key, index: nat)
    requires IndexOk(cells, hash, table) && key !in table && |table| < Limit(|cells|)
    ensures |cells| > 0
    ensures var r := Locate(cells, HomeFor(hash, |cells|), key);
      r.Vacant? && r.index < |cells| && IndexOk(cells[r.index := Used(key, index)], hash, table[key := index])
  {
    assert Holds(cells, hash, table, |table|);
    ProbeFinds(cells, hash, table, key);
    InsertOk(cells, HomeFor(hash, |cells|), table, key, index);
    CountInsert(cells, Locate(cells, HomeFor(hash, |cells|), key).index, Used(key, index));
  }

  // ---- Growing ----

  // The first n keys, each with its number.
  function Numbered(keys: seq<Key>, n: nat): map<Key, nat>
    requires n <= |keys|
  {
    if n == 0 then map[] else Numbered(keys, n - 1)[keys[n - 1] := n - 1]
  }

  ghost predicate AllDiffer(keys: seq<Key>) {
    forall i: nat, j: nat :: i < j < |keys| ==> keys[i] != keys[j]
  }

  lemma {:induction false} NumberedIs(keys: seq<Key>, n: nat)
    requires n <= |keys| && AllDiffer(keys)
    ensures |Numbered(keys, n)| == n
    ensures forall k :: k in Numbered(keys, n) ==> Numbered(keys, n)[k] < n && keys[Numbered(keys, n)[k]] == k
    ensures forall i: nat :: i < n ==> keys[i] in Numbered(keys, n) && Numbered(keys, n)[keys[i]] == i
    decreases n
  {
    if n > 0 {
      NumberedIs(keys, n - 1);
    }
  }

  // A larger table holds every entry's number again; the entries themselves say which there are.
  method Rebuild(keys: seq<Key>, hash: Key -> nat, capacity: nat) returns (cells: seq<Cell>)
    requires AllDiffer(keys) && capacity >= INITIAL_CAPACITY && |keys| <= Limit(capacity)
    ensures |cells| == capacity && IndexOk(cells, hash, Numbered(keys, |keys|))
  {
    cells := Blank(capacity);
    BlankOk(hash, capacity);
    for e := 0 to |keys|
      invariant |cells| == capacity && IndexOk(cells, hash, Numbered(keys, e))
    {
      NumberedIs(keys, e);
      EnteredOk(cells, hash, Numbered(keys, e), keys[e], e);
      var r := Probe(cells, hash, keys[e]);
      cells := cells[r.index := Used(keys[e], e)];
    }
  }
}
