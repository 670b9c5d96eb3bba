// Linear probing in an open-addressed table: where a key may be, how it is found, and why an
// insertion, or a lookup that races with one, never misses it.
module ProbeTable {

  type Key = int

  // node identifies the node that the cell refers to.
  datatype Cell = Free | Used(key: Key, node: nat)

  datatype Located = Found(index: nat) | Vacant(index: nat) | Full

  // The cell where probing for a key begins, by key.
  type Home = Key -> nat

  ghost predicate HomeOk(home: Home, capacity: nat) {
    capacity > 0 && forall k: Key :: home(k) < capacity
  }

  // The i-th cell of the probe for key.
  function Slot(home: Home, capacity: nat, key: Key, i: nat): (c: nat)
    requires capacity > 0
    ensures c < capacity
  {
    (home(key) + i) % capacity
  }

  // The first n probes for key meet only used cells.
  ghost predicate Crowded(cells: seq<Cell>, home: Home, key: Key, n: nat)
    requires |cells| > 0
  {
    forall j: nat :: j < n ==> cells[Slot(home, |cells|, key, j)].Used?
  }

  // The key in cell c can be reached: no free cell comes before it on its probe.
  ghost predicate Reachable(cells: seq<Cell>, home: Home, c: nat)
    requires c < |cells|
  {
    cells[c].Used? ==>
      exists i: nat :: i < |cells| && Slot(home, |cells|, cells[c].key, i) == c && Crowded(cells, home, cells[c].key, i)
  }

  ghost predicate Distinct(cells: seq<Cell>) {
    forall c: nat, d: nat :: c < |cells| && d < |cells| && cells[c].Used? && cells[d].Used? && cells[c].key == cells[d].key ==> c == d
  }

  ghost predicate TableOk(cells: seq<Cell>, home: Home) {
    && HomeOk(home, |cells|)
    && Distinct(cells)
    && forall c: nat :: c < |cells| ==> Reachable(cells, home, c)
  }

  ghost predicate Has(cells: seq<Cell>, key: Key, node: nat) {
    exists c: nat :: c < |cells| && cells[c] == Used(key, node)
  }

  // The table stands for the map m.
  ghost predicate Represents(cells: seq<Cell>, m: map<Key, nat>) {
    && (forall c: nat :: c < |cells| && cells[c].Used? ==> cells[c].key in m && m[cells[c].key] == cells[c].node)
    && (forall k :: k in m ==> Has(cells, k, m[k]))
  }

  // What probing for key from the i-th cell on finds.
  function LocateFrom(cells: seq<Cell>, home: Home, key: Key, i: nat): Located
    requires |cells| > 0 && i <= |cells|
    decreases |cells| - i
  {
    if i == |cells| then Full
    else
      var c := Slot(home, |cells|, key, i);
      match cells[c]
      case Free => Vacant(c)
      case Used(k, _) => if k == key then Found(c) else LocateFrom(cells, home, key, i + 1)
  }

  function Locate(cells: seq<Cell>, home: Home, key: Key): Located
    requires |cells| > 0
  {
    LocateFrom(cells, home, key, 0)
  }

  // ---- Probing visits every cell once ----

  lemma RemainderIs(a: nat, q: nat, r: nat, m: nat)
    requires r < m && a == q * m + r
    ensures a % m == r
  {
    var d := a / m - q;
    assert a % m == a - (a / m) * m == r - d * m;
    MultipleIsFar(d, m);
  }

  lemma MultipleIsFar(d: int, m: nat)
    ensures d > 0 ==> d * m >= m
    ensures d < 0 ==> d * m + m <= 0
  {
  }

  // Every cell is on the probe of every key.
  lemma SlotFor(home: Home, capacity: nat, key: Key, c: nat) returns (i: nat)
    requires HomeOk(home, capacity) && c < capacity
    ensures i < capacity && Slot(home, capacity, key, i) == c
  {
    var h := home(key);
    if c >= h {
      i := c - h;
      RemainderIs(h + i, 0, c, capacity);
    } else {
      i := capacity + c - h;
      RemainderIs(h + i, 1, c, capacity);
    }
  }

  // ---- Lookup ----

  lemma {:induction false} LocateIs(cells: seq<Cell>, home: Home, key: Key, i: nat)
    requires TableOk(cells, home) && i <= |cells| && Crowded(cells, home, key, i)
    requires forall j: nat :: j < i ==> cells[Slot(home, |cells|, key, j)].key != key
    ensures match LocateFrom(cells, home, key, i)
      case Found(c) => c < |cells| && cells[c].Used? && cells[c].key == key
      case Vacant(c) => c < |cells| && cells[c].Free?
                        && exists n: nat :: n < |cells| && Slot(home, |cells|, key, n) == c && Crowded(cells, home, key, n)
      case Full => forall c: nat :: c < |cells| ==> cells[c].Used?
    ensures !LocateFrom(cells, home, key, i).Found? ==> forall c: nat :: c < |cells| && cells[c].Used? ==> cells[c].key != key
    decreases |cells| - i
  {
    if i == |cells| {
      forall c: nat | c < |cells| ensures cells[c].Used? && cells[c].key != key {
        var j := SlotFor(home, |cells|, key, c);
      }
    } else {
      var c := Slot(home, |cells|, key, i);
      if cells[c].Used? && cells[c].key != key {
        LocateIs(cells, home, key, i + 1);
      } else if cells[c].Free? {
        forall d: nat | d < |cells| && cells[d].Used? ensures cells[d].key != key {
          assert Reachable(cells, home, d);
        }
      }
    }
  }

  // A lookup finds exactly what the table stands for; anything else means the key is absent.
  lemma LocateFinds(cells: seq<Cell>, home: Home, m: map<Key, nat>, key: Key)
    requires TableOk(cells, home) && Represents(cells, m)
    ensures key in m <==> Locate(cells, home, key).Found?
    ensures key in m ==> Locate(cells, home, key).index < |cells| && cells[Locate(cells, home, key).index] == Used(key, m[key])
    ensures Locate(cells, home, key).Vacant? ==>
      Locate(cells, home, key).index < |cells| && cells[Locate(cells, home, key).index].Free?
    ensures Locate(cells, home, key).Full? ==> forall c: nat :: c < |cells| ==> cells[c].Used?
  {
    LocateIs(cells, home, key, 0);
    if key in m {
      assert Has(cells, key, m[key]);
    }
  }

  // ---- Insertion ----

  lemma CrowdedStays(cells: seq<Cell>, home: Home, key: Key, n: nat, c: nat, cell: Cell)
    requires |cells| > 0 && Crowded(cells, home, key, n) && c < |cells| && cell.Used?
    ensures Crowded(cells[c := cell], home, key, n)
  {
  }

  // Filling the vacant cell where the lookup ended keeps every key reachable.
  lemma InsertOk(cells: seq<Cell>, home: Home, m: map<Key, nat>, key: Key, node: nat)
    requires TableOk(cells, home) && Represents(cells, m) && Locate(cells, home, key).Vacant?
    ensures key !in m && Locate(cells, home, key).index < |cells| && cells[Locate(cells, home, key).index].Free?
    ensures var after := cells[Locate(cells, home, key).index := Used(key, node)];
      TableOk(after, home) && Represents(after, m[key := node])
  {
    LocateFinds(cells, home, m, key);
    LocateIs(cells, home, key, 0);
    var c := Locate(cells, home, key).index;
    var after := cells[c := Used(key, node)];
    forall d: nat | d < |after| ensures Reachable(after, home, d) {
      if d == c {
        var n: nat :| n < |cells| && Slot(home, |cells|, key, n) == c && Crowded(cells, home, key, n);
        CrowdedStays(cells, home, key, n, c, Used(key, node));
      } else if cells[d].Used? {
        assert Reachable(cells, home, d);
        var n: nat :| n < |cells| && Slot(home, |cells|, cells[d].key, n) == d && Crowded(cells, home, cells[d].key, n);
        CrowdedStays(cells, home, cells[d].key, n, c, Used(key, node));
      }
    }
    InsertRepresents(cells, m, c, key, node);
  }

  lemma InsertRepresents(cells: seq<Cell>, m: map<Key, nat>, c: nat, key: Key, node: nat)
    requires Represents(cells, m) && c < |cells| && cells[c].Free? && key !in m
    ensures Represents(cells[c := Used(key, node)], m[key := node])
  {
    var after, m' := cells[c := Used(key, node)], m[key := node];
    forall k | k in m' ensures Has(after, k, m'[k]) {
      if k == key {
        assert after[c] == Used(key, node);
      } else {
        assert Has(cells, k, m[k]);
        var d: nat :| d < |cells| && cells[d] == Used(k, m[k]);
        assert after[d] == Used(k, m[k]);
      }
    }
  }

  // ---- Counting ----

  function Count(cells: seq<Cell>): (n: nat)
    ensures n <= |cells|
    decreases |cells|
  {
    if cells == [] then 0 else Count(cells[..|cells| - 1]) + if cells[|cells| - 1].Used? then 1 else 0
  }

  lemma {:induction false} CountInsert(cells: seq<Cell>, c: nat, cell: Cell)
    requires c < |cells| && cells[c].Free? && cell.Used?
    ensures Count(cells[c := cell]) == Count(cells) + 1
    decreases |cells|
  {
    var after := cells[c := cell];
    if c == |cells| - 1 {
      assert after[..|cells| - 1] == cells[..|cells| - 1];
    } else {
      assert after[..|cells| - 1] == cells[..|cells| - 1][c := cell];
      CountInsert(cells[..|cells| - 1], c, cell);
    }
  }

  lemma {:induction false} CountFull(cells: seq<Cell>)
    requires forall c: nat :: c < |cells| ==> cells[c].Used?
    ensures Count(cells) == |cells|
    decreases |cells|
  {
    if cells != [] {
      CountFull(cells[..|cells| - 1]);
    }
  }

  // A table with a free cell is never found full.
  lemma NeverFull(cells: seq<Cell>, home: Home, key: Key)
    requires TableOk(cells, home) && Count(cells) < |cells|
    ensures !Locate(cells, home, key).Full?
  {
    LocateIs(cells, home, key, 0);
    if Locate(cells, home, key).Full? {
      CountFull(cells);
    }
  }

  // ---- A fresh table ----

  function Blank(capacity: nat): (cells: seq<Cell>)
    ensures |cells| == capacity && forall c: nat :: c < capacity ==> cells[c].Free?
  {
    seq(capacity, i => Free)
  }

  lemma {:induction false} CountBlank(cells: seq<Cell>)
    requires forall c: nat :: c < |cells| ==> cells[c].Free?
    ensures Count(cells) == 0
    decreases |cells|
  {
    if cells != [] {
      CountBlank(cells[..|cells| - 1]);
    }
  }

  // Two maps that one table stands for are the same map.
  lemma RepresentsUnique(cells: seq<Cell>, m: map<Key, nat>, m': map<Key, nat>)
    requires Represents(cells, m) && Represents(cells, m')
    ensures m == m'
  {
    forall k | k in m ensures k in m' && m'[k] == m[k] {
      assert Has(cells, k, m[k]);
    }
    forall k | k in m' ensures k in m {
      assert Has(cells, k, m'[k]);
    }
  }

  // ---- Moving a table to another capacity ----

  // The keys of the first n cells.
  function MapOf(cells: seq<Cell>, n: nat): map<Key, nat>
    requires n <= |cells|
  {
    if n == 0 then map[] else
      match cells[n - 1]
      case Free => MapOf(cells, n - 1)
      case Used(k, node) => MapOf(cells, n - 1)[k := node]
  }

  lemma {:induction false} MapOfHas(cells: seq<Cell>, n: nat)
    requires Distinct(cells) && n <= |cells|
    ensures forall c: nat :: c < n && cells[c].Used? ==> cells[c].key in MapOf(cells, n) && MapOf(cells, n)[cells[c].key] == cells[c].node
    ensures forall k :: k in MapOf(cells, n) ==> exists c: nat :: c < n && cells[c] == Used(k, MapOf(cells, n)[k])
  {
    if n > 0 {
      MapOfHas(cells, n - 1);
      forall k | k in MapOf(cells, n) ensures exists c: nat :: c < n && cells[c] == Used(k, MapOf(cells, n)[k]) {
        if cells[n - 1].Used? && k == cells[n - 1].key {
          assert cells[n - 1] == Used(k, MapOf(cells, n)[k]);
        } else {
          var c: nat :| c < n - 1 && cells[c] == Used(k, MapOf(cells, n - 1)[k]);
        }
      }
    }
  }

  lemma MapOfRepresents(cells: seq<Cell>)
    requires Distinct(cells)
    ensures Represents(cells, MapOf(cells, |cells|))
  {
    MapOfHas(cells, |cells|);
    forall k | k in MapOf(cells, |cells|) ensures Has(cells, k, MapOf(cells, |cells|)[k]) {
      var c: nat :| c < |cells| && cells[c] == Used(k, MapOf(cells, |cells|)[k]);
    }
  }

  // The new table once the first n old cells have been carried over, in cell order.
  function Rehashed(old_cells: seq<Cell>, home: Home, capacity: nat, n: nat): (cells: seq<Cell>)
    requires n <= |old_cells| && capacity > 0
    ensures |cells| == capacity
    decreases n
  {
    if n == 0 then Blank(capacity) else
      var t := Rehashed(old_cells, home, capacity, n - 1);
      if old_cells[n - 1].Used? && Locate(t, home, old_cells[n - 1].key).Vacant?
         && Locate(t, home, old_cells[n - 1].key).index < capacity
      then t[Locate(t, home, old_cells[n - 1].key).index := old_cells[n - 1]] else t
  }

  lemma CountPrefix(cells: seq<Cell>, n: nat)
    requires n < |cells|
    ensures Count(cells[..n + 1]) == Count(cells[..n]) + if cells[n].Used? then 1 else 0
  {
    assert cells[..n + 1][..n] == cells[..n];
  }

  lemma {:induction false} CountGrows(cells: seq<Cell>, m: nat, n: nat)
    requires m <= n <= |cells|
    ensures Count(cells[..m]) <= Count(cells[..n])
    decreases n
  {
    if m < n {
      CountPrefix(cells, n - 1);
      CountGrows(cells, m, n - 1);
    }
  }

  // The new table stands for the keys carried over so far.
  ghost predicate CarriedTo(old_cells: seq<Cell>, home: Home, t: seq<Cell>, n: nat) {
    && n <= |old_cells| && TableOk(t, home) && Represents(t, MapOf(old_cells, n)) && Count(t) == Count(old_cells[..n])
  }

  // Carrying a table over never fails, as every key is new to the roomier table.
  lemma {:induction false} RehashedOk(old_cells: seq<Cell>, home: Home, capacity: nat, n: nat)
    requires Distinct(old_cells) && n <= |old_cells| && Count(old_cells) < capacity && HomeOk(home, capacity)
    ensures CarriedTo(old_cells, home, Rehashed(old_cells, home, capacity, n), n)
    ensures n < |old_cells| && old_cells[n].Used? ==> Locate(Rehashed(old_cells, home, capacity, n), home, old_cells[n].key).Vacant?
    decreases n
  {
    if n == 0 {
      CountBlank(Blank(capacity));
    } else {
      RehashedOk(old_cells, home, capacity, n - 1);
      OneMoreCarried(old_cells, home, capacity, n);
    }
    if n < |old_cells| && old_cells[n].Used? {
      StillNew(old_cells, home, Rehashed(old_cells, home, capacity, n), n);
    }
  }

  lemma OneMoreCarried(old_cells: seq<Cell>, home: Home, capacity: nat, n: nat)
    requires Distinct(old_cells) && 0 < n <= |old_cells| && Count(old_cells) < capacity && HomeOk(home, capacity)
    requires var t := Rehashed(old_cells, home, capacity, n - 1);
      && CarriedTo(old_cells, home, t, n - 1)
      && (old_cells[n - 1].Used? ==> Locate(t, home, old_cells[n - 1].key).Vacant?)
    ensures CarriedTo(old_cells, home, Rehashed(old_cells, home, capacity, n), n)
  {
    CountPrefix(old_cells, n - 1);
    CarryOver(old_cells, home, Rehashed(old_cells, home, capacity, n - 1), n - 1);
  }

  // The next key to carry over is not in the new table, which has room.
  lemma StillNew(old_cells: seq<Cell>, home: Home, t: seq<Cell>, n: nat)
    requires Distinct(old_cells) && n < |old_cells| && old_cells[n].Used? && Count(old_cells) < |t|
    requires TableOk(t, home) && Represents(t, MapOf(old_cells, n)) && Count(t) == Count(old_cells[..n])
    ensures Locate(t, home, old_cells[n].key).Vacant?
  {
    MapOfHas(old_cells, n);
    LocateFinds(t, home, MapOf(old_cells, n), old_cells[n].key);
    CountGrows(old_cells, n, |old_cells|);
    assert old_cells[..|old_cells|] == old_cells;
    NeverFull(t, home, old_cells[n].key);
  }

  lemma CarryOver(old_cells: seq<Cell>, home: Home, t: seq<Cell>, n: nat)
    requires Distinct(old_cells) && n < |old_cells| && TableOk(t, home) && Represents(t, MapOf(old_cells, n))
    requires old_cells[n].Used? ==> Locate(t, home, old_cells[n].key).Vacant?
    ensures old_cells[n].Used? ==> Locate(t, home, old_cells[n].key).index < |t|
    ensures var t' := if old_cells[n].Used? then t[Locate(t, home, old_cells[n].key).index := old_cells[n]] else t;
      TableOk(t', home) && Represents(t', MapOf(old_cells, n + 1))
      && Count(t') == Count(t) + if old_cells[n].Used? then 1 else 0
  {
    if old_cells[n].Used? {
      InsertOk(t, home, MapOf(old_cells, n), old_cells[n].key, old_cells[n].node);
      CountInsert(t, Locate(t, home, old_cells[n].key).index, old_cells[n]);
    }
  }

  // Growing keeps the map: nothing is lost, nothing is added, and the new table is sound.
  lemma RehashKeepsMap(old_cells: seq<Cell>, home: Home, capacity: nat, m: map<Key, nat>)
    requires Distinct(old_cells) && Represents(old_cells, m)
    requires Count(old_cells) < capacity && HomeOk(home, capacity)
    ensures var t := Rehashed(old_cells, home, capacity, |old_cells|);
      TableOk(t, home) && Represents(t, m) && Count(t) == Count(old_cells)
  {
    RehashedOk(old_cells, home, capacity, |old_cells|);
    MapOfRepresents(old_cells);
    RepresentsUnique(old_cells, m, MapOf(old_cells, |old_cells|));
    assert old_cells[..|old_cells|] == old_cells;
  }
}
