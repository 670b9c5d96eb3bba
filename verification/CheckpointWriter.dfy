// Writing a checkpoint: the nodes are taken in key order, checked one by one, and sent out byte by byte
// behind a running checksum.
module CheckpointWriter {
  import Crc
  import RadixSort
  import opened Checkpoint
  import opened CheckpointIntegrity
  import opened CheckpointStream

  // ---- The nodes in key order ----

  // What the types of a node already say.
  ghost predicate Typed(r: Record) {
    && KeyOk(r.key)
    && |r.regrets| == |r.strategies| < WORD
    && ValuesOk(r.regrets, Anything) && ValuesOk(r.strategies, Anything)
  }

  ghost predicate AllTyped(nodes: seq<Record>) {
    forall i :: 0 <= i < |nodes| ==> Typed(nodes[i])
  }

  function ItemOf(nodes: seq<Record>, i: nat): RadixSort.Item
    requires i < |nodes|
  {
    RadixSort.Item(RadixSort.Sortable(nodes[i].key), i)
  }

  function Items(nodes: seq<Record>): (items: seq<RadixSort.Item>)
    ensures |items| == |nodes|
  {
    seq(|nodes|, i requires 0 <= i < |nodes| => ItemOf(nodes, i))
  }

  // Each node once, by its place in the store.
  ghost predicate IsOrder(items: seq<RadixSort.Item>, nodes: seq<Record>) {
    RadixSort.Sorted(items) && multiset(items) == multiset(Items(nodes))
  }

  lemma OrderMember(items: seq<RadixSort.Item>, nodes: seq<Record>, k: nat)
    requires IsOrder(items, nodes) && k < |items|
    ensures items[k].id < |nodes| && items[k] == ItemOf(nodes, items[k].id)
  {
    assert items[k] in multiset(items);
    assert items[k] in Items(nodes);
    var i :| 0 <= i < |nodes| && Items(nodes)[i] == items[k];
  }

  lemma TwicePlaced<T>(s: seq<T>, i: nat, j: nat)
    requires i < j < |s| && s[i] == s[j]
    ensures multiset(s)[s[i]] >= 2
  {
    assert s == s[..j] + s[j..];
    assert s[i] in s[..j] && s[j] in s[j..];
    assert multiset(s)[s[i]] == multiset(s[..j])[s[i]] + multiset(s[j..])[s[i]];
  }

  lemma {:induction false} OncePlaced(nodes: seq<Record>, n: nat, i: nat)
    requires n <= |nodes| && i < |nodes|
    ensures multiset(Items(nodes)[..n])[ItemOf(nodes, i)] <= 1
    ensures n <= i ==> multiset(Items(nodes)[..n])[ItemOf(nodes, i)] == 0
    decreases n
  {
    if n > 0 {
      OncePlaced(nodes, n - 1, i);
      assert Items(nodes)[..n] == Items(nodes)[..n - 1] + [ItemOf(nodes, n - 1)];
    }
  }

  lemma OrderDistinct(items: seq<RadixSort.Item>, nodes: seq<Record>, i: nat, j: nat)
    requires IsOrder(items, nodes) && i < j < |items|
    ensures items[i].id != items[j].id
  {
    OrderMember(items, nodes, i);
    OrderMember(items, nodes, j);
    OncePlaced(nodes, |nodes|, items[i].id);
    assert Items(nodes)[..|nodes|] == Items(nodes);
    if items[i].id == items[j].id {
      TwicePlaced(items, i, j);
      assert false;
    }
  }

  function Picked(nodes: seq<Record>, items: seq<RadixSort.Item>): (r: seq<Record>)
    requires forall k :: 0 <= k < |items| ==> items[k].id < |nodes|
    ensures |r| == |items|
  {
    seq(|items|, k requires 0 <= k < |items| => nodes[items[k].id])
  }

  lemma PickedIncreasing(nodes: seq<Record>, items: seq<RadixSort.Item>)
    requires IsOrder(items, nodes) && Distinct(nodes) && AllTyped(nodes)
    ensures forall k :: 0 <= k < |items| ==> items[k].id < |nodes|
    ensures Increasing(Picked(nodes, items))
  {
    forall k | 0 <= k < |items|
      ensures items[k].id < |nodes|
    {
      OrderMember(items, nodes, k);
    }
    var r := Picked(nodes, items);
    forall i, j | 0 <= i < j < |r|
      ensures r[i].key < r[j].key
    {
      OrderMember(items, nodes, i);
      OrderMember(items, nodes, j);
      OrderDistinct(items, nodes, i, j);
      assert Typed(r[i]) && Typed(r[j]);
      assert RadixSort.WORD / 2 == 0x8000_0000_0000_0000;
      RadixSort.SignedOrder(r[j].key, r[i].key);
      RadixSort.SignedOrder(r[i].key, r[j].key);
      assert items[i].key <= items[j].key;
      assert r[i].key != r[j].key;
    }
  }

  lemma PickedAll(nodes: seq<Record>, items: seq<RadixSort.Item>, i: nat) returns (k: nat)
    requires IsOrder(items, nodes) && i < |nodes|
    ensures k < |items| && items[k].id == i
  {
    assert Items(nodes)[i] in multiset(Items(nodes));
    assert Items(nodes)[i] in items;
    k :| 0 <= k < |items| && items[k] == ItemOf(nodes, i);
  }

  // Every node picked is one of the nodes, and every node is picked.
  ghost predicate SameRecords(a: seq<Record>, b: seq<Record>) {
    (forall i :: 0 <= i < |a| ==> a[i] in b) && (forall i :: 0 <= i < |b| ==> b[i] in a)
  }

  lemma PickedSame(nodes: seq<Record>, items: seq<RadixSort.Item>)
    requires IsOrder(items, nodes)
    requires forall k :: 0 <= k < |items| ==> items[k].id < |nodes|
    ensures SameRecords(Picked(nodes, items), nodes)
  {
    var r := Picked(nodes, items);
    forall i | 0 <= i < |nodes|
      ensures nodes[i] in r
    {
      var k := PickedAll(nodes, items, i);
      assert r[k] == nodes[i];
    }
  }

  lemma SameKeys(a: seq<Record>, b: seq<Record>, key: int)
    requires Distinct(a) && Distinct(b) && SameRecords(a, b)
    requires key in MapOf(a)
    ensures key in MapOf(b) && MapOf(b)[key] == MapOf(a)[key]
  {
    MapHolds(a, key);
    var i: nat :| IsAt(a, i, key, MapOf(a)[key]);
    assert a[i] in b;
    var j: nat :| j < |b| && b[j] == a[i];
    MapFinds(b, j);
  }

  lemma SameMap(a: seq<Record>, b: seq<Record>)
    requires Distinct(a) && Distinct(b) && SameRecords(a, b)
    ensures MapOf(a) == MapOf(b)
  {
    forall key | key in MapOf(a)
      ensures key in MapOf(b) && MapOf(b)[key] == MapOf(a)[key]
    {
      SameKeys(a, b, key);
    }
    forall key | key in MapOf(b)
      ensures key in MapOf(a)
    {
      SameKeys(b, a, key);
    }
  }

  // The store's nodes, in whatever order it holds them, sorted by signed key.
  method Snapshot(nodes: seq<Record>) returns (sorted: seq<Record>)
    requires Distinct(nodes) && AllTyped(nodes)
    ensures Increasing(sorted) && SameRecords(sorted, nodes) && MapOf(sorted) == MapOf(nodes) && |sorted| == |nodes|
  {
    var items := new RadixSort.Item[|nodes|](i requires 0 <= i < |nodes| => ItemOf(nodes, i));
    assert items[..] == Items(nodes);
    KeysFit(nodes);
    RadixSort.RadixSortNodes(items);
    assert |items[..]| == |multiset(items[..])| == |Items(nodes)|;
    PickedIncreasing(nodes, items[..]);
    sorted := Picked(nodes, items[..]);
    PickedSame(nodes, items[..]);
    IncreasingIsDistinct(sorted);
    SameMap(sorted, nodes);
  }

  lemma KeysFit(nodes: seq<Record>)
    requires AllTyped(nodes)
    ensures forall i: nat :: i < |nodes| ==> Items(nodes)[i].key < RadixSort.WORD
  {
    forall i: nat | i < |nodes|
      ensures Items(nodes)[i].key < RadixSort.WORD
    {
      assert Typed(nodes[i]);
      RadixSort.SignedOrder(nodes[i].key, nodes[i].key);
    }
  }

  // ---- One node ----

  const SIZE_MAX: nat := WORD - 1

  // The order of the checks is the order of the code: the length first, then value by value.
  method ValidateNode(node: Record, game: Game, variant: Variant) returns (status: Status)
    requires Typed(node) && game.maxLegalActions <= SIZE_MAX / 16
    ensures (status == Success) == RecordOk(node, game, variant)
    ensures status == InvalidArgument || status == NumericError || status == Success
    ensures status == InvalidArgument <==> !(1 <= |node.regrets| <= game.maxLegalActions)
  {
    var count := |node.regrets|;
    if count == 0 || count > game.maxLegalActions || count > SIZE_MAX / 8 {
      return InvalidArgument;
    }
    for index := 0 to count
      invariant ValuesOk(node.regrets[..index], RegretKind(variant))
      invariant ValuesOk(node.strategies[..index], NonNegative)
    {
      var regret, strategy := node.regrets[index], node.strategies[index];
      assert regret < WORD && strategy < WORD;
      OneMoreValue(node.regrets, index, RegretKind(variant));
      OneMoreValue(node.strategies, index, NonNegative);
      if !Finite(regret) || !Finite(strategy) || Negative(strategy) {
        return NumericError;
      }
      if variant == CfrPlus && Negative(regret) {
        return NumericError;
      }
    }
    assert node.regrets[..count] == node.regrets && node.strategies[..count] == node.strategies;
    return Success;
  }

  lemma OneMoreValue(values: seq<nat>, index: nat, kind: Kind)
    requires index < |values| && values[index] < WORD
    requires ValuesOk(values[..index], kind)
    ensures ValuesOk(values[..index + 1], kind) == Acceptable(values[index], kind)
    ensures !Acceptable(values[index], kind) ==> !ValuesOk(values, kind)
  {
    assert values[..index + 1] == values[..index] + [values[index]];
    if ValuesOk(values[..index + 1], kind) {
      assert values[..index + 1][index] == values[index];
    }
  }

  // ---- The stream ----

  class Writer {
    // How many bytes the file can take before writing fails.
    const space: nat
    var out: seq<Byte>
    var crc: bv32

    constructor (space: nat)
      ensures this.space == space && out == [] && Sound()
    {
      this.space := space;
      out := [];
      crc := Crc.INITIAL;
    }

    ghost predicate Sound()
      reads this
    {
      |out| <= space && crc == Running(out)
    }

    // A short write leaves what still fitted.
    method Send(bytes: seq<Byte>) returns (status: Status)
      requires |out| <= space
      modifies this`out
      ensures |out| <= space
      ensures (status == Success) == (|old(out)| + |bytes| <= space)
      ensures status == Success ==> out == old(out) + bytes
      ensures status == Success || status == IoError
    {
      if |out| + |bytes| > space {
        out := out + bytes[..space - |out|];
        return IoError;
      }
      out := out + bytes;
      return Success;
    }

    method WriteBytes(bytes: seq<Byte>) returns (status: Status)
      requires Sound()
      modifies this
      ensures |out| <= space
      ensures (status == Success) == (|old(out)| + |bytes| <= space)
      ensures status == Success ==> Sound() && out == old(out) + bytes
      ensures status == Success || status == IoError
    {
      status := Send(bytes);
      if status == Success {
        RunningMore(old(out), bytes);
        crc := Crc.Update(crc, Raw(bytes));
      }
    }

    // Each byte is the value shifted down by eight bits more.
    static method LittleEndian(value: nat, width: nat) returns (bytes: seq<Byte>)
      ensures bytes == Le(value, width)
    {
      bytes := [];
      var shifted := value;
      for index := 0 to width
        invariant |bytes| == index && Le(value, width) == bytes + Le(shifted, width - index)
      {
        assert Le(shifted, width - index) == [shifted % 256] + Le(shifted / 256, width - index - 1);
        bytes := bytes + [shifted % 256];
        shifted := shifted / 256;
      }
      assert bytes + [] == bytes;
    }

    method WriteNumber(value: nat, width: nat) returns (status: Status)
      requires Sound()
      modifies this
      ensures |out| <= space
      ensures (status == Success) == (|old(out)| + width <= space)
      ensures status == Success ==> Sound() && out == old(out) + Le(value, width)
      ensures status == Success || status == IoError
    {
      var bytes := LittleEndian(value, width);
      status := WriteBytes(bytes);
    }

    method WriteWords(values: seq<nat>) returns (status: Status)
      requires Sound()
      modifies this
      ensures |out| <= space
      ensures (status == Success) == (|old(out)| + |Words(values)| <= space)
      ensures status == Success ==> Sound() && out == old(out) + Words(values)
      ensures status == Success || status == IoError
    {
      status := Success;
      ghost var start := out;
      var index := 0;
      while index < |values|
        invariant index <= |values| && Sound()
        invariant start + Words(values) == out + Words(values[index..])
      {
        ghost var before := out;
        status := WriteNumber(values[index], 8);
        assert values[index..][1..] == values[index + 1..];
        if status != Success {
          Longer(start, Words(values), before, Words(values[index..]));
          return;
        }
        Assoc(before, Le(values[index], 8), Words(values[index + 1..]));
        index := index + 1;
      }
      status := Success;
      assert out + [] == out;
    }

    method WritePreamble(schema: seq<Byte>) returns (status: Status)
      requires Sound()
      modifies this
      ensures |out| <= space
      ensures (status == Success) == (|old(out)| + |Preamble(schema)| <= space)
      ensures status == Success ==> Sound() && out == old(out) + Preamble(schema)
      ensures status == Success || status == IoError
    {
      PreambleParts(out, schema);
      status := WriteBytes(Magic());
      if status != Success {
        return;
      }
      status := WriteNumber(1, 4);
      if status != Success {
        return;
      }
      status := WriteNumber(|schema|, 4);
      if status != Success {
        return;
      }
      status := WriteBytes(schema);
    }

    method WriteFields(h: Header, count: nat) returns (status: Status)
      requires Sound()
      modifies this
      ensures |out| <= space
      ensures (status == Success) == (|old(out)| + |FieldsBytes(h, count)| <= space)
      ensures status == Success ==> Sound() && out == old(out) + FieldsBytes(h, count)
      ensures status == Success || status == IoError
    {
      FieldsParts(out, h, count);
      status := WriteNumber(Code(h.variant), 4);
      if status != Success {
        return;
      }
      if h.variant.Mccfr? {
        status := WriteNumber(h.variant.random, 8);
        if status != Success {
          return;
        }
      }
      status := WriteWords(CounterList(h.counters) + [count]);
    }

    method WriteRecord(r: Record) returns (status: Status)
      requires Sound() && KeyOk(r.key)
      modifies this
      ensures |out| <= space
      ensures (status == Success) == (|old(out)| + |RecordBytes(r)| <= space)
      ensures status == Success ==> Sound() && out == old(out) + RecordBytes(r)
      ensures status == Success || status == IoError
    {
      RecordParts(out, r);
      status := WriteNumber(EncodeKey(r.key), 8);
      if status != Success {
        return;
      }
      status := WriteNumber(|r.regrets|, 8);
      if status != Success {
        return;
      }
      status := WriteWords(r.regrets);
      if status != Success {
        return;
      }
      status := WriteWords(r.strategies);
    }
  }

  lemma PreambleParts(out: seq<Byte>, schema: seq<Byte>)
    ensures (((out + Magic()) + Le(1, 4)) + Le(|schema|, 4)) + schema == out + Preamble(schema)
    ensures |Preamble(schema)| == 16 + |schema|
  {
    Assoc(((out + Magic()) + Le(1, 4)), Le(|schema|, 4), schema);
    Assoc(out + Magic(), Le(1, 4), Le(|schema|, 4) + schema);
    Assoc(out, Magic(), Le(1, 4) + (Le(|schema|, 4) + schema));
  }

  lemma FieldsParts(out: seq<Byte>, h: Header, count: nat)
    ensures var words := Words(CounterList(h.counters) + [count]);
      var code := out + Le(Code(h.variant), 4);
      && out + FieldsBytes(h, count) == (if h.variant.Mccfr? then code + Le(h.variant.random, 8) else code) + words
      && |FieldsBytes(h, count)| == (if h.variant.Mccfr? then 12 else 4) + |words|
  {
    var words := Words(CounterList(h.counters) + [count]);
    Assoc(out, VariantBytes(h.variant), words);
    if h.variant.Mccfr? {
      Assoc(out, Le(Code(h.variant), 4), Le(h.variant.random, 8));
    } else {
      assert VariantBytes(h.variant) == Le(Code(h.variant), 4);
    }
  }

  lemma RecordParts(out: seq<Byte>, r: Record)
    requires KeyOk(r.key)
    ensures var key, length := Le(EncodeKey(r.key), 8), Le(|r.regrets|, 8);
      && out + RecordBytes(r) == (((out + key) + length) + Words(r.regrets)) + Words(r.strategies)
      && |RecordBytes(r)| == 16 + |Words(r.regrets)| + |Words(r.strategies)|
  {
    var key, length := Le(EncodeKey(r.key), 8), Le(|r.regrets|, 8);
    var a, b := Words(r.regrets), Words(r.strategies);
    assert [EncodeKey(r.key), |r.regrets|][1..] == [|r.regrets|];
    assert [r.regrets, r.strategies][1..] == [r.strategies];
    assert Words([|r.regrets|]) == length + [];
    assert length + [] == length && b + [] == b;
    assert Words([EncodeKey(r.key), |r.regrets|]) == key + length;
    assert RowsBytes([r.strategies]) == b + [];
    assert RowsBytes([r.regrets, r.strategies]) == a + b;
    Assoc(out, key + length, a + b);
    Assoc(out, key, length);
    Assoc((out + key) + length, a, b);
  }

  lemma Longer(a: seq<Byte>, b: seq<Byte>, c: seq<Byte>, d: seq<Byte>)
    requires a + b == c + d
    ensures |a| + |b| == |c| + |d|
  {
    assert |a + b| == |c + d|;
  }

  // ---- The whole checkpoint ----

  ghost predicate IsSnapshot(sorted: seq<Record>, nodes: seq<Record>) {
    && Increasing(sorted)
    && (forall i :: 0 <= i < |sorted| ==> KeyOk(sorted[i].key))
    && MapOf(sorted) == MapOf(nodes)
  }

  method WriteNode(writer: Writer, node: Record, game: Game, variant: Variant) returns (status: Status)
    requires writer.Sound() && Typed(node) && game.maxLegalActions <= SIZE_MAX / 16
    modifies writer
    ensures |writer.out| <= writer.space
    ensures (status == Success)
         == (RecordOk(node, game, variant) && |old(writer.out)| + |RecordBytes(node)| <= writer.space)
    ensures status == Success ==> writer.Sound() && writer.out == old(writer.out) + RecordBytes(node)
  {
    status := ValidateNode(node, game, variant);
    if status == Success {
      status := writer.WriteRecord(node);
    }
  }

  // Each node is checked, then written; the first that fails ends the writing.
  method WriteNodes(writer: Writer, nodes: seq<Record>, game: Game, variant: Variant) returns (status: Status)
    requires writer.Sound() && AllTyped(nodes) && (nodes == [] || game.maxLegalActions <= SIZE_MAX / 16)
    modifies writer
    ensures |writer.out| <= writer.space
    ensures (status == Success)
         == (AllOk(nodes, game, variant) && |old(writer.out)| + |RecordsBytes(nodes)| <= writer.space)
    ensures status == Success ==> writer.Sound() && writer.out == old(writer.out) + RecordsBytes(nodes)
  {
    ghost var start := writer.out;
    var index := 0;
    while index < |nodes|
      invariant index <= |nodes| && writer.Sound()
      invariant AllOk(nodes[..index], game, variant)
      invariant start + RecordsBytes(nodes) == writer.out + RecordsBytes(nodes[index..])
    {
      ghost var before := writer.out;
      NodeStep(start, before, nodes, index, game, variant);
      status := WriteNode(writer, nodes[index], game, variant);
      if status != Success {
        return;
      }
      index := index + 1;
    }
    status := Success;
    assert nodes[..index] == nodes && writer.out + [] == writer.out;
  }

  lemma NodeStep(start: seq<Byte>, before: seq<Byte>, nodes: seq<Record>, index: nat, game: Game, variant: Variant)
    requires index < |nodes| && AllTyped(nodes)
    requires AllOk(nodes[..index], game, variant)
    requires start + RecordsBytes(nodes) == before + RecordsBytes(nodes[index..])
    ensures Typed(nodes[index])
    ensures |start| + |RecordsBytes(nodes)| >= |before| + |RecordBytes(nodes[index])|
    ensures start + RecordsBytes(nodes) == (before + RecordBytes(nodes[index])) + RecordsBytes(nodes[index + 1..])
    ensures if RecordOk(nodes[index], game, variant) then AllOk(nodes[..index + 1], game, variant)
            else !AllOk(nodes, game, variant)
  {
    TailBytes(nodes, index);
    Longer(start, RecordsBytes(nodes), before, RecordsBytes(nodes[index..]));
    Assoc(before, RecordBytes(nodes[index]), RecordsBytes(nodes[index + 1..]));
    assert nodes[..index + 1] == nodes[..index] + [nodes[index]];
  }

  lemma TailBytes(nodes: seq<Record>, index: nat)
    requires index < |nodes| && AllTyped(nodes)
    ensures RecordsBytes(nodes[index..]) == RecordBytes(nodes[index]) + RecordsBytes(nodes[index + 1..])
  {
    assert nodes[index..][1..] == nodes[index + 1..];
  }

  // Everything a checkpoint needs apart from room in the file.
  ghost predicate Savable(h: Header, nodes: seq<Record>, game: Game, memory: bool) {
    && SchemaOk(game.schema)
    && game.maxLegalActions > 0
    && (nodes == [] || (game.maxLegalActions <= SIZE_MAX / 16 && memory))
    && AllOk(nodes, game, h.variant)
  }

  lemma SavedAs(nodes: seq<Record>, sorted: seq<Record>, other: seq<Record>, h: Header, game: Game)
    requires Distinct(nodes) && AllTyped(nodes)
    requires Increasing(sorted) && SameRecords(sorted, nodes) && MapOf(sorted) == MapOf(nodes)
    requires IsSnapshot(other, nodes)
    ensures AllTyped(sorted) && sorted == other
    ensures AllOk(sorted, game, h.variant) == AllOk(nodes, game, h.variant)
  {
    OrderIsUnique(sorted, other);
  }

  // Saving succeeds exactly when the trainer can be saved and the file has room; the bytes are then those of
  // the nodes in key order, whatever order the store holds them in.
  method Save(writer: Writer, h: Header, nodes: seq<Record>, game: Game, memory: bool) returns (status: Status)
    requires writer.out == [] && writer.Sound()
    requires HeaderOk(h) && |nodes| < WORD && Distinct(nodes) && AllTyped(nodes)
    modifies writer
    ensures forall sorted | IsSnapshot(sorted, nodes) ::
      (status == Success) == (Savable(h, nodes, game, memory) && |File(game.schema, h, sorted)| <= writer.space)
    ensures forall sorted | IsSnapshot(sorted, nodes) ::
      status == Success ==> writer.out == File(game.schema, h, sorted)
  {
    if !SchemaOk(game.schema) || game.maxLegalActions == 0 {
      return InvalidArgument;
    }
    if nodes != [] && !memory {
      return OutOfMemory;
    }
    var sorted := Snapshot(nodes);
    assert (sorted == []) == (nodes == []);
    if nodes != [] && game.maxLegalActions > SIZE_MAX / 16 {
      return InvalidArgument;
    }
    forall other | IsSnapshot(other, nodes)
      ensures other == sorted && AllOk(sorted, game, h.variant) == AllOk(nodes, game, h.variant)
    {
      SavedAs(nodes, sorted, other, h, game);
    }
    SnapshotTyped(nodes, sorted);
    status := SaveSorted(writer, h, sorted, game);
  }

  lemma SnapshotTyped(nodes: seq<Record>, sorted: seq<Record>)
    requires AllTyped(nodes) && SameRecords(sorted, nodes)
    ensures AllTyped(sorted)
  {
  }

  lemma FileParts(schema: seq<Byte>, h: Header, records: seq<Record>)
    requires AllTyped(records)
    ensures var head := Preamble(schema);
      var fields := head + FieldsBytes(h, |records|);
      var body := fields + RecordsBytes(records);
      && Body(schema, h, records) == body
      && |File(schema, h, records)| == |body| + 4
  {
    Assoc(Preamble(schema), FieldsBytes(h, |records|), RecordsBytes(records));
  }

  method SaveSorted(writer: Writer, h: Header, sorted: seq<Record>, game: Game) returns (status: Status)
    requires writer.out == [] && writer.Sound() && AllTyped(sorted)
    requires sorted == [] || game.maxLegalActions <= SIZE_MAX / 16
    modifies writer
    ensures (status == Success)
         == (AllOk(sorted, game, h.variant) && |File(game.schema, h, sorted)| <= writer.space)
    ensures status == Success ==> writer.out == File(game.schema, h, sorted)
  {
    FileParts(game.schema, h, sorted);
    assert writer.out + Preamble(game.schema) == Preamble(game.schema);
    status := writer.WritePreamble(game.schema);
    if status != Success {
      return;
    }
    status := writer.WriteFields(h, |sorted|);
    if status != Success {
      return;
    }
    status := WriteNodes(writer, sorted, game, h.variant);
    if status != Success {
      return;
    }
    status := writer.Send(Trailer(Crc.Not(writer.crc)));
  }

  lemma SnapshotRecord(nodes: seq<Record>, sorted: seq<Record>, i: nat)
    requires Distinct(nodes) && IsSnapshot(sorted, nodes) && i < |sorted|
    ensures sorted[i] in nodes
  {
    IncreasingIsDistinct(sorted);
    MapFinds(sorted, i);
    MapHolds(nodes, sorted[i].key);
  }

  // A saved checkpoint reads back as the header and the node map it was saved from.
  lemma SavedLoads(h: Header, nodes: seq<Record>, sorted: seq<Record>, game: Game, memory: bool, room: nat)
    requires HeaderOk(h) && Distinct(nodes) && Savable(h, nodes, game, memory)
    requires IsSnapshot(sorted, nodes) && |sorted| < WORD && |sorted| < room
    ensures var o := Parse(File(game.schema, h, sorted), game, room, false);
      o.Loaded? && o.header == h && MapOf(o.records) == MapOf(nodes)
  {
    forall i | 0 <= i < |sorted|
      ensures RecordOk(sorted[i], game, h.variant)
    {
      SnapshotRecord(nodes, sorted, i);
    }
    IncreasingIsDistinct(sorted);
    FileLoads(game, h, sorted, room, File(game.schema, h, sorted));
  }
}
