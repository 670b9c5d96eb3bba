// What reading a checkpoint and writing it again does to its bytes. The reader takes records in any order,
// the writer puts them in key order.
module CheckpointRewrite {
  import opened Checkpoint
  import opened CheckpointIntegrity
  import opened CheckpointStream
  import opened CheckpointWriter

  lemma {:induction false} MapSize(records: seq<Record>)
    requires Distinct(records)
    ensures |MapOf(records)| == |records|
    decreases |records|
  {
    if records != [] {
      MapSize(records[1..]);
      MapHolds(records[1..], records[0].key);
    }
  }

  // A snapshot holds the same records, once each.
  lemma SnapshotIsRearranged(nodes: seq<Record>, sorted: seq<Record>)
    requires Distinct(nodes) && IsSnapshot(sorted, nodes)
    ensures SameRecords(sorted, nodes) && |sorted| == |nodes| && Distinct(sorted)
  {
    IncreasingIsDistinct(sorted);
    MapSize(nodes);
    MapSize(sorted);
    forall i | 0 <= i < |sorted| ensures sorted[i] in nodes {
      SnapshotRecord(nodes, sorted, i);
    }
    forall i | 0 <= i < |nodes| ensures nodes[i] in sorted {
      MapFinds(nodes, i);
      MapHolds(sorted, nodes[i].key);
      var j: nat :| IsAt(sorted, j, nodes[i].key, nodes[i]);
    }
  }

  lemma RearrangedContent(h: Header, nodes: seq<Record>, sorted: seq<Record>, game: Game)
    requires ContentOk(h, nodes, game) && IsSnapshot(sorted, nodes)
    ensures ContentOk(h, sorted, game)
  {
    SnapshotIsRearranged(nodes, sorted);
    forall i | 0 <= i < |sorted| ensures RecordOk(sorted[i], game, h.variant) {
      var j: nat :| j < |nodes| && nodes[j] == sorted[i];
    }
  }

  // Writing an accepted file's content again gives the same bytes exactly when its records were in key order.
  lemma RewriteIff(file: seq<Byte>, game: Game, room: nat, broken: bool, h: Header, records: seq<Record>,
                   sorted: seq<Record>)
    requires Parse(file, game, room, broken) == Loaded(h, records)
    requires IsSnapshot(sorted, records)
    ensures File(game.schema, h, sorted) == file <==> Increasing(records)
  {
    LoadedIsFile(file, game, room, broken);
    RearrangedContent(h, records, sorted, game);
    if Increasing(records) {
      OrderIsUnique(sorted, records);
    }
    if File(game.schema, h, sorted) == file {
      FileHoldsOneContent(file, game, h, sorted, h, records);
    }
  }

  // ---- As the program does it ----

  ghost predicate Named<T>(o: Outcome<T>) {
    o.Stop? ==> o.status != Success
  }

  lemma {:induction false} ValuesNamed(s: seq<Byte>, k: nat, kind: Kind, broken: bool)
    ensures Named(Values(s, k, kind, broken))
    decreases k
  {
    if k > 0 && 8 <= |s| {
      ValuesNamed(s[8..], k - 1, kind, broken);
    }
  }

  lemma {:induction false} RowsNamed(s: seq<Byte>, count: nat, kinds: seq<Kind>, broken: bool)
    ensures Named(Rows(s, count, kinds, broken))
    decreases |kinds|
  {
    if kinds != [] {
      ValuesNamed(s, count, kinds[0], broken);
      var o := Values(s, count, kinds[0], broken);
      if o.Got? {
        RowsNamed(o.rest, count, kinds[1..], broken);
      }
    }
  }

  lemma RecordNamed(s: seq<Byte>, known: set<int>, room: nat, game: Game, variant: Variant, broken: bool)
    ensures Named(GetRecord(s, known, room, game, variant, broken))
  {
    ValuesNamed(s, 2, Anything, broken);
    var o := Values(s, 2, Anything, broken);
    if o.Got? {
      ValuesSound(s, 2, Anything, broken);
      RowsNamed(o.rest, o.value[1], [RegretKind(variant), NonNegative], broken);
    }
  }

  lemma {:induction false} RecordsNamed(s: seq<Byte>, n: nat, known: set<int>, room: nat, game: Game,
                                        variant: Variant, broken: bool)
    ensures Named(GetRecords(s, n, known, room, game, variant, broken))
    decreases n
  {
    if n > 0 {
      RecordNamed(s, known, room, game, variant, broken);
      var o := GetRecord(s, known, room, game, variant, broken);
      if o.Got? {
        RecordsNamed(o.rest, n - 1, known + {o.value.key}, room, game, variant, broken);
      }
    }
  }

  lemma FieldsNamed(s: seq<Byte>, broken: bool)
    ensures Named(GetFields(s, broken))
  {
    var o := GetVariant(s, broken);
    if o.Got? {
      ValuesNamed(o.rest, 6, Anything, broken);
    }
  }

  lemma NodesNamed(s: seq<Byte>, h: Header, count: nat, room: nat, game: Game, broken: bool)
    ensures Named(GetNodes(s, h, count, room, game, broken))
  {
    if room > 0 {
      RecordsNamed(s, count, {}, room - 1, game, h.variant, broken);
    }
  }

  // A load that fails never reports success.
  lemma FailureIsNamed(file: seq<Byte>, game: Game, room: nat, broken: bool)
    ensures var o := Parse(file, game, room, broken); o.Failed? ==> o.status != Success
  {
    var p := GetPreamble(file, game, broken);
    if p.Got? {
      FieldsNamed(p.rest, broken);
      var f := GetFields(p.rest, broken);
      if f.Got? {
        NodesNamed(f.rest, f.value.header, f.value.count, room, game, broken);
      }
    }
    assert Named(GetBody(file, game, room, broken));
  }

  ghost predicate Keyed(nodes: map<int, Record>) {
    forall key :: key in nodes ==> nodes[key].key == key
  }

  // `list` holds the nodes that are not left, once each.
  ghost predicate Listed(list: seq<Record>, nodes: map<int, Record>, left: map<int, Record>) {
    && Distinct(list)
    && MapOf(list) == nodes - left.Keys
    && (forall key :: key in left ==> key in nodes && left[key] == nodes[key])
  }

  lemma ListedAbsent(list: seq<Record>, nodes: map<int, Record>, left: map<int, Record>, key: int)
    requires Listed(list, nodes, left) && key in left
    ensures forall i :: 0 <= i < |list| ==> list[i].key != key
  {
    MapHolds(list, key);
  }

  lemma ListedMore(list: seq<Record>, nodes: map<int, Record>, left: map<int, Record>, key: int)
    requires Keyed(nodes) && Listed(list, nodes, left) && key in left
    ensures Listed(list + [nodes[key]], nodes, left - {key})
  {
    ListedAbsent(list, nodes, left, key);
    MapGrows(list, nodes[key]);
    assert nodes - (left - {key}).Keys == (nodes - left.Keys)[key := nodes[key]];
  }

  lemma ListedStarts(nodes: map<int, Record>)
    ensures Listed([], nodes, nodes)
  {
    assert nodes - nodes.Keys == map[];
  }

  lemma ListedEnds(list: seq<Record>, nodes: map<int, Record>, left: map<int, Record>)
    requires Listed(list, nodes, left) && left.Keys == {}
    ensures Distinct(list) && MapOf(list) == nodes
  {
    assert nodes - {} == nodes;
  }

  method PickKey(keys: set<int>) returns (key: int)
    requires keys != {}
    ensures key in keys
  {
    assert (forall k :: k !in keys) ==> keys == {};
    key :| key in keys;
  }

  // The nodes of a store, in an order of its own.
  method ListNodes(nodes: map<int, Record>) returns (list: seq<Record>)
    requires Keyed(nodes)
    ensures Distinct(list) && MapOf(list) == nodes
  {
    list := [];
    var left := nodes;
    ListedStarts(nodes);
    while left.Keys != {}
      invariant Listed(list, nodes, left)
      decreases left.Keys
    {
      var key := PickKey(left.Keys);
      ListedMore(list, nodes, left, key);
      list, left := list + [nodes[key]], left - {key};
    }
    ListedEnds(list, nodes, left);
  }

  lemma KeysOfMap(records: seq<Record>, key: int)
    requires Distinct(records) && key in MapOf(records)
    ensures MapOf(records)[key].key == key && MapOf(records)[key] in records
  {
    MapHolds(records, key);
  }

  lemma LoadedIsKeyed(records: seq<Record>)
    requires Distinct(records)
    ensures Keyed(MapOf(records))
  {
    forall key | key in MapOf(records) ensures MapOf(records)[key].key == key {
      KeysOfMap(records, key);
    }
  }

  // A loaded store's nodes can be saved, in whatever order they are listed.
  lemma ListedIsTyped(h: Header, records: seq<Record>, list: seq<Record>, game: Game)
    requires ContentOk(h, records, game) && Distinct(list) && MapOf(list) == MapOf(records)
    ensures AllTyped(list) && |list| < WORD
  {
    MapSize(list);
    MapSize(records);
    forall i | 0 <= i < |list| ensures Typed(list[i]) {
      MapFinds(list, i);
      KeysOfMap(records, list[i].key);
      var j: nat :| j < |records| && records[j] == list[i];
      assert RecordOk(records[j], game, h.variant);
    }
  }

  // The saved bytes beside the loaded ones.
  ghost predicate SameExactlyIfSorted(out: seq<Byte>, data: seq<Byte>, loaded: Loaded) {
    loaded.Loaded? && (out == data <==> Increasing(loaded.records))
  }

  lemma SavedAgain(reader: Reader, game: Game, room: nat, list: seq<Record>, out: seq<Byte>)
    requires var o := Parse(reader.data, game, room, reader.broken);
      && o.Loaded? && Distinct(list) && AllTyped(list) && MapOf(list) == MapOf(o.records)
      && (forall sorted | IsSnapshot(sorted, list) :: out == File(game.schema, o.header, sorted))
    ensures SameExactlyIfSorted(out, reader.data, Parse(reader.data, game, room, reader.broken))
  {
    var o := Parse(reader.data, game, room, reader.broken);
    var sorted := SomeSnapshot(list);
    assert IsSnapshot(sorted, o.records);
    RewriteIff(reader.data, game, room, reader.broken, o.header, o.records, sorted);
  }

  // ---- How long the saved file is ----

  ghost predicate KeysOk(records: seq<Record>) {
    forall i :: 0 <= i < |records| ==> KeyOk(records[i].key)
  }

  ghost function Length(records: seq<Record>): nat
    requires KeysOk(records)
  {
    |RecordsBytes(records)|
  }

  lemma LengthOfRest(r: Record, rest: seq<Record>)
    requires KeyOk(r.key) && KeysOk(rest)
    ensures KeysOk([r] + rest) && Length([r] + rest) == |RecordBytes(r)| + Length(rest)
  {
    assert ([r] + rest)[1..] == rest;
  }

  // Putting records in order does not change how long they are.
  lemma SnapshotLength(nodes: seq<Record>, sorted: seq<Record>)
    requires Distinct(nodes) && AllTyped(nodes) && IsSnapshot(sorted, nodes)
    ensures KeysOk(nodes) && KeysOk(sorted) && Length(sorted) == Length(nodes)
  {
    var other := SomeSnapshot(nodes);
    OrderIsUnique(sorted, other);
  }

  lemma FileLength(schema: seq<Byte>, h: Header, a: seq<Record>, b: seq<Record>)
    requires KeysOk(a) && KeysOk(b) && |a| == |b| && Length(a) == Length(b)
    ensures |File(schema, h, a)| == |File(schema, h, b)|
  {
  }

  // The saved file is as long as the loaded one, whatever order its records were in.
  lemma SavedLength(reader: Reader, game: Game, room: nat, list: seq<Record>, sorted: seq<Record>)
    requires var o := Parse(reader.data, game, room, reader.broken);
      o.Loaded? && Distinct(list) && AllTyped(list) && MapOf(list) == MapOf(o.records) && IsSnapshot(sorted, list)
    ensures |File(game.schema, Parse(reader.data, game, room, reader.broken).header, sorted)| == |reader.data|
  {
    var o := Parse(reader.data, game, room, reader.broken);
    LoadedIsFile(reader.data, game, room, reader.broken);
    ContentIsTyped(o.header, o.records, game);
    assert IsSnapshot(sorted, o.records);
    SnapshotIsRearranged(o.records, sorted);
    SnapshotLength(o.records, sorted);
    FileLength(game.schema, o.header, sorted, o.records);
  }

  lemma ContentIsTyped(h: Header, records: seq<Record>, game: Game)
    requires ContentOk(h, records, game)
    ensures AllTyped(records)
  {
    forall i | 0 <= i < |records| ensures Typed(records[i]) {
      assert RecordOk(records[i], game, h.variant);
    }
  }

  // A node list is empty exactly when the records are, and its nodes are as good as they are.
  lemma ListedIsOk(h: Header, records: seq<Record>, list: seq<Record>, game: Game)
    requires ContentOk(h, records, game) && Distinct(list) && MapOf(list) == MapOf(records)
    ensures (list == [] <==> records == []) && AllOk(list, game, h.variant)
  {
    MapSize(list);
    MapSize(records);
    forall i | 0 <= i < |list| ensures RecordOk(list[i], game, h.variant) {
      MapFinds(list, i);
      KeysOfMap(records, list[i].key);
      var j: nat :| j < |records| && records[j] == list[i];
    }
  }

  // What a loaded checkpoint needs to be saved: memory for its nodes, if it has any, and as much space as it took.
  predicate CanSaveAgain(loaded: Loaded, game: Game, memory: bool, size: nat, space: nat) {
    && loaded.Loaded?
    && (loaded.records == [] || (game.maxLegalActions <= SIZE_MAX / 16 && memory))
    && size <= space
  }

  lemma SaveSucceeds(reader: Reader, game: Game, room: nat, list: seq<Record>, memory: bool, space: nat, status: Status)
    requires var o := Parse(reader.data, game, room, reader.broken);
      && o.Loaded? && Distinct(list) && AllTyped(list) && MapOf(list) == MapOf(o.records)
      && (forall sorted | IsSnapshot(sorted, list) ::
            (status == Success) == (Savable(o.header, list, game, memory) && |File(game.schema, o.header, sorted)| <= space))
    ensures status == Success <==>
      CanSaveAgain(Parse(reader.data, game, room, reader.broken), game, memory, |reader.data|, space)
  {
    var o := Parse(reader.data, game, room, reader.broken);
    LoadedIsFile(reader.data, game, room, reader.broken);
    var sorted := SomeSnapshot(list);
    SavedLength(reader, game, room, list, sorted);
    ListedIsOk(o.header, o.records, list, game);
  }

  // Saves what was loaded.
  method SaveLoaded(writer: Writer, game: Game, session: Session, memory: bool, ghost records: seq<Record>)
    returns (status: Status, ghost list: seq<Record>)
    requires writer.out == [] && writer.Sound()
    requires ContentOk(session.header, records, game) && session.nodes == MapOf(records)
    modifies writer
    ensures Distinct(list) && AllTyped(list) && MapOf(list) == MapOf(records)
    ensures forall sorted | IsSnapshot(sorted, list) ::
      (status == Success)
      == (Savable(session.header, list, game, memory) && |File(game.schema, session.header, sorted)| <= writer.space)
    ensures status == Success ==>
      forall sorted | IsSnapshot(sorted, list) :: writer.out == File(game.schema, session.header, sorted)
  {
    LoadedIsKeyed(records);
    var nodes := ListNodes(session.nodes);
    list := nodes;
    ListedIsTyped(session.header, records, list, game);
    status := Save(writer, session.header, nodes, game, memory);
  }

  // Loading a checkpoint and saving it again, without running in between: the bytes are the same exactly when
  // the records were in key order.
  method LoadThenSave(reader: Reader, game: Game, room: nat, session: Session, writer: Writer, memory: bool)
    returns (loaded: Status, saved: Status)
    requires reader.position == 0 && reader.Sound() && session.nodes == map[]
    requires writer.out == [] && writer.Sound()
    modifies reader, session, writer
    ensures loaded == Success <==> Parse(reader.data, game, room, reader.broken).Loaded?
    ensures loaded == Success ==>
      (saved == Success <==>
         CanSaveAgain(Parse(reader.data, game, room, reader.broken), game, memory, |reader.data|, writer.space))
    ensures loaded == Success && saved == Success ==>
      SameExactlyIfSorted(writer.out, reader.data, Parse(reader.data, game, room, reader.broken))
  {
    ghost var o := Parse(reader.data, game, room, reader.broken);
    saved := InvalidArgument;
    loaded := Load(reader, game, room, session);
    LoadedIsFile(reader.data, game, room, reader.broken);
    if loaded == Success {
      FailureIsNamed(reader.data, game, room, reader.broken);
      ghost var list;
      saved, list := SaveLoaded(writer, game, session, memory, o.records);
      SaveSucceeds(reader, game, room, list, memory, writer.space, saved);
      if saved == Success {
        SavedAgain(reader, game, room, list, writer.out);
      }
    }
  }

  ghost predicate Ordered(sorted: seq<Record>) {
    Increasing(sorted) && forall i :: 0 <= i < |sorted| ==> KeyOk(sorted[i].key)
  }

  lemma SomeSnapshot(nodes: seq<Record>) returns (sorted: seq<Record>)
    requires Distinct(nodes) && AllTyped(nodes)
    ensures IsSnapshot(sorted, nodes) && KeysOk(nodes) && Length(sorted) == Length(nodes)
    decreases |nodes|
  {
    if nodes == [] {
      sorted := [];
    } else {
      var rest := SomeSnapshot(nodes[1..]);
      SnapshotIsRearranged(nodes[1..], rest);
      sorted := InsertRecord(rest, nodes[0]);
      LengthOfRest(nodes[0], nodes[1..]);
      assert [nodes[0]] + nodes[1..] == nodes;
    }
  }

  lemma AheadIsOrdered(r: Record, rest: seq<Record>)
    requires Ordered(rest) && KeyOk(r.key) && forall i :: 0 <= i < |rest| ==> r.key < rest[i].key
    ensures Ordered([r] + rest) && MapOf([r] + rest) == MapOf(rest)[r.key := r]
  {
    assert ([r] + rest)[1..] == rest;
  }

  lemma InsertRecord(rest: seq<Record>, r: Record) returns (sorted: seq<Record>)
    requires Ordered(rest) && KeyOk(r.key)
    requires forall i :: 0 <= i < |rest| ==> rest[i].key != r.key
    ensures Ordered(sorted) && MapOf(sorted) == MapOf(rest)[r.key := r]
    ensures forall i :: 0 <= i < |sorted| ==> sorted[i] == r || sorted[i] in rest
    ensures Length(sorted) == |RecordBytes(r)| + Length(rest)
    decreases |rest|
  {
    if rest == [] || r.key < rest[0].key {
      sorted := [r] + rest;
      AheadIsOrdered(r, rest);
      LengthOfRest(r, rest);
    } else {
      var tail := InsertRecord(rest[1..], r);
      sorted := [rest[0]] + tail;
      AheadIsOrdered(rest[0], tail);
      LengthOfRest(rest[0], tail);
      LengthOfRest(rest[0], rest[1..]);
      assert [rest[0]] + rest[1..] == rest;
      assert MapOf(rest) == MapOf(rest[1..])[rest[0].key := rest[0]];
    }
  }

  // ---- A file that does not come back ----

  lemma FallingContent(game: Game, h: Header, a: Record, b: Record)
    requires HeaderOk(h) && RecordOk(a, game, h.variant) && RecordOk(b, game, h.variant) && b.key < a.key
    ensures ContentOk(h, [a, b], game) && !Increasing([a, b])
  {
    var pair := [a, b];
    assert pair[0] == a && pair[1] == b;
  }

  lemma FallingSnapshot(game: Game, h: Header, a: Record, b: Record)
    requires RecordOk(a, game, h.variant) && RecordOk(b, game, h.variant) && b.key < a.key
    ensures IsSnapshot([b, a], [a, b])
  {
    TwoInMap(a, b);
    TwoInMap(b, a);
  }

  // Any two good records in falling key order: the file is accepted, and saving its content gives other bytes.
  lemma FallingPair(game: Game, room: nat, h: Header, a: Record, b: Record)
    requires SchemaOk(game.schema) && game.maxLegalActions > 0 && HeaderOk(h) && room > 2
    requires RecordOk(a, game, h.variant) && RecordOk(b, game, h.variant) && b.key < a.key
    ensures IsSnapshot([b, a], [a, b])
    ensures Parse(File(game.schema, h, [a, b]), game, room, false) == Loaded(h, [a, b])
    ensures File(game.schema, h, [b, a]) != File(game.schema, h, [a, b])
  {
    var records := [a, b];
    FallingContent(game, h, a, b);
    FallingSnapshot(game, h, a, b);
    var file := File(game.schema, h, records);
    FileLoads(game, h, records, room, file);
    RewriteIff(file, game, room, false, h, records, [b, a]);
  }

  function Blank(key: int): Record {
    Record(key, [0], [0])
  }

  lemma BlankIsOk(game: Game, key: int)
    requires game.maxLegalActions >= 1 && KeyOk(key)
    ensures RecordOk(Blank(key), game, Cfr)
  {
  }

  // The smallest such file: a fresh trainer's header, and the keys 1 and 0.
  lemma RewritingReorders(game: Game)
    requires game == Game([0x61], 1)
    ensures var h, a, b := Header(Cfr, Counters(0, 0, 0, 0, 0)), Blank(1), Blank(0);
      && Parse(File(game.schema, h, [a, b]), game, 3, false) == Loaded(h, [a, b])
      && IsSnapshot([b, a], [a, b])
      && File(game.schema, h, [b, a]) != File(game.schema, h, [a, b])
  {
    BlankIsOk(game, 0);
    BlankIsOk(game, 1);
    FallingPair(game, 3, Header(Cfr, Counters(0, 0, 0, 0, 0)), Blank(1), Blank(0));
  }

  lemma TwoInMap(a: Record, b: Record)
    requires a.key != b.key
    ensures MapOf([a, b]) == map[a.key := a, b.key := b]
  {
    assert [a, b][1..] == [b] && [b][1..] == [];
    assert MapOf([b]) == map[b.key := b];
  }
}
