// Writing and reading checkpoints step by step: bytes go through a running checksum, and nothing is
// published until the whole stream has been accepted.
module CheckpointStream {
  import Crc
  import RadixSort
  import opened Checkpoint
  import opened CheckpointIntegrity

  // ---- The running checksum over the bytes of this format ----

  ghost function Running(s: seq<Byte>): bv32 {
    Crc.Run(Crc.INITIAL, Raw(s))
  }

  lemma RunningMore(s: seq<Byte>, t: seq<Byte>)
    ensures Running(s + t) == Crc.Run(Running(s), Raw(t))
  {
    assert Raw(s + t) == Raw(s) + Raw(t);
    Crc.RunSplit(Crc.INITIAL, Raw(s), Raw(t));
  }

  lemma Advanced(before: seq<Byte>, bytes: seq<Byte>, after: seq<Byte>)
    requires |after| == |before| + |bytes| && after[..|before|] == before && after[|before|..] == bytes
    ensures Running(after) == Crc.Run(Running(before), Raw(bytes))
  {
    assert after == before + bytes;
    RunningMore(before, bytes);
  }

  // ---- Reading ----

  // A step of the reader did what the functional reader does on the bytes that were left.
  ghost predicate Matches<T>(o: Outcome<T>, status: Status, value: T, rest: seq<Byte>) {
    match o
    case Got(v, r) => status == Success && value == v && rest == r
    case Stop(e) => status == e && status != Success
  }

  // Values already read, in front of what the functional reader makes of the rest.
  ghost function Continue<T>(before: seq<T>, o: Outcome<seq<T>>): Outcome<seq<T>> {
    match o
    case Got(vs, rest) => Got(before + vs, rest)
    case Stop(e) => Stop(e)
  }

  lemma FromLeGrows(s: seq<Byte>, b: Byte)
    ensures FromLe(s + [b]) == FromLe(s) + RadixSort.Power(|s|) * b
    decreases |s|
  {
    if s == [] {
      assert [b][1..] == [];
    } else {
      FromLeGrows(s[1..], b);
      assert (s + [b])[1..] == s[1..] + [b];
      Scaled(RadixSort.Power(|s| - 1), b);
    }
  }

  lemma Scaled(p: nat, b: nat)
    ensures (256 * p) * b == 256 * (p * b)
  {
  }

  class Reader {
    const data: seq<Byte>
    const broken: bool
    var position: nat
    var crc: bv32

    constructor (data: seq<Byte>, broken: bool)
      ensures this.data == data && this.broken == broken && position == 0 && Sound()
    {
      this.data := data;
      this.broken := broken;
      position := 0;
      crc := Crc.INITIAL;
    }

    ghost predicate Sound()
      reads this
    {
      position <= |data| && crc == Running(data[..position])
    }

    ghost function Rest(): seq<Byte>
      requires position <= |data|
      reads this
    {
      data[position..]
    }

    // One call of the stream's read function: fewer bytes than asked for only at the end.
    method Fetch(length: nat) returns (status: Status, bytes: seq<Byte>)
      requires position <= |data|
      modifies this`position
      ensures position == old(position) + |bytes| <= |data| && bytes == data[old(position)..position]
      ensures |bytes| == if length <= |old(Rest())| then length else |old(Rest())|
      ensures bytes == old(Rest())[..|bytes|] && Rest() == old(Rest())[|bytes|..]
      ensures status == if |bytes| < length && broken then IoError else Success
    {
      var amount := if position + length <= |data| then length else |data| - position;
      bytes := data[position..position + amount];
      position := position + amount;
      status := if amount < length && broken then IoError else Success;
    }

    method ReadBytes(length: nat) returns (status: Status, bytes: seq<Byte>)
      requires Sound()
      modifies this
      ensures position <= |data|
      ensures Matches(Take(old(Rest()), length, broken), status, bytes, Rest())
      ensures status == Success ==> Sound()
    {
      ghost var before := position;
      status, bytes := Fetch(length);
      if status != Success {
        return;
      }
      if |bytes| != length {
        status := FormatError;
        return;
      }
      Advanced(data[..before], bytes, data[..position]);
      crc := Crc.Update(crc, Raw(bytes));
    }

    // The bytes assembled lowest first.
    static method Assemble(bytes: seq<Byte>) returns (value: nat)
      ensures value == FromLe(bytes)
    {
      value := 0;
      var scale: nat := 1;
      for index := 0 to |bytes|
        invariant value == FromLe(bytes[..index]) && scale == RadixSort.Power(index)
      {
        assert bytes[..index + 1] == bytes[..index] + [bytes[index]];
        FromLeGrows(bytes[..index], bytes[index]);
        value := value + scale * bytes[index];
        scale := 256 * scale;
      }
      assert bytes[..|bytes|] == bytes;
    }

    method ReadNumber(width: nat) returns (status: Status, value: nat)
      requires Sound()
      modifies this
      ensures position <= |data|
      ensures Matches(Number(old(Rest()), width, broken), status, value, Rest())
      ensures status == Success ==> Sound()
    {
      var bytes;
      value := 0;
      status, bytes := ReadBytes(width);
      if status == Success {
        value := Assemble(bytes);
      }
    }

    // The values of one row, checked one by one as they arrive.
    method ReadValues(count: nat, kind: Kind) returns (status: Status, values: seq<nat>)
      requires Sound()
      modifies this
      ensures position <= |data|
      ensures Matches(Values(old(Rest()), count, kind, broken), status, values, Rest())
      ensures status == Success ==> Sound()
    {
      ghost var start := Rest();
      values, status := [], Success;
      ContinueNone(Values(start, count, kind, broken));
      var index := 0;
      while index < count
        invariant index <= count && Sound() && status == Success
        invariant Values(start, count, kind, broken)
               == Continue(values, Values(Rest(), count - index, kind, broken))
      {
        var value;
        ContinueOne(values, Rest(), count - index, kind, broken);
        status, value := ReadNumber(8);
        if status != Success {
          return;
        }
        if !Acceptable(value, kind) {
          status := FormatError;
          return;
        }
        values := values + [value];
        index := index + 1;
      }
      assert values + [] == values;
    }

    method ReadSchema(game: Game) returns (status: Status)
      requires Sound()
      modifies this
      ensures position <= |data|
      ensures Matches(GetSchema(old(Rest()), game, broken), status, (), Rest())
      ensures status == Success ==> Sound()
    {
      var length, schema;
      status, length := ReadNumber(4);
      if status != Success {
        return;
      }
      if length == 0 || length > 255 {
        return FormatError;
      }
      status, schema := ReadBytes(length);
      if status != Success {
        return;
      }
      if !SchemaOk(game.schema) {
        return InvalidArgument;
      }
      if schema != game.schema {
        return IncompatibleGame;
      }
    }

    method ReadPreamble(game: Game) returns (status: Status)
      requires Sound()
      modifies this
      ensures position <= |data|
      ensures Matches(GetPreamble(old(Rest()), game, broken), status, (), Rest())
      ensures status == Success ==> Sound()
    {
      var magic, version;
      status, magic := ReadBytes(8);
      if status != Success {
        return;
      }
      if magic != Magic() {
        return FormatError;
      }
      status, version := ReadNumber(4);
      if status != Success {
        return;
      }
      if version != 1 {
        return FormatError;
      }
      status := ReadSchema(game);
    }

    method ReadVariant() returns (status: Status, variant: Variant)
      requires Sound()
      modifies this
      ensures position <= |data|
      ensures Matches(GetVariant(old(Rest()), broken), status, variant, Rest())
      ensures status == Success ==> Sound()
    {
      var code;
      variant := Cfr;
      status, code := ReadNumber(4);
      if status != Success {
        return;
      }
      if code > 2 {
        return FormatError, variant;
      }
      if code == 1 {
        variant := CfrPlus;
      } else if code == 2 {
        var random;
        status, random := ReadNumber(8);
        variant := Mccfr(random);
      }
    }

    method ReadFields() returns (status: Status, fields: Fields)
      requires Sound()
      modifies this
      ensures position <= |data|
      ensures Matches(GetFields(old(Rest()), broken), status, fields, Rest())
      ensures status == Success ==> Sound()
    {
      var variant, v;
      fields := Fields(Header(Cfr, Counters(0, 0, 0, 0, 0)), 0);
      status, variant := ReadVariant();
      if status != Success {
        return;
      }
      ghost var here := Rest();
      status, v := ReadValues(6, Anything);
      if status != Success {
        return;
      }
      ValuesSound(here, 6, Anything, broken);
      fields := Fields(Header(variant, Counters(v[0], v[1], v[2], v[3], v[4])), v[5]);
    }

    method ReadRecord(nodes: map<int, Record>, room: nat, game: Game, variant: Variant)
      returns (status: Status, record: Record)
      requires Sound()
      modifies this
      ensures position <= |data|
      ensures Matches(GetRecord(old(Rest()), nodes.Keys, room, game, variant, broken), status, record, Rest())
      ensures status == Success ==> Sound()
    {
      record := Record(0, [], []);
      var lead, regrets, strategies;
      ValuesSound(Rest(), 2, Anything, broken);
      status, lead := ReadValues(2, Anything);
      if status != Success {
        return;
      }
      var count := lead[1];
      if count == 0 || count > game.maxLegalActions {
        return FormatError, record;
      }
      var key := DecodeKey(lead[0]);
      if key in nodes {
        return FormatError, record;
      }
      if |nodes.Keys| >= room {
        return OutOfMemory, record;
      }
      RowsTwo(Rest(), count, RegretKind(variant), NonNegative, broken);
      status, regrets := ReadValues(count, RegretKind(variant));
      if status != Success {
        return;
      }
      status, strategies := ReadValues(count, NonNegative);
      record := Record(key, regrets, strategies);
    }
  }

  lemma RowsTwo(s: seq<Byte>, count: nat, first: Kind, second: Kind, broken: bool)
    ensures var o := Values(s, count, first, broken);
      Rows(s, count, [first, second], broken) ==
        if o.Stop? then Stop(o.status) else
          var t := Values(o.rest, count, second, broken);
          if t.Stop? then Stop(t.status) else Got([o.value, t.value], t.rest)
  {
    var o := Values(s, count, first, broken);
    assert [first, second][1..] == [second] && [second][1..] == [];
    if o.Got? {
      var t := Values(o.rest, count, second, broken);
      assert Rows(o.rest, count, [second], broken) == if t.Got? then Got([t.value] + [], t.rest) else Stop(t.status);
      if t.Got? {
        assert [o.value] + ([t.value] + []) == [o.value, t.value];
      }
    }
  }

  lemma ContinueNone<T>(o: Outcome<seq<T>>)
    ensures Continue([], o) == o
  {
    if o.Got? {
      assert [] + o.value == o.value;
    }
  }

  // One value more, seen from the front of the row.
  lemma ContinueOne(before: seq<nat>, s: seq<Byte>, k: nat, kind: Kind, broken: bool)
    requires k > 0
    ensures var o := Number(s, 8, broken);
      Continue(before, Values(s, k, kind, broken)) ==
        if o.Stop? then Stop(o.status) else
        if !Acceptable(o.value, kind) then Stop(FormatError) else
          Continue(before + [o.value], Values(o.rest, k - 1, kind, broken))
  {
    var o := Number(s, 8, broken);
    if o.Got? && Acceptable(o.value, kind) {
      var tail := Values(o.rest, k - 1, kind, broken);
      if tail.Got? {
        assert before + ([o.value] + tail.value) == (before + [o.value]) + tail.value;
      }
    }
  }

  lemma {:induction false} MapGrows(records: seq<Record>, r: Record)
    requires forall i :: 0 <= i < |records| ==> records[i].key != r.key
    ensures MapOf(records + [r]) == MapOf(records)[r.key := r]
    decreases |records|
  {
    if records == [] {
      assert [r][1..] == [];
    } else {
      MapGrows(records[1..], r);
      assert (records + [r])[1..] == records[1..] + [r];
    }
  }

  // What a checkpoint is loaded into: an information store and a trainer.
  class Session {
    var nodes: map<int, Record>
    var header: Header

    constructor ()
      ensures nodes == map[]
    {
      nodes := map[];
      header := Header(Cfr, Counters(0, 0, 0, 0, 0));
    }
  }

  ghost predicate Gathered(nodes: map<int, Record>, records: seq<Record>) {
    Distinct(records) && nodes == MapOf(records)
  }

  lemma GatherOne(nodes: map<int, Record>, records: seq<Record>, r: Record)
    requires Gathered(nodes, records) && r.key !in nodes
    ensures Gathered(nodes[r.key := r], records + [r])
    ensures nodes[r.key := r].Keys == nodes.Keys + {r.key}
  {
    MapHolds(records, r.key);
    MapGrows(records, r);
  }

  lemma RecordIsNew(s: seq<Byte>, known: set<int>, room: nat, game: Game, variant: Variant, broken: bool)
    ensures var o := GetRecord(s, known, room, game, variant, broken);
      o.Got? ==> o.value.key !in known
  {
    RecordSound(s, known, room, game, variant, broken);
  }

  // What the functional reader makes of the bytes that are left.
  ghost predicate Reads(s: seq<Byte>, left: nat, known: set<int>, room: nat, game: Game, variant: Variant,
                        broken: bool, o: Outcome<seq<Record>>)
  {
    forall n: nat | n == left :: GetRecords(s, n, known, room, game, variant, broken) == o
  }

  lemma NothingLeft(s: seq<Byte>, known: set<int>, room: nat, game: Game, variant: Variant, broken: bool,
                    o: Outcome<seq<Record>>)
    requires Reads(s, 0, known, room, game, variant, broken, o)
    ensures o == Got([], s)
  {
    assert GetRecords(s, 0, known, room, game, variant, broken) == o;
  }

  // One record more, seen from the front of the list.
  lemma ReadsOne(before: seq<Record>, s: seq<Byte>, left: nat, known: set<int>, room: nat, game: Game,
                 variant: Variant, broken: bool, o: Outcome<seq<Record>>)
    returns (ahead: Outcome<seq<Record>>)
    requires left > 0 && Reads(s, left, known, room, game, variant, broken, o)
    ensures var r := GetRecord(s, known, room, game, variant, broken);
      r.Stop? ==> o == Stop(r.status)
    ensures var r := GetRecord(s, known, room, game, variant, broken);
      r.Got? ==> (Reads(r.rest, left - 1, known + {r.value.key}, room, game, variant, broken, ahead)
                  && Continue(before, o) == Continue(before + [r.value], ahead))
  {
    assert GetRecords(s, left, known, room, game, variant, broken) == o;
    var r := GetRecord(s, known, room, game, variant, broken);
    ahead := o;
    if r.Got? {
      ahead := GetRecords(r.rest, left - 1, known + {r.value.key}, room, game, variant, broken);
      if ahead.Got? {
        assert before + ([r.value] + ahead.value) == (before + [r.value]) + ahead.value;
      }
    }
  }

  method ReadOne(reader: Reader, left: nat, nodes: map<int, Record>, ghost records: seq<Record>, room: nat, game: Game,
                 variant: Variant, ghost o: Outcome<seq<Record>>)
    returns (status: Status, more: map<int, Record>, ghost longer: seq<Record>, ghost ahead: Outcome<seq<Record>>)
    requires reader.Sound() && Gathered(nodes, records) && left > 0
    requires Reads(reader.Rest(), left, nodes.Keys, room, game, variant, reader.broken, o)
    modifies reader
    ensures reader.position <= |reader.data|
    ensures status == Success ==> reader.Sound() && Gathered(more, longer)
    ensures status == Success ==> Continue(longer, ahead) == Continue(records, o)
    ensures status == Success ==> Reads(reader.Rest(), left - 1, more.Keys, room, game, variant, reader.broken, ahead)
    ensures status != Success ==> o == Stop(status)
  {
    ghost var next := ReadsOne(records, reader.Rest(), left, nodes.Keys, room, game, variant, reader.broken, o);
    RecordIsNew(reader.Rest(), nodes.Keys, room, game, variant, reader.broken);
    var record;
    more, longer, ahead := nodes, records, next;
    status, record := reader.ReadRecord(nodes, room, game, variant);
    if status == Success {
      GatherOne(nodes, records, record);
      more, longer := nodes[record.key := record], records + [record];
    }
  }

  // The records, into a store of their own.
  method ReadRecords(reader: Reader, count: nat, room: nat, game: Game, variant: Variant,
                     ghost o: Outcome<seq<Record>>)
    returns (status: Status, nodes: map<int, Record>, ghost records: seq<Record>)
    requires reader.Sound() && Reads(reader.Rest(), count, {}, room, game, variant, reader.broken, o)
    modifies reader
    ensures reader.position <= |reader.data|
    ensures Matches(o, status, records, reader.Rest())
    ensures status == Success ==> reader.Sound() && Gathered(nodes, records)
  {
    nodes, records, status := map[], [], Success;
    assert nodes.Keys == {};
    ghost var ahead := o;
    ContinueNone(o);
    var index := 0;
    while index < count
      invariant index <= count && reader.Sound() && Gathered(nodes, records)
      invariant o == Continue(records, ahead)
      invariant Reads(reader.Rest(), count - index, nodes.Keys, room, game, variant, reader.broken, ahead)
    {
      status, nodes, records, ahead := ReadOne(reader, count - index, nodes, records, room, game, variant, ahead);
      if status != Success {
        return;
      }
      index := index + 1;
    }
    status := Success;
    NothingLeft(reader.Rest(), nodes.Keys, room, game, variant, reader.broken, ahead);
    assert records + [] == records;
  }

  method ReadNodes(reader: Reader, header: Header, count: nat, room: nat, game: Game)
    returns (status: Status, nodes: map<int, Record>, ghost content: Content)
    requires reader.Sound()
    modifies reader
    ensures reader.position <= |reader.data|
    ensures Matches(GetNodes(old(reader.Rest()), header, count, room, game, reader.broken), status, content, reader.Rest())
    ensures status == Success ==>
      reader.Sound() && content.header == header && nodes == MapOf(content.records)
  {
    nodes, content := map[], Content(header, []);
    if room == 0 {
      status := OutOfMemory;
      return;
    }
    ghost var o := GetRecords(reader.Rest(), count, {}, room - 1, game, header.variant, reader.broken);
    ghost var records;
    status, nodes, records := ReadRecords(reader, count, room - 1, game, header.variant, o);
    content := Content(header, records);
  }

  // The stored checksum against the running one, then the end of the stream.
  method ReadClosing(reader: Reader) returns (status: Status)
    requires reader.Sound()
    modifies reader
    ensures status == old(Closing(reader.Rest(), Checksum(reader.data[..reader.position]), reader.broken))
  {
    ghost var rest := reader.Rest();
    var bytes, trailing;
    status, bytes := reader.Fetch(4);
    if status != Success {
      return;
    }
    if |bytes| != 4 {
      return FormatError;
    }
    if bytes != Trailer(Crc.Not(reader.crc)) {
      return FormatError;
    }
    status, trailing := reader.Fetch(1);
    if status == Success && |trailing| != 0 {
      status := FormatError;
    }
  }

  method ReadBody(reader: Reader, game: Game, room: nat)
    returns (status: Status, header: Header, nodes: map<int, Record>, ghost content: Content)
    requires reader.Sound()
    modifies reader
    ensures reader.position <= |reader.data|
    ensures Matches(GetBody(old(reader.Rest()), game, room, reader.broken), status, content, reader.Rest())
    ensures status == Success ==>
      reader.Sound() && content.header == header && nodes == MapOf(content.records)
  {
    var fields;
    header, nodes := Header(Cfr, Counters(0, 0, 0, 0, 0)), map[];
    content := Content(header, []);
    status := reader.ReadPreamble(game);
    if status != Success {
      return;
    }
    status, fields := reader.ReadFields();
    if status != Success {
      return;
    }
    header := fields.header;
    status, nodes, content := ReadNodes(reader, header, fields.count, room, game);
  }

  // Loading publishes the whole content of an acceptable stream, or nothing at all.
  method Load(reader: Reader, game: Game, room: nat, session: Session) returns (status: Status)
    requires reader.position == 0 && reader.Sound()
    modifies reader, session
    ensures old(session.nodes) != map[] ==> status == InvalidArgument
    ensures old(session.nodes) == map[] ==>
      match Parse(reader.data, game, room, reader.broken)
      case Loaded(header, records) =>
        status == Success && session.header == header && session.nodes == MapOf(records)
      case Failed(e) => status == e
    ensures status != Success ==> session.nodes == old(session.nodes) && session.header == old(session.header)
  {
    if session.nodes != map[] || game.maxLegalActions == 0 {
      return InvalidArgument;
    }
    assert reader.Rest() == reader.data;
    var header, nodes;
    ghost var content;
    status, header, nodes, content := ReadBody(reader, game, room);
    if status != Success {
      return;
    }
    ghost var rest := reader.Rest();
    assert |reader.data| - |rest| == reader.position;
    status := ReadClosing(reader);
    if status != Success {
      return;
    }
    session.nodes := nodes;
    session.header := header;
  }
}
