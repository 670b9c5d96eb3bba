// The checkpoint format: what the writer produces, what the reader accepts, and that the two agree.
module Checkpoint {
  import Crc
  import RadixSort

  type Byte = b: nat | b < 256

  datatype Status =
    | Success | InvalidArgument | FormatError | IncompatibleGame | IoError | OutOfMemory | NumericError

  // ---- Numbers, lowest byte first ----

  function Le(v: nat, n: nat): (s: seq<Byte>)
    ensures |s| == n
    decreases n, v
  {
    if n == 0 then [] else [v % 256] + Le(v / 256, n - 1)
  }

  function FromLe(s: seq<Byte>): nat
    decreases |s|
  {
    if s == [] then 0 else s[0] + 256 * FromLe(s[1..])
  }

  lemma {:induction false} NumberRoundTrip(v: nat, n: nat)
    requires v < RadixSort.Power(n)
    ensures FromLe(Le(v, n)) == v
    decreases n
  {
    if n > 0 {
      NumberRoundTrip(v / 256, n - 1);
      assert Le(v, n)[1..] == Le(v / 256, n - 1);
    }
  }

  lemma {:induction false} BytesRoundTrip(s: seq<Byte>)
    ensures FromLe(s) < RadixSort.Power(|s|) && Le(FromLe(s), |s|) == s
    decreases |s|
  {
    if s != [] {
      BytesRoundTrip(s[1..]);
      assert s == [s[0]] + s[1..];
    }
  }

  // ---- The checksum of these bytes ----

  function Raw(s: seq<Byte>): (r: seq<Crc.Byte>)
    ensures |r| == |s|
  {
    seq(|s|, i requires 0 <= i < |s| => s[i] as bv8)
  }

  function Checksum(s: seq<Byte>): bv32 {
    Crc.Value(Raw(s))
  }

  function Trailer(checksum: bv32): (t: seq<Byte>)
    ensures |t| == 4
  {
    seq(4, i requires 0 <= i < 4 => Crc.Bytes(checksum)[i] as nat)
  }

  // ---- Keys and doubles as 64-bit patterns ----

  const WORD: nat := RadixSort.WORD

  ghost predicate KeyOk(key: int) {
    -0x8000_0000_0000_0000 <= key < 0x8000_0000_0000_0000
  }

  function EncodeKey(key: int): nat
    requires KeyOk(key)
  {
    if key < 0 then key + WORD else key
  }

  function DecodeKey(encoded: nat): int
    requires encoded < WORD
  {
    if encoded <= 0x7FFF_FFFF_FFFF_FFFF then encoded else -(WORD - 1 - encoded) - 1
  }

  lemma KeyRoundTrip(key: int, encoded: nat)
    ensures KeyOk(key) ==> EncodeKey(key) < WORD && DecodeKey(EncodeKey(key)) == key
    ensures encoded < WORD ==> KeyOk(DecodeKey(encoded)) && EncodeKey(DecodeKey(encoded)) == encoded
  {
  }

  // Not an infinity and not a NaN: the exponent field is not all ones.
  predicate Finite(bits: nat) {
    (bits / 0x10_0000_0000_0000) % 2048 != 2047
  }

  // Below zero: the sign bit is set and the number is not minus zero.
  predicate Negative(bits: nat) {
    bits > 0x8000_0000_0000_0000
  }

  datatype Kind = Anything | AnyFinite | NonNegative

  predicate Acceptable(bits: nat, kind: Kind) {
    (kind != Anything ==> Finite(bits)) && (kind == NonNegative ==> !Negative(bits))
  }

  // ---- What a checkpoint holds ----

  datatype Variant = Cfr | CfrPlus | Mccfr(random: nat)

  datatype Counters = Counters(training: nat, iterations: nat, traversals: nat, visited: nat, errors: nat)

  datatype Header = Header(variant: Variant, counters: Counters)

  datatype Record = Record(key: int, regrets: seq<nat>, strategies: seq<nat>)

  datatype Game = Game(schema: seq<Byte>, maxLegalActions: nat)

  predicate SchemaOk(schema: seq<Byte>) {
    1 <= |schema| <= 255 && forall i :: 0 <= i < |schema| ==> 0x20 < schema[i] <= 0x7E
  }

  ghost predicate ValuesOk(values: seq<nat>, kind: Kind) {
    forall i :: 0 <= i < |values| ==> values[i] < WORD && Acceptable(values[i], kind)
  }

  function RegretKind(variant: Variant): Kind {
    if variant == CfrPlus then NonNegative else AnyFinite
  }

  ghost predicate RecordOk(r: Record, game: Game, variant: Variant) {
    && KeyOk(r.key)
    && 1 <= |r.regrets| == |r.strategies| <= game.maxLegalActions
    && |r.regrets| < WORD
    && ValuesOk(r.regrets, RegretKind(variant))
    && ValuesOk(r.strategies, NonNegative)
  }

  ghost predicate HeaderOk(h: Header) {
    && (h.variant.Mccfr? ==> h.variant.random < WORD)
    && ValuesOk(CounterList(h.counters), Anything)
  }

  function CounterList(c: Counters): (list: seq<nat>)
    ensures |list| == 5
  {
    [c.training, c.iterations, c.traversals, c.visited, c.errors]
  }

  ghost predicate Distinct(records: seq<Record>) {
    forall i, j :: 0 <= i < j < |records| ==> records[i].key != records[j].key
  }

  ghost predicate AllOk(records: seq<Record>, game: Game, variant: Variant) {
    forall i :: 0 <= i < |records| ==> RecordOk(records[i], game, variant)
  }

  ghost predicate ContentOk(h: Header, records: seq<Record>, game: Game) {
    && HeaderOk(h)
    && |records| < WORD
    && Distinct(records)
    && AllOk(records, game, h.variant)
  }

  // ---- The bytes of a checkpoint ----

  function Words(values: seq<nat>): seq<Byte>
    decreases |values|
  {
    if values == [] then [] else Le(values[0], 8) + Words(values[1..])
  }

  function RowsBytes(rows: seq<seq<nat>>): seq<Byte>
    decreases |rows|
  {
    if rows == [] then [] else Words(rows[0]) + RowsBytes(rows[1..])
  }

  function RecordBytes(r: Record): seq<Byte>
    requires KeyOk(r.key)
  {
    Words([EncodeKey(r.key), |r.regrets|]) + RowsBytes([r.regrets, r.strategies])
  }

  function RecordsBytes(records: seq<Record>): seq<Byte>
    requires forall i :: 0 <= i < |records| ==> KeyOk(records[i].key)
    decreases |records|
  {
    if records == [] then [] else RecordBytes(records[0]) + RecordsBytes(records[1..])
  }

  // "CFRCKPT" and a zero byte.
  function Magic(): (m: seq<Byte>)
    ensures |m| == 8
  {
    [0x43, 0x46, 0x52, 0x43, 0x4B, 0x50, 0x54, 0x00]
  }

  function Preamble(schema: seq<Byte>): seq<Byte> {
    Magic() + (Le(1, 4) + (Le(|schema|, 4) + schema))
  }

  function Code(variant: Variant): nat {
    match variant
    case Cfr => 0
    case CfrPlus => 1
    case Mccfr(_) => 2
  }

  function VariantBytes(variant: Variant): seq<Byte> {
    Le(Code(variant), 4) + if variant.Mccfr? then Le(variant.random, 8) else []
  }

  function FieldsBytes(h: Header, count: nat): seq<Byte> {
    VariantBytes(h.variant) + Words(CounterList(h.counters) + [count])
  }

  function Body(schema: seq<Byte>, h: Header, records: seq<Record>): seq<Byte>
    requires forall i :: 0 <= i < |records| ==> KeyOk(records[i].key)
  {
    Preamble(schema) + (FieldsBytes(h, |records|) + RecordsBytes(records))
  }

  function File(schema: seq<Byte>, h: Header, records: seq<Record>): seq<Byte>
    requires forall i :: 0 <= i < |records| ==> KeyOk(records[i].key)
  {
    var body := Body(schema, h, records);
    body + Trailer(Checksum(body))
  }

  // ---- The reader, as a function of the bytes ----

  datatype Outcome<T> = Got(value: T, rest: seq<Byte>) | Stop(status: Status)

  // A stream that is not broken ends where its bytes end; a broken one reports an error there.
  function Short(broken: bool): Status {
    if broken then IoError else FormatError
  }

  function Take(s: seq<Byte>, n: nat, broken: bool): Outcome<seq<Byte>> {
    if n <= |s| then Got(s[..n], s[n..]) else Stop(Short(broken))
  }

  function Number(s: seq<Byte>, n: nat, broken: bool): Outcome<nat> {
    if n <= |s| then Got(FromLe(s[..n]), s[n..]) else Stop(Short(broken))
  }

  function Values(s: seq<Byte>, k: nat, kind: Kind, broken: bool): Outcome<seq<nat>>
    decreases k, |s|
  {
    if k == 0 then Got([], s) else
      match Number(s, 8, broken)
      case Stop(e) => Stop(e)
      case Got(v, s1) =>
        if !Acceptable(v, kind) then Stop(FormatError) else
          match Values(s1, k - 1, kind, broken)
          case Stop(e) => Stop(e)
          case Got(vs, s2) => Got([v] + vs, s2)
  }

  // Rows of one length, each of its own kind.
  function Rows(s: seq<Byte>, count: nat, kinds: seq<Kind>, broken: bool): Outcome<seq<seq<nat>>>
    decreases |kinds|
  {
    if kinds == [] then Got([], s) else
      match Values(s, count, kinds[0], broken)
      case Stop(e) => Stop(e)
      case Got(row, s1) =>
        match Rows(s1, count, kinds[1..], broken)
        case Stop(e) => Stop(e)
        case Got(rows, s2) => Got([row] + rows, s2)
  }

  // The key and the length of a record are two numbers of any value, its rows the regrets and the strategy.
  function GetRecord(s: seq<Byte>, known: set<int>, room: nat, game: Game, variant: Variant, broken: bool)
    : Outcome<Record>
  {
    match Values(s, 2, Anything, broken)
    case Stop(e) => Stop(e)
    case Got(lead, s1) =>
      ValuesSound(s, 2, Anything, broken);
      if lead[1] == 0 || lead[1] > game.maxLegalActions then Stop(FormatError) else
      if DecodeKey(lead[0]) in known then Stop(FormatError) else
      if |known| >= room then Stop(OutOfMemory) else
        match Rows(s1, lead[1], [RegretKind(variant), NonNegative], broken)
        case Stop(e) => Stop(e)
        case Got(rows, s2) =>
          RowsSound(s1, lead[1], [RegretKind(variant), NonNegative], broken);
          Got(Record(DecodeKey(lead[0]), rows[0], rows[1]), s2)
  }

  function GetRecords(s: seq<Byte>, n: nat, known: set<int>, room: nat, game: Game, variant: Variant, broken: bool)
    : Outcome<seq<Record>>
    decreases n
  {
    if n == 0 then Got([], s) else
      match GetRecord(s, known, room, game, variant, broken)
      case Stop(e) => Stop(e)
      case Got(r, s1) =>
        match GetRecords(s1, n - 1, known + {r.key}, room, game, variant, broken)
        case Stop(e) => Stop(e)
        case Got(rs, s2) => Got([r] + rs, s2)
  }

  function GetSchema(s: seq<Byte>, game: Game, broken: bool): Outcome<()> {
    match Number(s, 4, broken)
    case Stop(e) => Stop(e)
    case Got(length, s1) =>
      if length == 0 || length > 255 then Stop(FormatError) else
        match Take(s1, length, broken)
        case Stop(e) => Stop(e)
        case Got(schema, s2) =>
          if !SchemaOk(game.schema) then Stop(InvalidArgument) else
          if schema != game.schema then Stop(IncompatibleGame) else Got((), s2)
  }

  function GetPreamble(s: seq<Byte>, game: Game, broken: bool): Outcome<()> {
    match Take(s, 8, broken)
    case Stop(e) => Stop(e)
    case Got(magic, s1) =>
      if magic != Magic() then Stop(FormatError) else
        match Number(s1, 4, broken)
        case Stop(e) => Stop(e)
        case Got(version, s2) => if version != 1 then Stop(FormatError) else GetSchema(s2, game, broken)
  }

  function GetVariant(s: seq<Byte>, broken: bool): Outcome<Variant> {
    match Number(s, 4, broken)
    case Stop(e) => Stop(e)
    case Got(code, s1) =>
      if code == 0 then Got(Cfr, s1) else if code == 1 then Got(CfrPlus, s1) else
      if code != 2 then Stop(FormatError) else
        match Number(s1, 8, broken)
        case Stop(e) => Stop(e)
        case Got(random, s2) => Got(Mccfr(random), s2)
  }

  datatype Fields = Fields(header: Header, count: nat)

  function GetFields(s: seq<Byte>, broken: bool): Outcome<Fields> {
    match GetVariant(s, broken)
    case Stop(e) => Stop(e)
    case Got(variant, s1) =>
      match Values(s1, 6, Anything, broken)
      case Stop(e) => Stop(e)
      case Got(v, s2) =>
        ValuesSound(s1, 6, Anything, broken);
        Got(Fields(Header(variant, Counters(v[0], v[1], v[2], v[3], v[4])), v[5]), s2)
  }

  datatype Loaded = Loaded(header: Header, records: seq<Record>) | Failed(status: Status)

  // The checksum, and nothing after it.
  function Closing(s: seq<Byte>, expected: bv32, broken: bool): Status {
    if |s| < 4 then Short(broken) else
    if s[..4] != Trailer(expected) then FormatError else
    if |s| > 4 then FormatError else if broken then IoError else Success
  }

  datatype Content = Content(header: Header, records: seq<Record>)

  // Room is the number of allocations that succeed: one for the store, one for each of its nodes.
  function GetNodes(s: seq<Byte>, h: Header, count: nat, room: nat, game: Game, broken: bool): Outcome<Content> {
    if room == 0 then Stop(OutOfMemory) else
      match GetRecords(s, count, {}, room - 1, game, h.variant, broken)
      case Stop(e) => Stop(e)
      case Got(records, rest) => Got(Content(h, records), rest)
  }

  function GetBody(s: seq<Byte>, game: Game, room: nat, broken: bool): Outcome<Content> {
    match GetPreamble(s, game, broken)
    case Stop(e) => Stop(e)
    case Got(_, s1) =>
      match GetFields(s1, broken)
      case Stop(e) => Stop(e)
      case Got(f, s2) => GetNodes(s2, f.header, f.count, room, game, broken)
  }

  function Parse(file: seq<Byte>, game: Game, room: nat, broken: bool): Loaded {
    if game.maxLegalActions == 0 then Failed(InvalidArgument) else
      match GetBody(file, game, room, broken)
      case Stop(e) => Failed(e)
      case Got(c, rest) =>
        if |rest| > |file| then Failed(FormatError) else
          var status := Closing(rest, Checksum(file[..|file| - |rest|]), broken);
          if status == Success then Loaded(c.header, c.records) else Failed(status)
  }

  // ---- Each part reads back what it wrote, and accepts nothing else ----

  lemma NumberSound(s: seq<Byte>, n: nat, broken: bool)
    ensures var o := Number(s, n, broken);
      o.Got? ==> o.value < RadixSort.Power(n) && s == Le(o.value, n) + o.rest
    ensures n == 8 && Number(s, n, broken).Got? ==> Number(s, n, broken).value < WORD
  {
    if n <= |s| {
      BytesRoundTrip(s[..n]);
      assert s == s[..n] + s[n..];
    }
    RadixSort.PowerIsWord();
  }

  lemma NumberComplete(v: nat, n: nat, rest: seq<Byte>, broken: bool)
    requires v < RadixSort.Power(n)
    ensures Number(Le(v, n) + rest, n, broken) == Got(v, rest)
  {
    NumberRoundTrip(v, n);
    var s := Le(v, n) + rest;
    assert s[..n] == Le(v, n) && s[n..] == rest;
  }

  lemma {:induction false} ValuesSound(s: seq<Byte>, k: nat, kind: Kind, broken: bool)
    ensures var o := Values(s, k, kind, broken);
      o.Got? ==> |o.value| == k && ValuesOk(o.value, kind) && s == Words(o.value) + o.rest
    decreases k
  {
    var o := Values(s, k, kind, broken);
    if o.Got? && k > 0 {
      var first := Number(s, 8, broken);
      NumberSound(s, 8, broken);
      ValuesSound(first.rest, k - 1, kind, broken);
      var rest := Values(first.rest, k - 1, kind, broken);
      ValuesJoined(first.value, rest.value, kind);
      Assoc(Le(first.value, 8), Words(rest.value), o.rest);
    }
  }

  lemma ValuesJoined(first: nat, rest: seq<nat>, kind: Kind)
    requires first < WORD && Acceptable(first, kind) && ValuesOk(rest, kind)
    ensures ValuesOk([first] + rest, kind) && Words([first] + rest) == Le(first, 8) + Words(rest)
  {
    assert ([first] + rest)[1..] == rest;
  }

  lemma {:induction false} ValuesComplete(values: seq<nat>, kind: Kind, rest: seq<Byte>, broken: bool)
    requires ValuesOk(values, kind)
    ensures Values(Words(values) + rest, |values|, kind, broken) == Got(values, rest)
    decreases |values|
  {
    if values == [] {
      assert Words(values) + rest == rest;
    } else {
      var s := Words(values) + rest;
      var s1 := Words(values[1..]) + rest;
      Assoc(Le(values[0], 8), Words(values[1..]), rest);
      RadixSort.PowerIsWord();
      NumberComplete(values[0], 8, s1, broken);
      assert ValuesOk(values[1..], kind);
      ValuesComplete(values[1..], kind, rest, broken);
      assert values == [values[0]] + values[1..];
    }
  }

  lemma Assoc(a: seq<Byte>, b: seq<Byte>, c: seq<Byte>)
    ensures (a + b) + c == a + (b + c)
  {
  }

  ghost predicate RowsOk(rows: seq<seq<nat>>, count: nat, kinds: seq<Kind>) {
    |rows| == |kinds| && forall i :: 0 <= i < |rows| ==> |rows[i]| == count && ValuesOk(rows[i], kinds[i])
  }

  lemma {:induction false} RowsSound(s: seq<Byte>, count: nat, kinds: seq<Kind>, broken: bool)
    ensures var o := Rows(s, count, kinds, broken);
      o.Got? ==> RowsOk(o.value, count, kinds) && s == RowsBytes(o.value) + o.rest
    decreases |kinds|
  {
    var o := Rows(s, count, kinds, broken);
    if o.Got? && kinds != [] {
      var first := Values(s, count, kinds[0], broken);
      ValuesSound(s, count, kinds[0], broken);
      RowsSound(first.rest, count, kinds[1..], broken);
      var rest := Rows(first.rest, count, kinds[1..], broken);
      assert o.value[1..] == rest.value;
      Assoc(Words(first.value), RowsBytes(rest.value), o.rest);
    }
  }

  lemma {:induction false} RowsComplete(rows: seq<seq<nat>>, count: nat, kinds: seq<Kind>, rest: seq<Byte>,
                                        broken: bool)
    requires RowsOk(rows, count, kinds)
    ensures Rows(RowsBytes(rows) + rest, count, kinds, broken) == Got(rows, rest)
    decreases |kinds|
  {
    if kinds == [] {
      assert RowsBytes(rows) + rest == rest;
    } else {
      var s1 := RowsBytes(rows[1..]) + rest;
      Assoc(Words(rows[0]), RowsBytes(rows[1..]), rest);
      assert |rows[0]| == count;
      ValuesComplete(rows[0], kinds[0], s1, broken);
      RowsComplete(rows[1..], count, kinds[1..], rest, broken);
      assert rows == [rows[0]] + rows[1..];
    }
  }

  lemma RecordSound(s: seq<Byte>, known: set<int>, room: nat, game: Game, variant: Variant, broken: bool)
    ensures var o := GetRecord(s, known, room, game, variant, broken);
      o.Got? ==> (RecordOk(o.value, game, variant) && o.value.key !in known && |known| < room
                  && s == RecordBytes(o.value) + o.rest)
  {
    var o := GetRecord(s, known, room, game, variant, broken);
    if o.Got? {
      var lead := Values(s, 2, Anything, broken);
      ValuesSound(s, 2, Anything, broken);
      KeyRoundTrip(0, lead.value[0]);
      var kinds := [RegretKind(variant), NonNegative];
      var rows := Rows(lead.rest, lead.value[1], kinds, broken);
      RowsSound(lead.rest, lead.value[1], kinds, broken);
      assert kinds[0] == RegretKind(variant) && kinds[1] == NonNegative;
      assert rows.value == [o.value.regrets, o.value.strategies];
      assert lead.value == [EncodeKey(o.value.key), |o.value.regrets|];
      Assoc(Words(lead.value), RowsBytes(rows.value), o.rest);
    }
  }

  lemma RecordComplete(r: Record, rest: seq<Byte>, known: set<int>, room: nat, game: Game, variant: Variant,
                       broken: bool)
    requires RecordOk(r, game, variant) && r.key !in known && |known| < room
    ensures GetRecord(RecordBytes(r) + rest, known, room, game, variant, broken) == Got(r, rest)
  {
    var lead, rows := [EncodeKey(r.key), |r.regrets|], [r.regrets, r.strategies];
    var kinds := [RegretKind(variant), NonNegative];
    KeyRoundTrip(r.key, 0);
    Assoc(Words(lead), RowsBytes(rows), rest);
    assert ValuesOk(lead, Anything);
    ValuesComplete(lead, Anything, RowsBytes(rows) + rest, broken);
    assert RowsOk(rows, |r.regrets|, kinds);
    RowsComplete(rows, |r.regrets|, kinds, rest, broken);
  }

  ghost predicate Fresh(records: seq<Record>, known: set<int>) {
    forall i :: 0 <= i < |records| ==> records[i].key !in known
  }

  lemma {:induction false} RecordsSound(s: seq<Byte>, n: nat, known: set<int>, room: nat, game: Game,
                                        variant: Variant, broken: bool)
    ensures var o := GetRecords(s, n, known, room, game, variant, broken);
      o.Got? ==> (|o.value| == n && AllOk(o.value, game, variant) && Distinct(o.value) && Fresh(o.value, known)
                  && (n > 0 ==> |known| + n <= room) && s == RecordsBytes(o.value) + o.rest)
    decreases n
  {
    var o := GetRecords(s, n, known, room, game, variant, broken);
    if o.Got? && n > 0 {
      RecordSound(s, known, room, game, variant, broken);
      var first := GetRecord(s, known, room, game, variant, broken);
      var more := known + {first.value.key};
      RecordsSound(first.rest, n - 1, more, room, game, variant, broken);
      var rest := GetRecords(first.rest, n - 1, more, room, game, variant, broken);
      Joined(first.value, rest.value, known, game, variant);
      Assoc(RecordBytes(first.value), RecordsBytes(rest.value), o.rest);
    }
  }

  lemma Joined(first: Record, rest: seq<Record>, known: set<int>, game: Game, variant: Variant)
    requires RecordOk(first, game, variant) && first.key !in known
    requires AllOk(rest, game, variant) && Distinct(rest) && Fresh(rest, known + {first.key})
    ensures var all := [first] + rest;
      AllOk(all, game, variant) && Distinct(all) && Fresh(all, known)
      && RecordsBytes(all) == RecordBytes(first) + RecordsBytes(rest)
  {
    var all := [first] + rest;
    assert all[1..] == rest;
  }

  lemma {:induction false} RecordsComplete(s: seq<Byte>, records: seq<Record>, rest: seq<Byte>, known: set<int>,
                                           room: nat, game: Game, variant: Variant, broken: bool)
    requires AllOk(records, game, variant) && Distinct(records) && Fresh(records, known)
    requires |known| + |records| <= room
    requires s == RecordsBytes(records) + rest
    ensures GetRecords(s, |records|, known, room, game, variant, broken) == Got(records, rest)
    decreases |records|
  {
    if records == [] {
      assert s == rest;
    } else {
      var first, tail := records[0], records[1..];
      var s1 := RecordsBytes(tail) + rest;
      Assoc(RecordBytes(first), RecordsBytes(tail), rest);
      RecordComplete(first, s1, known, room, game, variant, broken);
      RecordsComplete(s1, tail, rest, known + {first.key}, room, game, variant, broken);
      assert records == [first] + tail;
    }
  }

  // ---- The header ----

  lemma PreambleSplit(schema: seq<Byte>, rest: seq<Byte>)
    ensures Preamble(schema) + rest == Magic() + (Le(1, 4) + (Le(|schema|, 4) + (schema + rest)))
  {
    var m, v, l := Magic(), Le(1, 4), Le(|schema|, 4);
    Assoc(m, v + (l + schema), rest);
    Assoc(v, l + schema, rest);
    Assoc(l, schema, rest);
  }

  lemma TakeSplit(s: seq<Byte>, n: nat)
    requires n <= |s|
    ensures s == s[..n] + s[n..]
  {
  }

  lemma FourBytePower()
    ensures RadixSort.Power(4) == 0x1_0000_0000
  {
  }

  lemma SchemaSound(s: seq<Byte>, game: Game, broken: bool)
    ensures var o := GetSchema(s, game, broken);
      o.Got? ==> SchemaOk(game.schema) && s == Le(|game.schema|, 4) + (game.schema + o.rest)
  {
    var o := GetSchema(s, game, broken);
    if o.Got? {
      NumberSound(s, 4, broken);
      var a := Number(s, 4, broken);
      TakeSplit(a.rest, a.value);
    }
  }

  lemma PreambleSound(s: seq<Byte>, game: Game, broken: bool)
    ensures var o := GetPreamble(s, game, broken);
      o.Got? ==> SchemaOk(game.schema) && s == Preamble(game.schema) + o.rest
  {
    var o := GetPreamble(s, game, broken);
    if o.Got? {
      TakeSplit(s, 8);
      NumberSound(s[8..], 4, broken);
      var v := Number(s[8..], 4, broken);
      SchemaSound(v.rest, game, broken);
      PreambleSplit(game.schema, o.rest);
    }
  }

  lemma PreambleComplete(rest: seq<Byte>, game: Game, broken: bool)
    requires SchemaOk(game.schema)
    ensures GetPreamble(Preamble(game.schema) + rest, game, broken) == Got((), rest)
  {
    PreambleSplit(game.schema, rest);
    FourBytePower();
    var s3 := game.schema + rest;
    var s2 := Le(|game.schema|, 4) + s3;
    var s1 := Le(1, 4) + s2;
    var s := Magic() + s1;
    assert s[..8] == Magic() && s[8..] == s1;
    NumberComplete(1, 4, s2, broken);
    NumberComplete(|game.schema|, 4, s3, broken);
    assert s3[..|game.schema|] == game.schema && s3[|game.schema|..] == rest;
  }

  ghost predicate VariantOk(v: Variant) {
    v.Mccfr? ==> v.random < WORD
  }

  lemma VariantSound(s: seq<Byte>, broken: bool)
    ensures var o := GetVariant(s, broken);
      o.Got? ==> VariantOk(o.value) && s == VariantBytes(o.value) + o.rest
  {
    var o := GetVariant(s, broken);
    if o.Got? {
      NumberSound(s, 4, broken);
      var a := Number(s, 4, broken);
      NumberSound(a.rest, 8, broken);
      if o.value.Mccfr? {
        Assoc(Le(2, 4), Le(o.value.random, 8), o.rest);
      } else {
        assert VariantBytes(o.value) == Le(Code(o.value), 4);
      }
    }
  }

  lemma VariantComplete(v: Variant, rest: seq<Byte>, broken: bool)
    requires VariantOk(v)
    ensures GetVariant(VariantBytes(v) + rest, broken) == Got(v, rest)
  {
    FourBytePower();
    RadixSort.PowerIsWord();
    if v.Mccfr? {
      Assoc(Le(2, 4), Le(v.random, 8), rest);
      NumberComplete(2, 4, Le(v.random, 8) + rest, broken);
      NumberComplete(v.random, 8, rest, broken);
    } else {
      assert VariantBytes(v) == Le(Code(v), 4);
      NumberComplete(Code(v), 4, rest, broken);
    }
  }

  lemma FieldsSound(s: seq<Byte>, broken: bool)
    ensures var o := GetFields(s, broken);
      o.Got? ==> (HeaderOk(o.value.header) && o.value.count < WORD
                  && s == FieldsBytes(o.value.header, o.value.count) + o.rest)
  {
    var o := GetFields(s, broken);
    if o.Got? {
      VariantSound(s, broken);
      var a := GetVariant(s, broken);
      ValuesSound(a.rest, 6, Anything, broken);
      var v := Values(a.rest, 6, Anything, broken);
      assert v.value == CounterList(o.value.header.counters) + [o.value.count];
      assert CounterList(o.value.header.counters) == v.value[..5];
      Assoc(VariantBytes(a.value), Words(v.value), o.rest);
    }
  }

  lemma FieldsComplete(h: Header, count: nat, rest: seq<Byte>, broken: bool)
    requires HeaderOk(h) && count < WORD
    ensures GetFields(FieldsBytes(h, count) + rest, broken) == Got(Fields(h, count), rest)
  {
    var list := CounterList(h.counters) + [count];
    Assoc(VariantBytes(h.variant), Words(list), rest);
    VariantComplete(h.variant, Words(list) + rest, broken);
    assert ValuesOk(list, Anything);
    ValuesComplete(list, Anything, rest, broken);
  }

  // ---- The whole file ----

  lemma FileSplit(schema: seq<Byte>, h: Header, records: seq<Record>, trailer: seq<Byte>)
    requires forall i :: 0 <= i < |records| ==> KeyOk(records[i].key)
    ensures Body(schema, h, records) + trailer
         == Preamble(schema) + (FieldsBytes(h, |records|) + (RecordsBytes(records) + trailer))
  {
    Assoc(Preamble(schema), FieldsBytes(h, |records|) + RecordsBytes(records), trailer);
    Assoc(FieldsBytes(h, |records|), RecordsBytes(records), trailer);
  }

  lemma NodesSound(s: seq<Byte>, h: Header, count: nat, room: nat, game: Game, broken: bool)
    requires HeaderOk(h) && count < WORD
    ensures var o := GetNodes(s, h, count, room, game, broken);
      o.Got? ==> (o.value.header == h && |o.value.records| == count < room
                  && ContentOk(h, o.value.records, game)
                  && s == RecordsBytes(o.value.records) + o.rest)
  {
    if room > 0 {
      RecordsSound(s, count, {}, room - 1, game, h.variant, broken);
    }
  }

  lemma BodySound(s: seq<Byte>, game: Game, room: nat, broken: bool)
    ensures var o := GetBody(s, game, room, broken);
      o.Got? ==> (SchemaOk(game.schema) && |o.value.records| < room
                  && ContentOk(o.value.header, o.value.records, game)
                  && s == Body(game.schema, o.value.header, o.value.records) + o.rest)
  {
    var o := GetBody(s, game, room, broken);
    if o.Got? {
      PreambleSound(s, game, broken);
      var a := GetPreamble(s, game, broken);
      FieldsSound(a.rest, broken);
      var f := GetFields(a.rest, broken);
      NodesSound(f.rest, f.value.header, f.value.count, room, game, broken);
      FileSplit(game.schema, o.value.header, o.value.records, o.rest);
    }
  }

  lemma NodesFollow(s: seq<Byte>, h: Header, count: nat, o: Outcome<seq<Record>>, room: nat, game: Game, broken: bool)
    requires room > 0 && GetRecords(s, count, {}, room - 1, game, h.variant, broken) == o && o.Got?
    ensures GetNodes(s, h, count, room, game, broken) == Got(Content(h, o.value), o.rest)
  {
  }

  lemma RecordsFollow(s: seq<Byte>, records: seq<Record>, tail: seq<Byte>, game: Game, variant: Variant, room: nat,
                      broken: bool, o: Outcome<seq<Record>>)
    requires AllOk(records, game, variant) && Distinct(records) && |records| < room
    requires s == RecordsBytes(records) + tail && o == Got(records, tail)
    ensures GetRecords(s, |records|, {}, room - 1, game, variant, broken) == o
  {
    RecordsComplete(s, records, tail, {}, room - 1, game, variant, broken);
  }

  lemma NodesComplete(s: seq<Byte>, h: Header, records: seq<Record>, tail: seq<Byte>, game: Game, room: nat,
                      broken: bool)
    requires AllOk(records, game, h.variant) && Distinct(records) && |records| < room
    requires s == RecordsBytes(records) + tail
    ensures GetNodes(s, h, |records|, room, game, broken) == Got(Content(h, records), tail)
  {
    var o := Got(records, tail);
    RecordsFollow(s, records, tail, game, h.variant, room, broken, o);
    NodesFollow(s, h, |records|, o, room, game, broken);
  }

  lemma BodyComplete(game: Game, h: Header, records: seq<Record>, tail: seq<Byte>, room: nat, broken: bool)
    requires SchemaOk(game.schema) && ContentOk(h, records, game) && |records| < room
    ensures GetBody(Body(game.schema, h, records) + tail, game, room, broken) == Got(Content(h, records), tail)
  {
    var s2 := RecordsBytes(records) + tail;
    var s1 := FieldsBytes(h, |records|) + s2;
    FileSplit(game.schema, h, records, tail);
    PreambleComplete(s1, game, broken);
    FieldsComplete(h, |records|, s2, broken);
    NodesComplete(s2, h, records, tail, game, room, broken);
  }

  lemma Front(a: seq<Byte>, b: seq<Byte>)
    ensures (a + b)[..|a + b| - |b|] == a
  {
  }

  // Whatever is accepted is exactly the file of what was read, in the order it was read.
  lemma LoadedIsFile(file: seq<Byte>, game: Game, room: nat, broken: bool)
    ensures var o := Parse(file, game, room, broken);
      o.Loaded? ==> (SchemaOk(game.schema) && game.maxLegalActions > 0 && !broken && |o.records| < room
                     && ContentOk(o.header, o.records, game) && file == File(game.schema, o.header, o.records))
  {
    var o := Parse(file, game, room, broken);
    if o.Loaded? {
      BodySound(file, game, room, broken);
      var c := GetBody(file, game, room, broken);
      Front(Body(game.schema, o.header, o.records), c.rest);
      assert c.rest == c.rest[..4];
    }
  }

  // What the reader makes of a checkpoint's body, whatever follows it.
  lemma BodyRead(game: Game, h: Header, records: seq<Record>, tail: seq<Byte>, room: nat)
    requires SchemaOk(game.schema) && game.maxLegalActions > 0
    requires ContentOk(h, records, game) && |records| < room
    ensures var body := Body(game.schema, h, records);
      var status := Closing(tail, Checksum(body), false);
      Parse(body + tail, game, room, false) == if status == Success then Loaded(h, records) else Failed(status)
  {
    BodyComplete(game, h, records, tail, room, false);
    Front(Body(game.schema, h, records), tail);
  }

  // Reading back a written checkpoint restores exactly what was written.
  lemma FileLoads(game: Game, h: Header, records: seq<Record>, room: nat, file: seq<Byte>)
    requires SchemaOk(game.schema) && game.maxLegalActions > 0
    requires ContentOk(h, records, game) && |records| < room
    requires file == File(game.schema, h, records)
    ensures Parse(file, game, room, false) == Loaded(h, records)
  {
    var trailer := Trailer(Checksum(Body(game.schema, h, records)));
    BodyRead(game, h, records, trailer, room);
    assert trailer[..4] == trailer;
  }
}
