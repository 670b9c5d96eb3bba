// Where everything stands in a checkpoint, byte by byte.
module CheckpointLayout {
  import opened Checkpoint
  import RadixSort

  // The number whose bytes, lowest first, are the n bytes of s from offset on.
  function NumberAt(s: seq<Byte>, offset: nat, n: nat): nat
    requires offset + n <= |s|
  {
    if n == 0 then 0 else NumberAt(s, offset, n - 1) + s[offset + n - 1] * RadixSort.Power(n - 1)
  }

  // Those bytes are there and spell v.
  ghost predicate Spells(s: seq<Byte>, offset: nat, n: nat, v: int) {
    offset + n <= |s| && forall m: nat :: m == n ==> NumberAt(s, offset, m) == v
  }

  lemma {:induction false} NumberTail(s: seq<Byte>, offset: nat, n: nat)
    requires offset + n <= |s| && n > 0
    ensures NumberAt(s, offset, n) == s[offset] + 256 * NumberAt(s, offset + 1, n - 1)
  {
    if n == 1 {
      assert NumberAt(s, offset, 0) == 0 && RadixSort.Power(0) == 1;
    } else {
      NumberTail(s, offset, n - 1);
      Carried(s[offset + n - 1], RadixSort.Power(n - 2));
    }
  }

  lemma Carried(x: nat, p: nat)
    ensures x * (256 * p) == 256 * (x * p)
  {
  }

  // Numbers written lowest byte first read back at their offset.
  lemma {:induction false} WrittenAt(before: seq<Byte>, v: nat, n: nat, after: seq<Byte>)
    requires v < RadixSort.Power(n)
    ensures NumberAt(before + Le(v, n) + after, |before|, n) == v
    decreases n
  {
    if n > 0 {
      var s := before + Le(v, n) + after;
      assert Le(v, n) == [v % 256] + Le(v / 256, n - 1);
      assert s == (before + [v % 256]) + Le(v / 256, n - 1) + after;
      WrittenAt(before + [v % 256], v / 256, n - 1, after);
      NumberTail(s, |before|, n);
    }
  }

  lemma EightBytes()
    ensures RadixSort.Power(8) == WORD && RadixSort.Power(4) == 0x1_0000_0000
  {
    assert RadixSort.Power(4) == 0x1_0000_0000;
  }

  // A part of a sequence of bytes, where it stands.
  ghost predicate PartAt(s: seq<Byte>, offset: nat, part: seq<Byte>) {
    offset + |part| <= |s| && s[offset..offset + |part|] == part
  }

  lemma NumberOfPart(s: seq<Byte>, offset: nat, part: seq<Byte>, v: nat, n: nat)
    requires PartAt(s, offset, part) && part == Le(v, n) && v < RadixSort.Power(n)
    ensures Spells(s, offset, n, v)
  {
    var before, after := s[..offset], s[offset + n..];
    assert s == before + Le(v, n) + after;
    WrittenAt(before, v, n, after);
  }

  lemma PartOfPart(s: seq<Byte>, offset: nat, a: seq<Byte>, b: seq<Byte>)
    requires PartAt(s, offset, a + b)
    ensures PartAt(s, offset, a) && PartAt(s, offset + |a|, b)
  {
    var whole := s[offset..offset + |a + b|];
    assert whole[..|a|] == a && whole[|a|..] == b;
  }

  // Words stand one after another, eight bytes each.
  lemma {:induction false} WordsAt(s: seq<Byte>, offset: nat, values: seq<nat>)
    requires PartAt(s, offset, Words(values)) && forall i :: 0 <= i < |values| ==> values[i] < WORD
    ensures |Words(values)| == 8 * |values|
    ensures forall i: nat :: i < |values| ==> Spells(s, offset + 8 * i, 8, values[i])
    decreases |values|
  {
    if values != [] {
      EightBytes();
      PartOfPart(s, offset, Le(values[0], 8), Words(values[1..]));
      NumberOfPart(s, offset, Le(values[0], 8), values[0], 8);
      WordsAt(s, offset + 8, values[1..]);
      forall i: nat | i < |values| ensures Spells(s, offset + 8 * i, 8, values[i]) {
        if i > 0 {
          assert values[i] == values[1..][i - 1];
          assert Spells(s, offset + 8 + 8 * (i - 1), 8, values[1..][i - 1]);
        }
      }
    }
  }

  // The regret sums and then the strategy sums, as many of each.
  ghost predicate ValuesAt(s: seq<Byte>, offset: nat, r: Record) {
    var n := |r.regrets|;
    && |r.strategies| == n
    && (forall i: nat :: i < n ==> Spells(s, offset + 8 * i, 8, r.regrets[i]))
    && (forall i: nat :: i < n ==> Spells(s, offset + 8 * n + 8 * i, 8, r.strategies[i]))
  }

  // A node: its key in two's complement, its number of actions, and its values.
  ghost predicate RecordParts(s: seq<Byte>, offset: nat, r: Record) {
    && offset + 16 + 16 * |r.regrets| <= |s|
    && Spells(s, offset, 8, if r.key < 0 then r.key + 0x1_0000_0000_0000_0000 else r.key)
    && Spells(s, offset + 8, 8, |r.regrets|)
    && ValuesAt(s, offset + 16, r)
  }

  // Quantified so that only proofs about the parts look inside.
  ghost predicate RecordAt(s: seq<Byte>, offset: nat, r: Record) {
    forall o: nat :: o == offset ==> RecordParts(s, o, r)
  }

  lemma RowsAre(r: Record)
    ensures RowsBytes([r.regrets, r.strategies]) == Words(r.regrets) + Words(r.strategies)
  {
    assert [r.regrets, r.strategies][1..] == [r.strategies] && [r.strategies][1..] == [];
    assert RowsBytes([r.strategies]) == Words(r.strategies) + RowsBytes([]);
    assert Words(r.strategies) + [] == Words(r.strategies);
  }

  lemma RecordStandsAt(s: seq<Byte>, offset: nat, r: Record, game: Game, variant: Variant)
    requires RecordOk(r, game, variant) && PartAt(s, offset, RecordBytes(r))
    ensures RecordAt(s, offset, r) && |RecordBytes(r)| == 16 + 16 * |r.regrets|
  {
    KeyRoundTrip(r.key, 0);
    RowsAre(r);
    RowsStandAt(s, offset, r, [EncodeKey(r.key), |r.regrets|]);
  }

  lemma RowsStandAt(s: seq<Byte>, offset: nat, r: Record, lead: seq<nat>)
    requires KeyOk(r.key) && |lead| == 2 && lead[0] == EncodeKey(r.key) < WORD && lead[1] == |r.regrets| < WORD
    requires |r.strategies| == |r.regrets| && forall i :: 0 <= i < |r.regrets| ==> r.regrets[i] < WORD && r.strategies[i] < WORD
    requires PartAt(s, offset, Words(lead) + (Words(r.regrets) + Words(r.strategies)))
    ensures RecordAt(s, offset, r) && |Words(lead) + (Words(r.regrets) + Words(r.strategies))| == 16 + 16 * |r.regrets|
  {
    PartOfPart(s, offset, Words(lead), Words(r.regrets) + Words(r.strategies));
    WordsAt(s, offset, lead);
    PartOfPart(s, offset + 16, Words(r.regrets), Words(r.strategies));
    ValuesStandAt(s, offset + 16, r);
    LeadAt(s, offset, lead);
  }

  lemma ValuesStandAt(s: seq<Byte>, offset: nat, r: Record)
    requires |r.strategies| == |r.regrets| && forall i :: 0 <= i < |r.regrets| ==> r.regrets[i] < WORD && r.strategies[i] < WORD
    requires PartAt(s, offset, Words(r.regrets)) && PartAt(s, offset + |Words(r.regrets)|, Words(r.strategies))
    ensures |Words(r.regrets)| == |Words(r.strategies)| == 8 * |r.regrets| && offset + 16 * |r.regrets| <= |s|
    ensures ValuesAt(s, offset, r)
  {
    WordsAt(s, offset, r.regrets);
    WordsAt(s, offset + 8 * |r.regrets|, r.strategies);
  }

  lemma LeadAt(s: seq<Byte>, offset: nat, lead: seq<nat>)
    requires |lead| == 2 && offset + 16 <= |s|
    requires forall i: nat :: i < |lead| ==> Spells(s, offset + 8 * i, 8, lead[i])
    ensures Spells(s, offset, 8, lead[0]) && Spells(s, offset + 8, 8, lead[1])
  {
    assert Spells(s, offset + 8 * 0, 8, lead[0]) && Spells(s, offset + 8 * 1, 8, lead[1]);
  }

  // How many bytes the first k nodes take.
  function Span(records: seq<Record>, k: nat): nat
    requires k <= |records|
  {
    if k == 0 then 0 else Span(records, k - 1) + 16 + 16 * |records[k - 1].regrets|
  }

  lemma {:induction false} SpanFirst(records: seq<Record>, k: nat)
    requires k < |records|
    ensures Span(records, k + 1) == 16 + 16 * |records[0].regrets| + Span(records[1..], k)
    decreases k
  {
    if k > 0 {
      SpanFirst(records, k - 1);
      assert records[1..][k - 1] == records[k];
    }
  }

  // The nodes stand one after another in their order.
  ghost predicate AllAt(s: seq<Byte>, offset: nat, records: seq<Record>) {
    forall k: nat :: k < |records| ==> RecordAt(s, offset + Span(records, k), records[k])
  }

  lemma SameRecord(s: seq<Byte>, offset: nat, offset': nat, r: Record, r': Record)
    requires RecordAt(s, offset, r) && offset' == offset && r' == r
    ensures RecordAt(s, offset', r')
  {
  }

  lemma AfterFirst(s: seq<Byte>, offset: nat, records: seq<Record>, k: nat)
    requires k + 1 < |records| && AllAt(s, offset + 16 + 16 * |records[0].regrets|, records[1..])
    ensures RecordAt(s, offset + Span(records, k + 1), records[k + 1])
  {
    SpanFirst(records, k);
    var start := offset + 16 + 16 * |records[0].regrets|;
    SameRecord(s, start + Span(records[1..], k), offset + Span(records, k + 1), records[1..][k], records[k + 1]);
  }

  lemma FirstAndRest(s: seq<Byte>, offset: nat, records: seq<Record>)
    requires records != [] && RecordAt(s, offset, records[0])
    requires AllAt(s, offset + 16 + 16 * |records[0].regrets|, records[1..])
    ensures AllAt(s, offset, records)
  {
    forall k: nat | k < |records| ensures RecordAt(s, offset + Span(records, k), records[k]) {
      if k == 0 {
        SameRecord(s, offset, offset + Span(records, k), records[0], records[k]);
      } else {
        AfterFirst(s, offset, records, k - 1);
      }
    }
  }

  lemma RestIsOk(records: seq<Record>, game: Game, variant: Variant)
    requires records != [] && AllOk(records, game, variant)
    ensures RecordOk(records[0], game, variant) && AllOk(records[1..], game, variant)
  {
    forall i | 0 <= i < |records[1..]| ensures RecordOk(records[1..][i], game, variant) {
      assert records[1..][i] == records[i + 1];
    }
  }

  lemma FirstStands(s: seq<Byte>, offset: nat, records: seq<Record>, own: seq<Byte>, rest: seq<Byte>, game: Game, variant: Variant)
    requires records != [] && RecordOk(records[0], game, variant) && own == RecordBytes(records[0]) && PartAt(s, offset, own + rest)
    ensures RecordAt(s, offset, records[0]) && PartAt(s, offset + 16 + 16 * |records[0].regrets|, rest)
    ensures |own| == 16 + 16 * |records[0].regrets|
  {
    PartOfPart(s, offset, own, rest);
    RecordStandsAt(s, offset, records[0], game, variant);
  }

  lemma {:induction false} RecordsAt(s: seq<Byte>, offset: nat, records: seq<Record>, game: Game, variant: Variant)
    requires AllOk(records, game, variant) && PartAt(s, offset, RecordsBytes(records))
    ensures |RecordsBytes(records)| == Span(records, |records|)
    ensures AllAt(s, offset, records)
    decreases |records|
  {
    if records != [] {
      RestIsOk(records, game, variant);
      FirstStands(s, offset, records, RecordBytes(records[0]), RecordsBytes(records[1..]), game, variant);
      RecordsAt(s, offset + 16 + 16 * |records[0].regrets|, records[1..], game, variant);
      FirstAndRest(s, offset, records);
      SpanFirst(records, |records| - 1);
    }
  }

  // ---- The whole file ----

  // The offset of the five counters.
  function CountersAt(schema: seq<Byte>, variant: Variant): nat {
    20 + |schema| + if variant.Mccfr? then 8 else 0
  }

  // What stands before the nodes: a mark and a version, the schema with its length, the variant with its random state
  // if it samples, the counters and the number of nodes.
  ghost predicate HeadAt(f: seq<Byte>, schema: seq<Byte>, h: Header, count: nat) {
    var n, c := |schema|, CountersAt(schema, h.variant);
    && c + 48 <= |f|
    && f[..8] == [0x43, 0x46, 0x52, 0x43, 0x4B, 0x50, 0x54, 0x00]
    && Spells(f, 8, 4, 1)
    && Spells(f, 12, 4, n) && f[16..16 + n] == schema
    && Spells(f, 16 + n, 4, if h.variant.Cfr? then 0 else if h.variant.CfrPlus? then 1 else 2)
    && (h.variant.Mccfr? ==> Spells(f, 20 + n, 8, h.variant.random))
    && Spells(f, c, 8, h.counters.training) && Spells(f, c + 8, 8, h.counters.iterations)
    && Spells(f, c + 16, 8, h.counters.traversals) && Spells(f, c + 24, 8, h.counters.visited)
    && Spells(f, c + 32, 8, h.counters.errors)
    && Spells(f, c + 40, 8, count)
  }

  lemma PreambleAt(f: seq<Byte>, schema: seq<Byte>)
    requires PartAt(f, 0, Preamble(schema)) && |schema| <= 255
    ensures |Preamble(schema)| == 16 + |schema|
    ensures f[..8] == [0x43, 0x46, 0x52, 0x43, 0x4B, 0x50, 0x54, 0x00]
    ensures Spells(f, 8, 4, 1) && Spells(f, 12, 4, |schema|) && f[16..16 + |schema|] == schema
  {
    EightBytes();
    PartOfPart(f, 0, Magic(), Le(1, 4) + (Le(|schema|, 4) + schema));
    PartOfPart(f, 8, Le(1, 4), Le(|schema|, 4) + schema);
    PartOfPart(f, 12, Le(|schema|, 4), schema);
    NumberOfPart(f, 8, Le(1, 4), 1, 4);
    NumberOfPart(f, 12, Le(|schema|, 4), |schema|, 4);
  }

  lemma VariantAt(f: seq<Byte>, offset: nat, variant: Variant)
    requires PartAt(f, offset, VariantBytes(variant)) && (variant.Mccfr? ==> variant.random < WORD)
    ensures |VariantBytes(variant)| == 4 + if variant.Mccfr? then 8 else 0
    ensures Spells(f, offset, 4, if variant.Cfr? then 0 else if variant.CfrPlus? then 1 else 2)
    ensures variant.Mccfr? ==> Spells(f, offset + 4, 8, variant.random)
  {
    EightBytes();
    PartOfPart(f, offset, Le(Code(variant), 4), if variant.Mccfr? then Le(variant.random, 8) else []);
    NumberOfPart(f, offset, Le(Code(variant), 4), Code(variant), 4);
    if variant.Mccfr? {
      NumberOfPart(f, offset + 4, Le(variant.random, 8), variant.random, 8);
    }
  }

  lemma SixAt(f: seq<Byte>, offset: nat, list: seq<nat>)
    requires |list| == 6 && PartAt(f, offset, Words(list)) && forall i :: 0 <= i < 6 ==> list[i] < WORD
    ensures |Words(list)| == 48 && offset + 48 <= |f|
    ensures Spells(f, offset, 8, list[0]) && Spells(f, offset + 8, 8, list[1]) && Spells(f, offset + 16, 8, list[2])
    ensures Spells(f, offset + 24, 8, list[3]) && Spells(f, offset + 32, 8, list[4]) && Spells(f, offset + 40, 8, list[5])
  {
    WordsAt(f, offset, list);
    forall i: nat | i < 6 ensures Spells(f, offset + 8 * i, 8, list[i]) {
    }
    assert Spells(f, offset + 8 * 0, 8, list[0]) && Spells(f, offset + 8 * 1, 8, list[1]);
    assert Spells(f, offset + 8 * 2, 8, list[2]) && Spells(f, offset + 8 * 3, 8, list[3]);
    assert Spells(f, offset + 8 * 4, 8, list[4]) && Spells(f, offset + 8 * 5, 8, list[5]);
  }

  lemma FieldsAt(f: seq<Byte>, offset: nat, h: Header, count: nat)
    requires PartAt(f, offset, FieldsBytes(h, count)) && HeaderOk(h) && count < WORD
    ensures var c := offset + 4 + if h.variant.Mccfr? then 8 else 0;
      && offset + |FieldsBytes(h, count)| == c + 48 <= |f|
      && Spells(f, offset, 4, if h.variant.Cfr? then 0 else if h.variant.CfrPlus? then 1 else 2)
      && (h.variant.Mccfr? ==> Spells(f, offset + 4, 8, h.variant.random))
      && Spells(f, c, 8, h.counters.training) && Spells(f, c + 8, 8, h.counters.iterations)
      && Spells(f, c + 16, 8, h.counters.traversals) && Spells(f, c + 24, 8, h.counters.visited)
      && Spells(f, c + 32, 8, h.counters.errors) && Spells(f, c + 40, 8, count)
  {
    var list := CounterList(h.counters) + [count];
    forall i | 0 <= i < 6 ensures list[i] < WORD {
      if i < 5 {
        assert CounterList(h.counters)[i] < WORD;
      }
    }
    PartOfPart(f, offset, VariantBytes(h.variant), Words(list));
    VariantAt(f, offset, h.variant);
    SixAt(f, offset + |VariantBytes(h.variant)|, list);
  }

  // A schema is one to 255 visible characters.
  lemma SchemaMeans(schema: seq<Byte>)
    ensures SchemaOk(schema) <==> 0 < |schema| < 256 && forall b :: b in schema ==> 33 <= b <= 126
  {
    forall i | 0 <= i < |schema| ensures schema[i] in schema {
    }
    if SchemaOk(schema) {
      forall b | b in schema ensures 33 <= b <= 126 {
        var i :| 0 <= i < |schema| && schema[i] == b;
      }
    }
  }

  // Every byte of a checkpoint is accounted for: the head, the nodes in their order, and four bytes of checksum over all
  // that stands before them.
  lemma FileLayout(schema: seq<Byte>, h: Header, records: seq<Record>, game: Game)
    requires ContentOk(h, records, game) && |schema| <= 255
    ensures var f := File(schema, h, records);
      var nodes := CountersAt(schema, h.variant) + 48;
      && |f| == nodes + Span(records, |records|) + 4
      && HeadAt(f, schema, h, |records|)
      && AllAt(f, nodes, records)
      && f[|f| - 4..] == Trailer(Checksum(f[..|f| - 4]))
  {
    var f, body := File(schema, h, records), Body(schema, h, records);
    assert f[..|body|] == body && PartAt(f, 0, body);
    BodyAt(f, schema, h, records, game);
    assert |f| == |body| + 4 && f[|body|..] == Trailer(Checksum(body));
  }

  lemma BodyAt(f: seq<Byte>, schema: seq<Byte>, h: Header, records: seq<Record>, game: Game)
    requires ContentOk(h, records, game) && |schema| <= 255 && PartAt(f, 0, Body(schema, h, records))
    ensures var nodes := CountersAt(schema, h.variant) + 48;
      && |Body(schema, h, records)| == nodes + Span(records, |records|)
      && HeadAt(f, schema, h, |records|) && AllAt(f, nodes, records)
  {
    var fields := FieldsBytes(h, |records|);
    PartOfPart(f, 0, Preamble(schema), fields + RecordsBytes(records));
    PreambleAt(f, schema);
    PartOfPart(f, 16 + |schema|, fields, RecordsBytes(records));
    FieldsAt(f, 16 + |schema|, h, |records|);
    RecordsAt(f, CountersAt(schema, h.variant) + 48, records, game, h.variant);
  }
}
