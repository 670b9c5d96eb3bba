// What the checkpoint format guarantees: damage is noticed, and the bytes depend on the content only.
module CheckpointIntegrity {
  import Crc
  import opened Checkpoint

  // ---- Damage ----

  lemma RawBack(b: Crc.Byte)
    ensures (b as nat) as bv8 == b
  {
  }

  lemma RawKept(v: Byte)
    ensures (v as bv8) as nat == v
  {
    if v < 32 {
      Kept0(v);
    } else if v < 64 {
      Kept1(v);
    } else if v < 96 {
      Kept2(v);
    } else if v < 128 {
      Kept3(v);
    } else if v < 160 {
      Kept4(v);
    } else if v < 192 {
      Kept5(v);
    } else if v < 224 {
      Kept6(v);
    } else {
      Kept7(v);
    }
  }

  lemma Kept0(v: nat)
    requires v < 32
    ensures (v as bv8) as nat == v
  {
  }

  lemma Kept1(v: nat)
    requires 32 <= v < 64
    ensures (v as bv8) as nat == v
  {
  }

  lemma Kept2(v: nat)
    requires 64 <= v < 96
    ensures (v as bv8) as nat == v
  {
  }

  lemma Kept3(v: nat)
    requires 96 <= v < 128
    ensures (v as bv8) as nat == v
  {
  }

  lemma Kept4(v: nat)
    requires 128 <= v < 160
    ensures (v as bv8) as nat == v
  {
  }

  lemma Kept5(v: nat)
    requires 160 <= v < 192
    ensures (v as bv8) as nat == v
  {
  }

  lemma Kept6(v: nat)
    requires 192 <= v < 224
    ensures (v as bv8) as nat == v
  {
  }

  lemma Kept7(v: nat)
    requires 224 <= v < 256
    ensures (v as bv8) as nat == v
  {
  }

  lemma RawTrailer(checksum: bv32)
    ensures Raw(Trailer(checksum)) == Crc.Bytes(checksum)
  {
    var t, r, c := Trailer(checksum), Raw(Trailer(checksum)), Crc.Bytes(checksum);
    assert |r| == |c|;
    forall i | 0 <= i < 4
      ensures r[i] == c[i]
    {
      RawBack(c[i]);
    }
  }

  lemma RawSlice(s: seq<Byte>, i: nat, j: nat)
    requires i <= j <= |s|
    ensures Raw(s)[i..j] == Raw(s[i..j])
  {
  }

  lemma RawInjective(s: seq<Byte>, t: seq<Byte>)
    requires Raw(s) == Raw(t)
    ensures s == t
  {
    forall i | 0 <= i < |s|
      ensures s[i] == t[i]
    {
      assert Raw(s)[i] == Raw(t)[i];
      RawKept(s[i]);
      RawKept(t[i]);
    }
  }

  lemma LoadedIsSealed(file: seq<Byte>, game: Game, room: nat, broken: bool)
    requires Parse(file, game, room, broken).Loaded?
    ensures Crc.Sealed(Raw(file))
  {
    LoadedIsFile(file, game, room, broken);
    var o := Parse(file, game, room, broken);
    SealedFile(Body(game.schema, o.header, o.records));
  }

  lemma SealedFile(body: seq<Byte>)
    ensures Crc.Sealed(Raw(body + Trailer(Checksum(body))))
  {
    var file := body + Trailer(Checksum(body));
    var n := |body|;
    RawSlice(file, 0, n);
    RawSlice(file, n, |file|);
    assert file[0..n] == body && file[n..|file|] == Trailer(Checksum(body));
    RawTrailer(Checksum(body));
    assert Raw(file)[..n] == Raw(file)[0..n] && Raw(file)[n..] == Raw(file)[n..|file|];
  }

  // The two files have one length and differ, but only inside four neighbouring bytes.
  ghost predicate Damaged(file: seq<Byte>, other: seq<Byte>, at: nat) {
    |file| == |other| && at + 4 <= |file| && file[..at] == other[..at] && file[at + 4..] == other[at + 4..]
    && file != other
  }

  lemma DamageShows(file: seq<Byte>, other: seq<Byte>, at: nat)
    requires Damaged(file, other, at)
    ensures Crc.DifferInWindow(Raw(file), Raw(other), at)
  {
    var n := |file|;
    RawSlice(file, 0, at);
    RawSlice(other, 0, at);
    RawSlice(file, at + 4, n);
    RawSlice(other, at + 4, n);
    assert file[0..at] == file[..at] && other[0..at] == other[..at];
    assert Raw(file)[..at] == Raw(file)[0..at] && Raw(other)[..at] == Raw(other)[0..at];
    if Raw(file) == Raw(other) {
      RawInjective(file, other);
      assert false;
    }
  }

  // Damage confined to four neighbouring bytes of an accepted checkpoint is always noticed,
  // whatever game reads the damaged file.
  lemma DamageIsRejected(file: seq<Byte>, other: seq<Byte>, at: nat, game: Game, room: nat, broken: bool,
                         game1: Game, room1: nat, broken1: bool)
    requires Parse(file, game, room, broken).Loaded?
    requires Damaged(file, other, at)
    ensures Parse(other, game1, room1, broken1).Failed?
  {
    LoadedIsSealed(file, game, room, broken);
    DamageShows(file, other, at);
    Crc.WindowBreaksSeal(Raw(file), Raw(other), at);
    if Parse(other, game1, room1, broken1).Loaded? {
      LoadedIsSealed(other, game1, room1, broken1);
      assert false;
    }
  }

  // A single changed byte in particular.
  lemma ChangedByteIsRejected(file: seq<Byte>, i: nat, b: Byte, game: Game, room: nat, broken: bool)
    requires Parse(file, game, room, broken).Loaded?
    requires i < |file| && file[i] != b
    ensures Parse(file[i := b], game, room, broken).Failed?
  {
    LoadedIsFile(file, game, room, broken);
    var at := if i + 4 <= |file| then i else |file| - 4;
    var other := file[i := b];
    assert other[i] != file[i];
    assert Damaged(file, other, at);
    DamageIsRejected(file, other, at, game, room, broken, game, room, broken);
  }

  // ---- Too much, and too little ----

  lemma ExtendedFails(file: seq<Byte>, extra: seq<Byte>, game: Game, room: nat, room1: nat)
    requires Parse(file, game, room, false).Loaded?
    requires extra != [] && room <= room1
    ensures Parse(file + extra, game, room1, false).Failed?
  {
    LoadedIsFile(file, game, room, false);
    var o := Parse(file, game, room, false);
    var body := Body(game.schema, o.header, o.records);
    var trailer := Trailer(Checksum(body));
    Assoc(body, trailer, extra);
    BodyRead(game, o.header, o.records, trailer + extra, room1);
    assert |trailer + extra| > 4;
  }

  // No proper beginning of an accepted checkpoint is accepted, and nothing may follow it.
  lemma AcceptedIsWhole(file: seq<Byte>, n: nat, game: Game, room: nat)
    requires n < |file|
    ensures !(Parse(file, game, room, false).Loaded? && Parse(file[..n], game, room, false).Loaded?)
  {
    var front, extra := file[..n], file[n..];
    assert file == front + extra;
    if Parse(front, game, room, false).Loaded? {
      ExtendedFails(front, extra, game, room, room);
    }
  }

  // ---- One content, one file ----

  function MapOf(records: seq<Record>): map<int, Record>
    decreases |records|
  {
    if records == [] then map[] else MapOf(records[1..])[records[0].key := records[0]]
  }

  ghost predicate Increasing(records: seq<Record>) {
    forall i, j :: 0 <= i < j < |records| ==> records[i].key < records[j].key
  }

  ghost predicate IsAt(records: seq<Record>, i: nat, key: int, r: Record) {
    i < |records| && records[i].key == key && records[i] == r
  }

  lemma {:induction false} MapHolds(records: seq<Record>, key: int)
    requires Distinct(records)
    ensures key in MapOf(records) ==> exists i :: IsAt(records, i, key, MapOf(records)[key])
    ensures key !in MapOf(records) ==> forall i :: 0 <= i < |records| ==> records[i].key != key
    decreases |records|
  {
    if records != [] {
      MapHolds(records[1..], key);
      if key in MapOf(records) {
        if records[0].key == key {
          assert IsAt(records, 0, key, MapOf(records)[key]);
        } else {
          var i: nat :| IsAt(records[1..], i, key, MapOf(records[1..])[key]);
          assert IsAt(records, i + 1, key, MapOf(records)[key]);
        }
      } else {
        forall i | 0 <= i < |records|
          ensures records[i].key != key
        {
          if i > 0 {
            assert records[i] == records[1..][i - 1];
          }
        }
      }
    }
  }

  lemma MapFinds(records: seq<Record>, i: nat)
    requires Distinct(records) && i < |records|
    ensures records[i].key in MapOf(records) && MapOf(records)[records[i].key] == records[i]
  {
    var key := records[i].key;
    MapHolds(records, key);
    assert key in MapOf(records);
    var j: nat :| IsAt(records, j, key, MapOf(records)[key]);
    assert i == j;
  }

  lemma IncreasingIsDistinct(records: seq<Record>)
    requires Increasing(records)
    ensures Distinct(records)
  {
  }

  // Records in key order are determined by what they map each key to.
  lemma {:induction false} OrderIsUnique(a: seq<Record>, b: seq<Record>)
    requires Increasing(a) && Increasing(b) && MapOf(a) == MapOf(b)
    ensures a == b
    decreases |a|
  {
    IncreasingIsDistinct(a);
    IncreasingIsDistinct(b);
    if a == [] || b == [] {
      if a != [] {
        MapFinds(a, 0);
      }
      if b != [] {
        MapFinds(b, 0);
      }
    } else {
      SameFirst(a, b);
      TailMap(a);
      TailMap(b);
      OrderIsUnique(a[1..], b[1..]);
      assert a == [a[0]] + a[1..] && b == [b[0]] + b[1..];
    }
  }

  lemma LeastKey(a: seq<Record>, j: nat)
    requires Increasing(a) && j < |a|
    ensures a[0].key <= a[j].key
  {
    if j > 0 {
      assert a[0].key < a[j].key;
    }
  }

  lemma SameFirst(a: seq<Record>, b: seq<Record>)
    requires Increasing(a) && Increasing(b) && MapOf(a) == MapOf(b) && a != [] && b != []
    ensures a[0] == b[0]
  {
    IncreasingIsDistinct(a);
    IncreasingIsDistinct(b);
    MapFinds(a, 0);
    MapFinds(b, 0);
    MapHolds(b, a[0].key);
    MapHolds(a, b[0].key);
    var i: nat :| IsAt(b, i, a[0].key, a[0]);
    var j: nat :| IsAt(a, j, b[0].key, b[0]);
    LeastKey(b, i);
    LeastKey(a, j);
  }

  lemma TailMap(a: seq<Record>)
    requires Increasing(a) && a != []
    ensures MapOf(a[1..]) == MapOf(a) - {a[0].key}
  {
    var tail := a[1..];
    IncreasingIsDistinct(tail);
    MapHolds(tail, a[0].key);
    assert forall i :: 0 <= i < |tail| ==> tail[i] == a[i + 1] && a[0].key < a[i + 1].key;
    assert forall i: nat, r :: IsAt(tail, i, a[0].key, r) ==> false;
  }

  // Two stores that hold the same nodes give the same bytes once their nodes are put in key order.
  lemma BytesDependOnContent(schema: seq<Byte>, h: Header, a: seq<Record>, b: seq<Record>)
    requires Increasing(a) && Increasing(b) && MapOf(a) == MapOf(b)
    requires forall i :: 0 <= i < |a| ==> KeyOk(a[i].key)
    ensures a == b
    ensures File(schema, h, a) == File(schema, h, b)
  {
    OrderIsUnique(a, b);
  }

  ghost predicate Holds(file: seq<Byte>, game: Game, h: Header, records: seq<Record>) {
    && SchemaOk(game.schema) && game.maxLegalActions > 0
    && ContentOk(h, records, game)
    && file == File(game.schema, h, records)
  }

  lemma HoldsReads(file: seq<Byte>, game: Game, h: Header, records: seq<Record>, room: nat)
    requires Holds(file, game, h, records) && |records| < room
    ensures Parse(file, game, room, false) == Loaded(h, records)
  {
    FileLoads(game, h, records, room, file);
  }

  // A file holds one content only, its records in one order.
  lemma FileHoldsOneContent(file: seq<Byte>, game: Game, h: Header, a: seq<Record>, g: Header, b: seq<Record>)
    requires Holds(file, game, h, a) && Holds(file, game, g, b)
    ensures h == g && a == b
  {
    var room := |a| + |b| + 1;
    HoldsReads(file, game, h, a, room);
    HoldsReads(file, game, g, b, room);
  }

  // The reader accepts a file exactly when it holds some content that fits.
  lemma AcceptedIff(file: seq<Byte>, game: Game, room: nat)
    ensures Parse(file, game, room, false).Loaded?
       <==> exists h, records: seq<Record> :: Holds(file, game, h, records) && |records| < room
  {
    var o := Parse(file, game, room, false);
    if o.Loaded? {
      LoadedIsFile(file, game, room, false);
      assert Holds(file, game, o.header, o.records);
    }
    forall h, records: seq<Record> | Holds(file, game, h, records) && |records| < room
      ensures o.Loaded?
    {
      HoldsReads(file, game, h, records, room);
    }
  }
}
