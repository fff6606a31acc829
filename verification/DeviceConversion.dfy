/**
 Converting device masks between two revisions of the audio interface, bit by bit through a table.
 In revision 2 an input device carries a tag bit; in revision 1 it does not.
 */
module DeviceConversion {
  import opened BitMasks

  const BIT_IN: Mask := {31}

  datatype Rev = Rev1 | Rev2

  datatype Row = Row(rev1: Mask, rev2: Mask)

  function Column(r: Row, rev: Rev): Mask {
    if rev == Rev1 then r.rev1 else r.rev2
  }

  /** The device bit of a column and its input tag. */
  function Key(r: Row, rev: Rev): Mask {
    if rev == Rev1 then r.rev1 else r.rev2 - BIT_IN
  }

  function Tag(r: Row, rev: Rev): Mask {
    if rev == Rev1 then {} else r.rev2 * BIT_IN
  }

  predicate SingleBit(m: Mask) {
    |m| == 1
  }

  /** Columns of distinct single bits, up to the input tag in revision 2. */
  ghost predicate GoodTable(t: seq<Row>) {
    && (forall i | 0 <= i < |t| :: SingleBit(Key(t[i], Rev1)) && SingleBit(Key(t[i], Rev2)))
    && (forall i, j | 0 <= i < j < |t| :: t[i].rev1 != t[j].rev1 && t[i].rev2 != t[j].rev2)
  }

  /** Whether the mask `bits` under `tag` contains the row's device. */
  predicate Hit(r: Row, rev: Rev, bits: Mask, tag: Mask) {
    Tag(r, rev) == tag && Key(r, rev) * bits != {}
  }

  /** The union of the images of the table devices in the mask: the reference definition, by rows. */
  function Image(t: seq<Row>, from: Rev, to: Rev, bits: Mask, tag: Mask): Mask {
    if t == [] then {}
    else (if Hit(t[0], from, bits, tag) then Column(t[0], to) else {}) + Image(t[1..], from, to, bits, tag)
  }

  /** The first row whose column is `device`, or nothing. */
  function Lookup(t: seq<Row>, from: Rev, to: Rev, device: Mask): Mask {
    if t == [] then {}
    else if Column(t[0], from) == device then Column(t[0], to)
    else Lookup(t[1..], from, to, device)
  }

  lemma SingletonOf(m: Mask) returns (b: Bit)
    requires SingleBit(m)
    ensures m == {b}
  {
    assert |m| > 0;
    b :| b in m;
    assert |m - {b}| == 0;
    assert m == {b} + (m - {b});
  }

  /* ---------- the reference definition ---------- */

  /** Conversion distributes over union under one input tag. */
  lemma {:induction false} ImageUnion(t: seq<Row>, from: Rev, to: Rev, x: Mask, y: Mask, tag: Mask)
    ensures Image(t, from, to, x + y, tag) == Image(t, from, to, x, tag) + Image(t, from, to, y, tag)
  {
    if t != [] {
      ImageUnion(t[1..], from, to, x, y, tag);
      assert Key(t[0], from) * (x + y) == Key(t[0], from) * x + Key(t[0], from) * y;
    }
  }

  /** A bit is in the image exactly when some hit row has it. */
  lemma {:induction false} ImageBits(t: seq<Row>, from: Rev, to: Rev, bits: Mask, tag: Mask, o: Bit)
    ensures o in Image(t, from, to, bits, tag)
       <==> exists i :: 0 <= i < |t| && Hit(t[i], from, bits, tag) && o in Column(t[i], to)
  {
    if t != [] {
      var rest := t[1..];
      ImageBits(rest, from, to, bits, tag, o);
      if i :| 0 <= i < |rest| && Hit(rest[i], from, bits, tag) && o in Column(rest[i], to) {
        assert rest[i] == t[i + 1];
      }
      if i :| 0 <= i < |t| && Hit(t[i], from, bits, tag) && o in Column(t[i], to) {
        assert i > 0 ==> t[i] == rest[i - 1];
      }
    }
  }

  /** Tags and bits that a mask of revision `rev` can have. */
  predicate Separated(rev: Rev, bits: Mask, tag: Mask) {
    if rev == Rev1 then tag == {} else 31 !in bits && tag <= BIT_IN
  }

  /** A row is the one for `bit` under `tag` when its key and tag are these. */
  lemma ColumnIs(r: Row, rev: Rev, bit: Mask, tag: Mask)
    requires Separated(rev, bit, tag)
    ensures Column(r, rev) == bit + tag <==> Key(r, rev) == bit && Tag(r, rev) == tag
  {
    if rev == Rev2 {
      assert r.rev2 == (r.rev2 - BIT_IN) + (r.rev2 * BIT_IN);
      assert (bit + tag) - BIT_IN == bit && (bit + tag) * BIT_IN == tag;
    }
  }

  /** Without bit `b` a row is hit as before, unless `b` is its own bit. */
  lemma HitDrop(r: Row, rev: Rev, bits: Mask, b: Bit, tag: Mask)
    requires SingleBit(Key(r, rev)) && b in bits
    ensures Key(r, rev) != {b} ==> (Hit(r, rev, bits - {b}, tag) <==> Hit(r, rev, bits, tag))
    ensures Key(r, rev) == {b} ==> !Hit(r, rev, bits - {b}, tag) && (Hit(r, rev, bits, tag) <==> Tag(r, rev) == tag)
  {
    var k := SingletonOf(Key(r, rev));
    assert k in Key(r, rev) * bits <==> k in bits;
    assert k in Key(r, rev) * (bits - {b}) <==> k in bits && k != b;
  }

  /** One row before and after bit `b` goes. */
  lemma RowDrop(r: Row, rev: Rev, bits: Mask, b: Bit, tag: Mask)
    requires SingleBit(Key(r, rev)) && b in bits && Separated(rev, bits, tag)
    ensures Column(r, rev) == {b} + tag ==> Hit(r, rev, bits, tag) && !Hit(r, rev, bits - {b}, tag)
    ensures Column(r, rev) != {b} + tag ==> (Hit(r, rev, bits, tag) <==> Hit(r, rev, bits - {b}, tag))
  {
    HitDrop(r, rev, bits, b, tag);
    ColumnIs(r, rev, {b}, tag);
  }

  /** The rest of a table. */
  lemma GoodRest(t: seq<Row>)
    requires GoodTable(t) && t != []
    ensures GoodTable(t[1..]) && SingleBit(Key(t[0], Rev1)) && SingleBit(Key(t[0], Rev2))
    ensures forall i | 0 <= i < |t[1..]| :: t[1..][i].rev1 != t[0].rev1 && t[1..][i].rev2 != t[0].rev2
  {
    assert forall i | 0 <= i < |t[1..]| :: t[1..][i] == t[i + 1];
  }

  /** Peeling one bit off the mask adds the image of that bit. */
  lemma {:induction false} Peel(t: seq<Row>, from: Rev, to: Rev, bits: Mask, b: Bit, tag: Mask)
    requires GoodTable(t) && b in bits && Separated(from, bits, tag)
    ensures Image(t, from, to, bits, tag) == Lookup(t, from, to, {b} + tag) + Image(t, from, to, bits - {b}, tag)
  {
    hide Hit, Key, Tag, SingleBit, GoodTable, Separated;
    if t != [] {
      GoodRest(t);
      RowDrop(t[0], from, bits, b, tag);
      if Column(t[0], from) == {b} + tag {
        NoOtherHit(t[1..], from, to, bits, b, tag);
      } else {
        Peel(t[1..], from, to, bits, b, tag);
      }
    }
  }

  lemma {:induction false} NoOtherHit(t: seq<Row>, from: Rev, to: Rev, bits: Mask, b: Bit, tag: Mask)
    requires GoodTable(t) && b in bits && Separated(from, bits, tag)
    requires forall i | 0 <= i < |t| :: Column(t[i], from) != {b} + tag
    ensures Image(t, from, to, bits, tag) == Image(t, from, to, bits - {b}, tag)
  {
    hide Hit, Key, Tag, SingleBit, GoodTable, Separated, Column;
    if t != [] {
      GoodRest(t);
      RowDrop(t[0], from, bits, b, tag);
      assert forall i | 0 <= i < |t[1..]| :: t[1..][i] == t[i + 1];
      NoOtherHit(t[1..], from, to, bits, b, tag);
    }
  }

  lemma {:induction false} NothingHit(t: seq<Row>, from: Rev, to: Rev, tag: Mask)
    ensures Image(t, from, to, {}, tag) == {}
  {
    if t != [] {
      NothingHit(t[1..], from, to, tag);
    }
  }

  /** Conversion is the union of the conversions of the mask's single bits. */
  lemma {:induction false} ImageBitwise(t: seq<Row>, from: Rev, to: Rev, bits: Mask, tag: Mask, o: Bit)
    ensures o in Image(t, from, to, bits, tag) <==> exists b :: b in bits && o in Image(t, from, to, {b}, tag)
    decreases |bits|
  {
    if bits == {} {
      NothingHit(t, from, to, tag);
    } else {
      var b :| b in bits;
      ImageBitwise(t, from, to, bits - {b}, tag, o);
      ImageUnion(t, from, to, {b}, bits - {b}, tag);
      assert {b} + (bits - {b}) == bits;
    }
  }

  /* ---------- the code ---------- */

  /** Input tag and device bits of a mask, as the code separates them. */
  function TagOf(mask: Mask, rev: Rev): Mask {
    if rev == Rev1 then {} else mask * BIT_IN
  }

  function BitsOf(mask: Mask, rev: Rev): Mask {
    if rev == Rev1 then mask else mask - BIT_IN
  }

  /** Position of the highest bit set: 31 less the count of leading zeros. */
  method TopBit(mask: Mask) returns (i: Bit)
    requires mask != {}
    ensures i in mask && forall b | b in mask :: b <= i
  {
    i := 31;
    while i !in mask
      invariant forall b | b in mask :: b <= i
      decreases i as int
    {
      var b :| b in mask;
      assert b < i;
      i := i - 1;
    }
  }

  /** Peels the highest bit off the mask, looks it up and adds its image, until no bit is left. */
  method ConvertAudioDevice(t: seq<Row>, fromDevice: Mask, fromRev: Rev, toRev: Rev) returns (toDevice: Mask)
    ensures GoodTable(t) ==>
              toDevice == Image(t, fromRev, toRev, BitsOf(fromDevice, fromRev), TagOf(fromDevice, fromRev))
  {
    toDevice := {};
    var from := fromDevice;
    var inBit: Mask := {};
    if fromRev != Rev1 {
      inBit := from * BIT_IN;
      from := from - BIT_IN;
    }
    ghost var whole := Image(t, fromRev, toRev, from, inBit);
    assert Separated(fromRev, from, inBit);
    assert whole == Image(t, fromRev, toRev, BitsOf(fromDevice, fromRev), TagOf(fromDevice, fromRev));
    assert {} + whole == whole;
    hide *;
    while from != {}
      invariant Separated(fromRev, from, inBit)
      invariant GoodTable(t) ==> toDevice + Image(t, fromRev, toRev, from, inBit) == whole
      decreases |from|
    {
      var i := TopBit(from);
      var curDevice: Mask := {i} + inBit;
      var found := Find(t, fromRev, toRev, curDevice);
      if GoodTable(t) {
        PeelStep(t, fromRev, toRev, from, i, inBit, toDevice, whole);
      }
      StaySeparated(fromRev, from, inBit, i);
      toDevice := toDevice + found;
      from := from - curDevice;
    }
    if GoodTable(t) {
      NothingHit(t, fromRev, toRev, inBit);
    }
  }

  lemma PeelStep(t: seq<Row>, from: Rev, to: Rev, bits: Mask, b: Bit, tag: Mask, done: Mask, whole: Mask)
    requires GoodTable(t) && b in bits && Separated(from, bits, tag)
    requires done + Image(t, from, to, bits, tag) == whole
    ensures (done + Lookup(t, from, to, {b} + tag)) + Image(t, from, to, bits - ({b} + tag), tag) == whole
  {
    Peel(t, from, to, bits, b, tag);
    StaySeparated(from, bits, tag, b);
  }

  /** Removing the current device with its tag removes one bit. */
  lemma StaySeparated(rev: Rev, bits: Mask, tag: Mask, b: Bit)
    requires Separated(rev, bits, tag) && b in bits
    ensures bits - ({b} + tag) == bits - {b} && Separated(rev, bits - ({b} + tag), tag)
    ensures |bits - ({b} + tag)| < |bits|
  {
    assert bits == (bits - {b}) + {b};
  }

  /** The inner scan: the first row for `device`. */
  method Find(t: seq<Row>, from: Rev, to: Rev, device: Mask) returns (found: Mask)
    ensures found == Lookup(t, from, to, device)
  {
    found := {};
    for i := 0 to |t|
      invariant found == {}
      invariant Lookup(t, from, to, device) == Lookup(t[i..], from, to, device)
    {
      if Column(t[i], from) == device {
        found := Column(t[i], to);
        return;
      }
    }
  }

  /* ---------- there and back ---------- */

  /** The part of the mask that the table knows under `tag`. */
  function Known(t: seq<Row>, bits: Mask, tag: Mask): Mask {
    if t == [] then {}
    else (if Hit(t[0], Rev2, bits, tag) then Key(t[0], Rev2) else {}) + Known(t[1..], bits, tag)
  }

  /** Going to revision 1 and back hits the same rows. */
  lemma SameHits(t: seq<Row>, bits: Mask, tag: Mask, i: nat)
    requires GoodTable(t) && i < |t|
    ensures var y := Image(t, Rev2, Rev1, bits, tag);
            Hit(t[i], Rev1, y, {}) <==> Hit(t[i], Rev2, bits, tag)
  {
    var y := Image(t, Rev2, Rev1, bits, tag);
    var b := SingletonOf(Key(t[i], Rev1));
    ImageBits(t, Rev2, Rev1, bits, tag, b);
    assert b in y <==> b in Key(t[i], Rev1) * y;
    if j :| 0 <= j < |t| && Hit(t[j], Rev2, bits, tag) && b in Column(t[j], Rev1) {
      var c := SingletonOf(Key(t[j], Rev1));
      assert i == j;
    }
  }

  lemma {:induction false} BackImage(t: seq<Row>, y: Mask, bits: Mask, tag: Mask)
    requires forall i | 0 <= i < |t| :: Hit(t[i], Rev1, y, {}) <==> Hit(t[i], Rev2, bits, tag)
    requires forall i | 0 <= i < |t| :: SingleBit(Key(t[i], Rev2))
    ensures Image(t, Rev1, Rev2, y, {}) == Known(t, bits, tag) + (if Known(t, bits, tag) != {} then tag else {})
  {
    if t != [] {
      assert forall i | 0 <= i < |t[1..]| :: t[1..][i] == t[i + 1];
      hide Hit, SingleBit, Tag, Key;
      BackImage(t[1..], y, bits, tag);
      if Hit(t[0], Rev2, bits, tag) {
        TaggedRow(t[0], bits, tag);
      }
      JoinTagged(Key(t[0], Rev2), Known(t[1..], bits, tag), tag);
    }
  }

  lemma TaggedRow(r: Row, bits: Mask, tag: Mask)
    requires Hit(r, Rev2, bits, tag) && SingleBit(Key(r, Rev2))
    ensures r.rev2 == Key(r, Rev2) + tag && Key(r, Rev2) != {}
  {
  }

  lemma JoinTagged(k: Mask, rest: Mask, tag: Mask)
    ensures k != {} ==>
              (k + tag) + (rest + (if rest != {} then tag else {})) == (k + rest) + tag && k + rest != {}
    ensures {} + rest == rest
  {
    if b :| b in k {
      assert b in k + rest;
    }
  }

  lemma {:induction false} KnownUntagged(t: seq<Row>, bits: Mask, tag: Mask)
    ensures 31 !in Known(t, bits, tag)
  {
    if t != [] {
      KnownUntagged(t[1..], bits, tag);
    }
  }

  /**
   A revision 2 mask survives the trip to revision 1 and back exactly when the table knows all its
   device bits under its tag, and it is not the bare tag.
   */
  lemma RoundTrip(t: seq<Row>, mask: Mask)
    requires GoodTable(t)
    ensures var bits, tag := BitsOf(mask, Rev2), TagOf(mask, Rev2);
            Image(t, Rev1, Rev2, Image(t, Rev2, Rev1, bits, tag), {}) == mask
            <==> Known(t, bits, tag) == bits && (bits != {} || tag == {})
  {
    var bits, tag := BitsOf(mask, Rev2), TagOf(mask, Rev2);
    var y := Image(t, Rev2, Rev1, bits, tag);
    forall i | 0 <= i < |t| ensures Hit(t[i], Rev1, y, {}) <==> Hit(t[i], Rev2, bits, tag) {
      SameHits(t, bits, tag, i);
    }
    BackImage(t, y, bits, tag);
    KnownUntagged(t, bits, tag);
    SplitMask(mask, Known(t, bits, tag));
  }

  lemma SplitMask(mask: Mask, k: Mask)
    requires 31 !in k
    ensures var bits, tag := mask - BIT_IN, mask * BIT_IN;
            k + (if k != {} then tag else {}) == mask <==> k == bits && (bits != {} || tag == {})
  {
    var bits, tag := mask - BIT_IN, mask * BIT_IN;
    assert mask == bits + tag;
    var out := k + (if k != {} then tag else {});
    if out == mask {
      assert k == out - BIT_IN;
    }
  }
}
