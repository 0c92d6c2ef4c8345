/**
 * The BProto serialisation that the generator emits code for, for any message
 * schema: a message is a run of items, each a field identifier, a type and a payload.
 */
module BProto {
  import opened Bytes

  datatype FieldType = Uint8 | Uint16 | Uint32 | Uint64 | Data | ConstData(size: nat)

  datatype Cardinality = Optional | Required | Repeated | RequiredRepeated

  datatype Field = Field(id: nat, ty: FieldType, card: Cardinality)

  type Schema = seq<Field>

  const HEADER_LEN: nat := 4
  const DATA_HEADER_LEN: nat := 4
  const TYPE_DATA: nat := 5
  const TYPE_CONSTDATA: nat := 6
  const UINT32_LIMIT: nat := 0x1_0000_0000

  function TypeCode(ty: FieldType): (code: nat)
    ensures 1 <= code <= TYPE_CONSTDATA
  {
    match ty
    case Uint8 => 1
    case Uint16 => 2
    case Uint32 => 3
    case Uint64 => 4
    case Data => TYPE_DATA
    case ConstData(_) => TYPE_CONSTDATA
  }

  predicate IsDataCode(code: nat) {
    code == TYPE_DATA || code == TYPE_CONSTDATA
  }

  /** The width of an integer payload, by type code. */
  function Width(code: nat): nat {
    if code == 1 then 1 else if code == 2 then 2 else if code == 3 then 4 else 8
  }

  /** The fields whose identifiers are looked up together: one group an integer type, and one for all data. */
  function Group(code: nat): nat {
    if code == TYPE_CONSTDATA then TYPE_DATA else code
  }

  /** Identifiers are distinct within each group; the emitted code would not compile otherwise. */
  ghost predicate SchemaOk(schema: Schema) {
    && (forall i | 0 <= i < |schema| :: schema[i].id <= UINT16_MAX && (schema[i].ty.ConstData? ==> schema[i].ty.size < UINT32_LIMIT))
    && (forall i, j | 0 <= i < j < |schema| ::
         Group(TypeCode(schema[i].ty)) == Group(TypeCode(schema[j].ty)) ==> schema[i].id != schema[j].id)
  }

  // ----- items and their encoding

  datatype Item = Item(id: nat, code: nat, payload: seq<Byte>)

  ghost predicate ItemOk(x: Item) {
    && x.id <= UINT16_MAX && 1 <= x.code <= TYPE_CONSTDATA
    && if IsDataCode(x.code) then |x.payload| < UINT32_LIMIT else |x.payload| == Width(x.code)
  }

  ghost predicate ItemsOk(xs: seq<Item>) {
    forall k | 0 <= k < |xs| :: ItemOk(xs[k])
  }

  function ItemSize(x: Item): (n: nat)
    ensures n >= HEADER_LEN
  {
    HEADER_LEN + (if IsDataCode(x.code) then DATA_HEADER_LEN else 0) + |x.payload|
  }

  function Size(xs: seq<Item>): nat {
    if xs == [] then 0 else Size(xs[..|xs| - 1]) + ItemSize(xs[|xs| - 1])
  }

  lemma Uint32Limit()
    ensures Limit(4) == UINT32_LIMIT
  {
    assert Limit(1) == 256 && Limit(2) == 0x1_0000 && Limit(3) == 0x100_0000;
  }

  ghost function EncodeHeader(x: Item): (bs: seq<Byte>)
    requires ItemOk(x)
    ensures |bs| == ItemSize(x) - |x.payload|
  {
    Uint32Limit();
    [x.id % 256, x.id / 256, x.code, 0] + (if IsDataCode(x.code) then LittleEndian(|x.payload|, 4) else [])
  }

  ghost function EncodeItem(x: Item): (bs: seq<Byte>)
    requires ItemOk(x)
    ensures |bs| == ItemSize(x)
  {
    EncodeHeader(x) + x.payload
  }

  ghost function Encode(xs: seq<Item>): (bs: seq<Byte>)
    requires ItemsOk(xs)
    ensures |bs| == Size(xs)
  {
    if xs == [] then [] else Encode(xs[..|xs| - 1]) + EncodeItem(xs[|xs| - 1])
  }

  /** The item at a position of a buffer, or None where there is none that is whole and of a known type. */
  function ItemAt(buf: seq<Byte>, pos: nat): (r: Option<Item>)
    requires pos <= |buf|
    ensures r.Some? ==> ItemOk(r.value) && pos + ItemSize(r.value) <= |buf|
  {
    if |buf| - pos < HEADER_LEN then None
    else
      var id, code, at := Uint16At(buf, pos), Uint16At(buf, pos + 2), pos + HEADER_LEN;
      if code < 1 || code > TYPE_CONSTDATA then None
      else if !IsDataCode(code) then
        if |buf| - at < Width(code) then None else Some(Item(id, code, buf[at..at + Width(code)]))
      else if |buf| - at < DATA_HEADER_LEN then None
      else
        Uint32Limit();
        var len, dataAt := FromLittleEndian(buf[at..at + DATA_HEADER_LEN]), at + DATA_HEADER_LEN;
        if |buf| - dataAt < len then None else Some(Item(id, code, buf[dataAt..dataAt + len]))
  }

  /** Identifier and type of an item, the length of data, and the payload, one behind the other. */
  ghost predicate StandsAt(buf: seq<Byte>, pos: nat, x: Item) {
    var data := x.code == 5 || x.code == 6;
    var at := pos + if data then 8 else 4;
    && at + |x.payload| <= |buf| && buf[at..at + |x.payload|] == x.payload
    && x.id == buf[pos] as int + 256 * buf[pos + 1] as int && x.code == buf[pos + 2] as int + 256 * buf[pos + 3] as int
    && if data then |x.payload| == FromLittleEndian(buf[pos + 4..pos + 8])
       else (x.code == 1 && |x.payload| == 1) || (x.code == 2 && |x.payload| == 2) || (x.code == 3 && |x.payload| == 4)
            || (x.code == 4 && |x.payload| == 8)
  }

  /** What is read as an item, byte by byte. */
  lemma ItemLayout(buf: seq<Byte>, pos: nat, x: Item)
    requires pos <= |buf|
    ensures ItemAt(buf, pos) == Some(x) <==> StandsAt(buf, pos, x)
  {
  }

  /** The items a buffer consists of from a position to its end. */
  function ItemsFrom(buf: seq<Byte>, pos: nat): (r: Option<seq<Item>>)
    requires pos <= |buf|
    ensures r.Some? ==> ItemsOk(r.value)
    decreases |buf| - pos
  {
    if pos == |buf| then Some([])
    else
      match ItemAt(buf, pos)
      case None => None
      case Some(x) =>
        match ItemsFrom(buf, pos + ItemSize(x))
        case None => None
        case Some(rest) => Some([x] + rest)
  }

  /** A header is read field by field. */
  lemma HeaderIsRead(x: Item)
    requires ItemOk(x)
    ensures var h := EncodeHeader(x);
      && |h| == (if IsDataCode(x.code) then HEADER_LEN + DATA_HEADER_LEN else HEADER_LEN)
      && Uint16At(h, 0) == x.id && Uint16At(h, 2) == x.code
      && (IsDataCode(x.code) ==> FromLittleEndian(h[HEADER_LEN..]) == |x.payload|)
  {
    hide LittleEndian, FromLittleEndian;
    Uint32Limit();
    if IsDataCode(x.code) {
      assert EncodeHeader(x)[HEADER_LEN..] == LittleEndian(|x.payload|, 4);
      LittleEndianRoundTrip(|x.payload|, 4);
    }
  }

  lemma ItemAtEncoding(x: Item, before: seq<Byte>, after: seq<Byte>)
    requires ItemOk(x)
    ensures ItemAt(before + EncodeItem(x) + after, |before|) == Some(x)
  {
    hide EncodeHeader, FromLittleEndian, ItemAt;
    var buf, pos, header := before + EncodeItem(x) + after, |before|, EncodeHeader(x);
    HeaderIsRead(x);
    assert forall k | 0 <= k < |header| :: buf[pos + k] == header[k];
    assert buf[pos + HEADER_LEN..pos + |header|] == header[HEADER_LEN..];
    assert buf[pos + |header|..pos + |header| + |x.payload|] == x.payload;
    ItemLayout(buf, pos, x);
  }

  lemma {:induction false} EncodePrepend(x: Item, xs: seq<Item>)
    requires ItemOk(x) && ItemsOk(xs)
    ensures ItemsOk([x] + xs) && Encode([x] + xs) == EncodeItem(x) + Encode(xs)
    decreases |xs|
  {
    hide EncodeItem, ItemOk, ItemSize;
    var all := [x] + xs;
    if xs == [] {
      assert all[..0] == [];
    } else {
      var init, last := xs[..|xs| - 1], xs[|xs| - 1];
      EncodePrepend(x, init);
      assert all[..|all| - 1] == [x] + init && all[|all| - 1] == last;
      assert EncodeItem(x) + Encode(init) + EncodeItem(last) == EncodeItem(x) + (Encode(init) + EncodeItem(last));
    }
  }

  lemma ItemsFromStep(buf: seq<Byte>, pos: nat, x: Item)
    requires pos <= |buf| && ItemAt(buf, pos) == Some(x)
    ensures ItemsFrom(buf, pos) == match ItemsFrom(buf, pos + ItemSize(x))
      case None => None
      case Some(rest) => Some([x] + rest)
  {
  }

  lemma ItemsFromEnd(buf: seq<Byte>)
    ensures ItemsFrom(buf, |buf|) == Some([])
  {
  }

  /** Reading back what was written gives the items that were written... */
  lemma {:induction false} ReadsEncoding(xs: seq<Item>, before: seq<Byte>)
    requires ItemsOk(xs)
    ensures ItemsFrom(before + Encode(xs), |before|) == Some(xs)
    decreases |xs|
  {
    hide EncodeItem, ItemAt, ItemOk, ItemsFrom;
    var buf := before + Encode(xs);
    if xs == [] {
      assert buf == before;
      ItemsFromEnd(before);
    } else {
      var x, rest := xs[0], xs[1..];
      assert xs == [x] + rest;
      EncodePrepend(x, rest);
      ItemAtEncoding(x, before, Encode(rest));
      assert buf == before + EncodeItem(x) + Encode(rest);
      ItemsFromStep(buf, |before|, x);
      ReadsEncoding(rest, before + EncodeItem(x));
    }
  }

  lemma ItemAtIsEncoded(buf: seq<Byte>, pos: nat)
    requires pos <= |buf| && ItemAt(buf, pos).Some?
    ensures var x := ItemAt(buf, pos).value; buf[pos..pos + ItemSize(x)] == EncodeItem(x)
  {
    hide ItemAt, LittleEndian, FromLittleEndian;
    HeaderIsEncoded(buf, pos);
    var x := ItemAt(buf, pos).value;
    var dataAt := pos + |EncodeHeader(x)|;
    assert buf[pos..pos + ItemSize(x)] == buf[pos..dataAt] + buf[dataAt..dataAt + |x.payload|];
  }

  lemma HeaderIsEncoded(buf: seq<Byte>, pos: nat)
    requires pos <= |buf| && ItemAt(buf, pos).Some?
    ensures var x := ItemAt(buf, pos).value;
      var dataAt := pos + |EncodeHeader(x)|;
      buf[pos..dataAt] == EncodeHeader(x) && buf[dataAt..dataAt + |x.payload|] == x.payload
  {
    hide LittleEndian, FromLittleEndian;
    var x := ItemAt(buf, pos).value;
    var at := pos + HEADER_LEN;
    assert buf[pos..at] == [x.id % 256, x.id / 256, x.code, 0];
    if IsDataCode(x.code) {
      Uint32Limit();
      FromLittleEndianRoundTrip(buf[at..at + DATA_HEADER_LEN]);
      assert buf[pos..at + DATA_HEADER_LEN] == buf[pos..at] + buf[at..at + DATA_HEADER_LEN];
    }
  }

  /** ...and a buffer that reads as some items is their encoding, so no other buffer does. */
  lemma {:induction false} ReadIsEncoded(buf: seq<Byte>, pos: nat)
    requires pos <= |buf| && ItemsFrom(buf, pos).Some?
    ensures buf[pos..] == Encode(ItemsFrom(buf, pos).value)
    decreases |buf| - pos
  {
    hide EncodeItem, ItemAt, ItemOk;
    if pos < |buf| {
      var x := ItemAt(buf, pos).value;
      ItemAtIsEncoded(buf, pos);
      ReadIsEncoded(buf, pos + ItemSize(x));
      EncodePrepend(x, ItemsFrom(buf, pos + ItemSize(x)).value);
      assert buf[pos..] == buf[pos..pos + ItemSize(x)] + buf[pos + ItemSize(x)..];
    }
  }

  /** The reader is the inverse of the encoder on exactly the buffers that encode some items. */
  lemma ReadInvertsEncode(buf: seq<Byte>, xs: seq<Item>)
    ensures ItemsFrom(buf, 0) == Some(xs) <==> ItemsOk(xs) && buf == Encode(xs)
  {
    hide ItemsFrom, Encode;
    if ItemsFrom(buf, 0) == Some(xs) {
      ReadIsEncoded(buf, 0);
    }
    if ItemsOk(xs) {
      assert [] + Encode(xs) == Encode(xs);
      ReadsEncoding(xs, []);
    }
  }

  /** Different messages have different encodings. */
  lemma EncodeInjective(xs: seq<Item>, ys: seq<Item>)
    requires ItemsOk(xs) && ItemsOk(ys) && Encode(xs) == Encode(ys)
    ensures xs == ys
  {
    hide Encode, ItemsOk;
    ReadInvertsEncode(Encode(xs), xs);
    ReadInvertsEncode(Encode(xs), ys);
  }
}
