/** The options of a DHCP reply. */
module DhcpOptions {
  import opened Bytes

  const MAX_DOMAIN_NAME_SERVERS := 16

  const PAD: Byte := 0
  const END: Byte := 0xff
  const SUBNET_MASK: Byte := 1
  const ROUTER: Byte := 3
  const DOMAIN_NAME_SERVER: Byte := 6
  const LEASE_TIME: Byte := 51
  const MESSAGE_TYPE: Byte := 53
  const SERVER_IDENTIFIER: Byte := 54

  /** An option as it stands in a packet. */
  datatype Item = Item(kind: Byte, data: seq<Byte>)

  /** What the client wants to know of a reply; addresses as they stand in it. */
  datatype Options = Options(
    messageType: Option<Byte>, server: Option<seq<Byte>>, lease: Option<nat>,
    mask: Option<seq<Byte>>, router: Option<seq<Byte>>, servers: seq<seq<Byte>>)

  const NOTHING := Options(None, None, None, None, None, [])

  function BigEndian(bs: seq<Byte>): nat {
    if bs == [] then 0 else 0x100 * BigEndian(bs[..|bs| - 1]) + bs[|bs| - 1] as nat
  }

  /** The first addresses of a list of them, as many as there is room for. */
  function Addresses(data: seq<Byte>, room: nat): (r: seq<seq<Byte>>)
    requires |data| % 4 == 0
    ensures |r| == if |data| / 4 < room then |data| / 4 else room
    ensures forall i | 0 <= i < |r| :: r[i] == data[4 * i..4 * i + 4]
  {
    if |data| == 0 || room == 0 then [] else [data[..4]] + Addresses(data[4..], room - 1)
  }

  /** An option is taken in, or makes the reply one that is not understood; the last of a kind counts. */
  function Take(o: Options, item: Item): Option<Options> {
    if item.kind == MESSAGE_TYPE then
      if |item.data| != 1 then None else Some(o.(messageType := Some(item.data[0])))
    else if item.kind == SERVER_IDENTIFIER then
      if |item.data| != 4 then None else Some(o.(server := Some(item.data)))
    else if item.kind == LEASE_TIME then
      if |item.data| != 4 then None else Some(o.(lease := Some(BigEndian(item.data))))
    else if item.kind == SUBNET_MASK then
      if |item.data| != 4 then None else Some(o.(mask := Some(item.data)))
    else if item.kind == ROUTER then
      if |item.data| != 4 then None else Some(o.(router := Some(item.data)))
    else if item.kind == DOMAIN_NAME_SERVER then
      if |item.data| % 4 != 0 then None else Some(o.(servers := Addresses(item.data, MAX_DOMAIN_NAME_SERVERS)))
    else Some(o)
  }

  function TakeAll(o: Options, items: seq<Item>): Option<Options>
    decreases |items|
  {
    if items == [] then Some(o) else
      match Take(o, items[0])
      case None => None
      case Some(next) => TakeAll(next, items[1..])
  }

  /** An option that has the size its kind demands. */
  predicate Sized(item: Item) {
    && (item.kind == MESSAGE_TYPE ==> |item.data| == 1)
    && (item.kind in {SERVER_IDENTIFIER, LEASE_TIME, SUBNET_MASK, ROUTER} ==> |item.data| == 4)
    && (item.kind == DOMAIN_NAME_SERVER ==> |item.data| % 4 == 0)
  }

  predicate AllSized(items: seq<Item>) {
    forall i | 0 <= i < |items| :: Sized(items[i])
  }

  /** The data of the last option of a kind. */
  function LastOf(items: seq<Item>, kind: Byte): (r: Option<seq<Byte>>)
    ensures r.Some? ==> exists i :: 0 <= i < |items| && items[i] == Item(kind, r.value)
  {
    if items == [] then None
    else if items[|items| - 1].kind == kind then Some(items[|items| - 1].data)
    else LastOf(items[..|items| - 1], kind)
  }

  /** What the last options of each kind say. */
  function Summary(items: seq<Item>): Options
    requires AllSized(items)
  {
    var kind, lease, servers := LastOf(items, MESSAGE_TYPE), LastOf(items, LEASE_TIME), LastOf(items, DOMAIN_NAME_SERVER);
    Options(if kind == None then None else Some(kind.value[0]),
            LastOf(items, SERVER_IDENTIFIER),
            if lease == None then None else Some(BigEndian(lease.value)),
            LastOf(items, SUBNET_MASK),
            LastOf(items, ROUTER),
            if servers == None then [] else Addresses(servers.value, MAX_DOMAIN_NAME_SERVERS))
  }

  lemma {:induction false} TakeAllAppend(o: Options, items: seq<Item>, item: Item)
    ensures TakeAll(o, items + [item]) == match TakeAll(o, items) case None => None case Some(next) => Take(next, item)
    decreases |items|
  {
    hide Take;
    if items != [] {
      assert (items + [item])[1..] == items[1..] + [item];
      if Take(o, items[0]).Some? {
        TakeAllAppend(Take(o, items[0]).value, items[1..], item);
      }
    }
  }

  /** A reply is understood exactly if every option of a known kind has the right size, and then the last option of each kind counts. */
  lemma {:induction false} LastCounts(items: seq<Item>)
    ensures TakeAll(NOTHING, items) == if AllSized(items) then Some(Summary(items)) else None
    decreases |items|
  {
    if items != [] {
      var init, last := items[..|items| - 1], items[|items| - 1];
      assert items == init + [last];
      LastCounts(init);
      TakeAllAppend(NOTHING, init, last);
      TakeOne(init, last);
    }
  }

  /** One more option, after some that are summed up. */
  lemma TakeOne(items: seq<Item>, item: Item)
    ensures AllSized(items + [item]) <==> AllSized(items) && Sized(item)
    ensures AllSized(items) ==> Take(Summary(items), item) == if Sized(item) then Some(Summary(items + [item])) else None
  {
    hide BigEndian, Addresses, AllSized, LastOf;
    SizedMore(items, item);
    LastOfMore(items, item);
  }

  lemma SizedMore(items: seq<Item>, item: Item)
    ensures AllSized(items + [item]) <==> AllSized(items) && Sized(item)
  {
    hide Sized;
    var more := items + [item];
    assert more[|items|] == item && forall i | 0 <= i < |items| :: more[i] == items[i];
  }

  lemma LastOfMore(items: seq<Item>, item: Item)
    ensures forall kind :: LastOf(items + [item], kind) == if item.kind == kind then Some(item.data) else LastOf(items, kind)
  {
    assert (items + [item])[..|items|] == items;
  }

  predicate ItemOk(item: Item) {
    item.kind != PAD && item.kind != END && |item.data| <= 0xff
  }

  /** What comes between the header and the end: options, with padding before any of them. */
  datatype Field = Padding | Of(item: Item)

  function Encode(fields: seq<Field>): seq<Byte>
    requires forall i | 0 <= i < |fields| && fields[i].Of? :: ItemOk(fields[i].item)
  {
    if fields == [] then [] else EncodeField(fields[0]) + Encode(fields[1..])
  }

  function EncodeField(f: Field): (r: seq<Byte>)
    requires f.Of? ==> ItemOk(f.item)
    ensures |r| > 0
  {
    match f
    case Padding => [PAD]
    case Of(item) => [item.kind, |item.data| as Byte] + item.data
  }

  function Items(fields: seq<Field>): seq<Item> {
    if fields == [] then [] else (if fields[0].Of? then [fields[0].item] else []) + Items(fields[1..])
  }

  /** The rest of the options are taken in; after the end, there is only padding. */
  function Parse(data: seq<Byte>, end: bool, o: Options): Option<Options>
    decreases |data|
  {
    if data == [] then (if end then Some(o) else None)
    else if data[0] == PAD then Parse(data[1..], end, o)
    else if end then None
    else if data[0] == END then Parse(data[1..], true, o)
    else if |data| < 2 || data[1] as nat > |data| - 2 then None
    else
      match Take(o, Item(data[0], data[2..2 + data[1] as nat]))
      case None => None
      case Some(next) => Parse(data[2 + data[1] as nat..], false, next)
  }

  /** Padding behind the end. */
  ghost predicate AllPadding(data: seq<Byte>) {
    forall i | 0 <= i < |data| :: data[i] == PAD
  }

  lemma {:induction false} ParsePadding(data: seq<Byte>, o: Options, r: Options)
    ensures Parse(data, true, o) == Some(r) <==> AllPadding(data) && r == o
  {
    if data != [] {
      assert data == [data[0]] + data[1..];
      if data[0] == PAD {
        ParsePadding(data[1..], o, r);
        if AllPadding(data[1..]) {
          assert forall i | 1 <= i < |data| :: data[i] == data[1..][i - 1];
        }
        if AllPadding(data) {
          assert AllPadding(data[1..]);
        }
      }
    }
  }

  /** Options that are written, in whatever order and with padding anywhere, are taken in one after the other. */
  lemma {:induction false} ParseInvertsEncode(fields: seq<Field>, padding: seq<Byte>, o: Options)
    requires forall i | 0 <= i < |fields| && fields[i].Of? :: ItemOk(fields[i].item)
    requires AllPadding(padding)
    ensures Parse(Encode(fields) + [END] + padding, false, o) == TakeAll(o, Items(fields))
    decreases |fields|
  {
    var data := Encode(fields) + [END] + padding;
    if fields == [] {
      assert data[1..] == padding;
      ParsePadding(padding, o, o);
    } else {
      var rest := Encode(fields[1..]) + [END] + padding;
      assert data == EncodeField(fields[0]) + rest;
      match fields[0]
      case Padding =>
        assert data[1..] == rest;
        assert Items(fields) == Items(fields[1..]);
        ParseInvertsEncode(fields[1..], padding, o);
      case Of(item) =>
        assert data[2..2 + |item.data|] == item.data && data[2 + |item.data|..] == rest;
        assert Items(fields)[1..] == Items(fields[1..]);
        if Take(o, item).Some? {
          ParseInvertsEncode(fields[1..], padding, Take(o, item).value);
        }
    }
  }

  ghost predicate FieldsOk(fields: seq<Field>) {
    forall i | 0 <= i < |fields| && fields[i].Of? :: ItemOk(fields[i].item)
  }

  lemma EncodeMore(f: Field, fields: seq<Field>, padding: seq<Byte>)
    requires FieldsOk(fields) && (f.Of? ==> ItemOk(f.item))
    ensures FieldsOk([f] + fields)
    ensures Encode([f] + fields) + [END] + padding == EncodeField(f) + (Encode(fields) + [END] + padding)
  {
    assert ([f] + fields)[1..] == fields;
  }

  /** The first field of data that is accepted. */
  lemma FirstField(data: seq<Byte>, o: Options) returns (f: Field, n: nat, next: Options)
    requires Parse(data, false, o).Some? && data[0] != END
    ensures 0 < n <= |data| && (f.Of? ==> ItemOk(f.item)) && data[..n] == EncodeField(f)
    ensures Parse(data[n..], false, next) == Parse(data, false, o)
  {
    if data[0] == PAD {
      f, n, next := Padding, 1, o;
    } else {
      n := 2 + data[1] as nat;
      f := Of(Item(data[0], data[2..n]));
      next := Take(o, f.item).value;
    }
  }

  /** Nothing else is accepted. */
  lemma {:induction false} ParsedIsEncoded(data: seq<Byte>, o: Options) returns (fields: seq<Field>, padding: seq<Byte>)
    requires Parse(data, false, o).Some?
    ensures FieldsOk(fields) && AllPadding(padding) && data == Encode(fields) + [END] + padding
    decreases |data|
  {
    hide Take, EncodeField;
    if data[0] == END {
      fields, padding := [], data[1..];
      ParsePadding(data[1..], o, Parse(data, false, o).value);
    } else {
      var f, n, next := FirstField(data, o);
      var more;
      more, padding := ParsedIsEncoded(data[n..], next);
      EncodeMore(f, more, padding);
      fields := [f] + more;
      assert data == data[..n] + data[n..];
    }
  }

  /** The loop of recv_handler_done over the options. */
  method ParseOptions(data: seq<Byte>) returns (r: Option<Options>)
    ensures r == Parse(data, false, NOTHING)
  {
    var pos, end, o := 0, false, NOTHING;
    while pos < |data|
      invariant pos <= |data| && Parse(data[pos..], end, o) == Parse(data, false, NOTHING)
    {
      if data[pos] == PAD {
        assert data[pos..][1..] == data[pos + 1..];
        pos := pos + 1;
        continue;
      }
      if end {
        return None;
      }
      if data[pos] == END {
        assert data[pos..][1..] == data[pos + 1..];
        pos, end := pos + 1, true;
        continue;
      }
      if |data| - pos < 2 {
        return None;
      }
      var len := data[pos + 1] as nat;
      if len > |data| - pos - 2 {
        return None;
      }
      assert data[pos..][2..2 + len] == data[pos + 2..pos + 2 + len] && data[pos..][2 + len..] == data[pos + 2 + len..];
      var next := Take(o, Item(data[pos], data[pos + 2..pos + 2 + len]));
      if next == None {
        return None;
      }
      pos, o := pos + 2 + len, next.value;
    }
    return if end then Some(o) else None;
  }
}
