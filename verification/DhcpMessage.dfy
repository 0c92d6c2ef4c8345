/** The packets that a DHCP client sends. */
module DhcpMessage {
  import opened Bytes
  import opened Dhcp
  import opened DhcpOptions
  import opened DhcpReply

  const REQUEST_OP: Byte := 1
  const DISCOVER_TYPE: Byte := 1
  const REQUEST_TYPE: Byte := 3
  const HOST_NAME: Byte := 12
  const REQUESTED_ADDRESS: Byte := 50
  const PARAMETER_LIST: Byte := 55
  const MAX_MESSAGE_SIZE: Byte := 57
  const VENDOR_CLASS: Byte := 60
  const CLIENT_IDENTIFIER: Byte := 61

  const IP_UDP_HEADERS := 28
  /** What every interface carries: a datagram of 576 bytes without its headers. */
  const SMALLEST_MTU := 548
  const IDENTITY_MAX := 100

  /** How a client names itself. */
  datatype Identity = Identity(mac: seq<Byte>, hostname: Option<seq<Byte>>, vendor: Option<seq<Byte>>, client: Option<seq<Byte>>)

  function LenOf(name: Option<seq<Byte>>): nat {
    if name == None then 0 else |name.value|
  }

  /** What is checked when a client is set up. */
  predicate IdentityOk(id: Identity) {
    |id.mac| == 6 && LenOf(id.hostname) + LenOf(id.vendor) + LenOf(id.client) <= IDENTITY_MAX
  }

  predicate IsWord(n: nat) {
    n < 0x1_0000_0000
  }

  /** A number of 32 bits as it is sent. */
  function Word(n: nat): (bs: seq<Byte>)
    requires IsWord(n)
    ensures |bs| == 4
  {
    [n / 0x100_0000, n / 0x1_0000 % 0x100, n / 0x100 % 0x100, n % 0x100]
  }

  /** A number is read byte by byte. */
  lemma ByteIsRead(bs: seq<Byte>, b: Byte, n: nat)
    requires BigEndian(bs) == n / 0x100 && b as nat == n % 0x100
    ensures BigEndian(bs + [b]) == n
  {
    assert (bs + [b])[..|bs|] == bs;
    assert n == 0x100 * (n / 0x100) + n % 0x100;
  }

  lemma WordIsRead(n: nat)
    requires IsWord(n)
    ensures BigEndian(Word(n)) == n
  {
    var w := Word(n);
    var a, b, c := n / 0x100_0000, n / 0x1_0000, n / 0x100;
    assert b / 0x100 == a && c / 0x100 == b;
    assert BigEndian([w[0]]) == a by {
      assert [w[0]][..0] == [];
    }
    hide BigEndian, Word;
    ByteIsRead([w[0]], w[1], b);
    ByteIsRead([w[0]] + [w[1]], w[2], c);
    ByteIsRead([w[0]] + [w[1]] + [w[2]], w[3], n);
    assert w == [w[0]] + [w[1]] + [w[2]] + [w[3]];
  }

  predicate MessageOk(m: Message) {
    IsWord(m.xid) && (m.Request? ==> IsWord(m.addr) && (m.server != None ==> IsWord(m.server.value)))
  }

  function Blank(n: nat): (bs: seq<Byte>)
    ensures |bs| == n
  {
    seq(n, _ => 0)
  }

  function Header(xid: nat, mac: seq<Byte>): (bs: seq<Byte>)
    requires IsWord(xid) && |mac| == 6
    ensures |bs| == HEADER_LEN
  {
    [REQUEST_OP, ETHERNET, ADDRESS_LEN, 0] + Word(xid) + Blank(20) + mac + Blank(202) + MAGIC
  }

  function Maybe(kind: Byte, data: Option<seq<Byte>>): seq<Item> {
    if data == None then [] else [Item(kind, data.value)]
  }

  /** The options that concern the message, and those that are the same in all. */
  function MessageItems(m: Message): seq<Item>
    requires MessageOk(m)
  {
    match m
    case Discover(_) => [Item(MESSAGE_TYPE, [DISCOVER_TYPE])]
    case Request(_, addr, server) =>
      [Item(MESSAGE_TYPE, [REQUEST_TYPE]), Item(REQUESTED_ADDRESS, Word(addr))]
      + Maybe(SERVER_IDENTIFIER, if server == None then None else Some(Word(server.value)))
  }

  function ClientItems(mtu: nat, id: Identity): seq<Item> {
    var size := (mtu + IP_UDP_HEADERS) % 0x1_0000;
    [Item(MAX_MESSAGE_SIZE, [size / 0x100, size % 0x100]),
     Item(PARAMETER_LIST, [SUBNET_MASK, ROUTER, DOMAIN_NAME_SERVER, LEASE_TIME])]
    + Maybe(HOST_NAME, id.hostname) + Maybe(VENDOR_CLASS, id.vendor) + Maybe(CLIENT_IDENTIFIER, id.client)
  }

  function FieldsOf(items: seq<Item>): seq<Field> {
    seq(|items|, i requires 0 <= i < |items| => Of(items[i]))
  }

  ghost predicate AllOk(items: seq<Item>) {
    forall i | 0 <= i < |items| :: ItemOk(items[i])
  }

  lemma ItemsAreOk(m: Message, mtu: nat, id: Identity)
    requires MessageOk(m) && IdentityOk(id)
    ensures AllOk(MessageItems(m) + ClientItems(mtu, id)) && FieldsOk(FieldsOf(MessageItems(m) + ClientItems(mtu, id)))
  {
    assert AllOk(MessageItems(m));
    assert AllOk(ClientItems(mtu, id));
  }

  /** send_message, as far as it concerns what is sent. */
  function Compose(m: Message, mtu: nat, id: Identity): seq<Byte>
    requires MessageOk(m) && IdentityOk(id)
  {
    ItemsAreOk(m, mtu, id);
    Header(m.xid, id.mac) + Encode(FieldsOf(MessageItems(m) + ClientItems(mtu, id))) + [END]
  }

  /** The size of options as they are sent. */
  function Total(items: seq<Item>): nat {
    if items == [] then 0 else 2 + |items[0].data| + Total(items[1..])
  }

  lemma {:induction false} EncodedTotal(items: seq<Item>)
    requires FieldsOk(FieldsOf(items))
    ensures |Encode(FieldsOf(items))| == Total(items) && Items(FieldsOf(items)) == items
  {
    if items != [] {
      assert FieldsOf(items)[1..] == FieldsOf(items[1..]);
      EncodedTotal(items[1..]);
    }
  }

  lemma {:induction false} TotalOfBoth(items: seq<Item>, more: seq<Item>)
    ensures Total(items + more) == Total(items) + Total(more)
  {
    if items == [] {
      assert items + more == more;
    } else {
      assert (items + more)[1..] == items[1..] + more;
      TotalOfBoth(items[1..], more);
    }
  }

  lemma MaybeTotal(kind: Byte, data: Option<seq<Byte>>)
    ensures Total(Maybe(kind, data)) <= 2 + LenOf(data)
  {
  }

  lemma MessageTotal(m: Message)
    requires MessageOk(m)
    ensures Total(MessageItems(m)) <= 15
  {
    if m.Request? {
      var server := if m.server == None then None else Some(Word(m.server.value));
      var items := [Item(MESSAGE_TYPE, [REQUEST_TYPE]), Item(REQUESTED_ADDRESS, Word(m.addr))];
      assert items[1..] == [Item(REQUESTED_ADDRESS, Word(m.addr))];
      TotalOfBoth(items, Maybe(SERVER_IDENTIFIER, server));
      MaybeTotal(SERVER_IDENTIFIER, server);
    }
  }

  lemma ClientTotal(mtu: nat, id: Identity)
    requires IdentityOk(id)
    ensures Total(ClientItems(mtu, id)) <= 16 + IDENTITY_MAX
  {
    var first := ClientItems(mtu, id)[..2];
    assert first[1..] == [Item(PARAMETER_LIST, [SUBNET_MASK, ROUTER, DOMAIN_NAME_SERVER, LEASE_TIME])];
    var h, v, c := Maybe(HOST_NAME, id.hostname), Maybe(VENDOR_CLASS, id.vendor), Maybe(CLIENT_IDENTIFIER, id.client);
    assert ClientItems(mtu, id) == first + h + v + c;
    TotalOfBoth(first, h);
    TotalOfBoth(first + h, v);
    TotalOfBoth(first + h + v, c);
    MaybeTotal(HOST_NAME, id.hostname);
    MaybeTotal(VENDOR_CLASS, id.vendor);
    MaybeTotal(CLIENT_IDENTIFIER, id.client);
  }

  /** With an identity as is checked, every message fits the smallest send buffer. */
  lemma ComposedFits(m: Message, mtu: nat, id: Identity)
    requires MessageOk(m) && IdentityOk(id)
    ensures |Compose(m, mtu, id)| <= SMALLEST_MTU
  {
    hide Header, MessageItems, ClientItems, Encode, FieldsOf;
    var items := MessageItems(m) + ClientItems(mtu, id);
    ItemsAreOk(m, mtu, id);
    EncodedTotal(items);
    TotalOfBoth(MessageItems(m), ClientItems(mtu, id));
    MessageTotal(m);
    ClientTotal(mtu, id);
  }

  /** The last option of a kind in one list of options behind another. */
  lemma {:induction false} LastOfBoth(items: seq<Item>, more: seq<Item>, kind: Byte)
    ensures LastOf(items + more, kind) == if LastOf(more, kind) != None then LastOf(more, kind) else LastOf(items, kind)
    decreases |more|
  {
    if more == [] {
      assert items + more == items;
    } else {
      assert (items + more)[..|items + more| - 1] == items + more[..|more| - 1];
      LastOfBoth(items, more[..|more| - 1], kind);
    }
  }

  /** No option of a kind. */
  lemma {:induction false} LastOfNone(items: seq<Item>, kind: Byte)
    requires forall i | 0 <= i < |items| :: items[i].kind != kind
    ensures LastOf(items, kind) == None
  {
    if items != [] {
      LastOfNone(items[..|items| - 1], kind);
    }
  }

  lemma MessageOptions(m: Message)
    requires MessageOk(m)
    ensures LastOf(MessageItems(m), MESSAGE_TYPE) == Some([if m.Discover? then DISCOVER_TYPE else REQUEST_TYPE])
    ensures LastOf(MessageItems(m), SERVER_IDENTIFIER) == if m.Request? && m.server != None then Some(Word(m.server.value)) else None
    ensures LastOf(MessageItems(m), REQUESTED_ADDRESS) == if m.Request? then Some(Word(m.addr)) else None
    ensures forall kind | kind !in {MESSAGE_TYPE, SERVER_IDENTIFIER, REQUESTED_ADDRESS} :: LastOf(MessageItems(m), kind) == None
  {
    forall kind | kind !in {MESSAGE_TYPE, SERVER_IDENTIFIER, REQUESTED_ADDRESS}
      ensures LastOf(MessageItems(m), kind) == None
    {
      LastOfNone(MessageItems(m), kind);
    }
    match m
    case Discover(_) =>
    case Request(_, addr, server) =>
      var first := [Item(MESSAGE_TYPE, [REQUEST_TYPE]), Item(REQUESTED_ADDRESS, Word(addr))];
      var maybe := Maybe(SERVER_IDENTIFIER, if server == None then None else Some(Word(server.value)));
      assert first[..1] == [Item(MESSAGE_TYPE, [REQUEST_TYPE])];
      LastOfNone(first, SERVER_IDENTIFIER);
      LastOfNone(maybe, MESSAGE_TYPE);
      LastOfBoth(first, maybe, MESSAGE_TYPE);
      LastOfBoth(first, maybe, SERVER_IDENTIFIER);
      LastOfNone(maybe, REQUESTED_ADDRESS);
      LastOfBoth(first, maybe, REQUESTED_ADDRESS);
  }

  lemma HeaderIsRead(xid: nat, mac: seq<Byte>)
    requires IsWord(xid) && |mac| == 6
    ensures var h := Header(xid, mac);
      h[..4] == [REQUEST_OP, ETHERNET, ADDRESS_LEN, 0] && BigEndian(h[4..8]) == xid && h[28..34] == mac && h[236..240] == MAGIC
  {
    WordIsRead(xid);
    assert Header(xid, mac)[4..8] == Word(xid);
  }

  /** What options say that name a message and its sender: the last option of each kind. */
  ghost predicate Names(items: seq<Item>, m: Message, mtu: nat, id: Identity) {
    && LastOf(items, MESSAGE_TYPE) == Some([if m.Discover? then DISCOVER_TYPE else REQUEST_TYPE])
    && (match LastOf(items, REQUESTED_ADDRESS)
        case None => m.Discover?
        case Some(data) => m.Request? && |data| == 4 && BigEndian(data) == m.addr)
    && (match LastOf(items, SERVER_IDENTIFIER)
        case None => m.Discover? || m.server == None
        case Some(data) => m.Request? && |data| == 4 && m.server == Some(BigEndian(data)))
    && LastOf(items, PARAMETER_LIST) == Some([SUBNET_MASK, ROUTER, DOMAIN_NAME_SERVER, LEASE_TIME])
    && LastOf(items, HOST_NAME) == id.hostname && LastOf(items, VENDOR_CLASS) == id.vendor && LastOf(items, CLIENT_IDENTIFIER) == id.client
    && (mtu + IP_UDP_HEADERS < 0x1_0000 ==>
          LastOf(items, MAX_MESSAGE_SIZE).Some? && BigEndian(LastOf(items, MAX_MESSAGE_SIZE).value) == mtu + IP_UDP_HEADERS)
  }

  /**
   * Whoever reads a message finds the transaction it belongs to and the client's address, and options
   * that name its type, the address that is asked for, the server, and how the client names itself.
   */
  lemma ComposedIsRead(m: Message, mtu: nat, id: Identity)
    requires MessageOk(m) && IdentityOk(id)
    ensures var packet := Compose(m, mtu, id);
      && |packet| > HEADER_LEN && packet[..4] == [REQUEST_OP, ETHERNET, ADDRESS_LEN, 0]
      && BigEndian(packet[4..8]) == m.xid && packet[28..34] == id.mac && packet[236..240] == MAGIC
      && exists items :: Carries(packet[HEADER_LEN..], items) && AllSized(items) && Names(items, m, mtu, id)
  {
    hide Header, MessageItems, ClientItems, Encode, FieldsOf, LastOf, BigEndian, Names;
    var items := MessageItems(m) + ClientItems(mtu, id);
    var packet, h := Compose(m, mtu, id), Header(m.xid, id.mac);
    ItemsAreOk(m, mtu, id);
    EncodedTotal(items);
    assert packet == h + (Encode(FieldsOf(items)) + [END]);
    assert packet[HEADER_LEN..] == Encode(FieldsOf(items)) + [END] + [];
    assert packet[..4] == h[..4] && packet[4..8] == h[4..8] && packet[28..34] == h[28..34] && packet[236..240] == h[236..240];
    HeaderIsRead(m.xid, id.mac);
    var padding: seq<Byte> := [];
    assert FieldsOk(FieldsOf(items)) && AllPadding(padding) && packet[HEADER_LEN..] == Encode(FieldsOf(items)) + [END] + padding;
    assert Carries(packet[HEADER_LEN..], items);
    ItemsAreSized(m, mtu, id);
    AllNamed(m, mtu, id);
  }

  lemma AllNamed(m: Message, mtu: nat, id: Identity)
    requires MessageOk(m)
    ensures Names(MessageItems(m) + ClientItems(mtu, id), m, mtu, id)
  {
    hide MessageItems, ClientItems, LastOf, BigEndian, Word;
    MessageOptions(m);
    ClientOptions(mtu, id);
    forall kind
      ensures LastOf(MessageItems(m) + ClientItems(mtu, id), kind) ==
        if LastOf(ClientItems(mtu, id), kind) != None then LastOf(ClientItems(mtu, id), kind) else LastOf(MessageItems(m), kind)
    {
      LastOfBoth(MessageItems(m), ClientItems(mtu, id), kind);
    }
    if m.Request? {
      WordIsRead(m.addr);
      if m.server != None {
        WordIsRead(m.server.value);
      }
    }
  }

  lemma ItemsAreSized(m: Message, mtu: nat, id: Identity)
    requires MessageOk(m)
    ensures AllSized(MessageItems(m) + ClientItems(mtu, id))
  {
    assert AllSized(MessageItems(m));
    assert AllSized(ClientItems(mtu, id));
  }

  lemma MaybeLast(kind: Byte, data: Option<seq<Byte>>, other: Byte)
    ensures LastOf(Maybe(kind, data), other) == if other == kind then data else None
  {
  }

  lemma ClientOptions(mtu: nat, id: Identity)
    ensures forall kind | kind in {MESSAGE_TYPE, SERVER_IDENTIFIER, REQUESTED_ADDRESS} :: LastOf(ClientItems(mtu, id), kind) == None
    ensures LastOf(ClientItems(mtu, id), PARAMETER_LIST) == Some([SUBNET_MASK, ROUTER, DOMAIN_NAME_SERVER, LEASE_TIME])
    ensures LastOf(ClientItems(mtu, id), HOST_NAME) == id.hostname && LastOf(ClientItems(mtu, id), VENDOR_CLASS) == id.vendor
    ensures LastOf(ClientItems(mtu, id), CLIENT_IDENTIFIER) == id.client
    ensures mtu + IP_UDP_HEADERS < 0x1_0000 ==>
      LastOf(ClientItems(mtu, id), MAX_MESSAGE_SIZE).Some? && BigEndian(LastOf(ClientItems(mtu, id), MAX_MESSAGE_SIZE).value) == mtu + IP_UDP_HEADERS
  {
    hide LastOf, Maybe, BigEndian;
    var size := (mtu + IP_UDP_HEADERS) % 0x1_0000;
    var bytes: seq<Byte> := [size / 0x100, size % 0x100];
    var first := [Item(MAX_MESSAGE_SIZE, bytes), Item(PARAMETER_LIST, [SUBNET_MASK, ROUTER, DOMAIN_NAME_SERVER, LEASE_TIME])];
    var h, v, c := Maybe(HOST_NAME, id.hostname), Maybe(VENDOR_CLASS, id.vendor), Maybe(CLIENT_IDENTIFIER, id.client);
    assert ClientItems(mtu, id) == first + h + v + c && first == [first[0], first[1]];
    TwoRead(size);
    forall kind
      ensures LastOf(ClientItems(mtu, id), kind) ==
        if kind == CLIENT_IDENTIFIER then id.client else if kind == VENDOR_CLASS then id.vendor
        else if kind == HOST_NAME then id.hostname else if kind == PARAMETER_LIST then Some(first[1].data)
        else if kind == MAX_MESSAGE_SIZE then Some(bytes) else None
    {
      LastOfBoth(first + h + v, c, kind);
      LastOfBoth(first + h, v, kind);
      LastOfBoth(first, h, kind);
      MaybeLast(HOST_NAME, id.hostname, kind);
      MaybeLast(VENDOR_CLASS, id.vendor, kind);
      MaybeLast(CLIENT_IDENTIFIER, id.client, kind);
      LastOfTwo(first[0], first[1], kind);
    }
  }

  lemma LastOfTwo(a: Item, b: Item, kind: Byte)
    ensures LastOf([a, b], kind) == if b.kind == kind then Some(b.data) else if a.kind == kind then Some(a.data) else None
  {
    assert [a, b][..1] == [a];
  }

  lemma TwoRead(n: nat)
    requires n < 0x1_0000
    ensures BigEndian([n / 0x100, n % 0x100]) == n
  {
    var high: Byte, low: Byte := n / 0x100, n % 0x100;
    assert BigEndian([high]) == high by {
      assert [high][..0] == [];
    }
    ByteIsRead([high], low, n);
    assert [high] + [low] == [high, low];
  }
}
