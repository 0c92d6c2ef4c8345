/** The packets that a DHCP client takes for replies, from their first byte on. */
module DhcpReply {
  import opened Bytes
  import opened Dhcp
  import opened DhcpOptions

  const HEADER_LEN := 240
  const REPLY: Byte := 2
  const ETHERNET: Byte := 1
  const ADDRESS_LEN: Byte := 6
  const MAGIC: seq<Byte> := [0x63, 0x82, 0x53, 0x63]
  const OFFER: Byte := 2
  const ACK: Byte := 5
  const NAK: Byte := 6

  /** A header of a reply to the client's own transaction. */
  predicate HeaderOk(packet: seq<Byte>, xid: nat, mac: seq<Byte>) {
    && |packet| >= HEADER_LEN
    && packet[0] == REPLY && packet[1] == ETHERNET && packet[2] == ADDRESS_LEN
    && BigEndian(packet[4..8]) == xid
    && packet[28..34] == mac
    && packet[236..240] == MAGIC
  }

  /** The address that is given to the client. */
  function YourAddress(packet: seq<Byte>): nat
    requires |packet| >= HEADER_LEN
  {
    BigEndian(packet[16..20])
  }

  function Numbers(addresses: seq<seq<Byte>>): seq<nat> {
    seq(|addresses|, i requires 0 <= i < |addresses| => BigEndian(addresses[i]))
  }

  /** What the options of a reply amount to; an offer or an acknowledgement has to have an address, a lease and a mask. */
  function ReplyFrom(o: Options, addr: nat, sender: seq<Byte>): Option<Reply> {
    if o.messageType == None || o.messageType.value !in {OFFER, ACK, NAK} || o.server == None then None else
      var server := BigEndian(o.server.value);
      if o.messageType.value == NAK then Some(Reply(Nak, addr, server, 0, NO_PARAMS))
      else if addr == 0 || o.lease == None || o.mask == None then None
      else
        var router := if o.router == None then None else Some(BigEndian(o.router.value));
        Some(Reply(if o.messageType.value == OFFER then Offer else Ack, addr, server, o.lease.value,
                   Params(BigEndian(o.mask.value), router, Numbers(o.servers), sender)))
  }

  /** The reply that a packet from some hardware address is, if it is one to the client. */
  function ReplyOf(packet: seq<Byte>, xid: nat, mac: seq<Byte>, sender: seq<Byte>): Option<Reply> {
    if !HeaderOk(packet, xid, mac) then None else
      match Parse(packet[HEADER_LEN..], false, NOTHING)
      case None => None
      case Some(o) => ReplyFrom(o, YourAddress(packet), sender)
  }

  /** Options as they stand behind a header: each of the right size, with padding anywhere. */
  ghost predicate Carries(data: seq<Byte>, items: seq<Item>) {
    exists fields, padding ::
      FieldsOk(fields) && AllPadding(padding) && data == Encode(fields) + [END] + padding && items == Items(fields)
  }

  /** The options say that a packet is a certain reply: the last of each kind counts, and what an offer or an acknowledgement needs is there. */
  ghost predicate Tells(items: seq<Item>, addr: nat, sender: seq<Byte>, r: Reply) {
    && r.addr == addr
    && LastOf(items, MESSAGE_TYPE) == Some([match r.kind case Offer => 2 case Ack => 5 case Nak => 6])
    && IsNumber(LastOf(items, SERVER_IDENTIFIER), r.server)
    && if r.kind.Nak? then r.lease == 0 && r.params == NO_PARAMS else
         && addr != 0
         && IsNumber(LastOf(items, LEASE_TIME), r.lease)
         && IsNumber(LastOf(items, SUBNET_MASK), r.params.mask)
         && (if r.params.router == None then LastOf(items, ROUTER) == None else IsNumber(LastOf(items, ROUTER), r.params.router.value))
         && AreNumbers(LastOf(items, DOMAIN_NAME_SERVER), r.params.servers)
         && r.params.sender == sender
  }

  ghost predicate IsNumber(data: Option<seq<Byte>>, n: nat) {
    data.Some? && |data.value| == 4 && BigEndian(data.value) == n
  }

  /** The first sixteen of the addresses, if there are any. */
  ghost predicate AreNumbers(data: Option<seq<Byte>>, ns: seq<nat>) {
    if data == None then ns == [] else
      && 4 * |ns| <= |data.value| && (|ns| == 16 || 4 * |ns| == |data.value|) && |ns| <= 16
      && forall i | 0 <= i < |ns| :: ns[i] == BigEndian(data.value[4 * i..4 * i + 4])
  }

  lemma ServersToldBy(items: seq<Item>, ns: seq<nat>)
    requires AllSized(items)
    ensures AreNumbers(LastOf(items, DOMAIN_NAME_SERVER), ns) <==> ns == Numbers(Summary(items).servers)
  {
    hide BigEndian, Sized, LastOf;
    var data := LastOf(items, DOMAIN_NAME_SERVER);
    if data.Some? {
      SizedLast(items, DOMAIN_NAME_SERVER);
      var addresses := Addresses(data.value, MAX_DOMAIN_NAME_SERVERS);
      assert |addresses| <= 16 && (|addresses| == 16 || 4 * |addresses| == |data.value|) && 4 * |addresses| <= |data.value|;
      if AreNumbers(data, ns) {
        assert |ns| == |addresses|;
        assert ns == Numbers(addresses);
      }
    }
  }

  lemma SizedLast(items: seq<Item>, kind: Byte)
    requires AllSized(items) && LastOf(items, kind).Some?
    ensures Sized(Item(kind, LastOf(items, kind).value))
  {
  }

  lemma ToldBy(items: seq<Item>, addr: nat, sender: seq<Byte>, r: Reply)
    requires AllSized(items)
    ensures ReplyFrom(Summary(items), addr, sender) == Some(r) <==> Tells(items, addr, sender, r)
  {
    hide BigEndian, LastOf, Addresses, AreNumbers, AllSized;
    ServersToldBy(items, r.params.servers);
    forall kind | LastOf(items, kind).Some?
      ensures Sized(Item(kind, LastOf(items, kind).value))
    {
      SizedLast(items, kind);
    }
    var kind := LastOf(items, MESSAGE_TYPE);
    if kind.Some? {
      assert kind.value == [kind.value[0]];
    }
  }

  /** A header as a server sends it to a client with some hardware address, for some transaction. */
  predicate HeaderFor(packet: seq<Byte>, xid: nat, mac: seq<Byte>) {
    && |packet| >= 240 && packet[..3] == [2, 1, 6] && BigEndian(packet[4..8]) == xid && packet[28..34] == mac
    && packet[236..240] == [0x63, 0x82, 0x53, 0x63]
  }

  /**
   * Which packets are taken for which replies: those whose header is for the client, with the address
   * it is given at the sixteenth byte, behind which stand options of the right sizes that say so.
   */
  lemma ReplyDecides(packet: seq<Byte>, xid: nat, mac: seq<Byte>, sender: seq<Byte>, r: Reply)
    ensures ReplyOf(packet, xid, mac, sender) == Some(r) <==>
      && HeaderFor(packet, xid, mac)
      && exists items :: Carries(packet[240..], items) && AllSized(items) && Tells(items, BigEndian(packet[16..20]), sender, r)
  {
    hide Parse, ReplyFrom, Summary, AllSized, TakeAll, Tells, BigEndian;
    if HeaderOk(packet, xid, mac) {
      var data := packet[HEADER_LEN..];
      if Parse(data, false, NOTHING).Some? {
        var fields, padding := ParsedIsEncoded(data, NOTHING);
        assert Carries(data, Items(fields));
        ParseInvertsEncode(fields, padding, NOTHING);
        LastCounts(Items(fields));
        ToldBy(Items(fields), YourAddress(packet), sender, r);
      }
      forall items | Carries(data, items) && AllSized(items)
        ensures Parse(data, false, NOTHING) == Some(Summary(items))
        ensures ReplyFrom(Summary(items), YourAddress(packet), sender) == Some(r) <==> Tells(items, YourAddress(packet), sender, r)
      {
        var fields, padding :|
          FieldsOk(fields) && AllPadding(padding) && data == Encode(fields) + [END] + padding && items == Items(fields);
        ParseInvertsEncode(fields, padding, NOTHING);
        LastCounts(items);
        ToldBy(items, YourAddress(packet), sender, r);
      }
    }
  }

  /** The checks of recv_handler_done, up to what the reply means. */
  method ReadReply(packet: seq<Byte>, xid: nat, mac: seq<Byte>, sender: seq<Byte>) returns (r: Option<Reply>)
    ensures r == ReplyOf(packet, xid, mac, sender)
  {
    if |packet| < HEADER_LEN {
      return None;
    }
    if packet[0] != REPLY || packet[1] != ETHERNET || packet[2] != ADDRESS_LEN {
      return None;
    }
    if BigEndian(packet[4..8]) != xid || packet[28..34] != mac || packet[236..240] != MAGIC {
      return None;
    }
    var o := ParseOptions(packet[HEADER_LEN..]);
    if o == None {
      return None;
    }
    r := ReplyFrom(o.value, YourAddress(packet), sender);
  }
}
