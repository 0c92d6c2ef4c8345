/**
 * The way of a frame from one client to another over datagrams: it is cut into packets, and each
 * packet is secured, carried by a datagram, taken apart again, and given to the assembler.
 */
module PeerIO {
  import opened Bytes
  import opened FragmentProto
  import opened FragmentRoundTrip
  import opened FragmentLoss
  import A = AssemblerSpec
  import D = DisassemblerSpec
  import S = SPProto

  /** What a DatagramPeerIO is set up with. */
  datatype Setup = Setup(payloadMtu: nat, socketMtu: nat, params: S.Params, latency: int, numFrames: nat)

  /** What the setting up demands, and checks. */
  ghost predicate SetupOk(s: Setup) {
    && S.ParamsOk(s.params) && s.numFrames > 0
    && s.payloadMtu <= UINT16_MAX
    && S.PayloadMtu(s.params, s.socketMtu) > HEADER_LEN
  }

  ghost function PacketMtu(s: Setup): nat
    requires SetupOk(s)
  {
    S.PayloadMtu(s.params, s.socketMtu)
  }

  ghost function Sending(s: Setup): (cfg: D.Config)
    requires SetupOk(s)
    ensures D.ConfigOk(cfg)
  {
    D.Config(PacketMtu(s), -1, s.latency)
  }

  /** The receiver; its frames may be longer than the sender's. */
  ghost function Receiving(s: Setup, frameMtu: nat): (cfg: A.Config)
    requires SetupOk(s)
    ensures A.ConfigOk(cfg)
  {
    A.Config(frameMtu, s.numFrames, MaxChunksForFrame(PacketMtu(s), s.payloadMtu))
  }

  /** The password and the initialization vector of each packet. */
  datatype Secrets = Secrets(otp: nat -> seq<Byte>, iv: nat -> seq<Byte>)

  ghost predicate SecretsOk(s: Setup, x: Secrets) {
    forall k: nat :: |x.otp(k)| == S.OtpLen(s.params) && |x.iv(k)| == S.IvLen(s.params)
  }

  /** The datagrams that packets are carried by. */
  ghost function Datagrams(s: Setup, packets: seq<seq<Byte>>, x: Secrets): (r: seq<seq<Byte>>)
    requires SetupOk(s)
    ensures |r| == |packets|
  {
    seq(|packets|, k requires 0 <= k < |packets| => S.Encode(s.params, x.iv(k), S.Content(x.otp(k), packets[k])))
  }

  /** What datagrams are found to carry, and the passwords that are accepted after them. */
  datatype Decoding = Decoding(packets: seq<seq<Byte>>, accepted: multiset<seq<Byte>>)

  /** Datagrams that cannot be decoded are dropped, and those without a password that is accepted; each is accepted once. */
  ghost function Decoded(s: Setup, datagrams: seq<seq<Byte>>, accepted: multiset<seq<Byte>>): Decoding
    requires SetupOk(s)
  {
    if datagrams == [] then Decoding([], accepted) else
      var n := |datagrams| - 1;
      var before := Decoded(s, datagrams[..n], accepted);
      var last := S.Decode(s.params, PacketMtu(s), datagrams[n]);
      if last == None || (s.params.otp && last.value.otp !in before.accepted) then before
      else Decoding(before.packets + [last.value.payload],
                    if s.params.otp then before.accepted - multiset{last.value.otp} else before.accepted)
  }

  /** The passwords of the first packets of a run. */
  ghost function Passwords(x: Secrets, n: nat): multiset<seq<Byte>> {
    if n == 0 then multiset{} else Passwords(x, n - 1) + multiset{x.otp(n - 1)}
  }

  /** The receiver accepts all passwords that are used for some packets, one as often as it is used. */
  ghost predicate Accepts(s: Setup, x: Secrets, n: nat, accepted: multiset<seq<Byte>>) {
    s.params.otp ==> Passwords(x, n) <= accepted
  }

  /** Those of the datagrams that are not lost fit the socket and are decoded to their packets, in order. */
  lemma {:induction false} PacketsDecoded(s: Setup, packets: seq<seq<Byte>>, x: Secrets, keep: nat -> bool, accepted: multiset<seq<Byte>>)
    requires SetupOk(s) && SecretsOk(s, x) && forall k | 0 <= k < |packets| :: |packets[k]| <= PacketMtu(s)
    requires Accepts(s, x, |packets|, accepted)
    ensures var datagrams := Datagrams(s, packets, x);
      && (forall k | 0 <= k < |datagrams| :: |datagrams[k]| <= s.socketMtu)
      && var d := Decoded(s, Kept(datagrams, keep), accepted);
      && d.packets == Kept(packets, keep)
      && (s.params.otp ==> accepted - Passwords(x, |packets|) <= d.accepted)
  {
    hide *;
    var n := |packets|;
    if n == 0 {
      NothingDecoded(s, packets, x, keep, accepted);
    } else {
      var init, content := Datagrams(s, packets[..n - 1], x), S.Content(x.otp(n - 1), packets[n - 1]);
      SecretsFit(s, x, n - 1);
      var last := S.Encode(s.params, x.iv(n - 1), content);
      MorePasswords(s, x, n, accepted);
      PacketsDecoded(s, packets[..n - 1], x, keep, accepted);
      OneDecoded(s, x.iv(n - 1), content);
      DatagramsMore(s, packets, x);
      assert packets == packets[..n - 1] + [packets[n - 1]];
      KeptMore(packets[..n - 1], packets[n - 1], keep);
      KeptMore(init, last, keep);
      if keep(n - 1) {
        OneMoreDecoded(s, Kept(init, keep), Kept(packets[..n - 1], keep), x, n, last, content, accepted);
      } else {
        assert Kept(init, keep) + [] == Kept(init, keep) && Kept(packets[..n - 1], keep) + [] == Kept(packets[..n - 1], keep);
      }
    }
  }

  lemma SecretsFit(s: Setup, x: Secrets, k: nat)
    requires SetupOk(s) && SecretsOk(s, x)
    ensures s.params.cipher.Some? ==> s.params.cipher.value.block > 0
    ensures |x.otp(k)| == S.OtpLen(s.params) && |x.iv(k)| == S.IvLen(s.params)
  {
  }

  lemma OneMoreDecoded(s: Setup, arrived: seq<seq<Byte>>, packets: seq<seq<Byte>>, x: Secrets, n: nat, datagram: seq<Byte>, c: S.Content, accepted: multiset<seq<Byte>>)
    requires SetupOk(s) && n > 0 && c.otp == x.otp(n - 1) && Accepts(s, x, n, accepted)
    requires S.Decode(s.params, PacketMtu(s), datagram) == Some(c)
    requires var d := Decoded(s, arrived, accepted);
      d.packets == packets && (s.params.otp ==> accepted - Passwords(x, n - 1) <= d.accepted)
    ensures var d := Decoded(s, arrived + [datagram], accepted);
      d.packets == packets + [c.payload] && (s.params.otp ==> accepted - Passwords(x, n) <= d.accepted)
  {
    hide SetupOk, Decoded, S.Decode, Passwords, Accepts;
    MorePasswords(s, x, n, accepted);
    DecodedMore(s, arrived, datagram, accepted);
  }

  lemma NothingDecoded(s: Setup, packets: seq<seq<Byte>>, x: Secrets, keep: nat -> bool, accepted: multiset<seq<Byte>>)
    requires SetupOk(s) && packets == []
    ensures Datagrams(s, packets, x) == [] && Kept<seq<Byte>>([], keep) == []
    ensures Decoded(s, [], accepted) == Decoding([], accepted) && Passwords(x, 0) == multiset{}
  {
  }

  lemma MorePasswords(s: Setup, x: Secrets, n: nat, accepted: multiset<seq<Byte>>)
    requires n > 0 && Accepts(s, x, n, accepted)
    ensures Accepts(s, x, n - 1, accepted)
    ensures s.params.otp ==> x.otp(n - 1) in accepted - Passwords(x, n - 1)
    ensures accepted - Passwords(x, n) == accepted - Passwords(x, n - 1) - multiset{x.otp(n - 1)}
    ensures accepted - Passwords(x, n) <= accepted - Passwords(x, n - 1)
  {
  }

  lemma DatagramsMore(s: Setup, packets: seq<seq<Byte>>, x: Secrets)
    requires SetupOk(s) && packets != []
    ensures var n := |packets| - 1;
      Datagrams(s, packets, x) == Datagrams(s, packets[..n], x) + [S.Encode(s.params, x.iv(n), S.Content(x.otp(n), packets[n]))]
  {
    hide SetupOk, S.Encode;
  }

  lemma OneDecoded(s: Setup, iv: seq<Byte>, c: S.Content)
    requires SetupOk(s) && |iv| == S.IvLen(s.params) && |c.otp| == S.OtpLen(s.params) && |c.payload| <= PacketMtu(s)
    ensures S.Decode(s.params, PacketMtu(s), S.Encode(s.params, iv, c)) == Some(c)
    ensures |S.Encode(s.params, iv, c)| <= s.socketMtu
  {
    S.RoundTrip(s.params, PacketMtu(s), iv, c);
    FitsSocket(s, iv, c);
  }

  lemma DecodedMore(s: Setup, datagrams: seq<seq<Byte>>, datagram: seq<Byte>, accepted: multiset<seq<Byte>>)
    requires SetupOk(s)
    ensures var before, last := Decoded(s, datagrams, accepted), S.Decode(s.params, PacketMtu(s), datagram);
      Decoded(s, datagrams + [datagram], accepted) ==
        if last == None || (s.params.otp && last.value.otp !in before.accepted) then before
        else Decoding(before.packets + [last.value.payload],
                      if s.params.otp then before.accepted - multiset{last.value.otp} else before.accepted)
  {
    hide S.Decode, SetupOk;
    assert (datagrams + [datagram])[..|datagrams|] == datagrams;
  }

  /** The sizes are such that a packet always fits a datagram. */
  lemma FitsSocket(s: Setup, iv: seq<Byte>, c: S.Content)
    requires SetupOk(s) && |iv| == S.IvLen(s.params) && S.ContentOk(s.params, PacketMtu(s), c)
    ensures |S.Encode(s.params, iv, c)| <= s.socketMtu
  {
    S.EncodedFits(s.params, PacketMtu(s), iv, c);
    S.PayloadMtuIsLargest(s.params, s.socketMtu, PacketMtu(s));
  }

  /** The packets of a run of the sender. */
  ghost function Packets(s: Setup, events: seq<D.Event>): seq<seq<Byte>>
    requires SetupOk(s) && LegalRun(Sending(s), events)
  {
    Wire(SendAll(Sending(s), events).packets)
  }

  /** The frames are within the limits, and the receiver accepts all passwords that are used. */
  ghost predicate RunOk(s: Setup, frameMtu: nat, events: seq<D.Event>, x: Secrets, accepted: multiset<seq<Byte>>)
    requires SetupOk(s)
  {
    && s.payloadMtu <= frameMtu && SecretsOk(s, x) && LegalRun(Sending(s), events)
    && (forall frame: seq<Byte> | D.Send(frame) in events :: |frame| <= s.payloadMtu)
    && Accepts(s, x, |SendAll(Sending(s), events).packets|, accepted)
  }

  lemma PacketSizes(s: Setup, events: seq<D.Event>)
    requires SetupOk(s) && LegalRun(Sending(s), events)
    ensures forall k | 0 <= k < |Packets(s, events)| :: |Packets(s, events)[k]| <= PacketMtu(s)
  {
    hide SetupOk, EncodePacket;
    var packets := SendAll(Sending(s), events).packets;
    forall k | 0 <= k < |packets|
      ensures |Wire(packets)[k]| <= PacketMtu(s)
    {
      D.EncodedLen(packets[k]);
    }
  }

  /**
   * From frames to frames, with the sizes the client uses: whatever passwords and initialization
   * vectors are taken, each datagram fits the socket, and delivered in order the datagrams give the
   * frames that were finished, byte for byte.
   */
  lemma EndToEnd(s: Setup, frameMtu: nat, events: seq<D.Event>, x: Secrets, accepted: multiset<seq<Byte>>, purge: nat -> bool)
    requires SetupOk(s) && RunOk(s, frameMtu, events, x, accepted)
    requires Unsent(SendAll(Sending(s), events).st) == []
    ensures var datagrams := Datagrams(s, Packets(s, events), x);
      && (forall k | 0 <= k < |datagrams| :: |datagrams[k]| <= s.socketMtu)
      && DeliverBytes(Receiving(s, frameMtu), Decoded(s, datagrams, accepted).packets, purge).frames == SendAll(Sending(s), events).finished
  {
    hide SetupOk, Datagrams, Decoded, DeliverBytes;
    PacketSizes(s, events);
    PacketsDecoded(s, Packets(s, events), x, k => true, accepted);
    KeptAll(Datagrams(s, Packets(s, events), x));
    KeptAll(Packets(s, events));
    RoundTripAsConfigured(Receiving(s, frameMtu), Sending(s), s.payloadMtu, events, purge);
  }

  lemma {:induction false} KeptAll<T>(list: seq<T>)
    ensures Kept(list, k => true) == list
  {
    var n := |list| - 1;
    if n >= 0 {
      KeptAll(list[..n]);
      assert list == list[..n] + [list[n]];
    }
  }

  lemma {:induction false} KeptWire(packets: seq<seq<Chunk>>, keep: nat -> bool)
    requires forall k | 0 <= k < |packets| :: AllEncodable(packets[k])
    ensures forall k | 0 <= k < |Kept(packets, keep)| :: AllEncodable(Kept(packets, keep)[k])
    ensures Kept(Wire(packets), keep) == Wire(Kept(packets, keep))
  {
    hide AllEncodable, EncodePacket;
    if packets != [] {
      var n := |packets| - 1;
      KeptWire(packets[..n], keep);
      assert Wire(packets)[..n] == Wire(packets[..n]);
    }
  }

  /** If datagrams are lost, of fewer than 2^16 frames exactly those arrive of which no datagram is, in order. */
  lemma EndToEndWithLosses(s: Setup, frameMtu: nat, events: seq<D.Event>, x: Secrets, accepted: multiset<seq<Byte>>, keep: nat -> bool, purge: nat -> bool)
    requires SetupOk(s) && RunOk(s, frameMtu, events, x, accepted)
    requires |SendAll(Sending(s), events).finished| < FRAME_ID_LIMIT && Unsent(SendAll(Sending(s), events).st) == []
    ensures var sent, datagrams := SendAll(Sending(s), events), Datagrams(s, Packets(s, events), x);
      DeliverBytes(Receiving(s, frameMtu), Decoded(s, Kept(datagrams, keep), accepted).packets, purge).frames ==
        Intact(sent.finished, sent.packets, keep)
  {
    hide SetupOk, Datagrams, Decoded, DeliverBytes, Kept, Intact, DeliverAll;
    var acfg, dcfg, packets := Receiving(s, frameMtu), Sending(s), SendAll(Sending(s), events).packets;
    PacketSizes(s, events);
    PacketsDecoded(s, Packets(s, events), x, keep, accepted);
    KeptWire(packets, keep);
    forall frame: seq<Byte> | D.Send(frame) in events
      ensures ChunksSuffice(dcfg, acfg, |frame|)
    {
      ConfiguredChunksSuffice(acfg, dcfg, s.payloadMtu, |frame|);
    }
    IntactFramesArrive(acfg, dcfg, events, keep, purge);
    BytesDeliverChunks(acfg, Kept(packets, keep), purge);
  }

  lemma {:induction false} DecodedAmong(s: Setup, datagrams: seq<seq<Byte>>, packets: seq<seq<Byte>>, x: Secrets, accepted: multiset<seq<Byte>>)
    requires SetupOk(s) && SecretsOk(s, x) && forall k | 0 <= k < |packets| :: |packets[k]| <= PacketMtu(s)
    requires forall k | 0 <= k < |datagrams| :: datagrams[k] in Datagrams(s, packets, x)
    ensures forall k | 0 <= k < |Decoded(s, datagrams, accepted).packets| :: Decoded(s, datagrams, accepted).packets[k] in packets
  {
    hide S.Encode, S.Decode, SetupOk;
    if datagrams != [] {
      var n := |datagrams| - 1;
      DecodedAmong(s, datagrams[..n], packets, x, accepted);
      var k :| 0 <= k < |packets| && datagrams[n] == Datagrams(s, packets, x)[k];
      OneDecoded(s, x.iv(k), S.Content(x.otp(k), packets[k]));
    }
  }

  /** Whatever datagrams of a run arrive, in whatever order and however often, of fewer than 2^16 frames: only frames that were sent come out. */
  lemma OnlySentComeOut(s: Setup, frameMtu: nat, events: seq<D.Event>, x: Secrets, accepted: multiset<seq<Byte>>, datagrams: seq<seq<Byte>>, purge: nat -> bool)
    requires SetupOk(s) && SecretsOk(s, x) && LegalRun(Sending(s), events) && |SendAll(Sending(s), events).finished| < FRAME_ID_LIMIT
    requires forall k | 0 <= k < |datagrams| :: datagrams[k] in Datagrams(s, Packets(s, events), x)
    ensures forall frame | frame in DeliverBytes(Receiving(s, frameMtu), Decoded(s, datagrams, accepted).packets, purge).frames ::
        frame in SendAll(Sending(s), events).finished
  {
    hide SetupOk, Datagrams, Decoded, DeliverBytes, SendAll;
    PacketSizes(s, events);
    DecodedAmong(s, datagrams, Packets(s, events), x, accepted);
    OnlySentArrive(Receiving(s, frameMtu), Sending(s), events, Decoded(s, datagrams, accepted).packets, purge);
  }
}
