/**
 * Packets that are secured with any of one-time passwords, a hash and encryption. A
 * packet is the password, the hash over all of it and the payload; if it is encrypted,
 * it is padded to blocks first, and an initialization vector goes before it.
 */
module SPProto {
  import opened Bytes

  const OTP_LEN: nat := 6

  /** A hash: bytes of a fixed number for every packet. */
  datatype Hash = Hash(size: nat, digest: seq<Byte> -> seq<Byte>)

  /** A block cipher with a key, as it treats whole packets. */
  datatype Cipher = Cipher(block: nat, encrypt: (seq<Byte>, seq<Byte>) -> seq<Byte>, decrypt: (seq<Byte>, seq<Byte>) -> seq<Byte>)

  datatype Params = Params(otp: bool, hash: Option<Hash>, cipher: Option<Cipher>)

  /** What a packet is made of; the password is as it is sent, a seed's identifier and four bytes. */
  datatype Content = Content(otp: seq<Byte>, payload: seq<Byte>)

  ghost predicate HashOk(h: Hash) {
    forall s :: |h.digest(s)| == h.size
  }

  /** Under each initialization vector, encryption maps blocks to as many blocks and decryption is its inverse. */
  ghost predicate CipherOk(c: Cipher) {
    && c.block > 0
    && forall iv, s :: |iv| == c.block && |s| % c.block == 0 ==>
         && |c.encrypt(iv, s)| == |s| && |c.decrypt(iv, s)| == |s|
         && c.decrypt(iv, c.encrypt(iv, s)) == s && c.encrypt(iv, c.decrypt(iv, s)) == s
  }

  ghost predicate ParamsOk(p: Params) {
    (p.hash.Some? ==> HashOk(p.hash.value)) && (p.cipher.Some? ==> CipherOk(p.cipher.value))
  }

  function OtpLen(p: Params): nat {
    if p.otp then OTP_LEN else 0
  }

  function HashLen(p: Params): nat {
    if p.hash.Some? then p.hash.value.size else 0
  }

  function HeaderLen(p: Params): nat {
    OtpLen(p) + HashLen(p)
  }

  function Zeros(n: nat): (r: seq<Byte>)
    ensures |r| == n && forall i | 0 <= i < n :: r[i] == 0
  {
    if n == 0 then [] else [0] + Zeros(n - 1)
  }

  lemma AllZeros(s: seq<Byte>)
    requires forall i | 0 <= i < |s| :: s[i] == 0
    ensures s == Zeros(|s|)
  {
  }

  /** The hash field of a packet: what the hash is with the field zeroed. */
  function HashField(p: Params, otp: seq<Byte>, payload: seq<Byte>): seq<Byte> {
    if p.hash.Some? then p.hash.value.digest(otp + Zeros(HashLen(p)) + payload) else []
  }

  function Plain(p: Params, c: Content): seq<Byte> {
    c.otp + HashField(p, c.otp, c.payload) + c.payload
  }

  /** balign_up */
  function AlignUp(n: nat, block: nat): (r: nat)
    requires block > 0
    ensures r % block == 0 && n <= r < n + block
  {
    AlignedUp(n, block);
    if n % block == 0 then n else n + (block - n % block)
  }

  lemma AlignedUp(n: nat, block: nat)
    requires block > 0
    ensures n % block != 0 ==> (n + (block - n % block)) % block == 0
  {
    if n % block != 0 {
      assert n + (block - n % block) == block * (n / block + 1);
      Multiple(n / block + 1, block);
    }
  }

  lemma Multiple(k: nat, block: nat)
    requires block > 0
    ensures (block * k) % block == 0
  {
    var n := block * k;
    var q, r := n / block, n % block;
    assert (k - q) * block == r;
    if k > q {
      Less(0, k - q, block);
    } else if k < q {
      Less(0, q - k, block);
    }
  }

  lemma Product(a: nat, b: nat)
    ensures a * b >= 0
  {
  }

  lemma Less(a: nat, b: nat, block: nat)
    requires a < b
    ensures a * block + block <= b * block
  {
    Product(b - a - 1, block);
    assert (b - a - 1) * block == b * block - a * block - block;
  }

  /** There is one multiple in a range as long as a block. */
  lemma AlignedOnce(n: nat, m: nat, block: nat)
    requires block > 0 && m % block == 0 && n <= m < n + block
    ensures AlignUp(n, block) == m
  {
    var r := AlignUp(n, block);
    var a, b := r / block, m / block;
    assert r == a * block && m == b * block;
    if a < b {
      Less(a, b, block);
    } else if b < a {
      Less(b, a, block);
    }
  }

  /** Padding: a one, and zeros up to a whole block. */
  function Pad(s: seq<Byte>, block: nat): (r: seq<Byte>)
    requires block > 0
    ensures |r| == AlignUp(|s| + 1, block)
  {
    s + [1] + Zeros(AlignUp(|s| + 1, block) - |s| - 1)
  }

  /** Where the padding starts: at the last one, if that is in the last block and only zeros follow. */
  ghost predicate IsPadding(s: seq<Byte>, block: nat, n: nat) {
    |s| - block <= n < |s| && s[n] == 1 && forall i | n < i < |s| :: s[i] == 0
  }

  lemma PaddingIsUnique(s: seq<Byte>, block: nat, n: nat, m: nat)
    requires IsPadding(s, block, n) && IsPadding(s, block, m)
    ensures n == m
  {
  }

  /** A padded packet is one that the padding can be found of. */
  lemma PaddingDecides(s: seq<Byte>, block: nat, n: nat)
    requires block > 0 && n <= |s|
    ensures |s| % block == 0 && IsPadding(s, block, n) <==> s == Pad(s[..n], block)
  {
    var p := Pad(s[..n], block);
    if |s| % block == 0 && IsPadding(s, block, n) {
      AlignedOnce(n + 1, |s|, block);
      assert s == s[..n] + [s[n]] + s[n + 1..];
      AllZeros(s[n + 1..]);
    }
    if s == p {
      assert p[n] == 1;
    }
  }

  function IvLen(p: Params): nat {
    if p.cipher.Some? then p.cipher.value.block else 0
  }

  function Encode(p: Params, iv: seq<Byte>, c: Content): seq<Byte>
    requires p.cipher.Some? ==> p.cipher.value.block > 0
  {
    match p.cipher
    case None => Plain(p, c)
    case Some(cipher) => iv + cipher.encrypt(iv, Pad(Plain(p, c), cipher.block))
  }

  /** The search for the padding, from a position back to another. */
  function ScanBack(s: seq<Byte>, low: nat, i: int): (r: Option<nat>)
    requires low - 1 <= i < |s|
    ensures r.Some? ==> low <= r.value <= i
    decreases i
  {
    if i < low then None else if s[i] == 1 then Some(i) else if s[i] != 0 then None else ScanBack(s, low, i - 1)
  }

  lemma {:induction false} ScanFinds(s: seq<Byte>, low: nat, i: int, n: nat)
    requires low - 1 <= i < |s| && forall j | i < j < |s| :: s[j] == 0
    ensures ScanBack(s, low, i) == Some(n) <==> low <= n < |s| && s[n] == 1 && forall j | n < j < |s| :: s[j] == 0
    decreases i
  {
    if i >= low && s[i] == 0 {
      ScanFinds(s, low, i - 1, n);
    }
  }

  /** The plaintext of a packet without its padding, if it can be had. */
  function Unwrap(p: Params, packet: seq<Byte>): Option<seq<Byte>>
    requires p.cipher.Some? ==> p.cipher.value.block > 0
  {
    match p.cipher
    case None => Some(packet)
    case Some(c) =>
      if |packet| % c.block != 0 || |packet| < c.block then None else
        Unpad(c.decrypt(packet[..c.block], packet[c.block..]), c.block)
  }

  /** What is in a plaintext, if it is not too long and the hash is right. */
  function Open(p: Params, mtu: nat, plain: seq<Byte>): Option<Content> {
    if |plain| < HeaderLen(p) || |plain| - HeaderLen(p) > mtu then None else
      var otp, payload := plain[..OtpLen(p)], plain[HeaderLen(p)..];
      if plain[OtpLen(p)..HeaderLen(p)] != HashField(p, otp, payload) then None else Some(Content(otp, payload))
  }

  function Decode(p: Params, mtu: nat, packet: seq<Byte>): Option<Content>
    requires p.cipher.Some? ==> p.cipher.value.block > 0
  {
    match Unwrap(p, packet)
    case None => None
    case Some(plain) => Open(p, mtu, plain)
  }

  ghost predicate ContentOk(p: Params, mtu: nat, c: Content) {
    |c.otp| == OtpLen(p) && |c.payload| <= mtu
  }

  /** Taking off the padding, if it is there. */
  function Unpad(s: seq<Byte>, block: nat): Option<seq<Byte>> {
    if |s| < block then None else
      match ScanBack(s, |s| - block, |s| - 1)
      case None => None
      case Some(n) => Some(s[..n])
  }

  lemma UnpadInvertsPad(s: seq<Byte>, block: nat, plain: seq<Byte>)
    requires block > 0 && |s| % block == 0
    ensures Unpad(s, block) == Some(plain) <==> s == Pad(plain, block)
  {
    var pad := Pad(plain, block);
    PaddingDecides(pad, block, |plain|);
    assert pad[..|plain|] == plain;
    if |s| >= block {
      ScanFinds(s, |s| - block, |s| - 1, |plain|);
      if |plain| <= |s| {
        PaddingDecides(s, block, |plain|);
      }
    } else {
      Shortest(|plain| + 1, block);
    }
  }

  lemma Shortest(n: nat, block: nat)
    requires block > 0 && n > 0
    ensures AlignUp(n, block) >= block
  {
    var k := AlignUp(n, block) / block;
    assert AlignUp(n, block) == k * block;
    if k > 0 {
      Less(0, k, block);
    }
  }

  lemma UnwrapDecides(p: Params, packet: seq<Byte>, plain: seq<Byte>)
    requires ParamsOk(p)
    ensures Unwrap(p, packet) == Some(plain) <==>
      match p.cipher
      case None => packet == plain
      case Some(c) => |packet| >= c.block && packet == packet[..c.block] + c.encrypt(packet[..c.block], Pad(plain, c.block))
  {
    if p.cipher.Some? && |packet| >= p.cipher.value.block {
      var c := p.cipher.value;
      var iv, rest := packet[..c.block], packet[c.block..];
      assert packet == iv + rest;
      Shorter(|packet|, c.block);
      var pad := Pad(plain, c.block);
      if |packet| % c.block == 0 {
        UnpadInvertsPad(c.decrypt(iv, rest), c.block, plain);
        assert rest == c.encrypt(iv, pad) <==> c.decrypt(iv, rest) == pad;
      } else {
        assert rest != c.encrypt(iv, pad);
      }
      assert packet == iv + c.encrypt(iv, pad) <==> rest == c.encrypt(iv, pad) by {
        assert (iv + c.encrypt(iv, pad))[c.block..] == c.encrypt(iv, pad);
      }
    }
  }

  lemma Shorter(n: nat, block: nat)
    requires block > 0 && n >= block
    ensures n % block == (n - block) % block
  {
    var q, r := n / block, n % block;
    var q', r' := (n - block) / block, (n - block) % block;
    assert (q - q' - 1) * block == r' - r;
    if q > q' + 1 {
      Less(0, q - q' - 1, block);
    } else if q < q' + 1 {
      Less(0, q' + 1 - q, block);
    }
  }

  /** A plaintext is taken apart exactly if it is what its content makes. */
  lemma OpenInvertsPlain(p: Params, mtu: nat, plain: seq<Byte>, c: Content)
    requires ParamsOk(p)
    ensures Open(p, mtu, plain) == Some(c) <==> ContentOk(p, mtu, c) && plain == Plain(p, c)
  {
    if |plain| >= HeaderLen(p) {
      assert plain == plain[..OtpLen(p)] + plain[OtpLen(p)..HeaderLen(p)] + plain[HeaderLen(p)..];
    }
    if ContentOk(p, mtu, c) {
      var q := Plain(p, c);
      assert q[..OtpLen(p)] == c.otp && q[HeaderLen(p)..] == c.payload;
      assert q[OtpLen(p)..HeaderLen(p)] == HashField(p, c.otp, c.payload);
    }
  }

  /** A packet is taken apart exactly if it is what its content makes, with the packet's own initialization vector. */
  lemma DecodeInvertsEncode(p: Params, mtu: nat, packet: seq<Byte>, c: Content)
    requires ParamsOk(p)
    ensures Decode(p, mtu, packet) == Some(c) <==>
      ContentOk(p, mtu, c) && |packet| >= IvLen(p) && packet == Encode(p, packet[..IvLen(p)], c)
  {
    hide Open, Plain, Unwrap, Pad, ContentOk;
    UnwrapDecides(p, packet, Plain(p, c));
    match Unwrap(p, packet)
    case None =>
    case Some(q) =>
      UnwrapDecides(p, packet, q);
      OpenInvertsPlain(p, mtu, q, c);
  }

  // ----- the same, byte by byte

  /** Bytes that are those of a packet, but zero in a range. */
  ghost predicate Zeroed(z: seq<Byte>, s: seq<Byte>, from: nat, to: nat) {
    |z| == |s| && forall i | 0 <= i < |s| :: z[i] == if from <= i < to then 0 else s[i]
  }

  /** A plaintext: first the password, then the hash over all of it with that field zeroed, then the payload. */
  ghost predicate Holds(p: Params, plain: seq<Byte>, c: Content) {
    var at := if p.otp then 6 else 0;
    var from := at + if p.hash.Some? then p.hash.value.size else 0;
    && from <= |plain| && plain[..at] == c.otp && plain[from..] == c.payload
    && (p.hash.Some? ==> forall z | Zeroed(z, plain, at, from) :: plain[at..from] == p.hash.value.digest(z))
  }

  /** A packet that a plaintext is sent in: as it is, or encrypted behind the initialization vector, with a one and zeros behind it up to a whole block. */
  ghost predicate Wraps(p: Params, packet: seq<Byte>, plain: seq<Byte>) {
    match p.cipher
    case None => packet == plain
    case Some(c) =>
      && |packet| >= c.block > 0 && |packet| % c.block == 0
      && var s := c.decrypt(packet[..c.block], packet[c.block..]);
      && |plain| < |s| <= |plain| + c.block && s[..|plain|] == plain && s[|plain|] == 1
      && forall i | |plain| < i < |s| :: s[i] == 0
  }

  /** A packet is taken apart exactly if it is laid out like that. */
  lemma LayoutDecides(p: Params, mtu: nat, packet: seq<Byte>, c: Content)
    requires ParamsOk(p)
    ensures Decode(p, mtu, packet) == Some(c) <==>
      |c.payload| <= mtu && exists plain :: Wraps(p, packet, plain) && Holds(p, plain, c)
  {
    hide Open, Unwrap, Wraps, Holds, ParamsOk;
    CipherHasBlocks(p);
    forall plain
      ensures Unwrap(p, packet) == Some(plain) <==> Wraps(p, packet, plain)
    {
      WrapsDecides(p, packet, plain);
    }
    if Unwrap(p, packet).Some? {
      var plain := Unwrap(p, packet).value;
      HoldsDecides(p, mtu, plain, c);
    }
  }

  lemma CipherHasBlocks(p: Params)
    requires ParamsOk(p)
    ensures p.cipher.Some? ==> p.cipher.value.block > 0
  {
  }

  lemma WrapsDecides(p: Params, packet: seq<Byte>, plain: seq<Byte>)
    requires ParamsOk(p)
    ensures Unwrap(p, packet) == Some(plain) <==> Wraps(p, packet, plain)
  {
    if p.cipher.Some? && |packet| >= p.cipher.value.block && |packet| % p.cipher.value.block == 0 {
      var c := p.cipher.value;
      Shorter(|packet|, c.block);
      var s := c.decrypt(packet[..c.block], packet[c.block..]);
      UnpadInvertsPad(s, c.block, plain);
      if |plain| <= |s| {
        PaddingDecides(s, c.block, |plain|);
      }
    }
  }

  lemma HoldsDecides(p: Params, mtu: nat, plain: seq<Byte>, c: Content)
    requires ParamsOk(p)
    ensures Open(p, mtu, plain) == Some(c) <==> |c.payload| <= mtu && Holds(p, plain, c)
  {
    if |plain| >= HeaderLen(p) {
      var otp, payload := plain[..OtpLen(p)], plain[HeaderLen(p)..];
      var zeroed := otp + Zeros(HashLen(p)) + payload;
      assert Zeroed(zeroed, plain, OtpLen(p), HeaderLen(p));
      forall z | Zeroed(z, plain, OtpLen(p), HeaderLen(p))
        ensures z == zeroed
      {
      }
      if p.hash.None? {
        assert plain[OtpLen(p)..HeaderLen(p)] == [];
      }
    }
  }

  lemma RoundTrip(p: Params, mtu: nat, iv: seq<Byte>, c: Content)
    requires ParamsOk(p) && |iv| == IvLen(p) && ContentOk(p, mtu, c)
    ensures Decode(p, mtu, Encode(p, iv, c)) == Some(c)
  {
    var packet := Encode(p, iv, c);
    assert packet[..IvLen(p)] == iv;
    DecodeInvertsEncode(p, mtu, packet, c);
  }

  /** spproto_carrier_mtu_for_payload_mtu, where nothing overflows. */
  function CarrierMtu(p: Params, mtu: nat): nat
    requires p.cipher.Some? ==> p.cipher.value.block > 0
  {
    match p.cipher
    case None => HeaderLen(p) + mtu
    case Some(c) => c.block + AlignUp(HeaderLen(p) + mtu + 1, c.block)
  }

  /** spproto_payload_mtu_for_carrier_mtu; negative if nothing can be sent. */
  function PayloadMtu(p: Params, carrier: nat): int
    requires p.cipher.Some? ==> p.cipher.value.block > 0
  {
    match p.cipher
    case None => carrier - HeaderLen(p)
    case Some(c) => AlignDown(carrier, c.block) - c.block - HeaderLen(p) - 1
  }

  /** balign_down */
  function AlignDown(n: nat, block: nat): (r: nat)
    requires block > 0
    ensures r % block == 0 && r <= n < r + block
  {
    Multiple(n / block, block);
    assert n - n % block == block * (n / block);
    n - n % block
  }

  /** Aligned up, a number is within another exactly if it is within that one aligned down. */
  lemma AlignAdjoint(n: nat, m: nat, block: nat)
    requires block > 0
    ensures AlignUp(n, block) <= m <==> n <= AlignDown(m, block)
  {
    var up, down := AlignUp(n, block), AlignDown(m, block);
    var a, b := up / block, down / block;
    assert up == a * block && down == b * block;
    if a < b {
      Less(a, b, block);
    } else if b < a {
      Less(b, a, block);
    }
  }

  /** It is the largest payload that a carrier has room for, if there is one at all. */
  lemma PayloadMtuIsLargest(p: Params, carrier: nat, mtu: nat)
    requires p.cipher.Some? ==> p.cipher.value.block > 0
    ensures mtu <= PayloadMtu(p, carrier) <==> CarrierMtu(p, mtu) <= carrier
  {
    if p.cipher.Some? {
      var block, n := p.cipher.value.block, HeaderLen(p) + mtu + 1;
      Shortest(n, block);
      if carrier >= block {
        AlignAdjoint(n, carrier - block, block);
        AlignDownLess(carrier, block);
      } else {
        assert AlignDown(carrier, block) <= carrier;
      }
    }
  }

  lemma AlignDownLess(n: nat, block: nat)
    requires block > 0 && n >= block
    ensures AlignDown(n - block, block) == AlignDown(n, block) - block
  {
    Shorter(n, block);
  }

  /** What is encoded fits the buffers it is made in. */
  lemma EncodedFits(p: Params, mtu: nat, iv: seq<Byte>, c: Content)
    requires ParamsOk(p) && |iv| == IvLen(p) && ContentOk(p, mtu, c)
    ensures |Encode(p, iv, c)| <= CarrierMtu(p, mtu)
    ensures p.cipher.Some? ==>
      |Pad(Plain(p, c), p.cipher.value.block)| <= AlignUp(HeaderLen(p) + mtu + 1, p.cipher.value.block)
  {
    hide AlignUp, Pad, Plain;
    PlainLen(p, c);
    if p.cipher.Some? {
      AlignUpGrows(|Plain(p, c)| + 1, HeaderLen(p) + mtu + 1, p.cipher.value.block);
    }
  }

  lemma PlainLen(p: Params, c: Content)
    requires ParamsOk(p) && |c.otp| == OtpLen(p)
    ensures |Plain(p, c)| == HeaderLen(p) + |c.payload|
  {
  }

  lemma AlignUpGrows(n: nat, m: nat, block: nat)
    requires block > 0 && n <= m
    ensures AlignUp(n, block) <= AlignUp(m, block)
  {
    var r, s := AlignUp(n, block), AlignUp(m, block);
    if r > s {
      AlignedOnce(n, s, block);
    }
  }

  /** Bytes with some of them replaced. */
  ghost function Patch(s: seq<Byte>, at: nat, src: seq<Byte>): (r: seq<Byte>)
    requires at + |src| <= |s|
    ensures |r| == |s|
  {
    s[..at] + src + s[at + |src|..]
  }

  method Overwrite(dst: array<Byte>, at: nat, src: seq<Byte>)
    requires at + |src| <= dst.Length
    modifies dst
    ensures dst[..] == Patch(old(dst[..]), at, src)
  {
    CopyTo(dst, at, src);
    assert dst[..] == dst[..at] + dst[at..at + |src|] + dst[at + |src|..];
  }

  /** Replacing bytes in the middle leaves those before and behind. */
  lemma PatchMiddle(s: seq<Byte>, at: nat, src: seq<Byte>, len: nat)
    requires at + |src| <= len <= |s|
    ensures Patch(s, at, src)[..len] == s[..at] + src + s[at + |src|..len]
    ensures Patch(s, at, src)[..at] == s[..at]
    ensures Patch(s, at, src)[at + |src|..len] == s[at + |src|..len]
  {
  }

  lemma PatchTwice(s: seq<Byte>, at: nat, one: seq<Byte>, two: seq<Byte>)
    requires at + |one| <= |s| && |one| == |two|
    ensures Patch(Patch(s, at, one), at, two) == Patch(s, at, two)
    ensures Patch(s, at, s[at..at + |one|]) == s
  {
  }

  /** Where a packet is made or taken apart: in a buffer of its own if it is encrypted. */
  function Workplace(p: Params, buf: array<Byte>, packet: array<Byte>): array<Byte> {
    if p.cipher.Some? then buf else packet
  }

  /** Writes the header of a packet whose payload is in place. */
  method WriteHeader(p: Params, plain: array<Byte>, len: nat, otp: seq<Byte>)
    requires ParamsOk(p) && |otp| == OtpLen(p) && HeaderLen(p) <= len <= plain.Length
    modifies plain
    ensures plain[..len] == Plain(p, Content(otp, old(plain[HeaderLen(p)..len])))
  {
    hide Patch;
    ghost var payload := plain[HeaderLen(p)..len];
    PatchMiddle(plain[..], 0, otp, len);
    Overwrite(plain, 0, otp);
    ghost var s := plain[..];
    assert plain[..len] == s[..len];
    assert s[..|otp|] == otp && s[HeaderLen(p)..len] == payload by {
      PatchedHeader(old(plain[..]), otp, HeaderLen(p), len);
    }
    if p.hash.Some? {
      var zeros := Zeros(HashLen(p));
      PatchMiddle(s, OtpLen(p), zeros, len);
      Overwrite(plain, OtpLen(p), zeros);
      assert plain[..len] == plain[..][..len];
      var digest := p.hash.value.digest(plain[..len]);
      PatchTwice(s, OtpLen(p), zeros, digest);
      PatchMiddle(s, OtpLen(p), digest, len);
      Overwrite(plain, OtpLen(p), digest);
      assert plain[..len] == plain[..][..len];
    } else {
      assert s[..len] == otp + payload;
    }
  }

  lemma PatchedHeader(s: seq<Byte>, otp: seq<Byte>, at: nat, len: nat)
    requires |otp| <= at <= len <= |s|
    ensures Patch(s, 0, otp)[..|otp|] == otp && Patch(s, 0, otp)[at..len] == s[at..len]
  {
  }

  lemma PaddedIs(s: seq<Byte>, plain: seq<Byte>, block: nat)
    requires block > 0 && |plain| < |s| == AlignUp(|plain| + 1, block)
    requires s[..|plain|] == plain && s[|plain|] == 1 && forall i | |plain| < i < |s| :: s[i] == 0
    ensures s == Pad(plain, block)
  {
    hide AlignUp;
    assert s == s[..|plain|] + [s[|plain|]] + s[|plain| + 1..];
    AllZeros(s[|plain| + 1..]);
  }

  /** Writes the padding behind a packet. */
  method WritePadding(plain: array<Byte>, len: nat, block: nat) returns (padded: nat)
    requires block > 0 && AlignUp(len + 1, block) <= plain.Length
    modifies plain
    ensures padded == AlignUp(len + 1, block) && plain[..padded] == Pad(old(plain[..len]), block)
  {
    hide AlignUp;
    padded := AlignUp(len + 1, block);
    plain[len] := 1;
    for i := len + 1 to padded
      invariant plain[..len] == old(plain[..len]) && plain[len] == 1
      invariant forall j | len < j < i :: plain[j] == 0
    {
      plain[i] := 0;
    }
    PaddedIs(plain[..padded], old(plain[..len]), block);
  }

  /** encode_work_func: makes a packet of a payload that is in place. */
  method EncodeWork(p: Params, buf: array<Byte>, packet: array<Byte>, inLen: nat, otp: seq<Byte>, iv: seq<Byte>) returns (outLen: nat)
    requires ParamsOk(p) && |otp| == OtpLen(p) && |iv| == IvLen(p) && buf != packet
    requires packet.Length >= CarrierMtu(p, inLen)
    requires p.cipher.Some? ==> buf.Length >= AlignUp(HeaderLen(p) + inLen + 1, p.cipher.value.block)
    modifies buf, packet
    ensures outLen <= packet.Length
    ensures packet[..outLen] == Encode(p, iv, Content(otp, old(Workplace(p, buf, packet)[HeaderLen(p)..HeaderLen(p) + inLen])))
  {
    hide Plain, AlignUp, Pad, HashOk, CipherOk;
    var plain := Workplace(p, buf, packet);
    var len := HeaderLen(p) + inLen;
    WriteHeader(p, plain, len, otp);
    match p.cipher
    case None =>
      outLen := len;
    case Some(c) =>
      outLen := Encrypt(c, plain, len, packet, iv);
  }

  /** Pads a plaintext and encrypts it, behind the initialization vector. */
  method Encrypt(c: Cipher, plain: array<Byte>, len: nat, packet: array<Byte>, iv: seq<Byte>) returns (outLen: nat)
    requires CipherOk(c) && |iv| == c.block && plain != packet
    requires AlignUp(len + 1, c.block) <= plain.Length && c.block + AlignUp(len + 1, c.block) <= packet.Length
    modifies plain, packet
    ensures outLen == c.block + AlignUp(len + 1, c.block)
    ensures packet[..outLen] == iv + c.encrypt(iv, Pad(old(plain[..len]), c.block))
  {
    hide Pad, AlignUp, Patch;
    var padded := WritePadding(plain, len, c.block);
    var encrypted := c.encrypt(iv, plain[..padded]);
    Overwrite(packet, 0, iv);
    PatchedHeader(old(packet[..]), iv, c.block, packet.Length);
    ghost var s := packet[..];
    Overwrite(packet, c.block, encrypted);
    outLen := c.block + padded;
    PatchMiddle(s, c.block, encrypted, outLen);
    assert packet[..outLen] == packet[..][..outLen];
  }

  /** The padding scan: goes back from the end over zeros, through the last block at most. */
  method FindPadding(plain: array<Byte>, len: nat, block: nat) returns (n: Option<nat>)
    requires len <= plain.Length
    ensures match n
      case None => Unpad(plain[..len], block) == None
      case Some(k) => k < len && Unpad(plain[..len], block) == Some(plain[..k])
  {
    if len < block {
      return None;
    }
    var i := len - 1;
    while i >= len - block
      invariant len - block - 1 <= i < len
      invariant ScanBack(plain[..len], len - block, len - 1) == ScanBack(plain[..len], len - block, i)
      decreases i - (len - block) + 1
    {
      if plain[i] == 1 {
        break;
      }
      if plain[i] != 0 {
        return None;
      }
      i := i - 1;
    }
    if i < len - block {
      return None;
    }
    assert plain[..len][..i] == plain[..i];
    return Some(i);
  }

  /** Whether the hash of a packet is right; the hash field is zeroed for a while. */
  method CheckHash(p: Params, plain: array<Byte>, len: nat) returns (ok: bool)
    requires ParamsOk(p) && HeaderLen(p) <= len <= plain.Length
    modifies plain
    ensures plain[..] == old(plain[..])
    ensures ok == (plain[OtpLen(p)..HeaderLen(p)] == HashField(p, plain[..OtpLen(p)], plain[HeaderLen(p)..len]))
  {
    hide Patch;
    if p.hash == None {
      return true;
    }
    ghost var s := plain[..];
    var field, zeros := plain[OtpLen(p)..HeaderLen(p)], Zeros(HashLen(p));
    assert s[..OtpLen(p)] == plain[..OtpLen(p)] && s[HeaderLen(p)..len] == plain[HeaderLen(p)..len];
    assert s[OtpLen(p)..OtpLen(p) + |zeros|] == field;
    PatchMiddle(s, OtpLen(p), zeros, len);
    PatchTwice(s, OtpLen(p), zeros, field);
    Overwrite(plain, OtpLen(p), zeros);
    assert plain[..len] == plain[..][..len];
    var expected := p.hash.value.digest(plain[..len]);
    Overwrite(plain, OtpLen(p), field);
    assert plain[..] == s;
    return field == expected;
  }

  /** Checks the header of a packet, and that it is not too long. */
  method ReadHeader(p: Params, mtu: nat, plain: array<Byte>, len: nat) returns (r: Option<Content>)
    requires ParamsOk(p) && len <= plain.Length
    modifies plain
    ensures plain[..] == old(plain[..])
    ensures r == Open(p, mtu, plain[..len])
  {
    if len < HeaderLen(p) || len - HeaderLen(p) > mtu {
      return None;
    }
    ghost var whole := plain[..len];
    assert whole[..OtpLen(p)] == plain[..OtpLen(p)] && whole[HeaderLen(p)..] == plain[HeaderLen(p)..len];
    assert whole[OtpLen(p)..HeaderLen(p)] == plain[OtpLen(p)..HeaderLen(p)];
    var ok := CheckHash(p, plain, len);
    assert plain[..len] == plain[..][..len] == whole;
    return if ok then Some(Content(plain[..OtpLen(p)], plain[HeaderLen(p)..len])) else None;
  }

  lemma BlocksBehind(c: Cipher, iv: seq<Byte>, s: seq<Byte>)
    requires CipherOk(c) && |iv| == c.block && (|iv| + |s|) % c.block == 0
    ensures c.block > 0 && |c.decrypt(iv, s)| == |s|
  {
    Shorter(|iv| + |s|, c.block);
  }

  /** Decrypts a packet of whole blocks, and finds where the padding is. */
  method Decrypt(c: Cipher, packet: array<Byte>, len: nat, buf: array<Byte>) returns (n: Option<nat>)
    requires CipherOk(c) && c.block <= len <= packet.Length && len % c.block == 0 && buf != packet && buf.Length >= len - c.block
    modifies buf
    ensures var padded := c.decrypt(packet[..c.block], packet[c.block..len]);
      match n
      case None => Unpad(padded, c.block) == None
      case Some(k) => k <= buf.Length && Unpad(padded, c.block) == Some(buf[..k])
  {
    hide Patch, Unpad, CipherOk;
    BlocksBehind(c, packet[..c.block], packet[c.block..len]);
    var plain := c.decrypt(packet[..c.block], packet[c.block..len]);
    Overwrite(buf, 0, plain);
    PatchedHeader(old(buf[..]), plain, len - c.block, len - c.block);
    assert buf[..len - c.block] == buf[..][..len - c.block] == plain;
    n := FindPadding(buf, len - c.block, c.block);
  }

  /** decode_work_func; nothing encrypted can be decoded before there is a key. */
  method DecodeWork(p: Params, haveKey: bool, mtu: nat, packet: array<Byte>, len: nat, buf: array<Byte>) returns (r: Option<Content>)
    requires ParamsOk(p) && len <= packet.Length && buf != packet
    requires p.cipher.Some? ==> buf.Length >= len - p.cipher.value.block
    modifies packet, buf
    ensures packet[..] == old(packet[..])
    ensures r == if p.cipher.Some? && !haveKey then None else Decode(p, mtu, old(packet[..len]))
  {
    hide Open, Unpad;
    match p.cipher
    case None =>
      r := ReadHeader(p, mtu, packet, len);
    case Some(c) =>
      if len % c.block != 0 || len < c.block {
        return None;
      }
      if !haveKey {
        return None;
      }
      ghost var whole := packet[..len];
      assert whole[..c.block] == packet[..c.block] && whole[c.block..] == packet[c.block..len];
      var n := Decrypt(c, packet, len, buf);
      if n == None {
        return None;
      }
      r := ReadHeader(p, mtu, buf, n.value);
  }
}
