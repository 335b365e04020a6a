/** Gateway messages: the 14-byte header, padding, cipher block chaining, and the stream. */
module Gateway {
  import opened Options
  import opened Bits
  import opened Framing

  // ------------------------------------------------------------------------------------
  // Padding (section 6.3 of RFC 5652)
  // ------------------------------------------------------------------------------------

  function Repeat(x: byte, n: nat): Bytes {
    seq(n, _ => x)
  }

  function Padding(data: Bytes, size: nat): nat
    requires size > 0
  {
    size - |data| % size
  }

  /** pKCS5Padding. */
  function Pad(data: Bytes, size: nat): Bytes
    requires 0 < size < 256
  {
    data + Repeat(Padding(data, size), Padding(data, size))
  }

  /** pKCS5UnPadding; none where it would slice out of range. */
  function Unpad(data: Bytes): Option<Bytes> {
    if data == [] || data[|data| - 1] > |data| then None else Some(data[..|data| - data[|data| - 1]])
  }

  lemma PadLength(data: Bytes, size: nat)
    requires 0 < size < 256
    ensures |Pad(data, size)| % size == 0 && |data| < |Pad(data, size)| <= |data| + size
  {
    var q := |data| / size;
    assert |Pad(data, size)| == (q + 1) * size;
    DivUnique(|Pad(data, size)|, size, q + 1, 0);
  }

  /** Between one and `size` bytes are added, to a multiple of `size`, and each holds their number. */
  lemma PadContent(data: Bytes, size: nat, i: nat)
    requires 0 < size < 256 && |data| <= i < |Pad(data, size)|
    ensures Pad(data, size)[..|data|] == data && Pad(data, size)[i] as int == |Pad(data, size)| - |data|
  {
  }

  lemma UnpadInverts(data: Bytes, size: nat)
    requires 0 < size < 256
    ensures Unpad(Pad(data, size)) == Some(data)
  {
    PadLength(data, size);
    var p := Pad(data, size);
    assert p[|p| - 1] == Padding(data, size);
    assert p[..|data|] == data;
  }

  // ------------------------------------------------------------------------------------
  // Cipher block chaining (section 6.2 of NIST SP 800-38A)
  // ------------------------------------------------------------------------------------

  const BLOCK: nat := 16

  /** "0000000000000000", the characters. */
  const IV: Bytes := Repeat(48, BLOCK)

  /** A key's block cipher: on blocks, decryption undoes encryption. */
  datatype Cipher = Cipher(enc: Bytes -> Bytes, dec: Bytes -> Bytes)

  ghost predicate IsCipher(c: Cipher) {
    forall b :: |b| == BLOCK ==> |c.enc(b)| == BLOCK && |c.dec(b)| == BLOCK && c.dec(c.enc(b)) == b
  }

  function XorByte(x: byte, y: byte): byte {
    assert Pow2(8) == 256;
    XorBelow(x, y, 8);
    Xor(x, y)
  }

  function XorAll(x: Bytes, y: Bytes): (r: Bytes)
    requires |x| == |y|
    ensures |r| == |x|
  {
    seq(|x|, i requires 0 <= i < |x| => XorByte(x[i], y[i]))
  }

  lemma XorAllTwice(x: Bytes, y: Bytes)
    requires |x| == |y|
    ensures XorAll(XorAll(x, y), y) == x
  {
    forall i | 0 <= i < |x| ensures XorAll(XorAll(x, y), y)[i] == x[i] { XorTwice(x[i], y[i]); }
  }

  /** Encrypt whole blocks after the block `prev`. */
  function Chain(c: Cipher, prev: Bytes, data: Bytes): (r: Bytes)
    requires IsCipher(c) && |prev| == BLOCK && |data| % BLOCK == 0
    ensures |r| == |data|
    decreases |data|
  {
    if data == [] then [] else
      var x := c.enc(XorAll(data[..BLOCK], prev));
      x + Chain(c, x, data[BLOCK..])
  }

  function Unchain(c: Cipher, prev: Bytes, data: Bytes): (r: Bytes)
    requires IsCipher(c) && |prev| == BLOCK && |data| % BLOCK == 0
    ensures |r| == |data|
    decreases |data|
  {
    if data == [] then [] else
      var x := data[..BLOCK];
      XorAll(c.dec(x), prev) + Unchain(c, x, data[BLOCK..])
  }

  /** Block number n of the chain, counting the initial vector as the block before the first. */
  function Block(data: Bytes, n: nat): Bytes
    requires (n + 1) * BLOCK <= |data|
  {
    data[n * BLOCK..(n + 1) * BLOCK]
  }

  /** Each block is the encryption of the plain block xored with the encrypted block before it. */
  lemma {:induction false} ChainBlocks(c: Cipher, prev: Bytes, data: Bytes, n: nat)
    requires IsCipher(c) && |prev| == BLOCK && |data| % BLOCK == 0 && (n + 1) * BLOCK <= |data|
    ensures Block(Chain(c, prev, data), n)
      == c.enc(XorAll(Block(data, n), if n == 0 then prev else Block(Chain(c, prev, data), n - 1)))
    decreases n
  {
    var first, more := data[..BLOCK], data[BLOCK..];
    var x := c.enc(XorAll(first, prev));
    var rest := Chain(c, x, more);
    ChainFirst(c, prev, data);
    assert data == first + more;
    hide Chain;
    if n == 0 {
      FirstBlock(x, rest);
      FirstBlock(first, more);
    } else {
      ChainBlocks(c, x, more, n - 1);
      LaterBlock(x, rest, n);
      LaterBlock(first, more, n);
      if n > 1 { LaterBlock(x, rest, n - 1); } else { FirstBlock(x, rest); }
    }
  }

  lemma ChainFirst(c: Cipher, prev: Bytes, data: Bytes)
    requires IsCipher(c) && |prev| == BLOCK && |data| % BLOCK == 0 && |data| >= BLOCK
    ensures var x := c.enc(XorAll(data[..BLOCK], prev));
      |x| == BLOCK && Chain(c, prev, data) == x + Chain(c, x, data[BLOCK..])
  {
  }

  lemma FirstBlock(x: Bytes, rest: Bytes)
    requires |x| == BLOCK
    ensures Block(x + rest, 0) == x
  {
  }

  lemma LaterBlock(x: Bytes, rest: Bytes, n: nat)
    requires |x| == BLOCK && 0 < n && n * BLOCK <= |rest|
    ensures Block(x + rest, n) == Block(rest, n - 1)
  {
  }

  /** The initial vector is sixteen characters '0'. */
  lemma InitialVector(i: nat)
    requires i < 16
    ensures |IV| == 16 && IV[i] as int == '0' as int
  {
  }

  lemma {:induction false} UnchainInverts(c: Cipher, prev: Bytes, data: Bytes)
    requires IsCipher(c) && |prev| == BLOCK && |data| % BLOCK == 0
    ensures Unchain(c, prev, Chain(c, prev, data)) == data
    decreases |data|
  {
    if data != [] {
      var b := XorAll(data[..BLOCK], prev);
      var x := c.enc(b);
      var rest := Chain(c, x, data[BLOCK..]);
      var all := Chain(c, prev, data);
      assert all[..BLOCK] == x && all[BLOCK..] == rest;
      UnchainInverts(c, x, data[BLOCK..]);
      XorAllTwice(data[..BLOCK], prev);
    }
  }

  function Encrypt(c: Cipher, data: Bytes): (r: Bytes)
    requires IsCipher(c)
    ensures |r| % BLOCK == 0 && |data| < |r| <= |data| + BLOCK
  {
    PadLength(data, BLOCK);
    Chain(c, IV, Pad(data, BLOCK))
  }

  /** AesDecrypt; none where it would panic: not whole blocks, or a padding count out of range. */
  function Decrypt(c: Cipher, data: Bytes): (r: Option<Bytes>)
    requires IsCipher(c)
    ensures r.Some? ==> |r.value| <= |data|
  {
    if |data| % BLOCK != 0 then None else Unpad(Unchain(c, IV, data))
  }

  lemma DecryptInverts(c: Cipher, data: Bytes)
    requires IsCipher(c)
    ensures Decrypt(c, Encrypt(c, data)) == Some(data)
  {
    PadLength(data, BLOCK);
    UnchainInverts(c, IV, Pad(data, BLOCK));
    UnpadInverts(data, BLOCK);
  }

  // ------------------------------------------------------------------------------------
  // Messages
  // ------------------------------------------------------------------------------------

  type word = x: int | 0 <= x < 0x1_0000

  /** A `Request` of the gateway: what travels. */
  datatype Packet = Packet(app: Bytes, mask: byte, cmd: word, seqNo: word, ret: word, body: Bytes)

  const FLAG: byte := 71 // 'G'

  function Be16(n: word): Bytes {
    [n / 256, n % 256]
  }

  function Word(hi: byte, lo: byte): word {
    hi as int * 256 + lo as int
  }

  /** Bit 0 of the mask asks for encryption; without a key nothing is encrypted. */
  predicate Encrypted(mask: byte, key: Option<Cipher>) {
    key.Some? && mask % 2 == 1
  }

  ghost predicate KeyOk(key: Option<Cipher>) {
    key.Some? ==> IsCipher(key.value)
  }

  function Encoded(m: Packet, key: Option<Cipher>): Bytes
    requires KeyOk(key)
  {
    if Encrypted(m.mask, key) then Encrypt(key.value, m.body) else m.body
  }

  /** WriteMessageWithKey: the length field holds only the low 16 bits of the length. */
  function Written(m: Packet, key: Option<Cipher>): Bytes
    requires KeyOk(key)
  {
    var body := Encoded(m, key);
    [FLAG, m.mask] + m.app + Be16(|body| % 0x1_0000) + Be16(m.cmd) + Be16(m.seqNo) + Be16(m.ret) + body
  }

  datatype ReadPacket = Got(packet: Packet, rest: Bytes) | Short | BadFlag | Undecryptable

  function ReadMessage(s: Bytes, key: Option<Cipher>): ReadPacket
    requires KeyOk(key)
  {
    if |s| < 14 then Short
    else if s[0] != FLAG then BadFlag
    else
      var l := Word(s[6], s[7]);
      var head := Packet(s[2..6], s[1], Word(s[8], s[9]), Word(s[10], s[11]), Word(s[12], s[13]), []);
      ReadBody(s[14..], l, head, key)
  }

  function ReadBody(s: Bytes, l: nat, head: Packet, key: Option<Cipher>): ReadPacket
    requires KeyOk(key)
  {
    if l == 0 then Got(head, s)
    else if |s| < l then Short
    else if Encrypted(head.mask, key) then
      var body := Decrypt(key.value, s[..l]);
      if body.None? then Undecryptable else Got(head.(body := body.value), s[l..])
    else Got(head.(body := s[..l]), s[l..])
  }

  method WriteMessageWithKey(w: Buffer, m: Packet, key: Option<Cipher>)
    requires KeyOk(key)
    modifies w
    ensures w.data == old(w.data) + Written(m, key)
  {
    var body := m.body;
    if key.Some? && m.mask % 2 == 1 {
      body := Encrypt(key.value, m.body);
    }
    var b := [FLAG];
    b := b + [m.mask];
    b := b + m.app;
    b := b + Be16(|body| % 0x1_0000);
    b := b + Be16(m.cmd);
    b := b + Be16(m.seqNo);
    b := b + Be16(m.ret);
    b := b + body;
    w.data := w.data + b;
  }

  /** ReadMessageWithKey; the packet, or nothing after an error. */
  method ReadMessageWithKey(r: Buffer, key: Option<Cipher>) returns (m: Option<Packet>)
    requires KeyOk(key)
    modifies r
    ensures m.Some? <==> ReadMessage(old(r.data), key).Got?
    ensures m.Some? ==> ReadMessage(old(r.data), key) == Got(m.value, r.data)
  {
    if |r.data| < 14 {
      r.data := [];
      return None;
    }
    var h := r.data[..14];
    r.data := r.data[14..];
    if h[0] != FLAG {
      return None;
    }
    var packet := Packet(h[2..6], h[1], Word(h[8], h[9]), Word(h[10], h[11]), Word(h[12], h[13]), []);
    var l: nat := Word(h[6], h[7]);
    if l == 0 {
      return Some(packet);
    }
    if |r.data| < l {
      r.data := [];
      return None;
    }
    var buff := r.data[..l];
    r.data := r.data[l..];
    if key.Some? && packet.mask % 2 == 1 {
      var plain := Decrypt(key.value, buff);
      if plain.None? {
        return None;
      }
      buff := plain.value;
    }
    return Some(packet.(body := buff));
  }

  /** What the format can carry. */
  ghost predicate Carries(m: Packet, key: Option<Cipher>)
    requires KeyOk(key)
  {
    |m.app| == 4 && |Encoded(m, key)| <= 0xFFFF
  }

  /** The header comes back from what was written, whatever follows. */
  lemma HeaderReads(m: Packet, l: word, tail: Bytes)
    requires |m.app| == 4
    ensures var s := [FLAG, m.mask] + m.app + Be16(l) + Be16(m.cmd) + Be16(m.seqNo) + Be16(m.ret) + tail;
      && |s| == 14 + |tail| && s[0] == FLAG && s[1] == m.mask && s[2..6] == m.app && Word(s[6], s[7]) == l
      && Word(s[8], s[9]) == m.cmd && Word(s[10], s[11]) == m.seqNo && Word(s[12], s[13]) == m.ret && s[14..] == tail
  {
  }

  /** What is written, byte by byte: the flag 'G', the mask, the name, the length of the encoded body, the
      command, the sequence number and the return value, each of two bytes with the more significant
      first, and the body, which is encrypted exactly when there is a key and bit 0 of the mask is set. */
  lemma Layout(m: Packet, key: Option<Cipher>)
    requires KeyOk(key) && |m.app| == 4
    ensures var s := Written(m, key);
            var body := if key.Some? && m.mask % 2 == 1 then Encrypt(key.value, m.body) else m.body;
      && |s| == 14 + |body| && s[0] as int == 'G' as int && s[1] == m.mask && s[2..6] == m.app
      && 256 * s[6] as int + s[7] as int == |body| % 0x1_0000 && 256 * s[8] as int + s[9] as int == m.cmd
      && 256 * s[10] as int + s[11] as int == m.seqNo && 256 * s[12] as int + s[13] as int == m.ret && s[14..] == body
  {
    var body := Encoded(m, key);
    HeaderReads(m, |body| % 0x1_0000, body);
  }

  /** What is read, byte by byte: from the same places, with the body decrypted exactly when there is a key
      and bit 0 of the mask that was read is set. */
  lemma ReadLayout(s: Bytes, key: Option<Cipher>)
    requires KeyOk(key) && |s| >= 14
    ensures var l := 256 * s[6] as int + s[7] as int; var r := ReadMessage(s, key);
      && (r.BadFlag? <==> s[0] as int != 'G' as int)
      && (r.Short? <==> !r.BadFlag? && |s| < 14 + l)
      && (r.Undecryptable? <==> !r.BadFlag? && !r.Short? && l > 0 && key.Some? && s[1] % 2 == 1
                                && Decrypt(key.value, s[14..14 + l]).None?)
      && (r.Got? ==> r.packet.mask == s[1] && r.packet.app == s[2..6])
      && (r.Got? ==> r.packet.cmd == 256 * s[8] as int + s[9] as int)
      && (r.Got? ==> r.packet.seqNo == 256 * s[10] as int + s[11] as int)
      && (r.Got? ==> r.packet.ret == 256 * s[12] as int + s[13] as int)
      && (r.Got? ==> 14 + l <= |s| && r.rest == s[14 + l..])
      && (r.Got? && l == 0 ==> r.packet.body == [])
      && (r.Got? && l > 0 && key.Some? && s[1] % 2 == 1 ==> Some(r.packet.body) == Decrypt(key.value, s[14..14 + l]))
      && (r.Got? && !(key.Some? && s[1] % 2 == 1) ==> r.packet.body == s[14..14 + l])
  {
    var l := 256 * s[6] as int + s[7] as int;
    if 14 + l <= |s| {
      assert s[14..][..l] == s[14..14 + l] && s[14..][l..] == s[14 + l..];
    }
  }

  lemma RoundTrip(m: Packet, tail: Bytes, key: Option<Cipher>)
    requires KeyOk(key) && Carries(m, key)
    ensures ReadMessage(Written(m, key) + tail, key) == Got(m, tail)
  {
    var body := Encoded(m, key);
    assert |body| % 0x1_0000 == |body|;
    HeaderReads(m, |body|, body + tail);
    var s := Written(m, key) + tail;
    assert s == [FLAG, m.mask] + m.app + Be16(|body|) + Be16(m.cmd) + Be16(m.seqNo) + Be16(m.ret) + (body + tail);
    assert (body + tail)[..|body|] == body && (body + tail)[|body|..] == tail;
    if Encrypted(m.mask, key) { DecryptInverts(key.value, m.body); }
  }

  /** A message comes back as it was exactly when the format carries it: a name that is not four bytes
      and a body over 65535 encoded bytes are both written without complaint, and neither is read back. */
  lemma RoundTripExactly(m: Packet, key: Option<Cipher>)
    requires KeyOk(key)
    ensures (exists rest :: ReadMessage(Written(m, key), key) == Got(m, rest)) <==> Carries(m, key)
  {
    var s := Written(m, key);
    if Carries(m, key) {
      RoundTrip(m, [], key);
      assert s + [] == s;
      assert ReadMessage(s, key) == Got(m, []);
    } else if |m.app| == 4 {
      TooLong(m, key);
    }
  }

  /** A message with a three-byte name does not come back. */
  lemma ShortName(a: byte, b: byte, c: byte)
    ensures var m := Packet([a, b, c], 0, 0, 0, 0, []);
      !exists rest :: ReadMessage(Written(m, None), None) == Got(m, rest)
  {
    RoundTripExactly(Packet([a, b, c], 0, 0, 0, 0, []), None);
  }

  lemma TooLong(m: Packet, key: Option<Cipher>)
    requires KeyOk(key) && |m.app| == 4 && |Encoded(m, key)| > 0xFFFF
    ensures ReadMessage(Written(m, key), key).Got? ==> |ReadMessage(Written(m, key), key).packet.body| < |m.body|
  {
    var body := Encoded(m, key);
    HeaderReads(m, |body| % 0x1_0000, body);
  }

  function Stream(ms: seq<Packet>, key: Option<Cipher>): Bytes
    requires KeyOk(key)
  {
    if ms == [] then [] else Written(ms[0], key) + Stream(ms[1..], key)
  }

  /** Everything read from a stream, up to the first error or the end. */
  function ReadAll(s: Bytes, key: Option<Cipher>): seq<Packet>
    requires KeyOk(key)
    decreases |s|
  {
    var r := ReadMessage(s, key);
    if !r.Got? then [] else
      assert |r.rest| < |s|;
      [r.packet] + ReadAll(r.rest, key)
  }

  /** Any list of messages, concatenated, is read back in order. */
  lemma {:induction false} StreamRoundTrip(ms: seq<Packet>, key: Option<Cipher>)
    requires KeyOk(key) && forall m :: m in ms ==> Carries(m, key)
    ensures ReadAll(Stream(ms, key), key) == ms
  {
    if ms != [] {
      RoundTrip(ms[0], Stream(ms[1..], key), key);
      StreamRoundTrip(ms[1..], key);
    }
  }
}
