/** The Diffie-Hellman handshake of the gateway: big integers on the wire, and the key both ends derive. */
module Handshake {
  import opened Options
  import opened Bits
  import opened Framing

  // ------------------------------------------------------------------------------------
  // Big integers
  // ------------------------------------------------------------------------------------

  /** `Bytes`: big-endian, without leading zeros. */
  function Minimal(n: nat): Bytes {
    if n == 0 then [] else Minimal(n / 256) + [n % 256]
  }

  /** `SetBytes`. */
  function Value(b: Bytes): nat {
    if b == [] then 0 else Value(b[..|b| - 1]) * 256 + b[|b| - 1]
  }

  lemma {:induction false} ValueOfMinimal(n: nat)
    ensures Value(Minimal(n)) == n
  {
    if n > 0 {
      ValueOfMinimal(n / 256);
      assert (Minimal(n / 256) + [n % 256])[..|Minimal(n / 256)|] == Minimal(n / 256);
    }
  }

  /** The bytes are the digits to the base 256, most significant first and that one not zero. */
  lemma {:induction false} MinimalDigits(n: nat, i: nat)
    requires i < |Minimal(n)|
    ensures Pow(256, |Minimal(n)| - 1 - i) > 0 && Minimal(n)[i] == n / Pow(256, |Minimal(n)| - 1 - i) % 256
    ensures Minimal(n)[0] != 0
  {
    var k := |Minimal(n)| - 1 - i;
    if k > 0 {
      MinimalDigits(n / 256, i);
      DivDiv(n, Pow(256, k - 1));
    } else {
      assert Pow(256, 0) == 1;
      if |Minimal(n)| > 1 { MinimalDigits(n / 256, 0); }
    }
  }

  lemma DivDiv(n: nat, m: nat)
    requires m > 0
    ensures n / 256 / m == n / (256 * m)
  {
    var q, r := n / 256 / m, n / 256 % m;
    assert n / 256 == q * m + r;
    assert n == q * (256 * m) + (256 * r + n % 256);
    DivUnique(n, 256 * m, q, 256 * r + n % 256);
  }

  // ------------------------------------------------------------------------------------
  // Modular exponentiation
  // ------------------------------------------------------------------------------------

  function Pow(x: nat, n: nat): nat {
    if n == 0 then 1 else x * Pow(x, n - 1)
  }

  /** `Exp`: a modulus of zero means none. */
  function Exp(x: nat, y: nat, m: nat): nat {
    if m == 0 then Pow(x, y) else Pow(x, y) % m
  }

  /** `Exp` is repeated multiplication modulo m. */
  lemma ExpIsPower(x: nat, y: nat, m: nat)
    requires m > 0
    ensures Exp(x, 0, m) == 1 % m
    ensures Exp(x, y + 1, m) == x * Exp(x, y, m) % m
  {
    assert Pow(x, y + 1) == x * Pow(x, y);
    ModTimes(x, Pow(x, y), m);
    ModTimes(x, Pow(x, y) % m, m);
    DivUnique(Pow(x, y) % m, m, 0, Pow(x, y) % m);
  }

  lemma {:induction false} PowAdd(x: nat, a: nat, b: nat)
    ensures Pow(x, a + b) == Pow(x, a) * Pow(x, b)
  {
    if a > 0 {
      PowAdd(x, a - 1, b);
      assert x * (Pow(x, a - 1) * Pow(x, b)) == (x * Pow(x, a - 1)) * Pow(x, b);
    }
  }

  lemma {:induction false} PowPow(x: nat, a: nat, b: nat)
    ensures a * b >= 0 && Pow(Pow(x, a), b) == Pow(x, a * b)
  {
    if b > 0 {
      PowPow(x, a, b - 1);
      assert a * b == a + a * (b - 1);
      PowAdd(x, a, a * (b - 1));
    }
  }

  lemma ModPlus(z: int, k: int, m: nat)
    requires m > 0
    ensures (z + k * m) % m == z % m
  {
    assert z + k * m == (z / m + k) * m + z % m;
    DivUnique(z + k * m, m, z / m + k, z % m);
  }

  lemma ModTimes(x: nat, y: nat, m: nat)
    requires m > 0
    ensures (x % m) * (y % m) % m == x * y % m
  {
    var q, r, k, s := x / m, x % m, y / m, y % m;
    assert x * y == r * s + (q * y + r * k) * m by {
      assert x * y == (q * m + r) * y == q * m * y + r * y;
      assert r * y == r * (k * m + s) == r * k * m + r * s;
    }
    ModPlus(r * s, q * y + r * k, m);
  }

  lemma ModReplace(x: nat, y: nat, z: nat, m: nat)
    requires m > 0 && y % m == z % m
    ensures (x % m) * y % m == x * z % m
  {
    var r := x % m;
    ModTimes(r, y, m);
    ModTimes(x, z, m);
    DivUnique(r, m, 0, r);
  }

  lemma {:induction false} PowMod(x: nat, n: nat, m: nat)
    requires m > 0
    ensures Pow(x % m, n) % m == Pow(x, n) % m
  {
    if n > 0 {
      PowMod(x, n - 1, m);
      ModReplace(x, Pow(x % m, n - 1), Pow(x, n - 1), m);
    }
  }

  /** (g^a)^b and (g^b)^a agree. */
  lemma Agreement(g: nat, a: nat, b: nat, p: nat)
    ensures Exp(Exp(g, a, p), b, p) == Exp(Exp(g, b, p), a, p)
  {
    PowPow(g, a, b);
    PowPow(g, b, a);
    assert a * b == b * a;
    if p > 0 {
      PowMod(Pow(g, a), b, p);
      PowMod(Pow(g, b), a, p);
    }
  }

  // ------------------------------------------------------------------------------------
  // The exchange
  // ------------------------------------------------------------------------------------

  /** One end of a connection. */
  class Conn {
    var incoming: Bytes
    var outgoing: Bytes

    constructor (incoming: Bytes)
      ensures this.incoming == incoming && outgoing == []
    {
      this.incoming, outgoing := incoming, [];
    }

    method WriteBigInt(i: nat)
      modifies `outgoing
      ensures outgoing == old(outgoing) + Minimal(i)
    {
      outgoing := outgoing + Minimal(i);
    }

    method WriteBigInts(ints: seq<nat>)
      modifies `outgoing
      ensures outgoing == old(outgoing) + AllMinimal(ints)
    {
      for k := 0 to |ints|
        invariant outgoing + AllMinimal(ints[k..]) == old(outgoing) + AllMinimal(ints)
      {
        WriteBigInt(ints[k]);
        assert ints[k..][1..] == ints[k + 1..];
      }
    }

    /** Always 128 bytes; none when the other end stops short. */
    method ReadBigInt() returns (i: Option<nat>)
      modifies `incoming
      ensures i == ReadInt(old(incoming)) && incoming == AfterInt(old(incoming))
    {
      if |incoming| < 128 {
        incoming := [];
        return None;
      }
      i := Some(Value(incoming[..128]));
      incoming := incoming[128..];
    }

    /** The client up to its own message: p, g and A = g^a mod p. */
    method ClientHello(p: nat, g: nat, a: nat)
      modifies `outgoing
      ensures outgoing == old(outgoing) + AllMinimal([p, g, Exp(g, a, p)])
    {
      WriteBigInts([p, g, Exp(g, a, p)]);
    }

    /** The client after it: read B, derive the secret. */
    method ClientFinish(p: nat, a: nat) returns (secret: Option<nat>)
      modifies `incoming
      ensures secret == ClientSecret(old(incoming), p, a)
    {
      var b := ReadBigInt();
      if b.None? {
        return None;
      }
      return Some(Exp(b.value, a, p));
    }

    method Serve(b: nat) returns (secret: Option<nat>)
      modifies this
      ensures secret == ServerSecret(old(incoming), b)
      ensures outgoing == old(outgoing) + ServerReply(old(incoming), b)
    {
      var p := ReadBigInt();
      if p.None? { return None; }
      var g := ReadBigInt();
      if g.None? { return None; }
      var a := ReadBigInt();
      if a.None? { return None; }
      WriteBigInt(Exp(g.value, b, p.value));
      return Some(Exp(a.value, b, p.value));
    }
  }

  function AllMinimal(ints: seq<nat>): Bytes {
    if ints == [] then [] else Minimal(ints[0]) + AllMinimal(ints[1..])
  }

  function ReadInt(s: Bytes): Option<nat> {
    if |s| < 128 then None else Some(Value(s[..128]))
  }

  function AfterInt(s: Bytes): Bytes {
    if |s| < 128 then [] else s[128..]
  }

  function ClientSecret(s: Bytes, p: nat, a: nat): Option<nat> {
    if ReadInt(s).None? then None else Some(Exp(ReadInt(s).value, a, p))
  }

  /** The three numbers the server reads. */
  function Hello(s: Bytes): Option<(nat, nat, nat)> {
    var p, g, a := ReadInt(s), ReadInt(AfterInt(s)), ReadInt(AfterInt(AfterInt(s)));
    if p.None? || g.None? || a.None? then None else Some((p.value, g.value, a.value))
  }

  function ServerSecret(s: Bytes, b: nat): Option<nat> {
    if Hello(s).None? then None else var (p, g, a) := Hello(s).value; Some(Exp(a, b, p))
  }

  function ServerReply(s: Bytes, b: nat): Bytes {
    if Hello(s).None? then [] else var (p, g, a) := Hello(s).value; Minimal(Exp(g, b, p))
  }

  predicate Full(n: nat) {
    |Minimal(n)| == 128
  }

  lemma ReadsFull(n: nat, tail: Bytes)
    requires Full(n)
    ensures ReadInt(Minimal(n) + tail) == Some(n) && AfterInt(Minimal(n) + tail) == tail
  {
    ValueOfMinimal(n);
    assert (Minimal(n) + tail)[..128] == Minimal(n);
  }

  lemma {:induction false} ShorterWhenSmaller(m: nat, n: nat)
    requires m <= n
    ensures |Minimal(m)| <= |Minimal(n)|
  {
    if m > 0 { ShorterWhenSmaller(m / 256, n / 256); }
  }

  /** The handshake over one connection, for a modulus and a base that occupy 128 bytes as 1024-bit
      primes do, with `tail` what the server sends after its B: the server finishes exactly when A
      occupies 128 bytes; when B does too the client finishes and they hold the same secret; when B is
      shorter the client finishes exactly if enough follows, and then on the number it reads instead of B. */
  lemma SharedSecret(p: nat, g: nat, a: nat, b: nat, tail: Bytes)
    requires Full(p) && Full(g)
    ensures p > 0 && a * b >= 0
    ensures var A, B := Exp(g, a, p), Exp(g, b, p);
            var hello := AllMinimal([p, g, A]);
            var server := ServerSecret(hello, b);
            var client := ClientSecret(ServerReply(hello, b) + tail, p, a);
      && (server.Some? <==> Full(A))
      && (Full(A) ==> Hello(hello) == Some((p, g, Pow(g, a) % p)))
      && (Full(A) && Full(B) ==> client == server == Some(Pow(g, a * b) % p))
      && (Full(A) && !Full(B) && |Minimal(B)| + |tail| < 128 ==> client.None?)
      && (Full(A) && !Full(B) && |Minimal(B)| + |tail| >= 128 ==>
            client == Some(Exp(Value((Minimal(B) + tail)[..128]), a, p)))
  {
    hide Exp, Minimal, Value, AllMinimal, Hello;
    var A, B := Exp(g, a, p), Exp(g, b, p);
    var hello := AllMinimal([p, g, A]);
    Fitting(g, a, p);
    Fitting(g, b, p);
    HelloRead(p, g, A);
    SecretIs(g, a, b, p);
    if Full(A) {
      assert Hello(hello) == Some((p, g, A));
      if Full(B) {
        ReadsFull(B, tail);
        Agreement(g, a, b, p);
      }
    }
  }

  lemma SecretIs(g: nat, a: nat, b: nat, p: nat)
    requires p > 0
    ensures Exp(g, a, p) == Pow(g, a) % p && a * b >= 0 && Exp(Exp(g, a, p), b, p) == Pow(g, a * b) % p
  {
    PowPow(g, a, b);
    PowMod(Pow(g, a), b, p);
  }

  /** A remainder is no longer than its modulus. */
  lemma Fitting(g: nat, a: nat, p: nat)
    requires Full(p)
    ensures p > 1 && |Minimal(Exp(g, a, p))| <= 128
  {
    assert |Minimal(0)| == 0 && |Minimal(1)| <= 1;
    ShorterWhenSmaller(Exp(g, a, p), p);
  }

  lemma HelloRead(p: nat, g: nat, A: nat)
    requires Full(p) && Full(g) && |Minimal(A)| <= 128
    ensures Hello(AllMinimal([p, g, A])) == if Full(A) then Some((p, g, A)) else None
  {
    hide Minimal, Value, AllMinimal;
    HelloIs(p, g, A);
    ReadsFull(p, Minimal(g) + Minimal(A));
    ReadsFull(g, Minimal(A));
    if Full(A) {
      ReadsFull(A, []);
      assert Minimal(A) + [] == Minimal(A);
    }
  }

  /** After a B that is too short the client finishes with the server's secret exactly if the number it
      read raises to the same power. */
  lemma SameSecretExactly(p: nat, g: nat, a: nat, b: nat, tail: Bytes)
    requires Full(p) && Full(g) && Full(Exp(g, a, p))
    requires !Full(Exp(g, b, p)) && |Minimal(Exp(g, b, p))| + |tail| >= 128
    ensures var B := Exp(g, b, p); var hello := AllMinimal([p, g, Exp(g, a, p)]);
      && ServerSecret(hello, b).Some? && ClientSecret(ServerReply(hello, b) + tail, p, a).Some?
      && (ClientSecret(ServerReply(hello, b) + tail, p, a) == ServerSecret(hello, b) <==>
          Exp(Value((Minimal(B) + tail)[..128]), a, p) == Exp(B, a, p))
  {
    var A := Exp(g, a, p);
    hide Exp, Minimal, Value, AllMinimal, Hello;
    SharedSecret(p, g, a, b, tail);
    Fitting(g, a, p);
    HelloRead(p, g, A);
    Agreement(g, a, b, p);
  }

  /** Raising to the power a tells remainders apart, as it does for a prime modulus p and an exponent
      coprime to p - 1. */
  ghost predicate Separates(a: nat, p: nat) {
    forall c: nat, d: nat :: p > 0 && Exp(c, a, p) == Exp(d, a, p) ==> c % p == d % p
  }

  /** With a B of 127 bytes and more bytes following, the client can finish on a secret that is not the
      server's: of two following bytes at least one makes it so. */
  lemma OtherSecret(p: nat, g: nat, a: nat, b: nat)
    requires Full(p) && Full(g) && Full(Exp(g, a, p)) && |Minimal(Exp(g, b, p))| == 127 && Separates(a, p)
    ensures var hello := AllMinimal([p, g, Exp(g, a, p)]);
      exists x: byte :: ClientSecret(ServerReply(hello, b) + [x], p, a).Some? && ServerSecret(hello, b).Some?
        && ClientSecret(ServerReply(hello, b) + [x], p, a) != ServerSecret(hello, b)
  {
    hide Exp, Minimal, Value, AllMinimal, Hello, ServerSecret, ServerReply, ClientSecret;
    var B := Exp(g, b, p);
    var x0, x1: byte := 0, 1;
    SharedSecret(p, g, a, b, [x0]);
    SharedSecret(p, g, a, b, [x1]);
    OneMore(B, x0);
    OneMore(B, x1);
    Fitting(g, b, p);
    Successors(B * 256, p);
    assert Exp(B * 256, a, p) != Exp(B * 256 + 1, a, p);
  }

  lemma OneSeparates(p: nat)
    ensures Separates(1, p)
  {
    forall c: nat ensures p > 0 ==> Exp(c, 1, p) == c % p { assert Pow(c, 1) == c * Pow(c, 0) == c; }
  }

  lemma OneMore(n: nat, x: byte)
    requires |Minimal(n)| == 127
    ensures (Minimal(n) + [x])[..128] == Minimal(n) + [x] && Value(Minimal(n) + [x]) == n * 256 + x as int
  {
    hide Minimal;
    ValueOfMinimal(n);
    assert (Minimal(n) + [x])[..127] == Minimal(n);
  }

  lemma Successors(c: nat, p: nat)
    requires p > 1
    ensures c % p != (c + 1) % p
  {
    if c % p + 1 < p { DivUnique(c + 1, p, c / p, c % p + 1); } else { DivUnique(c + 1, p, c / p + 1, 0); }
  }

  lemma HelloIs(p: nat, g: nat, A: nat)
    ensures AllMinimal([p, g, A]) == Minimal(p) + (Minimal(g) + Minimal(A))
  {
    assert [p, g, A][1..] == [g, A] && [g, A][1..] == [A] && [A][1..] == [];
    assert AllMinimal([A]) == Minimal(A) + [];
    assert AllMinimal([g, A]) == Minimal(g) + AllMinimal([A]);
  }
}
