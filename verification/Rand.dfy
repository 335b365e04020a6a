/** Draws, shuffles and weighted choice.  Random bits are parameters. */
module Rand {
  import opened Options
  import opened Bits

  // ------------------------------------------------------------------------------------
  // Int31n, Int63n: draws below n
  // ------------------------------------------------------------------------------------

  /** The largest value Int31n (bits 31) or Int63n (bits 63) accepts. */
  function MaxDraw(n: nat, bits: nat): int
    requires n > 0
  {
    Pow2(bits) - 1 - Pow2(bits) % n
  }

  /** How many of the values 0, ..., m-1 leave remainder r. */
  function Hits(m: nat, n: nat, r: nat): nat
    requires n > 0
  {
    if m == 0 then 0 else Hits(m - 1, n, r) + if (m - 1) % n == r then 1 else 0
  }

  lemma {:induction false} HitsExactly(m: nat, n: nat, r: nat)
    requires 0 < n && r < n
    ensures Hits(m, n, r) == m / n + if r < m % n then 1 else 0
  {
    if m > 0 {
      HitsExactly(m - 1, n, r);
      NextDiv(m, n);
    } else {
      assert 0 / n == 0;
    }
  }

  lemma NextDiv(m: nat, n: nat)
    requires m > 0 && n > 0
    ensures (m - 1) % n + 1 < n ==> m / n == (m - 1) / n && m % n == (m - 1) % n + 1
    ensures (m - 1) % n + 1 == n ==> m / n == (m - 1) / n + 1 && m % n == 0
  {
    var q, s := (m - 1) / n, (m - 1) % n;
    if s + 1 < n {
      DivUnique(m, n, q, s + 1);
    } else {
      assert m == (q + 1) * n;
      DivUnique(m, n, q + 1, 0);
    }
  }

  /** Rejection makes every result equally likely: each is the remainder of equally many accepted draws. */
  lemma Unbiased(n: nat, bits: nat, r: nat)
    requires 0 < n <= Pow2(bits) && r < n
    ensures Hits(MaxDraw(n, bits) + 1, n, r) == Pow2(bits) / n && MaxDraw(n, bits) >= 0
  {
    var p := Pow2(bits);
    assert p - p % n == p / n * n;
    HitsExactly(p - p % n, n, r);
    DivUnique(p - p % n, n, p / n, 0);
    assert p % n < n;
  }

  /** Int31n and Int63n on a supply of draws; no result when the supply ends, an error for n <= 0. */
  datatype Drawn = Panic | Value(value: int, used: nat) | Exhausted

  method DrawBelow(n: int, bits: nat, draws: seq<nat>) returns (d: Drawn)
    requires forall i :: 0 <= i < |draws| ==> draws[i] < Pow2(bits)
    ensures d.Panic? <==> n <= 0
    ensures d.Value? ==> 0 <= d.value < n && 0 < d.used <= |draws| && d.value == draws[d.used - 1] % n
    ensures d.Value? ==> IsPow2(n) || draws[d.used - 1] <= MaxDraw(n, bits)
    ensures d.Value? ==> forall i :: 0 <= i < d.used - 1 ==> !IsPow2(n) && draws[i] > MaxDraw(n, bits)
    ensures d.Exhausted? ==> forall i :: 0 <= i < |draws| ==> !IsPow2(n) && draws[i] > MaxDraw(n, bits)
  {
    if n <= 0 {
      return Panic;
    }
    DropLowBit(n);
    if And(n, n - 1) == 0 {
      if draws == [] {
        return Exhausted;
      }
      var k := IsPow2Means(n);
      Mask(draws[0], k);
      return Value(And(draws[0], n - 1), 1);
    }
    var max := MaxDraw(n, bits);
    var i := 0;
    while i < |draws| && draws[i] > max
      invariant i <= |draws|
      invariant forall j :: 0 <= j < i ==> draws[j] > max
    {
      i := i + 1;
    }
    if i == |draws| {
      return Exhausted;
    }
    return Value(draws[i] % n, i + 1);
  }

  // ------------------------------------------------------------------------------------
  // Shuffle
  // ------------------------------------------------------------------------------------

  function Swapped<T>(s: seq<T>, r: nat, j: nat): seq<T>
    requires r < |s| && j < |s|
  {
    s[r := s[j]][j := s[r]]
  }

  /** The draws of one pass: r_j in [0, j] for each index j. */
  ghost predicate Choices(c: seq<nat>) {
    forall j :: 0 <= j < |c| ==> c[j] <= j
  }

  /** One pass, from the highest index down. */
  function Pass<T>(s: seq<T>, c: seq<nat>): (r: seq<T>)
    requires |c| <= |s| && Choices(c)
    ensures |r| == |s|
    decreases |c|
  {
    if c == [] then s
    else var j := |c| - 1; Pass(Swapped(s, c[j], j), c[..j])
  }

  function Passes<T>(s: seq<T>, cs: seq<seq<nat>>): (r: seq<T>)
    requires forall i :: 0 <= i < |cs| ==> |cs[i]| == |s| && Choices(cs[i])
    ensures |r| == |s|
  {
    if cs == [] then s else Pass(Passes(s, cs[..|cs| - 1]), cs[|cs| - 1])
  }

  /** ShuffleUint32Array, ShuffleInt32Array with `n` passes. */
  method Shuffle<T>(x: array<T>, n: nat, cs: seq<seq<nat>>)
    requires |cs| == n && forall i :: 0 <= i < n ==> |cs[i]| == x.Length && Choices(cs[i])
    modifies x
    ensures x[..] == Passes(old(x[..]), cs)
  {
    for i := 0 to n
      invariant x[..] == Passes(old(x[..]), cs[..i])
    {
      OnePass(x, cs[i]);
      assert cs[..i + 1][..i] == cs[..i];
    }
    assert cs[..n] == cs;
  }

  method OnePass<T>(x: array<T>, c: seq<nat>)
    requires |c| == x.Length && Choices(c)
    modifies x
    ensures x[..] == Pass(old(x[..]), c)
  {
    var j := x.Length - 1;
    assert c[..j + 1] == c;
    while j >= 0
      invariant -1 <= j < x.Length
      invariant Pass(x[..], c[..j + 1]) == Pass(old(x[..]), c)
    {
      var r := c[j];
      ghost var before := x[..];
      x[r], x[j] := x[j], x[r];
      assert x[..] == Swapped(before, r, j);
      assert c[..j + 1][..j] == c[..j];
      j := j - 1;
    }
  }

  lemma SwapKeeps<T>(s: seq<T>, r: nat, j: nat)
    requires r <= j < |s|
    ensures multiset(Swapped(s, r, j)) == multiset(s)
  {
    var t := s[r := s[j]];
    assert multiset(t) == multiset(s) - multiset{s[r]} + multiset{s[j]};
    assert multiset(t[j := s[r]]) == multiset(t) - multiset{t[j]} + multiset{s[r]};
  }

  lemma {:induction false} PassPermutes<T>(s: seq<T>, c: seq<nat>)
    requires |c| <= |s| && Choices(c)
    ensures multiset(Pass(s, c)) == multiset(s)
    decreases |c|
  {
    if c != [] {
      var j := |c| - 1;
      SwapKeeps(s, c[j], j);
      PassPermutes(Swapped(s, c[j], j), c[..j]);
    }
  }

  /** Any number of passes permutes. */
  lemma {:induction false} PassesPermute<T>(s: seq<T>, cs: seq<seq<nat>>)
    requires forall i :: 0 <= i < |cs| ==> |cs[i]| == |s| && Choices(cs[i])
    ensures multiset(Passes(s, cs)) == multiset(s)
  {
    if cs != [] {
      PassesPermute(s, cs[..|cs| - 1]);
      PassPermutes(Passes(s, cs[..|cs| - 1]), cs[|cs| - 1]);
    }
  }

  /** Positions above the draws are final. */
  lemma {:induction false} PassAbove<T>(s: seq<T>, c: seq<nat>, k: nat)
    requires |c| <= k < |s| && Choices(c)
    ensures Pass(s, c)[k] == s[k]
    decreases |c|
  {
    if c != [] {
      var j := |c| - 1;
      PassAbove(Swapped(s, c[j], j), c[..j], k);
    }
  }

  /** The element a pass leaves at the highest index drawn for is the one its draw chose; what is below is
      the pass of the lower draws over the rest, with the displaced element in the gap. */
  lemma PassTop<T>(s: seq<T>, c: seq<nat>)
    requires 0 < |c| <= |s| && Choices(c)
    ensures var j := |c| - 1;
      && Pass(s, c)[j] == s[c[j]]
      && forall k :: 0 <= k < j ==> Pass(s, c)[k] == Pass(s[c[j] := s[j]], c[..j])[k]
  {
    var j := |c| - 1;
    PassAbove(Swapped(s, c[j], j), c[..j], j);
    forall k | 0 <= k < j ensures Pass(s, c)[k] == Pass(s[c[j] := s[j]], c[..j])[k] {
      PassLocal(Swapped(s, c[j], j), s[c[j] := s[j]], c[..j], k);
    }
  }

  /** A pass depends only on the elements it draws among. */
  lemma {:induction false} PassLocal<T>(s: seq<T>, t: seq<T>, c: seq<nat>, k: nat)
    requires |c| <= |s| == |t| && Choices(c) && k < |c| && s[..|c|] == t[..|c|]
    ensures Pass(s, c)[k] == Pass(t, c)[k]
    decreases |c|
  {
    var j := |c| - 1;
    assert forall i :: 0 <= i < |c| ==> s[i] == s[..|c|][i] == t[i];
    var s', t' := Swapped(s, c[j], j), Swapped(t, c[j], j);
    assert s'[..j] == t'[..j];
    if k < j {
      PassLocal(s', t', c[..j], k);
    } else {
      PassAbove(s', c[..j], j);
      PassAbove(t', c[..j], j);
    }
  }

  ghost predicate Distinct<T>(s: seq<T>) {
    forall i, j :: 0 <= i < j < |s| ==> s[i] != s[j]
  }

  lemma SwapDistinct<T>(s: seq<T>, r: nat, j: nat)
    requires r < |s| && j < |s| && Distinct(s)
    ensures Distinct(Swapped(s, r, j))
  {
  }

  /** Different draws give different arrangements. */
  lemma {:induction false} PassInjective<T>(s: seq<T>, c: seq<nat>, d: seq<nat>)
    requires Distinct(s) && |c| == |d| <= |s| && Choices(c) && Choices(d) && Pass(s, c) == Pass(s, d)
    ensures c == d
    decreases |c|
  {
    if c != [] {
      var j := |c| - 1;
      PassAbove(Swapped(s, c[j], j), c[..j], j);
      PassAbove(Swapped(s, d[j], j), d[..j], j);
      assert s[c[j]] == s[d[j]];
      SwapDistinct(s, c[j], j);
      PassInjective(Swapped(s, c[j], j), c[..j], d[..j]);
    }
  }

  /** Two arrangements that differ only below n. */
  ghost predicate AlikeFrom<T>(s: seq<T>, t: seq<T>, n: nat) {
    |s| == |t| && n <= |s| && multiset(s[..n]) == multiset(t[..n]) && s[n..] == t[n..]
  }

  lemma Front<T>(a: seq<T>)
    requires a != []
    ensures multiset(a[..|a| - 1]) == multiset(a) - multiset{a[|a| - 1]}
  {
    assert a == a[..|a| - 1] + [a[|a| - 1]];
  }

  /** The element for index n - 1 is among the first n. */
  lemma FindIt<T>(s: seq<T>, t: seq<T>) returns (r: nat)
    requires multiset(s) == multiset(t) && t != []
    ensures r < |s| && s[r] == t[|t| - 1]
  {
    assert t[|t| - 1] in multiset(s);
    r :| r < |s| && s[r] == t[|t| - 1];
  }

  lemma FrontsAgree<T>(u: seq<T>, t: seq<T>)
    requires |u| == |t| > 0 && multiset(u) == multiset(t) && u[|u| - 1] == t[|t| - 1]
    ensures multiset(u[..|u| - 1]) == multiset(t[..|t| - 1])
  {
    Front(u);
    Front(t);
  }

  lemma SwapFront<T>(s: seq<T>, t: seq<T>, r: nat)
    requires r < |s| == |t| && multiset(s) == multiset(t) && s[r] == t[|t| - 1]
    ensures multiset(Swapped(s, r, |s| - 1)[..|s| - 1]) == multiset(t[..|s| - 1])
  {
    hide Swapped;
    SwapKeeps(s, r, |s| - 1);
    SwappedTop(s, r);
    var u := Swapped(s, r, |s| - 1);
    assert multiset(u) == multiset(t);
    FrontsAgree(u, t);
  }

  lemma SwappedTop<T>(s: seq<T>, r: nat)
    requires r < |s|
    ensures |Swapped(s, r, |s| - 1)| == |s| && Swapped(s, r, |s| - 1)[|s| - 1] == s[r]
  {
  }

  /** One swap puts the right element at index n - 1. */
  lemma SwapInto<T>(s: seq<T>, t: seq<T>, n: nat, r: nat)
    requires AlikeFrom(s, t, n) && r < n && s[r] == t[n - 1]
    ensures AlikeFrom(Swapped(s, r, n - 1), t, n - 1)
  {
    var j := n - 1;
    var s' := Swapped(s, r, j);
    SwapFront(s[..n], t[..n], r);
    assert s'[..j] == Swapped(s[..n], r, j)[..j] && t[..n][..j] == t[..j];
    assert s'[j..] == [t[j]] + s[n..] && t[j..] == [t[j]] + t[n..];
  }

  /** Every arrangement has draws that make it. */
  lemma {:induction false} PassSurjective<T>(s: seq<T>, t: seq<T>, n: nat) returns (c: seq<nat>)
    requires AlikeFrom(s, t, n)
    ensures |c| == n <= |s| && Choices(c) && Pass(s, c) == t
    decreases n
  {
    if n == 0 {
      c := [];
      assert s == s[0..] && t == t[0..];
    } else {
      var r := FindIt(s[..n], t[..n]);
      SwapInto(s, t, n, r);
      c := PassSurjective(Swapped(s, r, n - 1), t, n - 1);
      assert (c + [r])[..n - 1] == c;
      c := c + [r];
    }
  }

  /** The draws `c` turn `s` into `t`. */
  ghost predicate Makes<T>(s: seq<T>, t: seq<T>, c: seq<nat>) {
    |c| == |s| && Choices(c) && Pass(s, c) == t
  }

  /** Each permutation of distinct elements arises from exactly one vector of draws, so a pass with
      uniform draws is a uniform shuffle. */
  lemma EachPermutationOnce<T>(s: seq<T>, t: seq<T>)
    requires Distinct(s) && multiset(s) == multiset(t)
    ensures |s| == |t| && exists c :: Makes(s, t, c)
    ensures forall c, d :: Makes(s, t, c) && Makes(s, t, d) ==> c == d
  {
    assert |s| == |multiset(s)| == |t|;
    assert s[..|s|] == s && t[..|s|] == t;
    var c := PassSurjective(s, t, |s|);
    assert Makes(s, t, c);
    forall c, d | Makes(s, t, c) && Makes(s, t, d) ensures c == d {
      PassInjective(s, c, d);
    }
  }

  // ------------------------------------------------------------------------------------
  // RandLessWight
  // ------------------------------------------------------------------------------------

  const U64: nat := 0x1_0000_0000_0000_0000

  /** A sequence of uint64 values. */
  ghost predicate Words(w: seq<int>) {
    forall i :: 0 <= i < |w| ==> 0 <= w[i] < U64
  }

  function Max(w: seq<int>): int {
    if w == [] then 0 else var m := Max(w[..|w| - 1]); if w[|w| - 1] > m then w[|w| - 1] else m
  }

  function Raised(max: int): int {
    if max < 10 then max + 10 else max + max / 5
  }

  /** The weight of load x under the raised maximum r, as 64-bit arithmetic gives it. */
  function Weight(r: int, x: int): int {
    (r % U64 - x) % U64
  }

  /** The recomputed weights. */
  function NewWeights(w: seq<int>): seq<int> {
    seq(|w|, i requires 0 <= i < |w| => Weight(Raised(Max(w)), w[i]))
  }

  function Sum(w: seq<int>): int {
    if w == [] then 0 else Sum(w[..|w| - 1]) + w[|w| - 1]
  }

  /** The final walk: the index whose share of [0, total) holds r. */
  function Pick(w: seq<int>, r: int): Option<nat>
    decreases |w|
  {
    PickFrom(w, 0, r)
  }

  function PickFrom(w: seq<int>, i: nat, r: int): Option<nat>
    requires i <= |w|
    decreases |w| - i
  {
    if i == |w| then None else if r < w[i] then Some(i) else PickFrom(w, i + 1, r - w[i])
  }

  /** Neither the raised maximum nor the new total exceeds 64 bits. */
  ghost predicate NoOverflow(w: seq<int>) {
    Raised(Max(w)) < U64 && Sum(NewWeights(w)) < U64
  }

  /** The chosen index, or nothing when the call panics: no weights, or a total that is zero. */
  method RandLessWight(weights: array<int>, draw: nat) returns (r: Option<nat>)
    requires Words(weights[..])
    modifies weights
    ensures var w := old(weights[..]); var total := Sum(NewWeights(w)) % U64;
      if |w| == 0 || (|w| > 1 && total == 0) then r == None
      else if |w| == 1 then r == Some(0)
      else r == (if Pick(NewWeights(w), draw % total).Some? then Pick(NewWeights(w), draw % total) else Some(0))
    ensures weights.Length > 1 ==> weights[..] == NewWeights(old(weights[..]))
  {
    if weights.Length == 0 {
      return None;
    } else if weights.Length == 1 {
      return Some(0);
    }
    var max := FindMax(weights);
    max := (if max < 10 then max + 10 else max + max / 5) % U64;
    Reweigh(weights, max);
    var total := Total(weights);
    if total == 0 {
      return None;
    }
    r := Walk(weights, draw % total);
  }

  method FindMax(weights: array<int>) returns (max: int)
    requires Words(weights[..])
    ensures max == Max(weights[..]) && 0 <= max < U64
  {
    max := 0;
    for i := 0 to weights.Length
      invariant max == Max(weights[..i]) && 0 <= max < U64
    {
      assert weights[..i + 1][..i] == weights[..i];
      assert weights[..][i] == weights[i];
      if weights[i] > max { max := weights[i]; }
    }
    assert weights[..weights.Length] == weights[..];
  }

  method Reweigh(weights: array<int>, max: int)
    requires max == Raised(Max(weights[..])) % U64
    modifies weights
    ensures weights[..] == NewWeights(old(weights[..]))
  {
    for i := 0 to weights.Length
      invariant forall k :: 0 <= k < i ==> weights[k] == (max - old(weights[k])) % U64
      invariant forall k :: i <= k < weights.Length ==> weights[k] == old(weights[k])
    {
      weights[i] := (max - weights[i]) % U64;
    }
  }

  method Total(weights: array<int>) returns (total: int)
    ensures total == Sum(weights[..]) % U64
  {
    total := 0;
    for i := 0 to weights.Length
      invariant total == Sum(weights[..i]) % U64
    {
      assert weights[..i + 1][..i] == weights[..i];
      SumMod(Sum(weights[..i]), weights[i]);
      total := (total + weights[i]) % U64;
    }
    assert weights[..weights.Length] == weights[..];
  }

  lemma SumMod(a: int, b: int)
    ensures (a % U64 + b) % U64 == (a + b) % U64
  {
  }

  method Walk(weights: array<int>, r: int) returns (index: Option<nat>)
    ensures index == if Pick(weights[..], r).Some? then Pick(weights[..], r) else Some(0)
  {
    var left := r;
    for i := 0 to weights.Length
      invariant PickFrom(weights[..], 0, r) == PickFrom(weights[..], i, left)
    {
      if left < weights[i] {
        return Some(i);
      }
      left := left - weights[i];
    }
    return Some(0);
  }

  /** The maximum is raised by ten if it is below ten, by a fifth rounded down otherwise; so that is the new
      weight of the heaviest load. */
  lemma RaisedBy(max: int)
    requires max >= 0
    ensures max < 10 ==> Raised(max) - max == 10
    ensures max >= 10 ==> 5 * (Raised(max) - max) <= max < 5 * (Raised(max) - max + 1)
  {
  }

  lemma {:induction false} MaxBounds(w: seq<int>, i: nat)
    requires i < |w|
    ensures w[i] <= Max(w)
  {
    if i < |w| - 1 { MaxBounds(w[..|w| - 1], i); }
  }

  lemma {:induction false} MaxNonnegative(w: seq<int>)
    ensures 0 <= Max(w)
  {
    if w != [] { MaxNonnegative(w[..|w| - 1]); }
  }

  /** Without overflow every new weight is at least 2, and a smaller load never gets a smaller share. */
  lemma FairWeights(w: seq<int>, i: nat, j: nat)
    requires Words(w) && NoOverflow(w) && i < |w| && j < |w|
    ensures NewWeights(w)[i] == Raised(Max(w)) - w[i] && NewWeights(w)[i] >= 2
    ensures w[i] <= w[j] ==> NewWeights(w)[i] >= NewWeights(w)[j]
  {
    NewWeight(w, i);
    NewWeight(w, j);
    hide NewWeights, Sum;
    MaxBounds(w, i);
    MaxNonnegative(w);
  }

  lemma NewWeight(w: seq<int>, i: nat)
    requires Words(w) && Raised(Max(w)) < U64 && i < |w|
    ensures NewWeights(w)[i] == Raised(Max(w)) - w[i]
  {
    RaisedAbove(w, i);
    hide Max, Raised, Weight;
    NoWrap(Raised(Max(w)), w[i]);
  }

  lemma RaisedAbove(w: seq<int>, i: nat)
    requires i < |w|
    ensures w[i] <= Raised(Max(w))
  {
    MaxBounds(w, i);
    MaxNonnegative(w);
  }

  lemma NoWrap(m: int, x: int)
    requires 0 <= x <= m < U64
    ensures Weight(m, x) == m - x
  {
    DivUnique(m, U64, 0, m);
    DivUnique(m - x, U64, 0, m - x);
  }

  lemma {:induction false} MaxAttained(w: seq<int>) returns (m: nat)
    requires w != [] && Words(w)
    ensures m < |w| && w[m] == Max(w)
  {
    var front, last := w[..|w| - 1], w[|w| - 1];
    if |w| == 1 {
      m := 0;
    } else {
      m := MaxAttained(front);
      if last > Max(front) { m := |w| - 1; }
    }
  }

  /** The new weight of a load x when the raised maximum wraps to c. */
  lemma Wrapped(r: int, x: int)
    requires U64 <= r < 2 * U64 && 0 <= x < U64
    ensures Weight(r, x) == if x <= r - U64 then r - U64 - x else r - x
  {
    DivUnique(r, U64, 1, r - U64);
    if x <= r - U64 {
      DivUnique(r - U64 - x, U64, 0, r - U64 - x);
    } else {
      DivUnique(r - U64 - x, U64, -1, r - x);
    }
  }

  /** "The smaller value goes first" holds exactly when the raised maximum fits 64 bits, or it wraps to
      a value below every load. */
  lemma FairExactly(w: seq<int>)
    requires Words(w)
    ensures (forall i, j :: 0 <= i < |w| && 0 <= j < |w| && w[i] <= w[j] ==> NewWeights(w)[i] >= NewWeights(w)[j])
      <==> Raised(Max(w)) < U64 || forall i :: 0 <= i < |w| ==> w[i] > Raised(Max(w)) - U64
  {
    var r := Raised(Max(w));
    forall i | 0 <= i < |w|
      ensures NewWeights(w)[i] == if r >= U64 && w[i] <= r - U64 then r - U64 - w[i] else r - w[i] {
      MaxBounds(w, i);
      MaxNonnegative(w);
      MaxBelow(w, U64 - 1);
      if r < U64 { NoWrap(r, w[i]); } else { Wrapped(r, w[i]); }
    }
    if r >= U64 && w != [] {
      MaxNonnegative(w);
      MaxBelow(w, U64 - 1);
      var m := MaxAttained(w);
      forall i | 0 <= i < |w| && w[i] <= r - U64 ensures w[i] <= w[m] && NewWeights(w)[i] < NewWeights(w)[m] { }
    }
  }

  function SumFrom(w: seq<int>, i: nat): int
    requires i <= |w|
    decreases |w| - i
  {
    if i == |w| then 0 else w[i] + SumFrom(w, i + 1)
  }

  lemma {:induction false} SumSplits(w: seq<int>, i: nat)
    requires i <= |w|
    ensures Sum(w) == Sum(w[..i]) + SumFrom(w, i)
    decreases |w| - i
  {
    if i == |w| {
      assert w[..i] == w;
    } else {
      SumSplits(w, i + 1);
      assert w[..i + 1][..i] == w[..i];
    }
  }

  /** The walk stops at index k exactly for the remainders in the k-th interval of length w[k]. */
  lemma {:induction false} PickInterval(w: seq<int>, i: nat, r: int, k: nat)
    requires i <= k < |w| && 0 <= r && forall j :: 0 <= j < |w| ==> w[j] >= 0
    ensures PickFrom(w, i, r) == Some(k) <==> SumFrom(w, i) - SumFrom(w, k) <= r < SumFrom(w, i) - SumFrom(w, k) + w[k]
    decreases k - i
  {
    if i < k {
      SumFromBelow(w, i + 1, k);
      if r >= w[i] { PickInterval(w, i + 1, r - w[i], k); }
    } else if r >= w[i] {
      PickAfter(w, i + 1, r - w[i]);
    }
  }

  lemma {:induction false} SumFromBelow(w: seq<int>, i: nat, k: nat)
    requires i <= k <= |w| && forall j :: 0 <= j < |w| ==> w[j] >= 0
    ensures SumFrom(w, k) <= SumFrom(w, i)
    decreases k - i
  {
    if i < k { SumFromBelow(w, i + 1, k); }
  }

  lemma {:induction false} PickAfter(w: seq<int>, i: nat, r: int)
    requires i <= |w|
    ensures PickFrom(w, i, r).Some? ==> PickFrom(w, i, r).value >= i
    decreases |w| - i
  {
    if i < |w| && r >= w[i] { PickAfter(w, i + 1, r - w[i]); }
  }

  /** Index k is chosen exactly by the remainders from the sum of the weights before it up to its own. */
  lemma PickExactly(w: seq<int>, r: int, k: nat)
    requires k < |w| && 0 <= r && forall j :: 0 <= j < |w| ==> w[j] >= 0
    ensures Pick(w, r) == Some(k) <==> Sum(w[..k]) <= r < Sum(w[..k]) + w[k]
  {
    SumSplits(w, 0);
    SumSplits(w, k);
    PickInterval(w, 0, r, k);
  }

  /** How many remainders below m choose index k. */
  function Chosen(w: seq<int>, m: nat, k: nat): nat {
    if m == 0 then 0 else Chosen(w, m - 1, k) + if Pick(w, m - 1) == Some(k) then 1 else 0
  }

  lemma {:induction false} ChosenInterval(w: seq<int>, m: nat, k: nat)
    requires k < |w| && forall j :: 0 <= j < |w| ==> w[j] >= 0
    ensures var a := SumFrom(w, 0) - SumFrom(w, k);
      Chosen(w, m, k) == if m <= a then 0 else if m <= a + w[k] then m - a else w[k]
  {
    SumFromBelow(w, 0, k);
    if m > 0 {
      ChosenInterval(w, m - 1, k);
      PickInterval(w, 0, m - 1, k);
    }
  }

  lemma {:induction false} PickFound(w: seq<int>, i: nat, r: int)
    requires i <= |w| && r < SumFrom(w, i) && 0 <= r
    ensures PickFrom(w, i, r).Some?
    decreases |w| - i
  {
    if i < |w| && r >= w[i] { PickFound(w, i + 1, r - w[i]); }
  }

  /** Of the remainders below the total, exactly as many choose index k as its new weight says, and
      none falls through to the final `return 0`. */
  lemma ExactShares(w: seq<int>, k: nat)
    requires |w| > 1 && Words(w) && NoOverflow(w) && k < |w|
    ensures var n := NewWeights(w); var total := Sum(n) % U64;
      total > 0 && Chosen(n, total, k) == n[k] && forall r :: 0 <= r < total ==> Pick(n, r).Some?
  {
    var n := NewWeights(w);
    forall j | 0 <= j < |n| ensures n[j] >= 2 { FairWeights(w, j, j); }
    Shares(n, k);
    assert Sum(n) % U64 == Sum(n) by { hide NewWeights; }
  }

  lemma Shares(n: seq<int>, k: nat)
    requires k < |n| && forall j :: 0 <= j < |n| ==> n[j] >= 0
    ensures Sum(n) >= n[k] && Chosen(n, Sum(n), k) == n[k] && forall r :: 0 <= r < Sum(n) ==> Pick(n, r).Some?
  {
    SumSplits(n, 0);
    SumFromBelow(n, 0, k);
    SumFromBelow(n, k + 1, |n|);
    ChosenInterval(n, Sum(n), k);
    forall r | 0 <= r < Sum(n) ensures Pick(n, r).Some? { PickFound(n, 0, r); }
  }

  lemma {:induction false} PickRange(w: seq<int>, i: nat, r: int)
    requires i <= |w|
    ensures PickFrom(w, i, r).Some? ==> PickFrom(w, i, r).value < |w|
    decreases |w| - i
  {
    if i < |w| && r >= w[i] { PickRange(w, i + 1, r - w[i]); }
  }

  /** A total cut below the sum of the weights cuts somebody's share. */
  lemma ShortTotal(n: seq<int>, total: nat)
    requires total < Sum(n) && forall j :: 0 <= j < |n| ==> n[j] >= 0
    ensures exists k :: 0 <= k < |n| && Chosen(n, total, k) < n[k]
  {
    SumSplits(n, 0);
    PickFound(n, 0, total);
    PickRange(n, 0, total);
    var k := Pick(n, total).value;
    PickInterval(n, 0, total, k);
    ChosenInterval(n, total, k);
  }

  /** The shares are exact exactly when the sum of the new weights fits 64 bits. */
  lemma SharesExactly(w: seq<int>)
    requires Words(w)
    ensures var n := NewWeights(w); var total := Sum(n) % U64;
      (forall k :: 0 <= k < |w| ==> Chosen(n, total, k) == n[k]) <==> Sum(n) < U64
  {
    var n := NewWeights(w);
    WeightsInRange(w);
    hide NewWeights, Chosen, Sum;
    CutTotal(Sum(n));
    if Sum(n) < U64 {
      forall k | 0 <= k < |n| ensures Chosen(n, Sum(n), k) == n[k] { Shares(n, k); }
    } else {
      ShortTotal(n, Sum(n) % U64);
    }
  }

  lemma WeightsInRange(w: seq<int>)
    ensures |NewWeights(w)| == |w| && Sum(NewWeights(w)) >= 0
    ensures forall i :: 0 <= i < |w| ==> 0 <= NewWeights(w)[i] <= U64
  {
    var n := NewWeights(w);
    forall i | 0 <= i < |w| ensures 0 <= n[i] <= U64 { }
    hide NewWeights;
    SumBounded(n, U64);
  }

  lemma CutTotal(x: nat)
    ensures 0 <= x % U64 <= x && (x % U64 == x <==> x < U64)
  {
  }

  /** Three loads whose new weights overflow: the shares are not exact. */
  lemma SharesOverflow()
    ensures var w := [0, 0, 0x8000_0000_0000_0000];
      Words(w) && exists k :: 0 <= k < 3 && Chosen(NewWeights(w), Sum(NewWeights(w)) % U64, k) != NewWeights(w)[k]
  {
    var w := [0, 0, 0x8000_0000_0000_0000];
    assert w[..2] == [0, 0] && [0, 0][..1] == [0] && [0][..0] == [];
    assert Max([0, 0]) == 0;
    var r := Raised(Max(w));
    var n := NewWeights(w);
    NoWrap(r, 0);
    NoWrap(r, 0x8000_0000_0000_0000);
    assert n == [r, r, r - 0x8000_0000_0000_0000];
    assert n[..2] == [r, r] && [r, r][..1] == [r] && [r][..0] == [];
    assert Sum([r]) == Sum([]) + r;
    assert Sum([r, r]) == Sum([r, r][..1]) + r;
    SharesExactly(w);
  }

  /** Two loads whose raised maximum overflows: the smaller gets the smaller share. */
  lemma FairOverflow()
    ensures var w := [0, U64 - 1]; Words(w) && w[0] <= w[1] && NewWeights(w)[0] < NewWeights(w)[1]
  {
    var w := [0, U64 - 1];
    assert w[..1] == [0] && [0][..0] == [];
    assert Max(w) == U64 - 1;
    var r := Raised(Max(w));
    Wrapped(r, 0);
    Wrapped(r, U64 - 1);
  }

  lemma {:induction false} SumBounded(w: seq<int>, b: nat)
    requires forall i :: 0 <= i < |w| ==> 0 <= w[i] <= b
    ensures 0 <= Sum(w) <= |w| * b
  {
    if w != [] {
      SumBounded(w[..|w| - 1], b);
      assert |w| * b == (|w| - 1) * b + b;
    }
  }

  lemma {:induction false} MaxBelow(w: seq<int>, b: nat)
    requires forall i :: 0 <= i < |w| ==> w[i] <= b
    ensures Max(w) <= b
  {
    if w != [] { MaxBelow(w[..|w| - 1], b); }
  }

  /** RandLessWight32 never overflows for fewer than 2^31 weights. */
  lemma NoOverflow32(w: seq<int>)
    requires |w| < 0x8000_0000 && forall i :: 0 <= i < |w| ==> 0 <= w[i] < 0x1_0000_0000
    ensures Words(w) && NoOverflow(w)
  {
    var b := 0x2_0000_0000;
    MaxBelow(w, 0xFFFF_FFFF);
    MaxNonnegative(w);
    var n := NewWeights(w);
    forall i | 0 <= i < |n| ensures 0 <= n[i] <= b { MaxBounds(w, i); NoWrap(Raised(Max(w)), w[i]); }
    SumBounded(n, b);
    assert |n| * b <= 0x7FFF_FFFF * b;
  }

  /** RandLessWight32 copies its weights to 64 bits; it answers for every nonempty list, and by the
      exact shares. */
  method RandLessWight32(weights: seq<int>, draw: nat) returns (r: Option<nat>)
    requires |weights| < 0x8000_0000 && forall i :: 0 <= i < |weights| ==> 0 <= weights[i] < 0x1_0000_0000
    ensures r.None? <==> weights == []
    ensures |weights| == 1 ==> r == Some(0)
    ensures |weights| > 1 ==>
      Sum(NewWeights(weights)) > 0 && r == Pick(NewWeights(weights), draw % Sum(NewWeights(weights)))
  {
    NoOverflow32(weights);
    var weights64 := new int[|weights|](i requires 0 <= i < |weights| => weights[i]);
    assert weights64[..] == weights;
    r := RandLessWight(weights64, draw);
    if |weights| > 1 {
      ExactShares(weights, 0);
      TotalFits(weights);
    }
  }

  lemma TotalFits(w: seq<int>)
    requires Words(w) && NoOverflow(w)
    ensures Sum(NewWeights(w)) % U64 == Sum(NewWeights(w))
  {
    WeightsInRange(w);
    CutTotal(Sum(NewWeights(w)));
  }
}
