/** The line protocol of the watch service. */
module WatchMessage {
  import opened Options

  datatype Message = Message(cmd: string, seqNo: int, values: seq<string>)

  const NL: char := '\n'

  // ------------------------------------------------------------------------------------
  // Decimal numbers
  // ------------------------------------------------------------------------------------

  function Digit(d: nat): char
    requires d < 10
  {
    '0' + d as char
  }

  predicate IsDigit(c: char) {
    '0' <= c <= '9'
  }

  /** `%v` of a natural number. */
  function Decimal(n: nat): (s: string)
    ensures s != []
    decreases n
  {
    if n < 10 then [Digit(n)] else Decimal(n / 10) + [Digit(n % 10)]
  }

  function Itoa(n: int): string {
    if n < 0 then "-" + Decimal(-n) else Decimal(n)
  }

  /** The value of a string of digits; none if there are none or something else is among them. */
  function Digits(s: string): Option<nat> {
    if s == [] || !IsDigit(s[|s| - 1]) then None
    else
      var d := s[|s| - 1] as int - '0' as int;
      if |s| == 1 then Some(d)
      else if Digits(s[..|s| - 1]).None? then None
      else Some(10 * Digits(s[..|s| - 1]).value + d)
  }

  const MAX: int := 0x7FFF_FFFF_FFFF_FFFF

  function Clamp(n: int): int {
    if n > MAX then MAX else if n < -MAX - 1 then -MAX - 1 else n
  }

  /** `strconv.Atoi` with its error dropped: zero for a string that is no number, the nearest 64-bit
      value for one out of range. */
  function Atoi(s: string): int {
    var signed := s != [] && (s[0] == '-' || s[0] == '+');
    var n := Digits(if signed then s[1..] else s);
    if n.None? then 0 else var v: int := n.value; Clamp(if signed && s[0] == '-' then -v else v)
  }

  lemma {:induction false} DecimalDigits(n: nat)
    ensures Digits(Decimal(n)) == Some(n) && forall c :: c in Decimal(n) ==> IsDigit(c)
  {
    if n >= 10 {
      DecimalDigits(n / 10);
      var s := Decimal(n);
      assert s[..|s| - 1] == Decimal(n / 10);
    }
  }

  /** A number in decimal: a minus sign exactly if it is negative, then digits, without leading zeros. */
  lemma ItoaForm(n: int)
    ensures var s := Itoa(n); var digits := if n < 0 then s[1..] else s;
      && s != [] && (s[0] == '-' <==> n < 0) && digits != []
      && (forall c :: c in digits ==> IsDigit(c)) && (digits[0] == '0' ==> |digits| == 1 && n == 0)
  {
    var m := if n < 0 then -n else n;
    DecimalForm(m);
    DecimalDigits(m);
    if n < 0 { assert Itoa(n)[1..] == Decimal(m); } else { assert IsDigit(Itoa(n)[0]); }
  }

  lemma {:induction false} DecimalForm(n: nat)
    ensures Decimal(n)[0] == '0' ==> n == 0
    ensures n < 10 ==> |Decimal(n)| == 1
  {
    if n >= 10 { DecimalForm(n / 10); }
  }

  /** A string has a value exactly if it is a nonempty string of digits... */
  lemma {:induction false} DigitsExactly(s: string)
    ensures Digits(s).Some? <==> s != [] && forall c :: c in s ==> IsDigit(c)
  {
    if s != [] {
      var front, last := s[..|s| - 1], s[|s| - 1];
      assert s == front + [last];
      if |s| > 1 { DigitsExactly(front); }
    }
  }

  /** ...and a string that is no number reads as zero, one out of range as the nearest 64-bit number. */
  lemma AtoiExactly(s: string)
    ensures var signed := s != [] && (s[0] == '-' || s[0] == '+'); var digits := if signed then s[1..] else s;
      && ((digits == [] || exists c :: c in digits && !IsDigit(c)) ==> Atoi(s) == 0)
      && (Digits(digits).Some? && Digits(digits).value <= MAX ==>
            Atoi(s) == if s[0] == '-' then -(Digits(digits).value as int) else Digits(digits).value)
      && (Digits(digits).Some? && Digits(digits).value > MAX + 1 ==> Atoi(s) == if s[0] == '-' then -MAX - 1 else MAX)
  {
    DigitsExactly(s);
    if s != [] { DigitsExactly(s[1..]); }
  }

  /** Every 64-bit number comes back from its decimal form. */
  lemma AtoiItoa(n: int)
    requires -MAX - 1 <= n <= MAX
    ensures Atoi(Itoa(n)) == n && NL !in Itoa(n)
  {
    hide Digits, Decimal;
    if n < 0 {
      DecimalDigits(-n);
      assert Itoa(n)[1..] == Decimal(-n);
    } else {
      DecimalDigits(n);
      assert IsDigit(Itoa(n)[0]);
    }
  }

  // ------------------------------------------------------------------------------------
  // Lines
  // ------------------------------------------------------------------------------------

  /** Position of the first newline, or the length. */
  function LineEnd(s: string): (k: nat)
    ensures k <= |s| && NL !in s[..k] && (k < |s| ==> s[k] == NL)
  {
    if s == [] || s[0] == NL then 0 else
      var k := LineEnd(s[1..]);
      assert s[..k + 1] == [s[0]] + s[1..][..k];
      k + 1
  }

  predicate HasLine(s: string) {
    LineEnd(s) < |s|
  }

  /** ReadString('\n'): the line with its newline; an error when the stream ends without one. */
  function Line(s: string): string
    requires HasLine(s)
  {
    s[..LineEnd(s) + 1]
  }

  function AfterLine(s: string): string
    requires HasLine(s)
  {
    s[LineEnd(s) + 1..]
  }

  lemma LineReads(x: string, tail: string)
    requires NL !in x
    ensures HasLine(x + [NL] + tail) && Line(x + [NL] + tail) == x + [NL] && AfterLine(x + [NL] + tail) == tail
  {
    LineEndIs(x, tail);
    assert (x + [NL] + tail)[..|x| + 1] == x + [NL];
  }

  lemma {:induction false} LineEndIs(x: string, tail: string)
    requires NL !in x
    ensures LineEnd(x + [NL] + tail) == |x|
  {
    if x != [] {
      LineEndIs(x[1..], tail);
      assert (x + [NL] + tail)[1..] == x[1..] + [NL] + tail;
    }
  }

  /** Cut characters `drop` holds for off both ends. */
  function TrimLeft(s: string, drop: char -> bool): string {
    if s != [] && drop(s[0]) then TrimLeft(s[1..], drop) else s
  }

  function TrimRight(s: string, drop: char -> bool): string {
    if s != [] && drop(s[|s| - 1]) then TrimRight(s[..|s| - 1], drop) else s
  }

  function Trim(s: string, drop: char -> bool): string {
    TrimRight(TrimLeft(s, drop), drop)
  }

  /** The characters `strings.TrimSpace` cuts. */
  predicate IsSpace(c: char) {
    || c == ' ' || '\t' <= c <= '\r' || c == '\U{85}' || c == '\U{A0}' || c == '\U{1680}'
    || '\U{2000}' <= c <= '\U{200A}'
    || c == '\U{2028}' || c == '\U{2029}' || c == '\U{202F}' || c == '\U{205F}' || c == '\U{3000}'
  }

  predicate IsNewline(c: char) {
    c == NL
  }

  /** A string that trimming leaves alone. */
  predicate Trimmed(s: string, drop: char -> bool) {
    s == [] || (!drop(s[0]) && !drop(s[|s| - 1]))
  }

  /** Trimming a trimmed line takes exactly its newline off. */
  lemma TrimLine(x: string, drop: char -> bool)
    requires Trimmed(x, drop) && drop(NL)
    ensures Trim(x + [NL], drop) == x
  {
    if x == [] {
      assert x + [NL] == [NL] && [NL][1..] == [];
      assert TrimLeft([], drop) == [];
    } else {
      var s := x + [NL];
      assert s[0] == x[0] && s[..|s| - 1] == x;
      assert TrimRight(s, drop) == TrimRight(x, drop);
    }
  }

  predicate IsBlank(c: char) {
    c == ' ' || c == '\t' || c == '\r'
  }

  /** Blanks, tabs and carriage returns around a command are dropped with its newline. */
  lemma BlanksDropped(a: string, x: string, b: string)
    requires Trimmed(x, IsSpace) && x != []
    requires (forall c :: c in a ==> IsBlank(c)) && (forall c :: c in b ==> IsBlank(c))
    ensures Trim(a + x + b + [NL], IsSpace) == x
  {
    var rest := x + b + [NL];
    assert a + x + b + [NL] == a + rest;
    LeftBlanks(a, rest);
    assert rest[0] == x[0];
    assert TrimLeft(rest, IsSpace) == rest;
    var tail := b + [NL];
    assert rest == x + tail;
    RightBlanks(x, tail);
  }

  lemma {:induction false} LeftBlanks(a: string, rest: string)
    requires forall c :: c in a ==> IsBlank(c)
    ensures TrimLeft(a + rest, IsSpace) == TrimLeft(rest, IsSpace)
  {
    if a == [] {
      assert a + rest == rest;
    } else {
      assert (a + rest)[0] == a[0] && (a + rest)[1..] == a[1..] + rest;
      assert a[0] in a;
      assert forall c :: c in a[1..] ==> c in a;
      LeftBlanks(a[1..], rest);
    }
  }

  lemma {:induction false} RightBlanks(x: string, b: string)
    requires x != [] && !IsSpace(x[|x| - 1]) && forall c :: c in b ==> IsBlank(c) || c == NL
    ensures TrimRight(x + b, IsSpace) == x
  {
    if b == [] {
      assert x + b == x;
    } else {
      var s := x + b;
      assert s[|s| - 1] == b[|b| - 1] && s[..|s| - 1] == x + b[..|b| - 1];
      assert b[|b| - 1] in b;
      assert forall c :: c in b[..|b| - 1] ==> c in b;
      RightBlanks(x, b[..|b| - 1]);
    }
  }

  // ------------------------------------------------------------------------------------
  // Messages
  // ------------------------------------------------------------------------------------

  function Lines(values: seq<string>): string {
    if values == [] then "" else values[0] + [NL] + Lines(values[1..])
  }

  /** What WriteWatchMessage writes. */
  function Written(m: Message): string {
    m.cmd + [NL] + Itoa(m.seqNo) + [NL] + Itoa(|m.values|) + [NL] + Lines(m.values)
  }

  /** A message is its command, its number, the count of its values and the values, a line each. */
  lemma Layout(m: Message)
    ensures Written(m) == Lines([m.cmd, Itoa(m.seqNo), Itoa(|m.values|)] + m.values)
  {
    var c, q, n := m.cmd, Itoa(m.seqNo), Itoa(|m.values|);
    var all := [c, q, n] + m.values;
    assert all[1..] == [q, n] + m.values;
    assert ([q, n] + m.values)[1..] == [n] + m.values;
    assert ([n] + m.values)[1..] == m.values;
    var values := Lines(m.values);
    assert Lines([n] + m.values) == n + [NL] + values;
    assert Lines([q, n] + m.values) == q + [NL] + Lines([n] + m.values);
    assert Lines(all) == c + [NL] + Lines([q, n] + m.values);
  }

  datatype Read = Got(message: Message, rest: string) | Failed

  function ReadValues(s: string, n: int, values: seq<string>): (r: Option<(seq<string>, string)>)
    ensures r.Some? ==> |r.value.1| <= |s|
    decreases n
  {
    if n <= 0 then Some((values, s))
    else if !HasLine(s) then None
    else ReadValues(AfterLine(s), n - 1, values + [Trim(Line(s), IsNewline)])
  }

  function ReadMessage(s: string): (r: Read)
    ensures r.Got? ==> |r.rest| < |s|
  {
    if !HasLine(s) then Failed else
      var s1 := AfterLine(s);
      if !HasLine(s1) then Failed else
        var s2 := AfterLine(s1);
        if !HasLine(s2) then Failed else
          var n := Atoi(Trim(Line(s2), IsNewline));
          var values := ReadValues(AfterLine(s2), n, []);
          if values.None? then Failed
          else Got(Message(Trim(Line(s), IsSpace), Atoi(Trim(Line(s1), IsNewline)), values.value.0), values.value.1)
  }

  method WriteWatchMessage(m: Message) returns (out: string)
    ensures out == Written(m)
  {
    out := m.cmd + [NL];
    out := out + Itoa(m.seqNo) + [NL];
    var n := |m.values|;
    out := out + Itoa(n) + [NL];
    for i := 0 to n
      invariant out + Lines(m.values[i..]) == Written(m)
    {
      assert m.values[i..][1..] == m.values[i + 1..];
      out := out + m.values[i] + [NL];
    }
  }

  class Reader {
    var rest: string

    constructor (s: string)
      ensures rest == s
    {
      rest := s;
    }

    method ReadString() returns (line: Option<string>)
      modifies this
      ensures line == if HasLine(old(rest)) then Some(Line(old(rest))) else None
      ensures HasLine(old(rest)) ==> rest == AfterLine(old(rest))
    {
      var k := LineEnd(rest);
      if k == |rest| {
        rest := "";
        return None;
      }
      line := Some(rest[..k + 1]);
      rest := rest[k + 1..];
    }

    method ReadWatchMessage() returns (m: Option<Message>)
      modifies this
      ensures m.Some? <==> ReadMessage(old(rest)).Got?
      ensures m.Some? ==> ReadMessage(old(rest)) == Got(m.value, rest)
    {
      var cmd := ReadString();
      if cmd.None? { return None; }
      var seqNo := ReadString();
      if seqNo.None? { return None; }
      var count := ReadString();
      if count.None? { return None; }
      var n := Atoi(Trim(count.value, IsNewline));
      var values := ReadMany(n);
      if values.None? { return None; }
      return Some(Message(Trim(cmd.value, IsSpace), Atoi(Trim(seqNo.value, IsNewline)), values.value));
    }

    method ReadMany(n: int) returns (r: Option<seq<string>>)
      modifies this
      ensures r.Some? <==> ReadValues(old(rest), n, []).Some?
      ensures r.Some? ==> ReadValues(old(rest), n, []) == Some((r.value, rest))
    {
      hide Trim;
      var values := [];
      var i := 0;
      while i < n
        invariant i == 0 || i <= n
        invariant ReadValues(old(rest), n, []) == ReadValues(rest, n - i, values)
      {
        var value := ReadString();
        if value.None? { return None; }
        values := values + [Trim(value.value, IsNewline)];
        i := i + 1;
      }
      return Some(values);
    }
  }

  /** What the protocol can carry. */
  ghost predicate Carries(m: Message) {
    && NL !in m.cmd && Trimmed(m.cmd, IsSpace) && -MAX - 1 <= m.seqNo <= MAX && |m.values| <= MAX
    && forall v :: v in m.values ==> NL !in v
  }

  lemma {:induction false} ValuesRead(values: seq<string>, tail: string, got: seq<string>)
    requires forall v :: v in values ==> NL !in v
    ensures ReadValues(Lines(values) + tail, |values|, got) == Some((got + values, tail))
    decreases |values|
  {
    hide ReadValues;
    if values == [] {
      assert Lines(values) + tail == tail && got + values == got;
      NoValues(tail, got);
    } else {
      var after := Lines(values[1..]) + tail;
      assert Lines(values) + tail == values[0] + [NL] + after;
      ValueRead(values[0], after, |values|, got);
      ValuesRead(values[1..], tail, got + [values[0]]);
      assert got + [values[0]] + values[1..] == got + values;
    }
  }

  lemma NoValues(s: string, got: seq<string>)
    ensures ReadValues(s, 0, got) == Some((got, s))
  {
  }

  lemma ValueRead(x: string, after: string, n: nat, got: seq<string>)
    requires NL !in x && n > 0
    ensures ReadValues(x + [NL] + after, n, got) == ReadValues(after, n - 1, got + [x])
  {
    hide Trim, Line, AfterLine, HasLine;
    LineReads(x, after);
    PlainLine(x);
  }

  lemma PlainLine(x: string)
    requires NL !in x
    ensures Trim(x + [NL], IsNewline) == x
  {
    assert Trimmed(x, IsNewline) by {
      if x != [] { assert x[0] in x && x[|x| - 1] in x; }
    }
    TrimLine(x, IsNewline);
  }

  lemma RoundTrip(m: Message, tail: string)
    requires Carries(m)
    ensures ReadMessage(Written(m) + tail) == Got(m, tail)
  {
    hide Trim, Line, AfterLine, HasLine, Itoa, Atoi, ReadValues, Lines;
    var c, q, n := m.cmd, Itoa(m.seqNo), Itoa(|m.values|);
    AtoiItoa(m.seqNo);
    AtoiItoa(|m.values|);
    var s3 := Lines(m.values) + tail;
    var s2 := n + [NL] + s3;
    var s1 := q + [NL] + s2;
    assert Written(m) + tail == c + [NL] + s1;
    LineReads(c, s1);
    LineReads(q, s2);
    LineReads(n, s3);
    TrimLine(c, IsSpace);
    PlainLine(q);
    PlainLine(n);
    ValuesRead(m.values, tail, []);
    assert [] + m.values == m.values;
  }

  function Stream(ms: seq<Message>): string {
    if ms == [] then "" else Written(ms[0]) + Stream(ms[1..])
  }

  function ReadAll(s: string): seq<Message>
    decreases |s|
  {
    var r := ReadMessage(s);
    if r.Failed? then [] else [r.message] + ReadAll(r.rest)
  }

  /** Any list of messages comes back exactly. */
  lemma {:induction false} StreamRoundTrip(ms: seq<Message>)
    requires forall m :: m in ms ==> Carries(m)
    ensures ReadAll(Stream(ms)) == ms
  {
    if ms != [] {
      RoundTrip(ms[0], Stream(ms[1..]));
      StreamRoundTrip(ms[1..]);
    }
  }

  /** A message comes back exactly when the protocol carries it: its command trimmed, and no newline in
      the command or in a value. */
  lemma RoundTripOnly(m: Message)
    requires -MAX - 1 <= m.seqNo <= MAX && |m.values| <= MAX
    ensures ReadMessage(Written(m)) == Got(m, "") <==> Carries(m)
  {
    if Carries(m) {
      RoundTrip(m, "");
      assert Written(m) + "" == Written(m);
    } else if ReadMessage(Written(m)).Got? {
      ReadIsCarried(Written(m));
    }
  }

  /** A command that ends in a space does not come back, nor does a value with a newline in it. */
  lemma NotCarried(n: int)
    requires -MAX - 1 <= n <= MAX
    ensures ReadMessage(Written(Message("get ", n, []))) != Got(Message("get ", n, []), "")
    ensures ReadMessage(Written(Message("get", n, ["a\nb"]))) != Got(Message("get", n, ["a\nb"]), "")
  {
    RoundTripOnly(Message("get ", n, []));
    RoundTripOnly(Message("get", n, ["a\nb"]));
    assert "a\nb"[1] == NL && "a\nb" in ["a\nb"];
  }

  /** Whatever is read is trimmed and free of newlines. */
  lemma ReadIsCarried(s: string)
    requires ReadMessage(s).Got?
    ensures var m := ReadMessage(s).message;
      NL !in m.cmd && Trimmed(m.cmd, IsSpace) && forall v :: v in m.values ==> NL !in v
  {
    hide Trim, Trimmed;
    TrimIsTrimmed(Line(s), IsSpace);
    LineTrimmed(s, IsSpace);
    var s2 := AfterLine(AfterLine(s));
    ValuesPlain(AfterLine(s2), Atoi(Trim(Line(s2), IsNewline)), []);
  }

  lemma {:induction false} ValuesPlain(s: string, n: int, got: seq<string>)
    requires ReadValues(s, n, got).Some? && forall v :: v in got ==> NL !in v
    ensures forall v :: v in ReadValues(s, n, got).value.0 ==> NL !in v
    decreases n
  {
    if n > 0 {
      LineTrimmed(s, IsNewline);
      ValuesPlain(AfterLine(s), n - 1, got + [Trim(Line(s), IsNewline)]);
    }
  }

  /** A line trimmed of its newline holds none. */
  lemma LineTrimmed(s: string, drop: char -> bool)
    requires HasLine(s) && drop(NL)
    ensures NL !in Trim(Line(s), drop)
  {
    var x := s[..LineEnd(s)];
    assert Line(s) == x + [NL];
    LeftKeepsEnd(x, drop);
    var t := TrimLeft(x + [NL], drop);
    if t != [] {
      assert t[..|t| - 1] + [NL] == t;
      RightWithin(t[..|t| - 1], drop);
    }
  }

  lemma {:induction false} LeftKeepsEnd(x: string, drop: char -> bool)
    requires NL !in x && drop(NL)
    ensures var t := TrimLeft(x + [NL], drop); t == [] || (t[|t| - 1] == NL && NL !in t[..|t| - 1])
  {
    if x == [] {
      assert x + [NL] == [NL] && [NL][1..] == [];
      assert TrimLeft([], drop) == [];
    } else if drop(x[0]) {
      assert (x + [NL])[1..] == x[1..] + [NL];
      LeftKeepsEnd(x[1..], drop);
    } else {
      assert (x + [NL])[..|x|] == x;
    }
  }

  lemma {:induction false} RightWithin(x: string, drop: char -> bool)
    ensures forall c :: c in TrimRight(x, drop) ==> c in x
  {
    if x != [] && drop(x[|x| - 1]) { RightWithin(x[..|x| - 1], drop); }
  }

  lemma {:induction false} LeftEnds(s: string, drop: char -> bool)
    ensures TrimLeft(s, drop) == [] || !drop(TrimLeft(s, drop)[0])
  {
    if s != [] && drop(s[0]) { LeftEnds(s[1..], drop); }
  }

  lemma {:induction false} RightEnds(s: string, drop: char -> bool)
    ensures var t := TrimRight(s, drop); t == [] || (!drop(t[|t| - 1]) && s != [] && t[0] == s[0])
  {
    if s != [] && drop(s[|s| - 1]) { RightEnds(s[..|s| - 1], drop); }
  }

  lemma TrimIsTrimmed(s: string, drop: char -> bool)
    ensures Trimmed(Trim(s, drop), drop)
  {
    LeftEnds(s, drop);
    RightEnds(TrimLeft(s, drop), drop);
  }
}
