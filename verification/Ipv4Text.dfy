/** The host's IPv4 text forms: the loose parser ipv4_addr_aton with its caller
    get_ipaddr_from_str, and the printer ipv4_addr_ntoa. */
module Ipv4Text {
  import opened Transport
  import opened Arithmetic

  datatype Option<T> = None | Some(value: T)

  // ----- characters of a C string -----

  /** The character at i: NUL past the end of the text. A NUL inside it ends it too. */
  function At(text: string, i: nat): char { if i < |text| then text[i] else '\0' }

  predicate IsDigit(c: char) { '0' <= c <= '9' }

  predicate IsXDigit(c: char) { IsDigit(c) || 'a' <= c <= 'f' || 'A' <= c <= 'F' }

  predicate IsSpace(c: char) { c == ' ' || 9 as char <= c <= 13 as char }

  type Base = b: int | b == 8 || b == 10 || b == 16 witness 10

  /** Octal numbers take the digits 8 and 9 as well. */
  predicate IsDigitOf(c: char, base: Base) { IsDigit(c) || (base == 16 && IsXDigit(c)) }

  function DigitValue(c: char): nat
    requires IsXDigit(c)
  {
    if IsDigit(c) then c as int - '0' as int
    else if 'a' <= c <= 'f' then c as int - 'a' as int + 10
    else c as int - 'A' as int + 10
  }

  // ----- the parser -----

  /** A value read, and the text behind it. */
  datatype Scan = Scan(val: Word32, rest: string)

  /** The digit loop, with the value so far; u_long is 32 bits wide. */
  function Digits(text: string, base: Base, val: Word32): (r: Scan)
    ensures |r.rest| <= |text|
  {
    if text != "" && IsDigitOf(text[0], base)
    then Digits(text[1..], base, (val * base + DigitValue(text[0])) % SPAN)
    else Scan(val, text)
  }

  function Number(text: string): (r: Scan)
    ensures |r.rest| <= |text|
  {
    if At(text, 0) != '0' then Digits(text, 10, 0)
    else if HexMark(At(text, 1)) then Digits(text[2..], 16, 0)
    else Digits(text[1..], 8, 0)
  }

  predicate HexMark(c: char) { c == 'x' || c == 'X' }

  /** At most three parts can come before the last, and those are bytes. */
  predicate Lead(parts: seq<Word32>)
  {
    |parts| <= 3 && forall k :: 0 <= k < |parts| ==> parts[k] <= 0xff
  }

  /** The loop over the numbers, with the parts before the text already read. */
  function ParseFrom(text: string, parts: seq<Word32>): Option<Word32>
    requires Lead(parts)
    decreases |text|
  {
    var n := Number(text);
    if At(n.rest, 0) == '.' then
      if |parts| >= 3 || n.val > 0xff then None else ParseFrom(n.rest[1..], parts + [n.val])
    else Finish(parts, n.val, At(n.rest, 0))
  }

  /** The check for trailing characters, then the value. */
  function Finish(parts: seq<Word32>, val: Word32, c: char): Option<Word32>
    requires Lead(parts)
  {
    if c != '\0' && !IsSpace(c) then None else Concoct(parts, val)
  }

  /** The bits of the parts do not overlap, so the source's | is a sum. */
  function Concoct(parts: seq<Word32>, val: Word32): Option<Word32>
    requires Lead(parts)
  {
    if |parts| == 0 then Some(val)
    else if |parts| == 1 then
      if val > 0xff_ffff then None else Some(parts[0] * 0x100_0000 + val)
    else if |parts| == 2 then
      if val > 0xffff then None else Some(parts[0] * 0x100_0000 + parts[1] * 0x1_0000 + val)
    else
      if val > 0xff then None else Some(Octets(parts[0], parts[1], parts[2], val))
  }

  /** The digit loop with its two branches. */
  method CollectDigits(cp: string, start: nat, base: Base) returns (val: Word32, at: nat)
    requires start <= |cp|
    ensures start <= at <= |cp| && Scan(val, cp[at..]) == Digits(cp[start..], base, 0)
  {
    val, at := 0, start;
    while at < |cp|
      invariant start <= at <= |cp|
      invariant Digits(cp[at..], base, val) == Digits(cp[start..], base, 0)
    {
      var c := cp[at];
      assert cp[at..][1..] == cp[at + 1..];
      if IsDigit(c) {
        val := (val * base + (c as int - '0' as int)) % SPAN;
        at := at + 1;
        continue;
      }
      if base == 16 && IsXDigit(c) {
        var first := if 'a' <= c <= 'z' then 'a' else 'A';
        val := (val * 16 + (c as int + 10 - first as int)) % SPAN;
        at := at + 1;
        continue;
      }
      break;
    }
  }

  /** A number with its base prefix. */
  method CollectNumber(cp: string, start: nat) returns (val: Word32, at: nat)
    requires start <= |cp|
    ensures start <= at <= |cp| && Scan(val, cp[at..]) == Number(cp[start..])
  {
    var base: Base := 10;
    at := start;
    if At(cp, at) == '0' {
      at := at + 1;
      if HexMark(At(cp, at)) {
        base, at := 16, at + 1;
      } else {
        base := 8;
      }
    }
    assert cp[start..][at - start..] == cp[at..];
    val, at := CollectDigits(cp, at, base);
  }

  /** ipv4_addr_aton, its answer still in host order. */
  method ParseNumbers(cp: string) returns (r: Option<Word32>)
    ensures r == ParseFrom(cp, [])
  {
    var parts: seq<Word32>, pos: nat := [], 0;
    assert cp[0..] == cp;
    while true
      invariant Lead(parts) && pos <= |cp|
      invariant ParseFrom(cp[pos..], parts) == ParseFrom(cp, [])
      decreases |cp| - pos
    {
      var val;
      val, pos := CollectNumber(cp, pos);
      if At(cp, pos) == '.' {
        if |parts| >= 3 || val > 0xff {
          return None;
        }
        assert cp[pos..][1..] == cp[pos + 1..];
        parts, pos := parts + [val], pos + 1;
      } else {
        if At(cp, pos) != '\0' && !IsSpace(At(cp, pos)) {
          return None;
        }
        return Concoct(parts, val);
      }
    }
  }

  /** hton_long and ntoh_long on a little-endian machine. */
  function SwapBytes(x: Word32): Word32
  {
    x / 0x100_0000 + x / 0x1_0000 % 256 * 0x100 + x / 0x100 % 256 * 0x1_0000 + x % 256 * 0x100_0000
  }

  function Octets(a: nat, b: nat, c: nat, d: nat): nat
  {
    a * 0x100_0000 + b * 0x1_0000 + c * 0x100 + d
  }

  lemma SwapTwice(x: Word32)
    ensures SwapBytes(SwapBytes(x)) == x
  {
    var a, b, c, d := OctetsOf(x);
    BytesOfOctets(a, b, c, d);
    BytesOfOctets(d, c, b, a);
  }

  lemma OctetsOf(x: Word32) returns (a: Byte, b: Byte, c: Byte, d: Byte)
    ensures x == Octets(a, b, c, d)
  {
    var y, z := x / 256, x / 256 / 256;
    a, b, c, d := z / 256, z % 256, y % 256, x % 256;
  }

  lemma BytesOfOctets(a: Byte, b: Byte, c: Byte, d: Byte)
    ensures var x := Octets(a, b, c, d);
      && x / 0x100_0000 == a && x / 0x1_0000 % 256 == b && x / 0x100 % 256 == c && x % 256 == d
      && x < SPAN && SwapBytes(x) == Octets(d, c, b, a)
  {
    var x := Octets(a, b, c, d);
    QuotientIsUnique(0x100_0000, x, a, b * 0x1_0000 + c * 0x100 + d);
    QuotientIsUnique(0x1_0000, x, a * 256 + b, c * 0x100 + d);
    QuotientIsUnique(0x100, x, a * 0x1_0000 + b * 0x100 + c, d);
    QuotientIsUnique(0x100, a * 256 + b, a, b);
    QuotientIsUnique(0x100, a * 0x1_0000 + b * 0x100 + c, a * 256 + b, c);
  }

  /** ipv4_addr_aton: the address in network order. */
  method AddrAton(cp: string) returns (r: Option<Word32>)
    ensures r == match ParseFrom(cp, []) case None => None case Some(v) => Some(SwapBytes(v))
  {
    var v := ParseNumbers(cp);
    r := if v.None? then None else Some(SwapBytes(v.value));
  }

  /** get_ipaddr_from_str: back in host order. */
  method GetIpaddrFromStr(cp: string) returns (r: Option<Word32>)
    ensures r == ParseFrom(cp, [])
  {
    var nw := AddrAton(cp);
    if nw.None? {
      return None;
    }
    SwapTwice(ParseFrom(cp, []).value);
    r := Some(SwapBytes(nw.value));
  }

  // ----- what the parser accepts -----

  /** A number as written. */
  datatype Numeral = Dec(ds: string) | Oct(ds: string) | Hex(mark: char, ds: string)

  function BaseOf(n: Numeral): Base
  {
    match n
    case Dec(_) => 10
    case Oct(_) => 8
    case Hex(_, _) => 16
  }

  predicate AllDigits(ds: string, base: Base) { forall k :: 0 <= k < |ds| ==> IsDigitOf(ds[k], base) }

  predicate WellFormed(n: Numeral)
  {
    && AllDigits(n.ds, BaseOf(n))
    && (n.Dec? && n.ds != "" ==> n.ds[0] != '0')
    && (n.Hex? ==> HexMark(n.mark))
  }

  function Prefix(n: Numeral): string
  {
    match n
    case Dec(_) => ""
    case Oct(_) => "0"
    case Hex(mark, _) => ['0', mark]
  }

  function Text(n: Numeral): string { Prefix(n) + n.ds }

  /** The positional value of a digit string; the empty one is 0. */
  function Positional(ds: string, base: Base): nat
    requires AllDigits(ds, base)
  {
    if ds == "" then 0
    else Positional(ds[..|ds| - 1], base) * base + DigitValue(ds[|ds| - 1])
  }

  /** What 32 bits keep of it. */
  function Value(n: Numeral): Word32
    requires WellFormed(n)
  {
    Positional(n.ds, BaseOf(n)) % SPAN
  }

  /** One to any number of numerals with dots between them. */
  datatype Form = One(n: Numeral) | More(n: Numeral, rest: Form)

  predicate WellFormedAll(f: Form) { WellFormed(f.n) && (f.More? ==> WellFormedAll(f.rest)) }

  function FormText(f: Form): string
  {
    match f
    case One(n) => Text(n)
    case More(n, rest) => Text(n) + ("." + FormText(rest))
  }

  function Values(f: Form): (vs: seq<Word32>)
    requires WellFormedAll(f)
    ensures vs != []
  {
    match f
    case One(n) => [Value(n)]
    case More(n, rest) => [Value(n)] + Values(rest)
  }

  function Last(f: Form): Numeral { if f.One? then f.n else Last(f.rest) }

  /** Nothing, whitespace or a NUL may follow the last number, and then anything. */
  predicate GoodTail(tail: string) { At(tail, 0) == '\0' || IsSpace(At(tail, 0)) }

  function Part(vals: seq<nat>, k: nat): nat { if k < |vals| then vals[k] else 0 }

  /** What the last of n parts may count: all the bytes the leading ones leave. */
  function Room(n: nat): nat
    requires 1 <= n <= 4
  {
    if n == 1 then 0x1_0000_0000 else if n == 2 then 0x100_0000 else if n == 3 then 0x1_0000 else 0x100
  }

  /** One to four parts, the leading ones bytes, the last one filling the bytes left. */
  predicate InRange(vals: seq<nat>)
  {
    && 1 <= |vals| <= 4
    && (forall k :: 0 <= k < |vals| - 1 ==> vals[k] <= 0xff)
    && vals[|vals| - 1] < Room(|vals|)
  }

  /** Each leading part is the octet at its place; the last part is added as a number. */
  function Weighted(vals: seq<nat>): nat
    requires InRange(vals)
  {
    var lead := vals[..|vals| - 1];
    Octets(Part(lead, 0), Part(lead, 1), Part(lead, 2), 0) + vals[|vals| - 1]
  }

  /** The answer the weighted sum calls for. */
  predicate Means(r: Option<Word32>, vals: seq<Word32>)
  {
    if InRange(vals) then r.Some? && r.value == Weighted(vals) else r.None?
  }

  ghost predicate FormIn(text: string, f: Form, tail: string)
  {
    WellFormedAll(f) && text == FormText(f) + tail
  }

  /** The whole meaning of the parser: a text is accepted exactly if it is a dotted form in
      range with a good tail, and its value is the weighted sum. */
  lemma ParsesExactlyForms(text: string, v: Word32)
    ensures ParseFrom(text, []) == Some(v) <==>
      exists f, tail :: FormIn(text, f, tail) && GoodTail(tail) && InRange(Values(f)) && Weighted(Values(f)) == v
  {
    if ParseFrom(text, []) == Some(v) {
      var f, tail := Decompose(text);
      ParseForm([], f, tail);
      assert [] + Values(f) == Values(f);
      assert FormIn(text, f, tail);
    }
    forall f, tail | FormIn(text, f, tail) && GoodTail(tail) && InRange(Values(f)) && Weighted(Values(f)) == v
      ensures ParseFrom(text, []) == Some(v)
    {
      FormParses(f, tail);
    }
  }

  /** Every form with a good tail is decided by its weighted sum. */
  lemma FormParses(f: Form, tail: string)
    requires WellFormedAll(f) && GoodTail(tail)
    ensures Means(ParseFrom(FormText(f) + tail, []), Values(f))
  {
    ParseForm([], f, tail);
    assert [] + Values(f) == Values(f);
  }

  // ----- numbers that do not fit 32 bits -----

  /** The numbers as written. */
  function Written(f: Form): (vs: seq<nat>)
    requires WellFormedAll(f)
    ensures |vs| == |Values(f)| && forall k :: 0 <= k < |vs| ==> Values(f)[k] == vs[k] % SPAN
  {
    match f
    case One(n) => [Positional(n.ds, BaseOf(n))]
    case More(n, rest) => [Positional(n.ds, BaseOf(n))] + Written(rest)
  }

  /** The answer the numbers as written call for. */
  function RightAnswer(f: Form): Option<nat>
    requires WellFormedAll(f)
  {
    if InRange(Written(f)) then Some(Weighted(Written(f))) else None
  }

  predicate Fits32(vs: seq<nat>) { forall k :: 0 <= k < |vs| ==> vs[k] < SPAN }

  predicate SameAnswer(r: Option<Word32>, right: Option<nat>)
  {
    r.Some? == right.Some? && (r.Some? ==> r.value == right.value)
  }

  /** For every form: the answer is the right one exactly if every number as written is below
      2^32, or what 32 bits keep of them is refused anyway. */
  lemma RightExactly(f: Form, tail: string)
    requires WellFormedAll(f) && GoodTail(tail)
    ensures SameAnswer(ParseFrom(FormText(f) + tail, []), RightAnswer(f))
       <==> Fits32(Written(f)) || !InRange(Values(f))
  {
    FormParses(f, tail);
    if Fits32(Written(f)) {
      SmallKept(Values(f), Written(f));
    } else {
      var k :| 0 <= k < |Written(f)| && Written(f)[k] >= SPAN;
      TooLarge(Written(f), k);
    }
  }

  lemma SmallKept(vs: seq<nat>, ws: seq<nat>)
    requires |vs| == |ws| && Fits32(ws) && forall k :: 0 <= k < |vs| ==> vs[k] == ws[k] % SPAN
    ensures vs == ws
  {
    forall k | 0 <= k < |vs| ensures vs[k] == ws[k] {
      QuotientIsUnique(SPAN, ws[k], 0, ws[k]);
    }
  }

  lemma TooLarge(vs: seq<nat>, k: nat)
    requires k < |vs| && vs[k] >= SPAN
    ensures !InRange(vs)
  {
  }

  /** The numeral does not go on into the tail. */
  predicate Stops(n: Numeral, tail: string)
  {
    var c := At(tail, 0);
    !IsDigitOf(c, BaseOf(n)) && (n == Oct("") ==> !HexMark(c))
  }

  lemma {:induction false} DigitsFrom(base: Base, ds: string, tail: string, k: nat)
    requires AllDigits(ds, base) && k <= |ds| && !IsDigitOf(At(tail, 0), base)
    ensures Digits(ds[k..] + tail, base, Positional(ds[..k], base) % SPAN)
         == Scan(Positional(ds, base) % SPAN, tail)
    decreases |ds| - k
  {
    var text := ds[k..] + tail;
    if k < |ds| {
      var p := Positional(ds[..k], base);
      assert ds[..k + 1][..k] == ds[..k];
      AppendDigit(p, base, DigitValue(ds[k]));
      DigitsFrom(base, ds, tail, k + 1);
      assert text[0] == ds[k] && text[1..] == ds[k + 1..] + tail;
    } else {
      assert ds[..k] == ds && text == tail;
    }
  }

  lemma AppendDigit(p: nat, base: Base, d: nat)
    ensures (p % SPAN * base + d) % SPAN == (p * base + d) % SPAN
  {
    var q := p / SPAN;
    var x := p % SPAN * base + d;
    assert p * base + d == SPAN * (q * base) + x;
    QuotientIsUnique(SPAN, p * base + d, q * base + x / SPAN, x % SPAN);
  }

  /** A numeral is scanned to its end, and to its value in 32 bits. */
  lemma NumberIsValue(n: Numeral, tail: string)
    requires WellFormed(n) && Stops(n, tail)
    ensures Number(Text(n) + tail) == Scan(Value(n), tail)
  {
    NumberSkipsPrefix(n, tail);
    DigitsAll(BaseOf(n), n.ds, tail);
  }

  lemma DigitsAll(base: Base, ds: string, tail: string)
    requires AllDigits(ds, base) && !IsDigitOf(At(tail, 0), base)
    ensures Digits(ds + tail, base, 0) == Scan(Positional(ds, base) % SPAN, tail)
  {
    assert ds[..0] == "" && ds[0..] == ds;
    DigitsFrom(base, ds, tail, 0);
  }

  /** The prefix alone decides the base. */
  lemma NumberSkipsPrefix(n: Numeral, tail: string)
    requires WellFormed(n) && Stops(n, tail)
    ensures Number(Text(n) + tail) == Digits(n.ds + tail, BaseOf(n), 0)
  {
    var text := Text(n) + tail;
    assert text[|Prefix(n)|..] == n.ds + tail;
    if n.Oct? && n.ds != "" {
      assert text[1] == n.ds[0];
    }
  }

  /** A single number is the address, modulo 2^32, if what follows may follow. */
  lemma NumberDecides(n: Numeral, tail: string)
    requires WellFormed(n) && Stops(n, tail) && At(tail, 0) != '.'
    ensures ParseFrom(Text(n) + tail, []) == if GoodTail(tail) then Some(Value(n)) else None
  {
    NumberIsValue(n, tail);
  }

  lemma NumberAlone(n: Numeral, tail: string)
    requires WellFormed(n) && GoodTail(tail)
    ensures ParseFrom(Text(n) + tail, []) == Some(Value(n))
  {
    NumberDecides(n, tail);
  }

  lemma ConcoctMeans(parts: seq<Word32>, val: Word32)
    requires Lead(parts)
    ensures Means(Concoct(parts, val), parts + [val])
  {
    var vals := parts + [val];
    assert vals[..|vals| - 1] == parts;
  }

  lemma {:induction false} ParseForm(parts: seq<Word32>, f: Form, tail: string)
    requires Lead(parts) && WellFormedAll(f) && Stops(Last(f), tail) && At(tail, 0) != '.'
    ensures if GoodTail(tail) then Means(ParseFrom(FormText(f) + tail, parts), parts + Values(f))
            else ParseFrom(FormText(f) + tail, parts) == None
    decreases f
  {
    if f.One? {
      NumberIsValue(f.n, tail);
      ConcoctMeans(parts, Value(f.n));
    } else {
      var more := FormText(f.rest) + tail;
      Regroup(Text(f.n), ".", FormText(f.rest), tail);
      ParseNext(parts, f.n, more);
      if |parts| < 3 && Value(f.n) <= 0xff {
        ParseForm(parts + [Value(f.n)], f.rest, tail);
        assert parts + [Value(f.n)] + Values(f.rest) == parts + Values(f);
      } else {
        TooLong(parts, f);
      }
    }
  }

  lemma ParseNext(parts: seq<Word32>, n: Numeral, more: string)
    requires Lead(parts) && WellFormed(n)
    ensures ParseFrom(Text(n) + ("." + more), parts)
         == if |parts| >= 3 || Value(n) > 0xff then None else ParseFrom(more, parts + [Value(n)])
  {
    NumberIsValue(n, "." + more);
    assert ("." + more)[1..] == more;
  }

  lemma TooLong(parts: seq<Word32>, f: Form)
    requires WellFormedAll(f) && f.More? && |parts| <= 3 && (|parts| == 3 || Value(f.n) > 0xff)
    ensures !InRange(parts + Values(f))
  {
    assert (parts + Values(f))[|parts|] == Value(f.n) && |Values(f)| >= 2;
  }

  /** Every text is some dotted form followed by a tail that does not continue it. */
  lemma {:induction false} Decompose(text: string) returns (f: Form, tail: string)
    ensures FormIn(text, f, tail) && Stops(Last(f), tail) && At(tail, 0) != '.'
    decreases |text|
  {
    var n, after := TakeNumeral(text);
    if At(after, 0) == '.' {
      var rest;
      rest, tail := Decompose(after[1..]);
      f := More(n, rest);
      Joined(n, rest, tail, after);
    } else {
      f, tail := One(n), after;
    }
  }

  lemma Joined(n: Numeral, rest: Form, tail: string, after: string)
    requires At(after, 0) == '.' && after[1..] == FormText(rest) + tail
    ensures Text(n) + after == FormText(More(n, rest)) + tail
  {
    assert after == "." + (FormText(rest) + tail);
    Regroup(Text(n), ".", FormText(rest), tail);
  }

  lemma Regroup(a: string, b: string, c: string, d: string)
    ensures a + (b + (c + d)) == a + (b + c) + d
  {
  }

  lemma TakeNumeral(text: string) returns (n: Numeral, after: string)
    ensures WellFormed(n) && text == Text(n) + after && Stops(n, after)
  {
    var ds;
    if At(text, 0) != '0' {
      ds, after := TakeDigits(text, 10);
      n := Dec(ds);
    } else if HexMark(At(text, 1)) {
      ds, after := TakeDigits(text[2..], 16);
      n := Hex(text[1], ds);
      assert text == ['0', text[1]] + text[2..];
    } else {
      ds, after := TakeDigits(text[1..], 8);
      n := Oct(ds);
      assert text == "0" + text[1..];
    }
  }

  lemma {:induction false} TakeDigits(text: string, base: Base) returns (ds: string, after: string)
    ensures text == ds + after && AllDigits(ds, base) && !IsDigitOf(At(after, 0), base)
  {
    if text != "" && IsDigitOf(text[0], base) {
      ds, after := TakeDigits(text[1..], base);
      ds := [text[0]] + ds;
    } else {
      ds, after := "", text;
    }
  }
}
