/** ipv4_addr_ntoa, the dotted decimal printer, and the round trip through the parser. */
module Ipv4Print {
  import opened Transport
  import opened Arithmetic
  import opened Ipv4Text

  function DigitChar(d: int): char
    requires 0 <= d < 10
  {
    ('0' as int + d) as char
  }

  /** An octet in decimal, without leading zeros. */
  function DecimalText(b: nat): string
  {
    if b < 10 then [DigitChar(b)] else DecimalText(b / 10) + [DigitChar(b % 10)]
  }

  /** The octets, most significant first, each with a dot behind it. */
  function DottedText(octets: seq<Byte>): string
  {
    if octets == [] then "" else DottedText(octets[..|octets| - 1]) + DecimalText(octets[|octets| - 1]) + "."
  }

  /** The octets in reading order with dots between them. */
  function DotsBetween(octets: seq<Byte>): string
    requires octets != []
  {
    if |octets| == 1 then DecimalText(octets[0])
    else DecimalText(octets[0]) + ("." + DotsBetween(octets[1..]))
  }

  function AddressText(addr: Word32): string { DotsBetween(MemoryOf(SwapBytes(addr))) }

  /** The bytes of a word in little-endian memory. */
  function MemoryOf(x: Word32): seq<Byte>
  {
    [x % 256, x / 0x100 % 256, x / 0x1_0000 % 256, x / 0x100_0000]
  }

  /** The do-while loop over one octet: its digits land in inv, least significant first. */
  method InverseDigits(octet: Byte, inv: array<char>) returns (i: nat)
    requires inv.Length == 3
    modifies inv
    ensures 1 <= i <= 3 && i == |DecimalText(octet)|
    ensures forall k :: 0 <= k < i ==> inv[i - 1 - k] == DecimalText(octet)[k]
  {
    var ap: Byte := octet;
    i := 0;
    ghost var done := "";
    var again := true;
    while again
      invariant 0 <= i == |done| <= 3 && (forall k :: 0 <= k < i ==> inv[i - 1 - k] == done[k])
      invariant again ==> DecimalText(octet) == DecimalText(ap) + done
      invariant again ==> (i == 0 || (i == 1 && 1 <= ap < 26) || (i == 2 && 1 <= ap < 3))
      invariant !again ==> DecimalText(octet) == done && i >= 1
      decreases again, ap
    {
      var rem := ap % 10;
      done := [DigitChar(rem)] + done;
      ap := ap / 10;
      inv[i] := DigitChar(rem);
      i := i + 1;
      again := ap != 0;
    }
  }

  /** A buffer whose first characters have been overwritten by t. */
  ghost function Overlaid(base: string, t: string): string
    requires |t| <= |base|
  {
    t + base[|t|..]
  }

  /** The part of t that fits into the given length. */
  ghost function Fitting(t: string, buflen: int): string
  {
    if buflen <= 0 then "" else if buflen < |t| then t[..buflen] else t
  }

  /** `*rp++ = c` behind the length check, on a buffer that shows `text` so far. */
  method Put(buf: array<char>, buflen: int, len: nat, c: char, ghost base: string, ghost text: string)
    returns (ok: bool)
    requires buflen <= buf.Length == |base| && len == |text| <= |base|
    requires buf[..] == Overlaid(base, text) && (len <= buflen || len == 0)
    modifies buf
    ensures ok <==> len < buflen
    ensures ok ==> buf[..] == Overlaid(base, text + [c])
    ensures !ok ==> buf[..] == Overlaid(base, Fitting(text + [c], buflen))
  {
    if len >= buflen {
      assert Fitting(text + [c], buflen) == text;
      return false;
    }
    buf[len] := c;
    assert base[len..][1..] == base[len + 1..];
    ok := true;
  }

  /** The inner loop that copies the digits out in reading order. */
  method PutDigits(buf: array<char>, buflen: int, len0: nat, inv: array<char>, i0: nat,
                   ghost base: string, ghost text: string, ghost digits: string)
    returns (ok: bool, len: nat)
    requires inv != buf && i0 == |digits| <= inv.Length
    requires forall j :: 0 <= j < i0 ==> inv[i0 - 1 - j] == digits[j]
    requires buflen <= buf.Length == |base| && len0 == |text| <= |base|
    requires buf[..] == Overlaid(base, text) && (len0 <= buflen || len0 == 0)
    modifies buf
    ensures ok ==> len == |text + digits| && (len <= buflen || len == 0)
    ensures ok ==> len <= |base| && buf[..] == Overlaid(base, text + digits)
    ensures !ok ==> buflen < |text + digits| && |Fitting(text + digits, buflen)| <= |base|
    ensures !ok ==> buf[..] == Overlaid(base, Fitting(text + digits, buflen))
  {
    var i := i0;
    len := len0;
    ghost var shown := text;
    while i > 0
      invariant 0 <= i <= i0 && len == len0 + (i0 - i)
      invariant shown == text + digits[..i0 - i]
      invariant len <= |base| && (len <= buflen || len == 0)
      invariant buf[..] == Overlaid(base, shown)
    {
      i := i - 1;
      ghost var more := shown + [inv[i]];
      assert inv[i] == digits[i0 - 1 - i];
      assert more == text + digits[..i0 - i];
      ok := Put(buf, buflen, len, inv[i], base, shown);
      if !ok {
        FittingOfPrefix(text + digits, more, buflen);
        return;
      }
      len, shown := len + 1, more;
    }
    assert shown == text + digits;
    ok := true;
  }

  lemma FittingOfPrefix(t: string, prefix: string, buflen: int)
    requires prefix <= t && buflen < |prefix|
    ensures Fitting(prefix, buflen) == Fitting(t, buflen)
  {
  }

  /** One octet's digits and its dot. */
  method PutOctet(buf: array<char>, buflen: int, len0: nat, octet: Byte, inv: array<char>,
                  ghost base: string, ghost text: string)
    returns (ok: bool, len: nat)
    requires inv.Length == 3 && inv != buf
    requires buflen <= buf.Length == |base| && len0 == |text| <= |base|
    requires buf[..] == Overlaid(base, text) && (len0 <= buflen || len0 == 0)
    modifies buf, inv
    ensures var t := text + (DecimalText(octet) + ".");
      && (ok <==> |t| <= buflen)
      && (ok ==> len == |t| && buf[..] == Overlaid(base, t))
      && (!ok ==> |Fitting(t, buflen)| <= |base| && buf[..] == Overlaid(base, Fitting(t, buflen)))
  {
    var i := InverseDigits(octet, inv);
    ghost var digits := DecimalText(octet);
    ghost var t := text + (digits + ".");
    assert t == text + digits + ['.'];
    ok, len := PutDigits(buf, buflen, len0, inv, i, base, text, digits);
    if !ok {
      FittingOfPrefix(t, text + digits, buflen);
      return;
    }
    ok := Put(buf, buflen, len, '.', base, text + digits);
    len := len + 1;
  }

  /** The loop over the four octets. */
  method PutOctets(buf: array<char>, buflen: int, ap: seq<Byte>, ghost base: string)
    returns (ok: bool, len: nat)
    requires buflen <= buf.Length && buf[..] == base && |ap| == 4
    modifies buf
    ensures ok <==> |DottedText(ap)| <= buflen
    ensures ok ==> len == |DottedText(ap)| && buf[..] == Overlaid(base, DottedText(ap))
    ensures |Fitting(DottedText(ap), buflen)| <= |base|
    ensures !ok ==> buf[..] == Overlaid(base, Fitting(DottedText(ap), buflen))
  {
    var inv := new char[3];
    len := 0;
    var n := 0;
    ghost var text := "";
    while n < 4
      invariant 0 <= n <= 4 && text == DottedText(ap[..n]) && len == |text| <= |base|
      invariant len <= buflen || len == 0
      invariant buf[..] == Overlaid(base, text)
    {
      DottedGrows(ap, n);
      ok, len := PutOctet(buf, buflen, len, ap[n], inv, base, text);
      if !ok {
        FittingPrefix(ap, n + 1, buflen);
        return;
      }
      text := DottedText(ap[..n + 1]);
      n := n + 1;
    }
    assert ap[..4] == ap;
    DottedGrows(ap, 3);
    ok := true;
  }

  /** ipv4_addr_ntoa: false for NULL. */
  method AddrNtoa(addr: Word32, buf: array<char>, buflen: int) returns (ok: bool)
    requires buflen <= buf.Length
    modifies buf
    ensures ok <==> |AddressText(addr)| + 1 <= buflen
    ensures ok ==> buf[..] == Overlaid(old(buf[..]), AddressText(addr) + "\0")
    ensures |Fitting(AddressText(addr) + ".", buflen)| <= buf.Length
    ensures !ok ==> buf[..] == Overlaid(old(buf[..]), Fitting(AddressText(addr) + ".", buflen))
  {
    var ap := MemoryOf(SwapBytes(addr));
    DotsAgree(ap);
    var len;
    ok, len := PutOctets(buf, buflen, ap, buf[..]);
    if ok {
      buf[len - 1] := '\0';
    }
  }

  lemma {:induction false} DotsAgree(octets: seq<Byte>)
    requires octets != []
    ensures DottedText(octets) == DotsBetween(octets) + "."
  {
    var last := |octets| - 1;
    if last > 0 {
      DotsAgree(octets[..last]);
      DotsAppend(octets[..last], octets[last]);
      assert octets[..last] + [octets[last]] == octets;
    }
  }

  lemma {:induction false} DotsAppend(octets: seq<Byte>, b: Byte)
    requires octets != []
    ensures DotsBetween(octets + [b]) == DotsBetween(octets) + "." + DecimalText(b)
  {
    assert (octets + [b])[1..] == octets[1..] + [b];
    if |octets| > 1 {
      DotsAppend(octets[1..], b);
    }
  }

  lemma DottedGrows(octets: seq<Byte>, n: nat)
    requires n < |octets|
    ensures DottedText(octets[..n + 1]) == DottedText(octets[..n]) + (DecimalText(octets[n]) + ".")
  {
    assert octets[..n + 1][..n] == octets[..n];
  }

  /** What did not fit of the first octets is what does not fit of them all. */
  lemma {:induction false} FittingPrefix(octets: seq<Byte>, n: nat, buflen: int)
    requires 1 <= n <= |octets| && buflen < |DottedText(octets[..n])|
    ensures Fitting(DottedText(octets[..n]), buflen) == Fitting(DottedText(octets), buflen)
    ensures buflen < |DottedText(octets)|
    decreases |octets| - n
  {
    if n < |octets| {
      DottedGrows(octets, n);
      FittingPrefix(octets, n + 1, buflen);
    } else {
      assert octets[..n] == octets;
    }
  }

  // ----- printed text is read back -----

  /** Decimal text denotes its number, in digits, with no leading zero. */
  lemma {:induction false} DecimalDenotes(b: nat)
    ensures var t := DecimalText(b);
      && AllDigits(t, 10) && Positional(t, 10) == b && t != "" && (b > 0 ==> t[0] != '0')
    decreases b
  {
    var t := DecimalText(b);
    if b >= 10 {
      DecimalDenotes(b / 10);
      assert t[..|t| - 1] == DecimalText(b / 10);
    } else {
      assert t[..0] == "";
    }
  }

  /** A number as the printer writes it: 0 is an octal number without digits. */
  lemma Printed(b: nat) returns (n: Numeral)
    ensures WellFormed(n) && Text(n) == DecimalText(b) && Value(n) == b % SPAN
  {
    if b == 0 {
      n := Oct("");
      assert DecimalText(0) == "0";
    } else {
      n := Dec(DecimalText(b));
      DecimalDenotes(b);
      DecDenotes(n.ds, b);
    }
  }

  lemma DecDenotes(t: string, b: nat)
    requires AllDigits(t, 10) && Positional(t, 10) == b && t != "" && t[0] != '0'
    ensures WellFormed(Dec(t)) && Text(Dec(t)) == t && Value(Dec(t)) == b % SPAN
  {
  }

  lemma {:induction false} PrintedForm(octets: seq<Byte>) returns (f: Form)
    requires octets != []
    ensures WellFormedAll(f) && FormText(f) == DotsBetween(octets) && Values(f) == octets
  {
    var n := Printed(octets[0]);
    if |octets| == 1 {
      f := One(n);
    } else {
      var rest := PrintedForm(octets[1..]);
      f := More(n, rest);
      MoreDenotes(n, rest, octets);
    }
  }

  lemma MoreDenotes(n: Numeral, rest: Form, octets: seq<Byte>)
    requires WellFormed(n) && WellFormedAll(rest) && octets != [] && Values(rest) == octets[1..]
    requires Value(n) == octets[0]
    ensures Values(More(n, rest)) == octets
  {
  }

  /** The decimal text of any number is accepted, and reduced modulo 2^32: the parser is
      right about it exactly if the number is an address. */
  lemma OverflowWraps(x: nat, tail: string)
    requires GoodTail(tail)
    ensures ParseFrom(DecimalText(x) + tail, []) == Some(x % SPAN)
  {
    var n := Printed(x);
    NumberAlone(n, tail);
  }

  /** So a wrong address can come out of a dotted form too: the first part of this one is
      2^32 + a, and the text is accepted as a.b.c.d. */
  lemma WrappedPartAccepted(a: Byte, b: Byte, c: Byte, d: Byte, tail: string)
    requires GoodTail(tail)
    ensures ParseFrom(DecimalText(SPAN + a) + ("." + DotsBetween([b, c, d])) + tail, [])
         == Some(Octets(a, b, c, d))
  {
    var n := Printed(SPAN + a);
    QuotientIsUnique(SPAN, SPAN + a, 1, a);
    var rest := PrintedForm([b, c, d]);
    MoreDenotes(n, rest, [a, b, c, d]);
    FormParses(More(n, rest), tail);
    WeightedOctets(a, b, c, d);
    BytesOfOctets(a, b, c, d);
  }

  /** The octets of the text are those of the address, most significant first. */
  lemma TextOfOctets(a: Byte, b: Byte, c: Byte, d: Byte)
    ensures MemoryOf(SwapBytes(Octets(a, b, c, d))) == [a, b, c, d]
  {
    BytesOfOctets(a, b, c, d);
    BytesOfOctets(d, c, b, a);
  }

  /** Printing then parsing gives the address back, whatever lies behind the terminator. */
  lemma PrintThenParse(addr: Word32, beyond: string)
    ensures ParseFrom(AddressText(addr) + ("\0" + beyond), []) == Some(addr)
  {
    var a, b, c, d := OctetsOf(addr);
    TextOfOctets(a, b, c, d);
    var f := PrintedForm([a, b, c, d]);
    FormParses(f, "\0" + beyond);
    WeightedOctets(a, b, c, d);
  }

  lemma WeightedOctets(a: Byte, b: Byte, c: Byte, d: Byte)
    ensures InRange([a, b, c, d]) && Weighted([a, b, c, d]) == Octets(a, b, c, d)
  {
  }

  lemma Terminated(base: string, text: string)
    requires |text| + 1 <= |base|
    ensures Overlaid(base, text + "\0") == text + ("\0" + base[|text| + 1..])
  {
  }

  /** The two together, on a buffer with any content. */
  method RoundTrip(addr: Word32, buf: array<char>, buflen: int) returns (r: Option<Word32>)
    requires buflen <= buf.Length
    modifies buf
    ensures r == if |AddressText(addr)| + 1 <= buflen then Some(addr) else None
  {
    ghost var base, text := buf[..], AddressText(addr);
    var ok := AddrNtoa(addr, buf, buflen);
    if !ok {
      return None;
    }
    Terminated(base, text);
    PrintThenParse(addr, base[|text| + 1..]);
    r := GetIpaddrFromStr(buf[..]);
  }
}
