/** The IPv4 parser and printer on texts spelled out digit by digit: what each digit counts,
    what each form means, and what may follow it. */
module Ipv4Digits {
  import opened Transport
  import opened Arithmetic
  import opened Ipv4Text
  import opened Ipv4Print

  const DECIMAL: string := "0123456789"
  const OCTAL: string := "01234567"
  const LOWER: string := "0123456789abcdef"
  const UPPER: string := "0123456789ABCDEF"

  /** x written with the digits of a table. */
  function Spelled(x: nat, table: string): string
    requires |table| >= 2
  {
    if x < |table| then [table[x]] else Spelled(x / |table|, table) + [table[x % |table|]]
  }

  /** The d-th character of the table is a digit of the base and counts d. */
  predicate CountsAs(table: string, base: Base, d: nat)
  {
    d < |table| && IsDigitOf(table[d], base) && DigitValue(table[d]) == d && (d > 0 ==> table[d] != '0')
  }

  predicate DigitTable(table: string, base: Base)
  {
    |table| == base && forall d :: 0 <= d < |table| ==> CountsAs(table, base, d)
  }

  lemma DecimalTable()
    ensures |DECIMAL| == 10 && DigitTable(DECIMAL, 10)
  {
    assert CountsAs(DECIMAL, 10, 0) && CountsAs(DECIMAL, 10, 1) && CountsAs(DECIMAL, 10, 2);
    assert CountsAs(DECIMAL, 10, 3) && CountsAs(DECIMAL, 10, 4) && CountsAs(DECIMAL, 10, 5);
    assert CountsAs(DECIMAL, 10, 6) && CountsAs(DECIMAL, 10, 7) && CountsAs(DECIMAL, 10, 8);
    assert CountsAs(DECIMAL, 10, 9);
  }

  lemma OctalTable()
    ensures |OCTAL| == 8 && DigitTable(OCTAL, 8)
  {
    assert CountsAs(OCTAL, 8, 0) && CountsAs(OCTAL, 8, 1) && CountsAs(OCTAL, 8, 2) && CountsAs(OCTAL, 8, 3);
    assert CountsAs(OCTAL, 8, 4) && CountsAs(OCTAL, 8, 5) && CountsAs(OCTAL, 8, 6) && CountsAs(OCTAL, 8, 7);
  }

  lemma LowerTable()
    ensures |LOWER| == 16 && DigitTable(LOWER, 16)
  {
    assert CountsAs(LOWER, 16, 0) && CountsAs(LOWER, 16, 1) && CountsAs(LOWER, 16, 2) && CountsAs(LOWER, 16, 3);
    assert CountsAs(LOWER, 16, 4) && CountsAs(LOWER, 16, 5) && CountsAs(LOWER, 16, 6) && CountsAs(LOWER, 16, 7);
    assert CountsAs(LOWER, 16, 8) && CountsAs(LOWER, 16, 9) && CountsAs(LOWER, 16, 10) && CountsAs(LOWER, 16, 11);
    assert CountsAs(LOWER, 16, 12) && CountsAs(LOWER, 16, 13) && CountsAs(LOWER, 16, 14) && CountsAs(LOWER, 16, 15);
  }

  lemma UpperTable()
    ensures |UPPER| == 16 && DigitTable(UPPER, 16)
  {
    assert CountsAs(UPPER, 16, 0) && CountsAs(UPPER, 16, 1) && CountsAs(UPPER, 16, 2) && CountsAs(UPPER, 16, 3);
    assert CountsAs(UPPER, 16, 4) && CountsAs(UPPER, 16, 5) && CountsAs(UPPER, 16, 6) && CountsAs(UPPER, 16, 7);
    assert CountsAs(UPPER, 16, 8) && CountsAs(UPPER, 16, 9) && CountsAs(UPPER, 16, 10) && CountsAs(UPPER, 16, 11);
    assert CountsAs(UPPER, 16, 12) && CountsAs(UPPER, 16, 13) && CountsAs(UPPER, 16, 14) && CountsAs(UPPER, 16, 15);
  }

  lemma {:induction false} SpelledDenotes(x: nat, table: string, base: Base)
    requires DigitTable(table, base)
    ensures var t := Spelled(x, table);
      t != "" && AllDigits(t, base) && Positional(t, base) == x && (x > 0 ==> t[0] != '0')
    decreases x
  {
    var t := Spelled(x, table);
    if x < base {
      assert CountsAs(table, base, x);
      assert t[..0] == "";
    } else {
      SpelledDenotes(x / base, table, base);
      assert CountsAs(table, base, x % base);
      assert t[..|t| - 1] == Spelled(x / base, table);
    }
  }

  // ----- single numbers -----

  /** A number as it is written in decimal digits. */
  lemma DecimalNumeral(x: nat) returns (n: Numeral)
    ensures WellFormed(n) && Text(n) == Spelled(x, DECIMAL)
    ensures Value(n) == x % SPAN && Positional(n.ds, BaseOf(n)) == x
    ensures (n.Dec? && n.ds != "") || (n == Oct("") && x == 0)
  {
    DecimalTable();
    SpelledDenotes(x, DECIMAL, 10);
    if x == 0 {
      n := Oct("");
      assert Spelled(0, DECIMAL) == "0";
    } else {
      n := Dec(Spelled(x, DECIMAL));
      DecDenotes(n.ds, x);
    }
  }

  /** Every 32-bit number in decimal digits parses to itself. */
  lemma DecimalParses(x: Word32)
    ensures ParseFrom(Spelled(x, DECIMAL), []) == Some(x)
  {
    var n := DecimalNumeral(x);
    NumberAlone(n, "");
    assert Text(n) + "" == Text(n);
    QuotientIsUnique(SPAN, x, 0, x);
  }

  /** In hexadecimal digits of either case, behind 0x or 0X. */
  lemma HexadecimalParses(x: Word32)
    ensures ParseFrom("0x" + Spelled(x, LOWER), []) == ParseFrom("0X" + Spelled(x, LOWER), []) == Some(x)
    ensures ParseFrom("0x" + Spelled(x, UPPER), []) == ParseFrom("0X" + Spelled(x, UPPER), []) == Some(x)
  {
    LowerTable();
    UpperTable();
    HexadecimalParse(x, 'x', LOWER);
    HexadecimalParse(x, 'X', LOWER);
    HexadecimalParse(x, 'x', UPPER);
    HexadecimalParse(x, 'X', UPPER);
  }

  lemma HexadecimalParse(x: Word32, mark: char, table: string)
    requires HexMark(mark) && DigitTable(table, 16)
    ensures ParseFrom(['0', mark] + Spelled(x, table), []) == Some(x)
  {
    SpelledDenotes(x, table, 16);
    var n := Hex(mark, Spelled(x, table));
    NumberAlone(n, "");
    assert Text(n) + "" == ['0', mark] + Spelled(x, table);
    QuotientIsUnique(SPAN, x, 0, x);
  }

  /** In octal digits behind a 0. */
  lemma OctalParses(x: Word32)
    ensures ParseFrom("0" + Spelled(x, OCTAL), []) == Some(x)
  {
    OctalTable();
    SpelledDenotes(x, OCTAL, 8);
    var n := Oct(Spelled(x, OCTAL));
    NumberAlone(n, "");
    assert Text(n) + "" == "0" + Spelled(x, OCTAL);
    QuotientIsUnique(SPAN, x, 0, x);
  }

  /** The digits 8 and 9 pass there too, and count as such. */
  lemma LooseOctal(a: nat, b: nat)
    requires a < 10 && b < 10
    ensures ParseFrom("0" + [DECIMAL[a], DECIMAL[b]], []) == Some(8 * a + b)
  {
    DecimalTable();
    assert CountsAs(DECIMAL, 10, a) && CountsAs(DECIMAL, 10, b);
    var ds := [DECIMAL[a], DECIMAL[b]];
    TwoDigits(ds);
    NumberAlone(Oct(ds), "");
    assert Text(Oct(ds)) + "" == "0" + ds;
    QuotientIsUnique(SPAN, 8 * a + b, 0, 8 * a + b);
  }

  lemma TwoDigits(ds: string)
    requires |ds| == 2 && IsDigit(ds[0]) && IsDigit(ds[1])
    ensures AllDigits(ds, 8) && Positional(ds, 8) == 8 * DigitValue(ds[0]) + DigitValue(ds[1])
  {
    assert ds[..1][..0] == "";
    assert Positional(ds[..1], 8) == Positional("", 8) * 8 + DigitValue(ds[0]);
  }

  // ----- dotted forms -----

  function Dotted(xs: seq<nat>): string
    requires xs != []
  {
    if |xs| == 1 then Spelled(xs[0], DECIMAL) else Spelled(xs[0], DECIMAL) + ("." + Dotted(xs[1..]))
  }

  lemma {:induction false} DottedForm(xs: seq<Word32>) returns (f: Form)
    requires xs != []
    ensures WellFormedAll(f) && FormText(f) == Dotted(xs) && Values(f) == xs
  {
    var n := DecimalNumeral(xs[0]);
    QuotientIsUnique(SPAN, xs[0], 0, xs[0]);
    if |xs| == 1 {
      f := One(n);
    } else {
      var rest := DottedForm(xs[1..]);
      f := More(n, rest);
      MoreWords(n, rest, xs);
    }
  }

  lemma MoreWords(n: Numeral, rest: Form, xs: seq<Word32>)
    requires WellFormed(n) && WellFormedAll(rest) && xs != [] && Values(rest) == xs[1..] && Value(n) == xs[0]
    ensures Values(More(n, rest)) == xs
  {
  }

  /** One to four parts of any 32-bit size: accepted exactly if all but the last are below
      256 and the last is below what they leave of 2^32; with the value that gives. */
  lemma PartsParse(a: Word32, b: Word32, c: Word32, d: Word32)
    ensures ParseFrom(Dotted([a, b]), [])
         == if a < 256 && b < 16777216 then Some(a as int * 16777216 + b) else None
    ensures ParseFrom(Dotted([a, b, c]), [])
         == if a < 256 && b < 256 && c < 65536 then Some(a as int * 16777216 + b as int * 65536 + c) else None
    ensures ParseFrom(Dotted([a, b, c, d]), [])
         == if a < 256 && b < 256 && c < 256 && d < 256
            then Some(a as int * 16777216 + b as int * 65536 + c as int * 256 + d) else None
  {
    PartsMean([a, b]);
    TwoParts(ParseFrom(Dotted([a, b]), []), a, b);
    PartsMean([a, b, c]);
    ThreeParts(ParseFrom(Dotted([a, b, c]), []), a, b, c);
    PartsMean([a, b, c, d]);
    FourParts(ParseFrom(Dotted([a, b, c, d]), []), a, b, c, d);
  }

  lemma TwoParts(r: Option<Word32>, a: Word32, b: Word32)
    requires Means(r, [a, b])
    ensures r == if a < 256 && b < 16777216 then Some(a as int * 16777216 + b) else None
  {
    assert [a, b][..1] == [a];
  }

  lemma ThreeParts(r: Option<Word32>, a: Word32, b: Word32, c: Word32)
    requires Means(r, [a, b, c])
    ensures r == if a < 256 && b < 256 && c < 65536 then Some(a as int * 16777216 + b as int * 65536 + c) else None
  {
    assert [a, b, c][..2] == [a, b];
  }

  lemma FourParts(r: Option<Word32>, a: Word32, b: Word32, c: Word32, d: Word32)
    requires Means(r, [a, b, c, d])
    ensures r == if a < 256 && b < 256 && c < 256 && d < 256
                 then Some(a as int * 16777216 + b as int * 65536 + c as int * 256 + d) else None
  {
    assert [a, b, c, d][..3] == [a, b, c];
  }

  lemma PartsMean(xs: seq<Word32>)
    requires xs != []
    ensures Means(ParseFrom(Dotted(xs), []), xs)
  {
    var f := DottedForm(xs);
    FormParses(f, "");
    assert FormText(f) + "" == FormText(f);
  }

  /** Five parts or more are refused. */
  lemma FivePartsRefused(xs: seq<Word32>)
    requires |xs| >= 5
    ensures ParseFrom(Dotted(xs), []) == None
  {
    PartsMean(xs);
  }

  /** Of the characters that do not continue a number, exactly NUL, tab, line feed, vertical
      tab, form feed, carriage return and space may follow the last one; what comes behind
      them does not matter. */
  lemma TailDecides(x: Word32, c: char, rest: string)
    requires !('0' <= c <= '9') && c != '.' && (x == 0 ==> c != 'x' && c != 'X')
    ensures ParseFrom(Spelled(x, DECIMAL) + ([c] + rest), [])
         == if c as int == 0 || 9 <= c as int <= 13 || c as int == 32 then Some(x) else None
  {
    var n := DecimalNumeral(x);
    QuotientIsUnique(SPAN, x, 0, x);
    StopsAt(n, x, c, rest);
    NumberDecides(n, [c] + rest);
  }

  lemma StopsAt(n: Numeral, x: nat, c: char, rest: string)
    requires (n.Dec? && n.ds != "") || (n == Oct("") && x == 0)
    requires !('0' <= c <= '9') && c != '.' && (x == 0 ==> c != 'x' && c != 'X')
    ensures Stops(n, [c] + rest) && At([c] + rest, 0) == c
    ensures GoodTail([c] + rest) <==> c as int == 0 || 9 <= c as int <= 13 || c as int == 32
  {
  }

  // ----- the printer and the byte order -----

  lemma {:induction false} DecimalIsSpelled(b: nat)
    ensures DecimalText(b) == Spelled(b, DECIMAL)
    decreases b
  {
    DecimalTable();
    if b >= 10 {
      DecimalIsSpelled(b / 10);
      DigitIsTable(b % 10);
    } else {
      DigitIsTable(b);
    }
  }

  lemma DigitIsTable(d: nat)
    requires d < 10
    ensures |DECIMAL| == 10 && DigitChar(d) == DECIMAL[d]
  {
    DecimalTable();
    assert CountsAs(DECIMAL, 10, d);
  }

  /** The printed text is the four octets, most significant first, in decimal without leading
      zeros, with dots between them. */
  lemma AddressSpelled(a: Byte, b: Byte, c: Byte, d: Byte)
    ensures AddressText(a as int * 16777216 + b as int * 65536 + c as int * 256 + d) == Dotted([a, b, c, d])
  {
    TextOfOctets(a, b, c, d);
    DotsAreDotted([a, b, c, d]);
  }

  lemma {:induction false} DotsAreDotted(xs: seq<Byte>)
    requires xs != []
    ensures DotsBetween(xs) == Dotted(xs)
  {
    DecimalIsSpelled(xs[0]);
    if |xs| > 1 {
      DotsAreDotted(xs[1..]);
    }
  }

  /** hton_long reverses the bytes. */
  lemma SwapReverses(a: Byte, b: Byte, c: Byte, d: Byte)
    ensures SwapBytes(a as int * 16777216 + b as int * 65536 + c as int * 256 + d)
         == d as int * 16777216 + c as int * 65536 + b as int * 256 + a
  {
    BytesOfOctets(a, b, c, d);
  }
}
