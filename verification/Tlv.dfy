/** The type-length-value form of control messages: compose_tlv writes an endpoint name and
    the data; the loop in rpc_req_handler reads elements back with parse_tlv. */
module Tlv {
  import opened Transport

  const EPNAME: Byte := 1
  const DATA: Byte := 2
  const FIELDS: nat := 3          // type and length
  const EPNAME_MAX: nat := 16

  /** What the parse loop hands to the request handler. Outside marks a length that leaves
      the buffer, which parse_tlv does not notice. */
  datatype Parsed = Request(epname: seq<Byte>, data: seq<Byte>) | Failed | Outside

  // ----- composing -----

  /** One element; the length is cut to its 16-bit field. */
  function Element(kind: Byte, value: seq<Byte>): seq<Byte>
  {
    var len: Word16 := |value| % 0x1_0000;
    [kind, Low(len), High(len)] + value
  }

  function Compose(epname: seq<Byte>, data: seq<Byte>): seq<Byte>
  {
    Element(EPNAME, epname) + Element(DATA, data)
  }

  /** A zeroed buffer filled up to len. */
  ghost predicate FilledTo(buf: array<Byte>, len: nat, text: seq<Byte>)
    reads buf
  {
    len == |text| <= buf.Length && buf[..len] == text
  }

  method PutByte(buf: array<Byte>, len: nat, b: Byte, ghost text: seq<Byte>)
    requires FilledTo(buf, len, text) && len < buf.Length
    modifies buf
    ensures FilledTo(buf, len + 1, text + [b])
  {
    buf[len] := b;
  }

  method PutBytes(buf: array<Byte>, len: nat, s: seq<Byte>, ghost text: seq<Byte>)
    requires FilledTo(buf, len, text) && len + |s| <= buf.Length
    modifies buf
    ensures FilledTo(buf, len + |s|, text + s)
  {
    var i := 0;
    while i < |s|
      invariant 0 <= i <= |s| && FilledTo(buf, len + i, text + s[..i])
    {
      buf[len + i] := s[i];
      i := i + 1;
      assert text + s[..i] == text + s[..i - 1] + [s[i - 1]];
    }
    assert s[..i] == s;
  }

  method PutFields(buf: array<Byte>, len: nat, kind: Byte, size: nat, ghost text: seq<Byte>)
    requires FilledTo(buf, len, text) && len + FIELDS <= buf.Length
    modifies buf
    ensures FilledTo(buf, len + FIELDS, text + [kind, Low(size % 0x1_0000), High(size % 0x1_0000)])
  {
    PutByte(buf, len, kind, text);
    PutByte(buf, len + 1, size % 256, text + [kind]);
    PutByte(buf, len + 2, size / 256 % 256, text + [kind] + [size % 256]);
    ghost var w := size % 0x1_0000;
    assert Low(w) == size % 256 && High(w) == size / 256 % 256;
    assert text + [kind] + [Low(w)] + [High(w)] == text + [kind, Low(w), High(w)];
  }

  method PutElement(buf: array<Byte>, len: nat, kind: Byte, value: seq<Byte>, ghost text: seq<Byte>)
    requires FilledTo(buf, len, text) && len + FIELDS + |value| <= buf.Length
    modifies buf
    ensures FilledTo(buf, len + FIELDS + |value|, text + Element(kind, value))
  {
    PutFields(buf, len, kind, |value|, text);
    ghost var fields := [kind, Low(|value| % 0x1_0000), High(|value| % 0x1_0000)];
    PutBytes(buf, len + FIELDS, value, text + fields);
    assert text + fields + value == text + Element(kind, value);
  }

  /** compose_tlv with its running index. The name is a C string, short enough for the
      16-bit index. */
  method ComposeTlv(epname: seq<Byte>, data: seq<Byte>) returns (buf: array<Byte>)
    requires |epname| + 2 * FIELDS < 0x1_0000
    ensures buf[..] == Compose(epname, data)
  {
    var bufLen := FIELDS + |epname| + FIELDS + |data|;
    buf := new Byte[bufLen](_ => 0);
    var len := 0;
    PutElement(buf, len, EPNAME, epname, []);
    len := len + FIELDS + |epname|;
    assert [] + Element(EPNAME, epname) == Element(EPNAME, epname);
    PutElement(buf, len, DATA, data, Element(EPNAME, epname));
    assert buf[..bufLen] == buf[..];
  }

  // ----- parsing -----

  /** A C string's contents: what stands before the first zero. */
  function CString(s: seq<Byte>): seq<Byte>
  {
    if s == [] || s[0] == 0 then [] else [s[0]] + CString(s[1..])
  }

  function Zeros(n: nat): seq<Byte> { seq(n, _ => 0) }

  /** The state of the parse loop: the 16-byte name buffer and the data, once seen. */
  datatype Found = Found(epname: seq<Byte>, seen: bool, data: seq<Byte>)

  function Nothing(): Found { Found(Zeros(EPNAME_MAX), false, []) }

  predicate NameSized(f: Found) { |f.epname| == EPNAME_MAX }

  /** A name is laid over the start of its buffer; the last data wins. */
  function ParseFrom(buf: seq<Byte>, f: Found): Parsed
    requires NameSized(f)
    decreases |buf|
  {
    if buf == [] then
      if !f.seen || f.data == [] || CString(f.epname) == [] then Failed
      else Request(CString(f.epname), f.data)
    else if |buf| < FIELDS || |buf| < FIELDS + Word(buf[1], buf[2]) then Outside
    else
      var len := Word(buf[1], buf[2]);
      var value, rest := buf[FIELDS..FIELDS + len], buf[FIELDS + len..];
      if buf[0] == EPNAME then
        if len >= EPNAME_MAX - 1 then Failed
        else ParseFrom(rest, f.(epname := value + f.epname[len..]))
      else if buf[0] == DATA then ParseFrom(rest, f.(seen := true, data := value))
      else Failed
  }

  function Parse(buf: seq<Byte>): Parsed { ParseFrom(buf, Nothing()) }

  /** strlen on the name buffer, and the characters before the terminator. */
  method NameOf(epname: array<Byte>) returns (name: seq<Byte>)
    ensures name == CString(epname[..])
  {
    var i := 0;
    assert epname[0..] == epname[..];
    while i < epname.Length && epname[i] != 0
      invariant 0 <= i <= epname.Length
      invariant CString(epname[..]) == epname[..i] + CString(epname[i..])
    {
      assert epname[i..][1..] == epname[i + 1..];
      assert epname[..i] + [epname[i]] == epname[..i + 1];
      i := i + 1;
    }
    name := epname[..i];
  }

  /** rpc_req_handler up to the call of the request handler. */
  method ReqHandler(input: seq<Byte>) returns (r: Parsed)
    ensures r == Parse(input)
  {
    var epname := new Byte[EPNAME_MAX](_ => 0);
    assert epname[..] == Zeros(EPNAME_MAX);
    var seen, data, buf := false, [], input;
    while buf != []
      invariant ParseFrom(buf, Found(epname[..], seen, data)) == Parse(input)
      decreases |buf|
    {
      if |buf| < FIELDS || |buf| < FIELDS + Word(buf[1], buf[2]) {
        return Outside;
      }
      var kind, len := buf[0], Word(buf[1], buf[2]);
      var ptr := buf[FIELDS..FIELDS + len];
      ghost var rest := buf[FIELDS + len..];
      if kind == EPNAME {
        if len >= EPNAME_MAX - 1 {
          return Failed;
        }
        CopyName(epname, ptr);
      } else if kind == DATA {
        seen, data := true, ptr;
      } else {
        return Failed;
      }
      buf := buf[FIELDS + len..];
    }
    var name := NameOf(epname);
    r := if !seen || data == [] || name == [] then Failed else Request(name, data);
  }

  /** memcpy of a name into its buffer. */
  method CopyName(epname: array<Byte>, value: seq<Byte>)
    requires |value| <= epname.Length
    modifies epname
    ensures epname[..] == value + old(epname[..])[|value|..]
  {
    var i := 0;
    while i < |value|
      invariant 0 <= i <= |value|
      invariant epname[..i] == value[..i] && epname[i..] == old(epname[..])[i..]
    {
      epname[i] := value[i];
      i := i + 1;
      assert epname[..i] == epname[..i - 1] + [value[i - 1]];
    }
    assert value[..i] == value && epname[..] == epname[..i] + epname[i..];
  }

  // ----- round trip -----

  /** A name that is a C string and data whose length fits its field. */
  predicate Composable(epname: seq<Byte>, data: seq<Byte>)
  {
    0 !in epname && |epname| < 0x1_0000 && |data| < 0x1_0000
  }

  /** Parsing a composed message gives back the name and the data exactly if the name has 1
      to 14 characters and the data is not empty; otherwise it fails. */
  lemma ComposeThenParse(epname: seq<Byte>, data: seq<Byte>)
    requires Composable(epname, data)
    ensures Parse(Compose(epname, data))
         == if 1 <= |epname| < EPNAME_MAX - 1 && data != [] then Request(epname, data) else Failed
  {
    ParseElement(EPNAME, epname, Element(DATA, data), Nothing());
    if |epname| < EPNAME_MAX - 1 {
      var padded := epname + Zeros(EPNAME_MAX)[|epname|..];
      Padded(epname, Zeros(EPNAME_MAX)[|epname|..]);
      assert Element(DATA, data) + [] == Element(DATA, data);
      ParseElement(DATA, data, [], Found(padded, false, []));
    }
  }

  /** Nothing the parse loop yields is longer than its name buffer and its length field. */
  lemma {:induction false} ParsedBounds(buf: seq<Byte>, f: Found)
    requires NameSized(f) && |f.data| < 0x1_0000
    ensures var r := ParseFrom(buf, f);
      r.Request? ==> |r.epname| <= EPNAME_MAX && |r.data| < 0x1_0000
    decreases |buf|
  {
    if buf == [] {
      CStringFits(f.epname);
    } else if |buf| >= FIELDS && |buf| >= FIELDS + Word(buf[1], buf[2]) {
      var len := Word(buf[1], buf[2]);
      var value, rest := buf[FIELDS..FIELDS + len], buf[FIELDS + len..];
      if buf[0] == EPNAME && len < EPNAME_MAX - 1 {
        ParsedBounds(rest, f.(epname := value + f.epname[len..]));
      } else if buf[0] == DATA {
        ParsedBounds(rest, f.(seen := true, data := value));
      }
    }
  }

  lemma {:induction false} CStringFits(s: seq<Byte>)
    ensures |CString(s)| <= |s|
  {
    if s != [] && s[0] != 0 {
      CStringFits(s[1..]);
    }
  }

  /** For every name the 16-bit index has room for and all data: parsing what was composed
      gives both back exactly if the name has 1 to 14 characters and the data 1 to 65535
      bytes. */
  lemma RoundTripExactly(epname: seq<Byte>, data: seq<Byte>)
    requires 0 !in epname && |epname| + 2 * FIELDS < 0x1_0000
    ensures Parse(Compose(epname, data)) == Request(epname, data)
       <==> 1 <= |epname| < 15 && 1 <= |data| < 65536
  {
    if Composable(epname, data) {
      ComposeThenParse(epname, data);
    } else if |epname| == EPNAME_MAX - 1 || |epname| == EPNAME_MAX {
      ParseElement(EPNAME, epname, Element(DATA, data), Nothing());
    } else {
      ParsedBounds(Compose(epname, data), Nothing());
    }
  }

  lemma ParseElement(kind: Byte, value: seq<Byte>, rest: seq<Byte>, f: Found)
    requires NameSized(f) && |value| < 0x1_0000
    ensures ParseFrom(Element(kind, value) + rest, f) ==
      if kind == EPNAME then
        if |value| >= EPNAME_MAX - 1 then Failed
        else ParseFrom(rest, f.(epname := value + f.epname[|value|..]))
      else if kind == DATA then ParseFrom(rest, f.(seen := true, data := value))
      else Failed
  {
    var buf := Element(kind, value) + rest;
    assert Word(buf[1], buf[2]) == |value|;
    assert buf[FIELDS..FIELDS + |value|] == value && buf[FIELDS + |value|..] == rest;
  }

  /** A name followed by zeros reads back as the name. */
  lemma {:induction false} Padded(name: seq<Byte>, zeros: seq<Byte>)
    requires 0 !in name && zeros != [] && forall i :: 0 <= i < |zeros| ==> zeros[i] == 0
    ensures CString(name + zeros) == name
  {
    if name != [] {
      Padded(name[1..], zeros);
      assert (name + zeros)[1..] == name[1..] + zeros;
    }
  }
}
