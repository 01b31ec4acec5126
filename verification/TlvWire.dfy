/** Control messages byte by byte: what is composed, what the host's stricter parser makes of
    it, and what the slave's parse loop makes of any list of elements. */
module TlvWire {
  import opened Transport
  import opened Tlv

  // ----- what is composed -----

  /** Type 1, the length of the name and the name, then type 2, the length of the data and
      the data; lengths in 16 bits, low byte first. */
  lemma ComposedBytes(epname: seq<Byte>, data: seq<Byte>)
    ensures var m := Compose(epname, data); var n := |epname|;
      && |m| == 6 + n + |data|
      && m[0] == 1 && Little(m[1], m[2]) == n % 65536
      && m[3..3 + n] == epname
      && m[3 + n] == 2 && Little(m[4 + n], m[5 + n]) == |data| % 65536
      && m[6 + n..] == data
  {
    var m, n := Compose(epname, data), |epname|;
    assert m[..3 + n] == Element(EPNAME, epname) && m[3 + n..] == Element(DATA, data);
    assert m[3..3 + n] == m[..3 + n][3..];
    assert m[3 + n] == m[3 + n..][0] && m[4 + n] == m[3 + n..][1] && m[5 + n] == m[3 + n..][2];
    assert m[6 + n..] == m[3 + n..][3..];
  }

  // ----- the host's parser -----

  /** "RPCRsp" and "RPCEvt". */
  const RESPONSE: seq<Byte> := [82, 80, 67, 82, 115, 112]
  const EVENT: seq<Byte> := [82, 80, 67, 69, 118, 116]

  datatype HostResult = Failure | Success(len: nat)

  /** The host's parse_tlv: endpoint element first, with one of the two names, then data. */
  method HostParse(m: seq<Byte>) returns (r: HostResult)
    requires |m| >= 12
    ensures r == if Expected(m) then Success(Little(m[10], m[11])) else Failure
  {
    var len := 0;
    if m[len] != 1 {
      return Failure;
    }
    len := len + 1;
    var valLen: nat := m[len];
    len := len + 1;
    valLen := Little(valLen, m[len]);
    len := len + 1;
    if valLen != |RESPONSE| {
      return Failure;
    }
    if m[len..len + 6] != RESPONSE && m[len..len + 6] != EVENT {
      return Failure;
    }
    len := len + |RESPONSE|;
    if m[len] != 2 {
      return Failure;
    }
    len := len + 1;
    valLen := m[len];
    len := len + 1;
    valLen := Little(valLen, m[len]);
    r := Success(valLen);
  }

  /** The host finds the data of a composed message exactly if it bears one of the names. */
  method HostReads(epname: seq<Byte>, data: seq<Byte>) returns (r: HostResult)
    requires |epname| < 65530 && |data| < 65536 && |epname| + |data| >= 6
    ensures r.Success? <==> epname == RESPONSE || epname == EVENT
    ensures r.Success? ==> r.len == |data|
  {
    var m := ComposeTlv(epname, data);
    HostExpects(epname, data);
    r := HostParse(m[..]);
  }

  /** What the host looks for in a message. */
  predicate Expected(m: seq<Byte>)
    requires |m| >= 12
  {
    m[0] == 1 && Little(m[1], m[2]) == 6 && (m[3..9] == RESPONSE || m[3..9] == EVENT) && m[9] == 2
  }

  lemma HostExpects(epname: seq<Byte>, data: seq<Byte>)
    requires |epname| < 65530 && |data| < 65536 && |epname| + |data| >= 6
    ensures var m := Compose(epname, data);
      && |m| >= 12
      && (Expected(m) <==> epname == RESPONSE || epname == EVENT)
      && (Expected(m) ==> Little(m[10], m[11]) == |data|)
  {
    LaidOutWhole(epname, data);
    if |epname| == 6 {
      SixLetters(Compose(epname, data), epname, data);
    } else {
      OtherLength(Compose(epname, data), epname, data);
    }
  }

  predicate LaidOut(m: seq<Byte>, epname: seq<Byte>, data: seq<Byte>)
  {
    var n := |epname|;
    && |m| == 6 + n + |data|
    && m[0] == 1 && Little(m[1], m[2]) == n && m[3..3 + n] == epname
    && m[3 + n] == 2 && Little(m[4 + n], m[5 + n]) == |data|
  }

  lemma LaidOutWhole(epname: seq<Byte>, data: seq<Byte>)
    requires |epname| < 65530 && |data| < 65536
    ensures LaidOut(Compose(epname, data), epname, data)
  {
    ComposedBytes(epname, data);
    Whole(|epname|);
    Whole(|data|);
  }

  lemma Whole(n: nat)
    requires n < 65536
    ensures n % 65536 == n
  {
  }

  lemma OtherLength(m: seq<Byte>, epname: seq<Byte>, data: seq<Byte>)
    requires |epname| != 6 && |m| >= 12 && LaidOut(m, epname, data)
    ensures !Expected(m) && epname != RESPONSE && epname != EVENT
  {
  }

  lemma SixLetters(m: seq<Byte>, epname: seq<Byte>, data: seq<Byte>)
    requires |epname| == 6 && |m| >= 12 && LaidOut(m, epname, data)
    ensures Expected(m) <==> epname == RESPONSE || epname == EVENT
    ensures Little(m[10], m[11]) == |data|
  {
    assert m[3..9] == epname;
  }

  // ----- any list of elements -----

  datatype Piece = Piece(kind: Byte, value: seq<Byte>)

  predicate Writable(ps: seq<Piece>) { forall i :: 0 <= i < |ps| ==> |ps[i].value| < 65536 }

  function Bytes(p: Piece): seq<Byte>
    requires |p.value| < 65536
  {
    [p.kind, |p.value| % 256, |p.value| / 256] + p.value
  }

  function AllBytes(ps: seq<Piece>): seq<Byte>
    requires Writable(ps)
  {
    if ps == [] then [] else AllBytes(ps[..|ps| - 1]) + Bytes(ps[|ps| - 1])
  }

  /** Names of at most 14 bytes, or data. */
  predicate Known(p: Piece) { (p.kind == 1 && |p.value| <= 14) || p.kind == 2 }

  predicate AllKnown(ps: seq<Piece>) { forall i :: 0 <= i < |ps| ==> Known(ps[i]) }

  /** The i-th byte of the name: that of the last name long enough to have one. */
  function NameByte(ps: seq<Piece>, i: nat): Byte
  {
    if ps == [] then 0
    else
      var p := ps[|ps| - 1];
      if p.kind == 1 && i < |p.value| then p.value[i] else NameByte(ps[..|ps| - 1], i)
  }

  function NameBuffer(ps: seq<Piece>): seq<Byte> { seq(16, i requires i >= 0 => NameByte(ps, i)) }

  /** The last data, if there is any. */
  function HasData(ps: seq<Piece>): bool
  {
    ps != [] && (ps[|ps| - 1].kind == 2 || HasData(ps[..|ps| - 1]))
  }

  function LastData(ps: seq<Piece>): seq<Byte>
  {
    if ps == [] then []
    else if ps[|ps| - 1].kind == 2 then ps[|ps| - 1].value
    else LastData(ps[..|ps| - 1])
  }

  function FoundIn(ps: seq<Piece>): Found { Found(NameBuffer(ps), HasData(ps), LastData(ps)) }

  lemma BytesAreElement(p: Piece)
    requires |p.value| < 65536
    ensures Bytes(p) == Element(p.kind, p.value)
  {
  }

  /** Behind known elements the loop is where they put it. */
  lemma {:induction false} KnownParsed(ps: seq<Piece>, rest: seq<Byte>)
    requires Writable(ps) && AllKnown(ps)
    ensures Parse(AllBytes(ps) + rest) == ParseFrom(rest, FoundIn(ps))
  {
    if ps == [] {
      assert NameBuffer(ps) == Zeros(EPNAME_MAX);
      assert AllBytes(ps) + rest == rest;
    } else {
      var before, p := ps[..|ps| - 1], ps[|ps| - 1];
      KnownParsed(before, Bytes(p) + rest);
      assert AllBytes(ps) + rest == AllBytes(before) + (Bytes(p) + rest);
      OneParsed(ps, rest);
    }
  }

  lemma OneParsed(ps: seq<Piece>, rest: seq<Byte>)
    requires ps != [] && Known(ps[|ps| - 1]) && |ps[|ps| - 1].value| < 65536
    ensures ParseFrom(Bytes(ps[|ps| - 1]) + rest, FoundIn(ps[..|ps| - 1])) == ParseFrom(rest, FoundIn(ps))
  {
    var before, p := ps[..|ps| - 1], ps[|ps| - 1];
    BytesAreElement(p);
    ParseElement(p.kind, p.value, rest, FoundIn(before));
    NameOverlaid(ps);
  }

  lemma NameOverlaid(ps: seq<Piece>)
    requires ps != [] && Known(ps[|ps| - 1])
    ensures var before, p := ps[..|ps| - 1], ps[|ps| - 1];
      NameBuffer(ps) == if p.kind == 1 then p.value + NameBuffer(before)[|p.value|..] else NameBuffer(before)
  {
  }

  /** Any list of known elements, in any order and number: each name is laid over the ones
      before it, the last data counts; it fails only without a name or without data. */
  lemma ElementsParsed(ps: seq<Piece>)
    requires Writable(ps) && AllKnown(ps)
    ensures Parse(AllBytes(ps))
         == if !HasData(ps) || LastData(ps) == [] || NameByte(ps, 0) == 0 then Failed
            else Request(CString(NameBuffer(ps)), LastData(ps))
  {
    KnownParsed(ps, []);
    assert AllBytes(ps) + [] == AllBytes(ps);
  }

  /** A name of 15 bytes or more, or any type but 1 and 2, fails the message, whatever
      follows. */
  lemma UnknownFails(ps: seq<Piece>, p: Piece, rest: seq<Byte>)
    requires Writable(ps) && AllKnown(ps) && |p.value| < 65536 && !Known(p)
    ensures Parse(AllBytes(ps) + (Bytes(p) + rest)) == Failed
  {
    KnownParsed(ps, Bytes(p) + rest);
    BytesAreElement(p);
    ParseElement(p.kind, p.value, rest, FoundIn(ps));
  }

  /** An element cut short leads outside. */
  lemma CutShortIsOutside(ps: seq<Piece>, rest: seq<Byte>)
    requires Writable(ps) && AllKnown(ps) && rest != []
    requires |rest| >= 3 ==> |rest| < 3 + Little(rest[1], rest[2])
    ensures Parse(AllBytes(ps) + rest) == Outside
  {
    KnownParsed(ps, rest);
  }
}
