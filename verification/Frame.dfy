/** The 12-byte payload header (struct esp_payload_header) with its 16-bit sum checksum. */
module Frame {
  import opened Transport

  type Nibble = n: int | 0 <= n < 16
  type Crumb = n: int | 0 <= n < 4

  const HEADER: nat := 12
  const BUFFER_SIZE: nat := 1600
  const MAX_PAYLOAD: nat := BUFFER_SIZE - HEADER

  datatype Packet = Packet(
    ifType: Nibble, ifNum: Nibble, flags: Byte, seqNum: Word16, throttle: Crumb, payload: seq<Byte>)

  /** The whole frame has a 16-bit length. */
  predicate Fits(p: Packet) { |p.payload| + HEADER < 0x1_0000 }

  function ByteSum(s: seq<Byte>): nat
  {
    if s == [] then 0 else ByteSum(s[..|s| - 1]) + s[|s| - 1]
  }

  function Checksum(s: seq<Byte>): Word16 { ByteSum(s) % 0x1_0000 }

  /** compute_checksum: the loop with its 16-bit accumulator and index. */
  method ComputeChecksum(buf: array<Byte>, len: Word16) returns (checksum: Word16)
    requires len <= buf.Length
    ensures checksum == Checksum(buf[..len])
  {
    checksum := 0;
    var i: Word16 := 0;
    while i < len
      invariant 0 <= i <= len
      invariant checksum == Checksum(buf[..i])
    {
      assert buf[..i + 1][..i] == buf[..i];
      AddModulo(ByteSum(buf[..i]), buf[i]);
      checksum := (checksum + buf[i]) % 0x1_0000;
      i := (i + 1) % 0x1_0000;
    }
  }

  lemma AddModulo(a: nat, b: nat)
    ensures (a % 0x1_0000 + b) % 0x1_0000 == (a + b) % 0x1_0000
  {
  }

  /** The header with a given checksum field; the bit-fields and the reserved last byte as
      a little-endian compiler lays them out. */
  function Header(p: Packet, checksum: Word16): (h: seq<Byte>)
    requires Fits(p)
    ensures |h| == HEADER
  {
    [p.ifType + 16 * p.ifNum, p.flags,
     Low(|p.payload|), High(|p.payload|),
     HEADER, 0,
     Low(checksum), High(checksum),
     Low(p.seqNum), High(p.seqNum),
     p.throttle, 0]
  }

  /** The frame as the receiver sums it: with the checksum field zero. */
  function Blank(p: Packet): seq<Byte>
    requires Fits(p)
  {
    Header(p, 0) + p.payload
  }

  function Encode(p: Packet): seq<Byte>
    requires Fits(p)
  {
    Header(p, Checksum(Blank(p))) + p.payload
  }

  function WordAt(s: seq<Byte>, i: nat): Word16
    requires i + 1 < |s|
  {
    Word(s[i], s[i + 1])
  }

  /** What a reader of the header sees. */
  function Decode(s: seq<Byte>): Packet
    requires HEADER <= |s|
  {
    Packet(s[0] % 16, s[0] / 16, s[1], WordAt(s, 8), s[10] % 4, s[HEADER..])
  }

  lemma DecodeBlank(p: Packet)
    requires Fits(p)
    ensures Decode(Blank(p)) == p
  {
    assert Blank(p)[HEADER..] == p.payload;
  }

  // ----- the checksum sees every change of one byte -----

  lemma {:induction false} SumUpdate(s: seq<Byte>, i: nat, v: Byte)
    requires i < |s|
    ensures ByteSum(s[i := v]) + s[i] == ByteSum(s) + v
  {
    var last := |s| - 1;
    if i < last {
      SumUpdate(s[..last], i, v);
      assert s[i := v][..last] == s[..last][i := v];
    } else {
      assert s[i := v][..last] == s[..last];
    }
  }

  /** Changing one byte to another value always changes the checksum. */
  lemma ChecksumDetects(s: seq<Byte>, i: nat, v: Byte)
    requires i < |s| && v != s[i]
    ensures Checksum(s[i := v]) != Checksum(s)
  {
    SumUpdate(s, i, v);
    var a, b := ByteSum(s), ByteSum(s[i := v]);
    assert a != b && -256 < b - a < 256;
  }

  // ----- frames on the wire -----

  /** A received frame once its checksum field is cleared. */
  function Cleared(s: seq<Byte>): seq<Byte>
    requires HEADER <= |s|
  {
    s[6 := 0][7 := 0]
  }

  /** A frame on the wire, with a payload that fits a receive buffer, perhaps with one byte
      changed outside its len and offset fields. */
  datatype Item = Intact(p: Packet) | Damaged(p: Packet, at: nat, value: Byte)

  predicate WellFormed(item: Item)
  {
    |item.p.payload| <= MAX_PAYLOAD &&
    (item.Damaged? ==>
      && item.at < HEADER + |item.p.payload| && !(2 <= item.at <= 5)
      && item.value != Encode(item.p)[item.at])
  }

  function Wire(item: Item): seq<Byte>
    requires WellFormed(item)
  {
    match item
    case Intact(p) => Encode(p)
    case Damaged(p, at, value) => Encode(p)[at := value]
  }

  /** The fields that delimit a frame survive the damage considered. */
  lemma Delimited(item: Item)
    requires WellFormed(item)
    ensures var w := Wire(item); var len := |item.p.payload|;
      |w| == HEADER + len && WordAt(w, 2) == len && WordAt(w, 4) == HEADER
  {
  }

  /** Zeroing the field and summing accepts the frame exactly if no byte was changed. */
  lemma AcceptedExactlyIntact(item: Item)
    requires WellFormed(item)
    ensures Checksum(Cleared(Wire(item))) == WordAt(Wire(item), 6) <==> item.Intact?
    ensures item.Intact? ==> Cleared(Wire(item)) == Blank(item.p)
  {
    var p := item.p;
    assert Cleared(Encode(p)) == Blank(p);
    if item.Damaged? && item.at != 6 && item.at != 7 {
      assert Cleared(Wire(item)) == Blank(p)[item.at := item.value];
      ChecksumDetects(Blank(p), item.at, item.value);
    } else if item.Damaged? {
      assert Cleared(Wire(item)) == Blank(p);
    }
  }

  // ----- the wire, byte by byte -----

  /** Where each field of a frame stands, multi-byte ones low byte first; the reserved bits
      and the last header byte are zero; the payload follows the 12 bytes. */
  lemma WireLayout(p: Packet)
    requires Fits(p)
    ensures var e := Encode(p);
      && |e| == 12 + |p.payload|
      && e[0] == p.ifType + 16 * p.ifNum && e[1] == p.flags
      && Little(e[2], e[3]) == |p.payload| && Little(e[4], e[5]) == 12
      && Little(e[6], e[7]) == Sum(e[..6] + e[8..]) % 65536
      && Little(e[8], e[9]) == p.seqNum
      && e[10] == p.throttle && e[11] == 0
      && e[12..] == p.payload
  {
    var e, b := Encode(p), Blank(p);
    assert e[..6] == b[..6] && e[8..] == b[8..];
    SumIsByteSum(b);
    SumWithoutField(b);
  }

  /** A plain sum, from the front. */
  function Sum(s: seq<Byte>): nat
  {
    if s == [] then 0 else s[0] + Sum(s[1..])
  }

  /** The checksum is the plain sum of the bytes modulo 2^16. */
  lemma ChecksumIsSum(s: seq<Byte>)
    ensures Checksum(s) == Sum(s) % 65536
  {
    SumIsByteSum(s);
  }

  lemma {:induction false} SumAppend(a: seq<Byte>, b: seq<Byte>)
    ensures Sum(a + b) == Sum(a) + Sum(b)
  {
    if a == [] {
      assert a + b == b;
    } else {
      SumAppend(a[1..], b);
      assert (a + b)[1..] == a[1..] + b;
    }
  }

  lemma {:induction false} SumIsByteSum(s: seq<Byte>)
    ensures ByteSum(s) == Sum(s)
  {
    if s != [] {
      var last := |s| - 1;
      SumIsByteSum(s[..last]);
      SumAppend(s[..last], [s[last]]);
      assert [s[last]][1..] == [];
      assert s == s[..last] + [s[last]];
    }
  }

  /** Clearing bytes 6 and 7 and leaving them out come to the same sum. */
  lemma SumWithoutField(s: seq<Byte>)
    requires |s| >= 8 && s[6] == 0 && s[7] == 0
    ensures Sum(s) == Sum(s[..6] + s[8..])
  {
    var zeros: seq<Byte> := [0, 0];
    assert s == s[..6] + (zeros + s[8..]);
    SumAppend(s[..6], zeros + s[8..]);
    SumAppend(zeros, s[8..]);
    SumAppend(s[..6], s[8..]);
    assert zeros[1..] == [0] && [0][1..] == [];
    assert Sum(zeros) == 0;
  }

  /** The checksum over the first n bytes with the field cleared, in plain sums. */
  function SumBut(s: seq<Byte>, n: nat): nat
    requires n <= |s|
  {
    if n <= 6 then Sum(s[..n])
    else if n == 7 then Sum(s[..6])
    else Sum(s[..6]) + Sum(s[8..n])
  }

  lemma ClearedSum(s: seq<Byte>, n: nat)
    requires HEADER <= |s| && n <= |s|
    ensures Checksum(Cleared(s)[..n]) == SumBut(s, n) % 65536
  {
    var t := Cleared(s)[..n];
    SumIsByteSum(t);
    if n <= 6 {
      assert t == s[..n];
    } else if n == 7 {
      assert t == s[..6] + [0];
      SumAppend(s[..6], [0]);
      assert Sum([0]) == 0 + Sum([0][1..]);
    } else {
      assert t[..6] == s[..6] && t[8..] == s[8..n];
      SumWithoutField(t);
      SumAppend(s[..6], s[8..n]);
    }
  }
}
