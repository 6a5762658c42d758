/** The upload encoder: bytes are gathered into a binary string chunk by chunk and then
    base64-encoded, and the server decodes the text back into the file. */
module Base64 {

  // Section 4 of RFC 4648: 24-bit groups, read as three octets and written as four sextets,
  // most significant bit first.
  datatype Octet = Octet(b7: bool, b6: bool, b5: bool, b4: bool, b3: bool, b2: bool, b1: bool, b0: bool)
  datatype Sextet = Sextet(b5: bool, b4: bool, b3: bool, b2: bool, b1: bool, b0: bool)

  const ZERO := Octet(false, false, false, false, false, false, false, false)

  // ---- The alphabet ----

  function Bit(b: bool, weight: nat): nat {
    if b then weight else 0
  }

  function Number(s: Sextet): (n: nat)
    ensures n < 64
  {
    Bit(s.b5, 32) + Bit(s.b4, 16) + Bit(s.b3, 8) + Bit(s.b2, 4) + Bit(s.b1, 2) + Bit(s.b0, 1)
  }

  function FromNumber(n: nat): (s: Sextet)
    requires n < 64
    ensures Number(s) == n
  {
    var n5 := n - Bit(n >= 32, 32);
    var n4 := n5 - Bit(n5 >= 16, 16);
    var n3 := n4 - Bit(n4 >= 8, 8);
    var n2 := n3 - Bit(n3 >= 4, 4);
    Sextet(n >= 32, n5 >= 16, n4 >= 8, n3 >= 4, n2 >= 2, n2 - Bit(n2 >= 2, 2) >= 1)
  }

  datatype Glyph = Six(s: Sextet) | Pad

  function Print(g: Glyph): char {
    if g.Pad? then '='
    else
      var n := Number(g.s);
      if n < 26 then 'A' + n as char
      else if n < 52 then 'a' + (n - 26) as char
      else if n < 62 then '0' + (n - 52) as char
      else if n == 62 then '+'
      else '/'
  }

  predicate IsGlyph(c: char) {
    'A' <= c <= 'Z' || 'a' <= c <= 'z' || '0' <= c <= '9' || c == '+' || c == '/' || c == '='
  }

  function Read(c: char): Glyph
    requires IsGlyph(c)
  {
    if 'A' <= c <= 'Z' then Six(FromNumber(c as int - 'A' as int))
    else if 'a' <= c <= 'z' then Six(FromNumber(c as int - 'a' as int + 26))
    else if '0' <= c <= '9' then Six(FromNumber(c as int - '0' as int + 52))
    else if c == '+' then Six(FromNumber(62))
    else if c == '/' then Six(FromNumber(63))
    else Pad
  }

  lemma ReadPrint(g: Glyph)
    ensures IsGlyph(Print(g)) && Read(Print(g)) == g
  {
    if g.Six? {
      SameNumber(g.s, Read(Print(g)).s);
    }
  }

  lemma SameNumber(s: Sextet, t: Sextet)
    requires Number(s) == Number(t)
    ensures s == t
  {
  }

  lemma PrintRead(c: char)
    requires IsGlyph(c)
    ensures Print(Read(c)) == c
  {
  }

  // ---- Regrouping ----

  function First(a: Octet): Sextet { Sextet(a.b7, a.b6, a.b5, a.b4, a.b3, a.b2) }
  function Second(a: Octet, b: Octet): Sextet { Sextet(a.b1, a.b0, b.b7, b.b6, b.b5, b.b4) }
  function Third(b: Octet, c: Octet): Sextet { Sextet(b.b3, b.b2, b.b1, b.b0, c.b7, c.b6) }
  function Fourth(c: Octet): Sextet { Sextet(c.b5, c.b4, c.b3, c.b2, c.b1, c.b0) }

  function OctetA(p: Sextet, q: Sextet): Octet { Octet(p.b5, p.b4, p.b3, p.b2, p.b1, p.b0, q.b5, q.b4) }
  function OctetB(q: Sextet, r: Sextet): Octet { Octet(q.b3, q.b2, q.b1, q.b0, r.b5, r.b4, r.b3, r.b2) }
  function OctetC(r: Sextet, s: Sextet): Octet { Octet(r.b1, r.b0, s.b5, s.b4, s.b3, s.b2, s.b1, s.b0) }

  predicate LowFourClear(q: Sextet) { !q.b3 && !q.b2 && !q.b1 && !q.b0 }
  predicate LowTwoClear(r: Sextet) { !r.b1 && !r.b0 }

  // ---- As section 4 of RFC 4648 has it ----

  const ALPHABET := "ABCDEFGHIJKLMNOPQRSTUVWXYZ" + "abcdefghijklmnopqrstuvwxyz" + "0123456789+/"

  function Value(a: Octet): nat {
    Bit(a.b7, 128) + Bit(a.b6, 64) + Bit(a.b5, 32) + Bit(a.b4, 16) + Bit(a.b3, 8) + Bit(a.b2, 4) + Bit(a.b1, 2) + Bit(a.b0, 1)
  }

  function LowTwo(a: Octet): nat { Bit(a.b1, 2) + Bit(a.b0, 1) }
  function HighTwo(a: Octet): nat { Bit(a.b7, 2) + Bit(a.b6, 1) }
  function LowFour(a: Octet): nat { Bit(a.b3, 8) + Bit(a.b2, 4) + Bit(a.b1, 2) + Bit(a.b0, 1) }
  function HighFour(a: Octet): nat { Bit(a.b7, 8) + Bit(a.b6, 4) + Bit(a.b5, 2) + Bit(a.b4, 1) }

  lemma OctetsInParts(a: Octet)
    ensures Value(a) == Number(First(a)) * 4 + LowTwo(a) && Value(a) == HighTwo(a) * 64 + Number(Fourth(a))
    ensures Value(a) == HighFour(a) * 16 + LowFour(a)
  {
  }

  lemma SextetsInParts(a: Octet, b: Octet)
    ensures Number(Second(a, b)) == LowTwo(a) * 16 + HighFour(b) && Number(Third(a, b)) == LowFour(a) * 4 + HighTwo(b)
  {
  }

  /** The three octets of a group and its four sextets are one 24-bit number. */
  lemma GroupIsOneNumber(a: Octet, b: Octet, c: Octet)
    ensures Value(a) * 65536 + Value(b) * 256 + Value(c)
      == Number(First(a)) * 262144 + Number(Second(a, b)) * 4096 + Number(Third(b, c)) * 64 + Number(Fourth(c))
  {
    hide *;
    OctetsInParts(a);
    OctetsInParts(b);
    OctetsInParts(c);
    SextetsInParts(a, b);
    SextetsInParts(b, c);
  }

  lemma PrintsTheAlphabet(g: Glyph)
    ensures |ALPHABET| == 64 && Print(g) == if g.Pad? then '=' else ALPHABET[Number(g.s)]
  {
  }

  /** What a group of one, two or three octets is written as; longer texts are written group by group. */
  lemma GroupsAreWritten(bytes: seq<Octet>)
    requires bytes != []
    ensures var a, b, c := bytes[0], if |bytes| > 1 then bytes[1] else ZERO, if |bytes| > 2 then bytes[2] else ZERO;
      var text := Encode(bytes);
      && |text| >= 4
      && text[0] == ALPHABET[Number(First(a))] && text[1] == ALPHABET[Number(Second(a, b))]
      && text[2] == (if |bytes| > 1 then ALPHABET[Number(Third(b, c))] else '=')
      && text[3] == (if |bytes| > 2 then ALPHABET[Number(Fourth(c))] else '=')
      && text[4..] == if |bytes| > 3 then Encode(bytes[3..]) else ""
  {
    var gs := Pack(bytes);
    PrintsTheAlphabet(gs[0]);
    PrintsTheAlphabet(gs[1]);
    PrintsTheAlphabet(gs[2]);
    PrintsTheAlphabet(gs[3]);
    hide Print, Number, First, Second, Third, Fourth;
    TextIsGroupByGroup(bytes);
  }

  lemma TextIsGroupByGroup(bytes: seq<Octet>)
    requires bytes != []
    ensures |Encode(bytes)| >= 4 && Encode(bytes)[4..] == if |bytes| > 3 then Encode(bytes[3..]) else ""
  {
    var gs := Pack(bytes);
    if |bytes| > 3 {
      assert gs[4..] == Pack(bytes[3..]);
    } else {
      assert |bytes| == 3 ==> Pack(bytes[3..]) == [];
      assert gs[4..] == [];
    }
    PrintedFrom(gs, 4);
    hide First, Second, Third, Fourth, PrintAll, Pack;
  }

  lemma PrintedFrom(gs: seq<Glyph>, k: nat)
    requires k <= |gs|
    ensures |PrintAll(gs)| == |gs| && PrintAll(gs)[k..] == PrintAll(gs[k..])
    ensures PrintAll([]) == ""
  {
    hide Print;
  }

  // ---- Groups of three octets become four glyphs, the last group is padded ----

  function Pack(bytes: seq<Octet>): seq<Glyph> {
    if |bytes| == 0 then []
    else if |bytes| == 1 then [Six(First(bytes[0])), Six(Second(bytes[0], ZERO)), Pad, Pad]
    else if |bytes| == 2 then [Six(First(bytes[0])), Six(Second(bytes[0], bytes[1])), Six(Third(bytes[1], ZERO)), Pad]
    else [Six(First(bytes[0])), Six(Second(bytes[0], bytes[1])), Six(Third(bytes[1], bytes[2])), Six(Fourth(bytes[2]))]
         + Pack(bytes[3..])
  }

  datatype Decoded = Bytes(bytes: seq<Octet>) | Malformed

  /** A strict reader: padding is allowed only in the last group, and the bits it leaves over
      must be zero. */
  function Unpack(gs: seq<Glyph>): Decoded {
    if gs == [] then Bytes([])
    else if |gs| < 4 || gs[0].Pad? || gs[1].Pad? then Malformed
    else
      var p, q := gs[0].s, gs[1].s;
      if gs[2].Pad? then
        if |gs| == 4 && gs[3].Pad? && LowFourClear(q) then Bytes([OctetA(p, q)]) else Malformed
      else
        var r := gs[2].s;
        if gs[3].Pad? then
          if |gs| == 4 && LowTwoClear(r) then Bytes([OctetA(p, q), OctetB(q, r)]) else Malformed
        else
          var rest := Unpack(gs[4..]);
          if rest.Bytes? then Bytes([OctetA(p, q), OctetB(q, r), OctetC(r, gs[3].s)] + rest.bytes) else Malformed
  }

  lemma {:induction false} UnpackPack(bytes: seq<Octet>)
    ensures Unpack(Pack(bytes)) == Bytes(bytes)
  {
    if |bytes| > 2 {
      UnpackPack(bytes[3..]);
      assert Pack(bytes)[4..] == Pack(bytes[3..]);
      assert bytes == [bytes[0], bytes[1], bytes[2]] + bytes[3..];
    }
  }

  lemma PackThree(p: Sextet, q: Sextet, r: Sextet, s: Sextet, rest: seq<Octet>)
    ensures Pack([OctetA(p, q), OctetB(q, r), OctetC(r, s)] + rest) == [Six(p), Six(q), Six(r), Six(s)] + Pack(rest)
  {
    assert ([OctetA(p, q), OctetB(q, r), OctetC(r, s)] + rest)[3..] == rest;
  }

  lemma PackTwo(p: Sextet, q: Sextet, r: Sextet)
    requires LowTwoClear(r)
    ensures Pack([OctetA(p, q), OctetB(q, r)]) == [Six(p), Six(q), Six(r), Pad]
  {
  }

  lemma PackOne(p: Sextet, q: Sextet)
    requires LowFourClear(q)
    ensures Pack([OctetA(p, q)]) == [Six(p), Six(q), Pad, Pad]
  {
  }

  lemma {:induction false} PackUnpack(gs: seq<Glyph>)
    requires Unpack(gs).Bytes?
    ensures Pack(Unpack(gs).bytes) == gs
  {
    if gs != [] {
      var p, q := gs[0].s, gs[1].s;
      if gs[3].Six? {
        var r, s, rest := gs[2].s, gs[3].s, Unpack(gs[4..]).bytes;
        PackUnpack(gs[4..]);
        PackThree(p, q, r, s, rest);
        hide Pack, OctetA, OctetB, OctetC;
        assert Unpack(gs).bytes == [OctetA(p, q), OctetB(q, r), OctetC(r, s)] + rest;
        assert gs == [gs[0], gs[1], gs[2], gs[3]] + gs[4..];
      } else {
        if gs[2].Six? { PackTwo(p, q, gs[2].s); } else { PackOne(p, q); }
        hide Pack, OctetA, OctetB;
        assert gs == [gs[0], gs[1], gs[2], gs[3]];
      }
    }
  }

  // ---- The text ----

  function PrintAll(gs: seq<Glyph>): string {
    seq(|gs|, i requires 0 <= i < |gs| => Print(gs[i]))
  }

  function ReadAll(text: string): seq<Glyph>
    requires forall c | c in text :: IsGlyph(c)
  {
    seq(|text|, i requires 0 <= i < |text| => Read(text[i]))
  }

  /** btoa of a binary string. */
  function Encode(bytes: seq<Octet>): string {
    PrintAll(Pack(bytes))
  }

  function Decode(text: string): Decoded {
    if forall c | c in text :: IsGlyph(c) then Unpack(ReadAll(text)) else Malformed
  }

  /** Decoding gives back the file, for every file. */
  lemma DecodeEncode(bytes: seq<Octet>)
    ensures Decode(Encode(bytes)) == Bytes(bytes)
  {
    var gs := Pack(bytes);
    forall g | g in gs {
      ReadPrint(g);
    }
    assert ReadAll(PrintAll(gs)) == gs;
    UnpackPack(bytes);
  }

  /** Every text the decoder accepts is the encoding of what it decodes to, so no two texts
      stand for one file. */
  lemma EncodeDecode(text: string)
    requires Decode(text).Bytes?
    ensures Encode(Decode(text).bytes) == text
  {
    forall c | c in text {
      PrintRead(c);
    }
    PackUnpack(ReadAll(text));
    assert PrintAll(ReadAll(text)) == text;
  }

  // ---- The client's loop ----

  const CHUNK := 8192

  /** For any chunk size: the chunks put together are the file itself, so the text does not
      depend on where the file was cut. */
  method EncodeInChunks(bytes: seq<Octet>, chunk: nat) returns (text: string)
    requires chunk > 0
    ensures text == Encode(bytes) && Decode(text) == Bytes(bytes)
  {
    var binary: seq<Octet> := [];
    var offset := 0;
    while offset < |bytes|
      invariant binary == bytes[..if offset < |bytes| then offset else |bytes|]
      decreases |bytes| - offset
    {
      var end := if offset + chunk < |bytes| then offset + chunk else |bytes|;
      binary := binary + bytes[offset..end];
      offset := offset + chunk;
    }
    assert binary == bytes;
    text := Encode(binary);
    DecodeEncode(bytes);
  }

  method Base64Bytes(bytes: seq<Octet>) returns (text: string)
    ensures text == Encode(bytes) && Decode(text) == Bytes(bytes)
  {
    text := EncodeInChunks(bytes, CHUNK);
  }
}
