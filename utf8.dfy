/**
 * The UTF-8 helper of r2_strings.h: the lead-byte table `utf[]`, `utf8_len`,
 * `to_rune`, `str_to_utf8` and the string constructor `S`.
 *
 * A C `char` is modelled as the 8 bits it holds. `utf8_len` compares
 * `(ch & ~mask) == lead` after both sides have been sign-extended from bit 7
 * in the same way, so comparing the low 8 bits is the same test.
 * Undefined behaviour the C code can reach (walking past `utf[]`, reading
 * past the end of the buffer) is made an explicit `Fail` result.
 */
module Utf8 {

  /** A C `char`. */
  type byte = bv8
  /** `rune` is `uint32_t`. */
  type rune = bv32

  datatype Option<T> = None | Some(value: T)

  /** The two ways the C code leaves defined behaviour. */
  datatype Fault =
    | PastTable    // utf8_len dereferences the pointer after the last entry of utf[]
    | ReadPastEnd  // str_to_utf8 reads a byte beyond the buffer it was given

  datatype Result<T> = Ok(value: T) | Fail(fault: Fault)

  /** One entry of `utf[]` (the struct `utf_t`). */
  datatype UtfEntry = UtfEntry(mask: byte, lead: byte, beg: rune, end: rune, bitsStored: int)

  /**
   * `utf[]` in order, ending in the zeroed entry `&(utf_t){0}`, which is a
   * non-null pointer and so does not stop the walk in `utf8_len`.
   * The source writes the code-point ranges in octal; they are in hex here.
   */
  const Utf: seq<UtfEntry> := [
    UtfEntry(0x3F, 0x80, 0x0, 0x0, 6),            // 10xxxxxx, a continuation byte
    UtfEntry(0x7F, 0x00, 0x0, 0x7F, 7),           // 0xxxxxxx
    UtfEntry(0x1F, 0xC0, 0x80, 0x7FF, 5),         // 110xxxxx
    UtfEntry(0x0F, 0xE0, 0x800, 0xFFFF, 4),       // 1110xxxx
    UtfEntry(0x07, 0xF0, 0x10000, 0x10FFFF, 3),   // 11110xxx
    UtfEntry(0x00, 0x00, 0x0, 0x0, 0)             // the zeroed sentinel
  ]

  /** The test `(ch & ~(*u)->mask) == (*u)->lead` of `utf8_len`. */
  predicate Matches(ch: byte, e: UtfEntry) {
    (ch & !e.mask) == e.lead
  }

  /**
   * The number of bytes in the UTF-8 sequence that `ch` starts, read off the
   * table in section 3 of RFC 3629; 0 for a continuation byte. Bytes
   * 0xF8..0xFF start no sequence.
   */
  function SequenceLength(ch: byte): (n: nat)
    requires ch < 0xF8
    ensures n <= 4
  {
    if ch < 0x80 then 1
    else if ch < 0xC0 then 0
    else if ch < 0xE0 then 2
    else if ch < 0xF0 then 3
    else 4
  }

  /** A byte that can start a sequence: neither a continuation byte nor 0xF8..0xFF. */
  predicate IsLead(ch: byte) {
    ch < 0x80 || (0xC0 <= ch && ch < 0xF8)
  }

  /**
   * `utf8_len`: the index of the first entry of `utf[]` that `ch` matches.
   * No entry matches 0xF8..0xFF (the sentinel matches only 0, which entry 1
   * already takes), so for those the walk runs off the end of the table.
   */
  method Utf8Len(ch: byte) returns (r: Result<nat>)
    ensures ch < 0xF8 ==> r == Ok(SequenceLength(ch))
    ensures 0xF8 <= ch ==> r == Fail(PastTable)
  {
    var len := 0;
    while true
      invariant 0 <= len <= |Utf|
      invariant forall k :: 0 <= k < len ==> !Matches(ch, Utf[k])
      decreases |Utf| - len
    {
      if len == |Utf| {
        if ch < 0xF8 {
          FirstMatchIsSequenceLength(ch);
          assert false;
        }
        return Fail(PastTable);
      }
      if Matches(ch, Utf[len]) {
        break;
      }
      len := len + 1;
    }
    if len == 5 {
      SentinelNeverStops(ch);
      assert false;
    }
    MatchDecidesLength(ch, len);
    return Ok(len);
  }

  /**
   * The table walk agrees with the lead-byte ranges of RFC 3629: a byte below
   * 0xF8 first matches the entry at index SequenceLength(ch), and a byte from
   * 0xF8 up matches no entry at all.
   */
  lemma FirstMatchIsSequenceLength(ch: byte)
    ensures ch < 0xF8 ==> Matches(ch, Utf[SequenceLength(ch)])
    ensures ch < 0xF8 ==> forall k :: 0 <= k < SequenceLength(ch) ==> !Matches(ch, Utf[k])
    ensures 0xF8 <= ch ==> forall k :: 0 <= k < |Utf| ==> !Matches(ch, Utf[k])
  {
  }

  /** A match with one of the five real entries fixes the sequence length. */
  lemma MatchDecidesLength(ch: byte, len: nat)
    requires len < 5 && Matches(ch, Utf[len])
    ensures ch < 0xF8 && len == SequenceLength(ch)
  {
  }

  /** The sentinel entry matches the zero byte only, and entry 1 matches it first. */
  lemma SentinelNeverStops(ch: byte)
    ensures Matches(ch, Utf[5]) <==> ch == 0
    ensures ch == 0 ==> Matches(ch, Utf[1])
  {
  }

  /** The payload mask of the lead byte of an n-byte sequence (section 3 of RFC 3629). */
  function LeadMask(n: nat): byte
    requires 1 <= n <= 4
  {
    if n == 1 then 0x7F else if n == 2 then 0x1F else if n == 3 then 0x0F else 0x07
  }

  /** The masks in `utf[]` are the payload masks of RFC 3629. */
  /**
   * The code-point ranges of `utf[]`: they start at 0, follow one another
   * without a gap, end at U+10FFFF, and each fits in the payload bits of its
   * sequence (7, then 5 + 6, 4 + 12 and 3 + 18 bits).
   */
  lemma TableRanges()
    ensures Utf[1].beg == 0 && Utf[4].end == 0x10FFFF
    ensures forall n :: 2 <= n <= 4 ==> Utf[n].beg == Utf[n - 1].end + 1
    ensures Utf[0].bitsStored == 6 && Utf[1].bitsStored == 7
    ensures forall n :: 2 <= n <= 4 ==> Utf[n].bitsStored == 7 - n
    ensures Utf[1].end < 0x80 && Utf[2].end < 0x800 && Utf[3].end < 0x1_0000 && Utf[4].end < 0x20_0000
  {
  }

  lemma TableMasks()
    ensures Utf[0].mask == 0x3F
    ensures forall n :: 1 <= n <= 4 ==> Utf[n].mask == LeadMask(n)
  {
  }

  /** The 6 payload bits of a continuation byte. */
  function Payload(b: byte): rune {
    (b & 0x3F) as rune
  }

  /**
   * The code point an n-byte sequence stands for under the bit layout of
   * section 3 of RFC 3629: the lead byte's payload bits, then 6 bits from each
   * later byte. Nothing is checked: not the continuation markers, not the range.
   */
  function Assemble(chr: seq<byte>, n: nat): rune
    requires 1 <= n <= 4 && n <= |chr|
  {
    var lead := (chr[0] & LeadMask(n)) as rune;
    if n == 1 then lead
    else if n == 2 then (lead << 6) | Payload(chr[1])
    else if n == 3 then (lead << 12) | (Payload(chr[1]) << 6) | Payload(chr[2])
    else (lead << 18) | (Payload(chr[1]) << 12) | (Payload(chr[2]) << 6) | Payload(chr[3])
  }

  /**
   * `x << s` for the shift amounts `to_rune` produces (6 bits per remaining
   * byte), with each amount written out.
   */
  function ShiftLeft(x: rune, s: int): rune
    requires s == 0 || s == 6 || s == 12 || s == 18
  {
    if s == 0 then x else if s == 6 then x << 6 else if s == 12 then x << 12 else x << 18
  }

  /** One term of `to_rune`: byte k of the sequence, masked, shifted into place. */
  function Contribution(chr: seq<byte>, k: nat, mask: byte, shift: int): rune
    requires k < |chr| && (shift == 0 || shift == 6 || shift == 12 || shift == 18)
  {
    ShiftLeft((chr[k] & mask) as rune, shift)
  }

  /**
   * What `to_rune` has accumulated in `codep` once it has used the first i
   * bytes of an n-byte sequence: the lead byte under the mask of entry n,
   * then each later byte under the mask of entry 0.
   */
  function Partial(chr: seq<byte>, n: nat, i: nat): rune
    requires 1 <= i <= n <= 4 && n <= |chr|
  {
    if i == 1 then Contribution(chr, 0, Utf[n].mask, 6 * (n - 1))
    else Partial(chr, n, i - 1) | Contribution(chr, i - 1, Utf[0].mask, 6 * (n - i))
  }

  lemma PartialComplete1(chr: seq<byte>)
    requires 1 <= |chr|
    ensures Partial(chr, 1, 1) == Assemble(chr, 1)
  {
    TableMasks();
  }

  lemma PartialComplete2(chr: seq<byte>)
    requires 2 <= |chr|
    ensures Partial(chr, 2, 2) == Assemble(chr, 2)
  {
    TableMasks();
    assert Partial(chr, 2, 1) == ((chr[0] & 0x1F) as rune) << 6;
  }

  lemma PartialTwoOfThree(chr: seq<byte>)
    requires 3 <= |chr|
    ensures Partial(chr, 3, 2) == (((chr[0] & 0x0F) as rune) << 12) | (Payload(chr[1]) << 6)
  {
    TableMasks();
    assert Partial(chr, 3, 1) == ((chr[0] & 0x0F) as rune) << 12;
  }

  lemma PartialComplete3(chr: seq<byte>)
    requires 3 <= |chr|
    ensures Partial(chr, 3, 3) == Assemble(chr, 3)
  {
    TableMasks();
    PartialTwoOfThree(chr);
  }

  lemma PartialTwoOfFour(chr: seq<byte>)
    requires 4 <= |chr|
    ensures Partial(chr, 4, 2) == (((chr[0] & 0x07) as rune) << 18) | (Payload(chr[1]) << 12)
  {
    TableMasks();
    assert Partial(chr, 4, 1) == ((chr[0] & 0x07) as rune) << 18;
  }

  lemma PartialThreeOfFour(chr: seq<byte>)
    requires 4 <= |chr|
    ensures Partial(chr, 4, 3) == (((chr[0] & 0x07) as rune) << 18) | (Payload(chr[1]) << 12) | (Payload(chr[2]) << 6)
  {
    TableMasks();
    PartialTwoOfFour(chr);
  }

  lemma PartialComplete4(chr: seq<byte>)
    requires 4 <= |chr|
    ensures Partial(chr, 4, 4) == Assemble(chr, 4)
  {
    TableMasks();
    PartialThreeOfFour(chr);
  }

  /** After all n bytes the table-driven accumulation is the RFC 3629 bit layout. */
  lemma PartialComplete(chr: seq<byte>, n: nat)
    requires 1 <= n <= 4 && n <= |chr|
    ensures Partial(chr, n, n) == Assemble(chr, n)
  {
    if n == 1 {
      PartialComplete1(chr);
    } else if n == 2 {
      PartialComplete2(chr);
    } else if n == 3 {
      PartialComplete3(chr);
    } else {
      PartialComplete4(chr);
    }
  }

  /**
   * `to_rune`: decodes the sequence that starts at `chr[0]`. The lead byte must
   * start a sequence: for a continuation byte `utf8_len` gives 0 and the shift
   * would be -6, and for 0xF8..0xFF the table walk runs off the end.
   */
  method ToRune(chr: seq<byte>) returns (codep: rune)
    requires |chr| >= 1 && IsLead(chr[0]) && SequenceLength(chr[0]) <= |chr|
    ensures codep == Assemble(chr, SequenceLength(chr[0]))
  {
    var bytes := Utf8Len(chr[0]);
    var n := bytes.value;
    var shift := Utf[0].bitsStored * (n - 1);
    codep := Contribution(chr, 0, Utf[n].mask, shift);
    var i := 1;
    while i < n
      invariant 1 <= i <= n
      invariant shift == 6 * (n - i)
      invariant codep == Partial(chr, n, i)
    {
      shift := shift - Utf[0].bitsStored;
      codep := codep | Contribution(chr, i, Utf[0].mask, shift);
      i := i + 1;
    }
    PartialComplete(chr, n);
  }

  /** An ASCII byte decodes to itself. */
  lemma AsciiDecodesToItself(b: byte)
    requires b < 0x80
    ensures Assemble([b], 1) == b as rune
  {
  }

  /** An n-byte sequence decodes to fewer than 7, 11, 16 or 21 significant bits. */
  lemma AssembleBound(chr: seq<byte>, n: nat)
    requires 1 <= n <= 4 && n <= |chr|
    ensures n == 1 ==> Assemble(chr, n) < 0x80
    ensures n == 2 ==> Assemble(chr, n) < 0x800
    ensures n == 3 ==> Assemble(chr, n) < 0x1_0000
    ensures n == 4 ==> Assemble(chr, n) < 0x20_0000
  {
  }

  /** A Unicode scalar value: at most U+10FFFF and not a surrogate (section 3 of RFC 3629). */
  predicate IsScalarValue(cp: rune) {
    cp <= 0x10FFFF && !(0xD800 <= cp && cp <= 0xDFFF)
  }

  /** The UTF-8 encoding of a scalar value, as section 3 of RFC 3629 lays out its bits. */
  function Encode(cp: rune): (s: seq<byte>)
    requires IsScalarValue(cp)
    ensures 1 <= |s| <= 4
  {
    if cp < 0x80 then
      [cp as byte]
    else if cp < 0x800 then
      [(0xC0 | (cp >> 6)) as byte, (0x80 | (cp & 0x3F)) as byte]
    else if cp < 0x1_0000 then
      [(0xE0 | (cp >> 12)) as byte, (0x80 | ((cp >> 6) & 0x3F)) as byte, (0x80 | (cp & 0x3F)) as byte]
    else
      [(0xF0 | (cp >> 18)) as byte, (0x80 | ((cp >> 12) & 0x3F)) as byte,
       (0x80 | ((cp >> 6) & 0x3F)) as byte, (0x80 | (cp & 0x3F)) as byte]
  }

  /** The encoding starts with a lead byte that announces its own length. */
  lemma EncodeLead(cp: rune)
    requires IsScalarValue(cp)
    ensures IsLead(Encode(cp)[0]) && SequenceLength(Encode(cp)[0]) == |Encode(cp)|
  {
  }

  lemma AssembleOf2(b0: byte, b1: byte)
    ensures Assemble([b0, b1], 2) == (((b0 & 0x1F) as rune) << 6) | Payload(b1)
  {
  }

  lemma AssembleOf3(b0: byte, b1: byte, b2: byte)
    ensures Assemble([b0, b1, b2], 3) == (((b0 & 0x0F) as rune) << 12) | (Payload(b1) << 6) | Payload(b2)
  {
  }

  lemma AssembleOf4(b0: byte, b1: byte, b2: byte, b3: byte)
    ensures Assemble([b0, b1, b2, b3], 4)
         == (((b0 & 0x07) as rune) << 18) | (Payload(b1) << 12) | (Payload(b2) << 6) | Payload(b3)
  {
  }

  lemma EncodeOf2(cp: rune)
    requires 0x80 <= cp < 0x800
    ensures Encode(cp) == [(0xC0 | (cp >> 6)) as byte, (0x80 | (cp & 0x3F)) as byte]
  {
  }

  lemma EncodeOf3(cp: rune)
    requires 0x800 <= cp < 0x1_0000 && IsScalarValue(cp)
    ensures Encode(cp) == [(0xE0 | (cp >> 12)) as byte, (0x80 | ((cp >> 6) & 0x3F)) as byte, (0x80 | (cp & 0x3F)) as byte]
  {
  }

  lemma EncodeOf4(cp: rune)
    requires 0x1_0000 <= cp <= 0x10FFFF
    ensures Encode(cp) == [(0xF0 | (cp >> 18)) as byte, (0x80 | ((cp >> 12) & 0x3F)) as byte,
                           (0x80 | ((cp >> 6) & 0x3F)) as byte, (0x80 | (cp & 0x3F)) as byte]
  {
  }

  /** The fields an encoder cuts out of cp put back together give cp. */
  lemma Fields2(cp: rune, b0: byte, b1: byte)
    requires 0x80 <= cp < 0x800
    requires b0 == (0xC0 | (cp >> 6)) as byte && b1 == (0x80 | (cp & 0x3F)) as byte
    ensures (((b0 & 0x1F) as rune) << 6) | Payload(b1) == cp
  {
  }

  lemma Fields3(cp: rune, b0: byte, b1: byte, b2: byte)
    requires 0x800 <= cp < 0x1_0000
    requires b0 == (0xE0 | (cp >> 12)) as byte && b1 == (0x80 | ((cp >> 6) & 0x3F)) as byte
    requires b2 == (0x80 | (cp & 0x3F)) as byte
    ensures (((b0 & 0x0F) as rune) << 12) | (Payload(b1) << 6) | Payload(b2) == cp
  {
  }

  lemma Fields4(cp: rune, b0: byte, b1: byte, b2: byte, b3: byte)
    requires 0x1_0000 <= cp <= 0x10FFFF
    requires b0 == (0xF0 | (cp >> 18)) as byte && b1 == (0x80 | ((cp >> 12) & 0x3F)) as byte
    requires b2 == (0x80 | ((cp >> 6) & 0x3F)) as byte && b3 == (0x80 | (cp & 0x3F)) as byte
    ensures (((b0 & 0x07) as rune) << 18) | (Payload(b1) << 12) | (Payload(b2) << 6) | Payload(b3) == cp
  {
  }

  lemma DecodeEncode2(cp: rune)
    requires 0x80 <= cp < 0x800
    ensures Assemble(Encode(cp), 2) == cp
  {
    var b0, b1 := (0xC0 | (cp >> 6)) as byte, (0x80 | (cp & 0x3F)) as byte;
    EncodeOf2(cp);
    AssembleOf2(b0, b1);
    Fields2(cp, b0, b1);
  }

  lemma DecodeEncode3(cp: rune)
    requires 0x800 <= cp < 0x1_0000 && IsScalarValue(cp)
    ensures Assemble(Encode(cp), 3) == cp
  {
    var b0, b1, b2 := (0xE0 | (cp >> 12)) as byte, (0x80 | ((cp >> 6) & 0x3F)) as byte, (0x80 | (cp & 0x3F)) as byte;
    EncodeOf3(cp);
    AssembleOf3(b0, b1, b2);
    Fields3(cp, b0, b1, b2);
  }

  lemma DecodeEncode4(cp: rune)
    requires 0x1_0000 <= cp <= 0x10FFFF
    ensures Assemble(Encode(cp), 4) == cp
  {
    var b0, b1, b2, b3 := (0xF0 | (cp >> 18)) as byte, (0x80 | ((cp >> 12) & 0x3F)) as byte,
                          (0x80 | ((cp >> 6) & 0x3F)) as byte, (0x80 | (cp & 0x3F)) as byte;
    EncodeOf4(cp);
    AssembleOf4(b0, b1, b2, b3);
    Fields4(cp, b0, b1, b2, b3);
  }

  /** Decoding the encoding of a scalar value gives that value back. */
  lemma DecodeEncode(cp: rune)
    requires IsScalarValue(cp)
    ensures IsLead(Encode(cp)[0]) && SequenceLength(Encode(cp)[0]) == |Encode(cp)|
    ensures Assemble(Encode(cp), |Encode(cp)|) == cp
  {
    EncodeLead(cp);
    if cp < 0x80 {
    } else if cp < 0x800 {
      DecodeEncode2(cp);
    } else if cp < 0x1_0000 {
      DecodeEncode3(cp);
    } else {
      DecodeEncode4(cp);
    }
  }

  /** A complete sequence: a lead byte followed by as many continuation bytes as it announces. */
  predicate WellFormed(s: seq<byte>) {
    |s| >= 1 && IsLead(s[0]) && SequenceLength(s[0]) == |s|
    && forall k :: 1 <= k < |s| ==> s[k] & 0xC0 == 0x80
  }

  /** Cutting the decoded value back into fields gives the bytes it came from. */
  lemma Unfields2(b0: byte, b1: byte, cp: rune)
    requires 0xC0 <= b0 < 0xE0 && b1 & 0xC0 == 0x80
    requires cp == (((b0 & 0x1F) as rune) << 6) | Payload(b1)
    ensures b0 == (0xC0 | (cp >> 6)) as byte && b1 == (0x80 | (cp & 0x3F)) as byte
  {
  }

  lemma Unfields3(b0: byte, b1: byte, b2: byte, cp: rune)
    requires 0xE0 <= b0 < 0xF0 && b1 & 0xC0 == 0x80 && b2 & 0xC0 == 0x80
    requires cp == (((b0 & 0x0F) as rune) << 12) | (Payload(b1) << 6) | Payload(b2)
    ensures b0 == (0xE0 | (cp >> 12)) as byte && b1 == (0x80 | ((cp >> 6) & 0x3F)) as byte
    ensures b2 == (0x80 | (cp & 0x3F)) as byte
  {
  }

  lemma Unfields4(b0: byte, b1: byte, b2: byte, b3: byte, cp: rune)
    requires 0xF0 <= b0 < 0xF8 && b1 & 0xC0 == 0x80 && b2 & 0xC0 == 0x80 && b3 & 0xC0 == 0x80
    requires cp == (((b0 & 0x07) as rune) << 18) | (Payload(b1) << 12) | (Payload(b2) << 6) | Payload(b3)
    ensures b0 == (0xF0 | (cp >> 18)) as byte && b1 == (0x80 | ((cp >> 12) & 0x3F)) as byte
    ensures b2 == (0x80 | ((cp >> 6) & 0x3F)) as byte && b3 == (0x80 | (cp & 0x3F)) as byte
  {
  }

  lemma EncodeDecode2(s: seq<byte>)
    requires WellFormed(s) && |s| == 2
    requires 0x80 <= Assemble(s, 2)
    ensures Encode(Assemble(s, 2)) == s
  {
    var b0, b1 := s[0], s[1];
    assert b1 & 0xC0 == 0x80 by {
      assert 1 <= 1 < |s|;
    }
    assert s == [b0, b1];
    var cp := Assemble([b0, b1], 2);
    AssembleOf2(b0, b1);
    Unfields2(b0, b1, cp);
    EncodeOf2(cp);
  }

  lemma EncodeDecode3(s: seq<byte>)
    requires WellFormed(s) && |s| == 3
    requires 0x800 <= Assemble(s, 3) && IsScalarValue(Assemble(s, 3))
    ensures Encode(Assemble(s, 3)) == s
  {
    var b0, b1, b2 := s[0], s[1], s[2];
    assert b1 & 0xC0 == 0x80 && b2 & 0xC0 == 0x80 by {
      assert 1 <= 1 < |s| && 1 <= 2 < |s|;
    }
    assert s == [b0, b1, b2];
    var cp := Assemble([b0, b1, b2], 3);
    AssembleOf3(b0, b1, b2);
    Unfields3(b0, b1, b2, cp);
    EncodeOf3(cp);
  }

  lemma EncodeDecode4(s: seq<byte>)
    requires WellFormed(s) && |s| == 4
    requires 0x1_0000 <= Assemble(s, 4) <= 0x10FFFF
    ensures Encode(Assemble(s, 4)) == s
  {
    var b0, b1, b2, b3 := s[0], s[1], s[2], s[3];
    assert b1 & 0xC0 == 0x80 && b2 & 0xC0 == 0x80 && b3 & 0xC0 == 0x80 by {
      assert 1 <= 1 < |s| && 1 <= 2 < |s| && 1 <= 3 < |s|;
    }
    assert s == [b0, b1, b2, b3];
    var cp := Assemble([b0, b1, b2, b3], 4);
    AssembleOf4(b0, b1, b2, b3);
    Unfields4(b0, b1, b2, b3, cp);
    EncodeOf4(cp);
  }

  /**
   * The other direction: a complete sequence whose value lies in the range its
   * table entry records (`beg`..`end`, which `to_rune` never consults) and is a
   * scalar value is the encoding of what it decodes to.
   */
  lemma EncodeDecode(s: seq<byte>)
    requires WellFormed(s)
    requires Utf[|s|].beg <= Assemble(s, |s|) <= Utf[|s|].end
    requires IsScalarValue(Assemble(s, |s|))
    ensures Encode(Assemble(s, |s|)) == s
  {
    if |s| == 1 {
      assert s == [s[0]];
    } else if |s| == 2 {
      EncodeDecode2(s);
    } else if |s| == 3 {
      EncodeDecode3(s);
    } else {
      EncodeDecode4(s);
    }
  }

  /** The test's waving hand: F0 9F 91 8B decodes to U+1F44B and is its encoding. */
  lemma WavingHand()
    ensures Assemble([0xF0, 0x9F, 0x91, 0x8B], 4) == 0x1F44B
    ensures Encode(0x1F44B) == [0xF0, 0x9F, 0x91, 0x8B]
  {
  }

  /**
   * Because `to_rune` ignores `beg`/`end` and the continuation markers, it
   * accepts an overlong NUL, a value above U+10FFFF, a surrogate, and an ASCII
   * byte in continuation position.
   */
  lemma NothingIsRejected()
    ensures Assemble([0xC0, 0x80], 2) == 0 && 0 < Utf[2].beg
    ensures Assemble([0xF4, 0x90, 0x80, 0x80], 4) == 0x11_0000 && Utf[4].end < 0x11_0000
    ensures Assemble([0xED, 0xA0, 0x80], 3) == 0xD800
    ensures Assemble([0xC3, 0x41], 2) == 0xC1
  {
  }

  /** The code point count `str_to_utf8` returns after adding k for iterations already done. */
  function Plus(r: Result<nat>, k: nat): Result<nat> {
    match r
    case Ok(n) => Ok(n + k)
    case Fail(f) => Fail(f)
  }

  /**
   * What the loop of `str_to_utf8` yields from position `srci` with `fuel`
   * iterations left: it stops at a NUL or when the iterations run out, counts
   * one per step and steps by the length of the sequence it sees (0 for a
   * stray continuation byte).
   */
  function Scan(str: seq<byte>, srci: nat, fuel: nat): (r: Result<nat>)
    ensures r.Ok? ==> r.value <= fuel
    decreases fuel
  {
    if fuel == 0 then Ok(0)
    else if srci >= |str| then Fail(ReadPastEnd)
    else if str[srci] == 0 then Ok(0)
    else if 0xF8 <= str[srci] then Fail(PastTable)
    else
      var plen := SequenceLength(str[srci]);
      if plen > 1 && srci + plen > |str| then Fail(ReadPastEnd)
      else Plus(Scan(str, srci + plen, fuel - 1), 1)
  }

  /** A NUL byte ends the count. */
  lemma ScanStopsAtNul(str: seq<byte>, srci: nat, fuel: nat, len: nat)
    requires 0 < fuel && srci < |str| && str[srci] == 0
    ensures Plus(Scan(str, srci, fuel), len) == Ok(len)
  {
  }

  /** A byte that starts a sequence (or a stray continuation byte) counts one and steps past it. */
  lemma ScanAdvances(str: seq<byte>, srci: nat, fuel: nat, len: nat, plen: nat)
    requires 0 < fuel && srci < |str| && str[srci] != 0 && str[srci] < 0xF8
    requires plen == SequenceLength(str[srci]) && (plen <= 1 || srci + plen <= |str|)
    ensures Plus(Scan(str, srci, fuel), len) == Plus(Scan(str, srci + plen, fuel - 1), len + 1)
  {
  }

  /** A multi-byte sequence cut off by the end of the buffer is a read past the end. */
  lemma ScanTruncated(str: seq<byte>, srci: nat, fuel: nat, len: nat)
    requires 0 < fuel && srci < |str| && str[srci] != 0 && str[srci] < 0xF8
    requires SequenceLength(str[srci]) > 1 && srci + SequenceLength(str[srci]) > |str|
    ensures Plus(Scan(str, srci, fuel), len) == Fail(ReadPastEnd)
  {
  }

  /**
   * The inner loop of `str_to_utf8`: copies the `plen` bytes of one sequence
   * into `tmp`, failing when the buffer ends first.
   */
  method CopySequence(str: seq<byte>, srci: nat, plen: nat, tmp: array<byte>) returns (ok: bool)
    requires srci <= |str| && plen <= tmp.Length
    modifies tmp
    ensures ok <==> srci + plen <= |str|
    ensures ok ==> tmp[..plen] == str[srci..srci + plen]
  {
    var c := 0;
    while c < plen
      invariant 0 <= c <= plen && srci + c <= |str|
      invariant forall k :: 0 <= k < c ==> tmp[k] == str[srci + k]
    {
      if srci + c == |str| {
        return false;
      }
      tmp[c] := str[srci + c];
      c := c + 1;
    }
    return true;
  }

  /**
   * `str_to_utf8`: counts code points in a NUL-terminated buffer. The loop
   * bound counts iterations, not bytes; each multi-byte sequence is copied
   * into `tmp` and decoded, and the rune is dropped, as in the source.
   */
  method StrToUtf8(str: seq<byte>, srcSize: int) returns (r: Result<nat>)
    ensures r == Scan(str, 0, if srcSize < 0 then 0 else srcSize)
  {
    var tmp := new byte[5](_ => 0);
    var srci: nat := 0;
    var len: nat := 0;
    ghost var fuel: nat := if srcSize < 0 then 0 else srcSize;
    var i := 0;
    while i < srcSize
      invariant 0 <= i <= fuel
      invariant Scan(str, 0, fuel) == Plus(Scan(str, srci, fuel - i), len)
    {
      if srci >= |str| {
        return Fail(ReadPastEnd);
      }
      if str[srci] == 0 {
        ScanStopsAtNul(str, srci, fuel - i, len);
        break;
      }
      var plen := Utf8Len(str[srci]);
      if plen.Fail? {
        return Fail(PastTable);
      }
      if plen.value > 1 {
        var copied := CopySequence(str, srci, plen.value, tmp);
        if !copied {
          ScanTruncated(str, srci, fuel - i, len);
          return Fail(ReadPastEnd);
        }
        assert tmp[..][0] == str[srci];
        var rune := ToRune(tmp[..]);
      }
      len := len + 1;
      ScanAdvances(str, srci, fuel - i, len - 1, plen.value);
      srci := srci + plen.value;
      i := i + 1;
    }
    return Ok(len);
  }

  /** `strlen`: the index of the first NUL. */
  function Strlen(s: seq<byte>): (n: nat)
    requires 0 in s
    ensures n < |s| && s[n] == 0
    ensures forall k :: 0 <= k < n ==> s[k] != 0
  {
    if s[0] == 0 then 0 else 1 + Strlen(s[1..])
  }

  /** The `s8` string: its buffer, its byte count and its code point count. */
  datatype S8 = S8(data: seq<byte>, size: nat, len: nat)

  /**
   * `S`: NULL gives the empty string with size and length 0; otherwise size is
   * `strlen(s)` and len is `str_to_utf8(s, strlen(s))`.
   */
  method S(s: Option<seq<byte>>) returns (r: Result<S8>)
    requires s.Some? ==> 0 in s.value
    ensures s.None? ==> r == Ok(S8([0], 0, 0))
    ensures s.Some? ==> r == match Scan(s.value, 0, Strlen(s.value))
                             case Ok(n) => Ok(S8(s.value, Strlen(s.value), n))
                             case Fail(f) => Fail(f)
  {
    if s.None? {
      return Ok(S8([0], 0, 0));
    }
    var size := Strlen(s.value);
    var len := StrToUtf8(s.value, size);
    match len
    case Ok(n) => r := Ok(S8(s.value, size, n));
    case Fail(f) => r := Fail(f);
  }

  /** The encodings of a list of scalar values, back to back. */
  function EncodeAll(cps: seq<rune>): (s: seq<byte>)
    requires forall k :: 0 <= k < |cps| ==> IsScalarValue(cps[k])
    ensures |cps| <= |s| <= 4 * |cps|
  {
    if cps == [] then [] else Encode(cps[0]) + EncodeAll(cps[1..])
  }

  /** No byte of the encoding of a non-zero scalar value is NUL. */
  lemma EncodeHasNoNul(cp: rune)
    requires IsScalarValue(cp) && cp != 0
    ensures 0 !in Encode(cp)
  {
    if cp >= 0x80 {
      var s := Encode(cp);
      assert forall k :: 0 <= k < |s| ==> s[k] & 0x80 == 0x80;
    }
  }

  lemma {:induction false} EncodeAllHasNoNul(cps: seq<rune>)
    requires forall k :: 0 <= k < |cps| ==> IsScalarValue(cps[k]) && cps[k] != 0
    ensures 0 !in EncodeAll(cps)
  {
    if cps != [] {
      EncodeHasNoNul(cps[0]);
      EncodeAllHasNoNul(cps[1..]);
    }
  }

  /** Scanning a suffix is scanning the whole buffer from the same place. */
  lemma {:induction false} ScanShift(p: seq<byte>, s: seq<byte>, k: nat, fuel: nat)
    ensures Scan(p + s, |p| + k, fuel) == Scan(s, k, fuel)
    decreases fuel
  {
    if fuel > 0 && k < |s| {
      assert (p + s)[|p| + k] == s[k];
      if s[k] != 0 && s[k] < 0xF8 {
        var plen := SequenceLength(s[k]);
        if !(plen > 1 && k + plen > |s|) {
          ScanShift(p, s, k + plen, fuel - 1);
        }
      }
    }
  }

  /**
   * A byte string that `str_to_utf8` steps over in one iteration: a non-NUL
   * lead byte that announces the string's own length.
   */
  predicate IsSequence(e: seq<byte>) {
    0 < |e| && e[0] != 0 && e[0] < 0xF8 && SequenceLength(e[0]) == |e|
  }

  /** Byte strings back to back. */
  function Flatten(chunks: seq<seq<byte>>): seq<byte> {
    if chunks == [] then [] else chunks[0] + Flatten(chunks[1..])
  }

  /** One sequence at the start of the buffer counts one and is stepped over. */
  lemma ScanOneSequence(e: seq<byte>, tail: seq<byte>, fuel: nat)
    requires IsSequence(e) && 0 < fuel
    ensures Scan(e + tail, 0, fuel) == Plus(Scan(tail, 0, fuel - 1), 1)
  {
    assert (e + tail)[0] == e[0];
    ScanShift(e, tail, 0, fuel - 1);
  }

  /**
   * On sequences followed by a NUL, `str_to_utf8` counts one per sequence,
   * up to its iteration bound.
   */
  lemma {:induction false} ScanSequences(chunks: seq<seq<byte>>, rest: seq<byte>, fuel: nat)
    requires forall k :: 0 <= k < |chunks| ==> IsSequence(chunks[k])
    ensures Scan(Flatten(chunks) + [0] + rest, 0, fuel) == Ok(if fuel < |chunks| then fuel else |chunks|)
    decreases chunks
  {
    if fuel > 0 && chunks != [] {
      var tail := Flatten(chunks[1..]) + [0] + rest;
      assert Flatten(chunks) + [0] + rest == chunks[0] + tail;
      ScanOneSequence(chunks[0], tail, fuel);
      ScanSequences(chunks[1..], rest, fuel - 1);
    }
  }

  /** The encodings of a list of scalar values, one string each. */
  function EncodeEach(cps: seq<rune>): (r: seq<seq<byte>>)
    requires forall k :: 0 <= k < |cps| ==> IsScalarValue(cps[k])
    ensures |r| == |cps| && forall k :: 0 <= k < |cps| ==> r[k] == Encode(cps[k])
  {
    if cps == [] then [] else [Encode(cps[0])] + EncodeEach(cps[1..])
  }

  lemma {:induction false} EncodeAllIsFlatten(cps: seq<rune>)
    requires forall k :: 0 <= k < |cps| ==> IsScalarValue(cps[k])
    ensures EncodeAll(cps) == Flatten(EncodeEach(cps))
  {
    if cps != [] {
      EncodeAllIsFlatten(cps[1..]);
      assert EncodeEach(cps)[1..] == EncodeEach(cps[1..]);
    }
  }

  /** The encoding of a non-zero scalar value is one sequence. */
  lemma EncodeIsSequence(cp: rune)
    requires IsScalarValue(cp) && cp != 0
    ensures IsSequence(Encode(cp))
  {
    EncodeLead(cp);
    EncodeHasNoNul(cp);
    assert Encode(cp)[0] in Encode(cp);
  }

  /**
   * On the encoding of non-zero scalar values followed by a NUL,
   * `str_to_utf8` counts one per code point, up to its iteration bound.
   */
  lemma ScanEncoded(cps: seq<rune>, rest: seq<byte>, fuel: nat)
    requires forall k :: 0 <= k < |cps| ==> IsScalarValue(cps[k]) && cps[k] != 0
    ensures Scan(EncodeAll(cps) + [0] + rest, 0, fuel) == Ok(if fuel < |cps| then fuel else |cps|)
  {
    var chunks := EncodeEach(cps);
    forall k | 0 <= k < |chunks|
      ensures IsSequence(chunks[k])
    {
      EncodeIsSequence(cps[k]);
    }
    EncodeAllIsFlatten(cps);
    ScanSequences(chunks, rest, fuel);
  }

  /** strlen is the index of the first NUL, whichever way it is found. */
  lemma StrlenIsFirstNul(s: seq<byte>, n: nat)
    requires n < |s| && s[n] == 0 && forall k :: 0 <= k < n ==> s[k] != 0
    ensures Strlen(s) == n
  {
  }

  /**
   * `S` on a C string holding the encodings of non-zero scalar values:
   * size is the byte count and len the code point count.
   */
  lemma SCountsCodePoints(cps: seq<rune>)
    requires forall k :: 0 <= k < |cps| ==> IsScalarValue(cps[k]) && cps[k] != 0
    ensures 0 in EncodeAll(cps) + [0]
    ensures Strlen(EncodeAll(cps) + [0]) == |EncodeAll(cps)|
    ensures Scan(EncodeAll(cps) + [0], 0, Strlen(EncodeAll(cps) + [0])) == Ok(|cps|)
  {
    var e := EncodeAll(cps);
    EncodeAllHasNoNul(cps);
    assert (e + [0])[|e|] == 0;
    assert forall k :: 0 <= k < |e| ==> (e + [0])[k] == e[k] && e[k] in e;
    StrlenIsFirstNul(e + [0], |e|);
    ScanEncoded(cps, [], |e|);
    assert e + [0] + [] == e + [0];
  }

  /** ASCII text counts one per byte. */
  lemma {:induction false} ScanAscii(str: seq<byte>, srci: nat, n: nat, fuel: nat)
    requires srci + n < |str| && str[srci + n] == 0
    requires forall j :: srci <= j < srci + n ==> 0 < str[j] < 0x80
    ensures Scan(str, srci, fuel) == Ok(if fuel < n then fuel else n)
    decreases n
  {
    if n > 0 && fuel > 0 {
      ScanAscii(str, srci + 1, n - 1, fuel - 1);
    }
  }

  /** `S("")`: size 0 and len 0. */
  lemma BlankString(s: seq<byte>)
    requires s == [0x00]
    ensures Strlen(s) == 0 && Scan(s, 0, Strlen(s)) == Ok(0)
  {
    StrlenIsFirstNul(s, 0);
  }

  /** The string of the first test: 14 bytes, 14 code points. */
  lemma ThisIsATest(s: seq<byte>)
    requires s == [0x54, 0x68, 0x69, 0x73, 0x20, 0x69, 0x73, 0x20, 0x61, 0x20, 0x74, 0x65, 0x73, 0x74, 0x00]
    ensures Strlen(s) == 14 && Scan(s, 0, Strlen(s)) == Ok(14)
  {
    StrlenIsFirstNul(s, 14);
    ScanAscii(s, 0, 14, 14);
  }

  /** Man, ZWJ, woman, ZWJ, boy: 18 bytes, 5 code points. */
  lemma FamilyOfThree(s: seq<byte>)
    requires s == [0xF0, 0x9F, 0x91, 0xA8, 0xE2, 0x80, 0x8D, 0xF0, 0x9F, 0x91, 0xA9, 0xE2, 0x80, 0x8D, 0xF0, 0x9F, 0x91, 0xA6, 0x00]
    ensures Strlen(s) == 18 && Scan(s, 0, Strlen(s)) == Ok(5)
  {
    var cps: seq<rune> := [0x1F468, 0x200D, 0x1F469, 0x200D, 0x1F466];
    assert Encode(cps[0]) == s[0..4];
    assert Encode(cps[1]) == s[4..7];
    assert Encode(cps[2]) == s[7..11];
    assert Encode(cps[3]) == s[11..14];
    assert Encode(cps[4]) == s[14..18];
    assert EncodeAll(cps[4..]) == s[14..18];
    assert EncodeAll(cps[3..]) == s[11..18];
    assert EncodeAll(cps[2..]) == s[7..18];
    assert EncodeAll(cps[1..]) == s[4..18];
    assert EncodeAll(cps) == s[0..18];
    assert s == s[0..18] + [0];
    SCountsCodePoints(cps);
  }

  /** The rainbow-flag test: 14 bytes, four code points (flag, variation selector, joiner, rainbow). */
  lemma RainbowFlag(s: seq<byte>)
    requires s == [0xF0, 0x9F, 0x8F, 0xB3, 0xEF, 0xB8, 0x8F, 0xE2, 0x80, 0x8D,
                   0xF0, 0x9F, 0x8C, 0x88, 0x00]
    ensures Strlen(s) == 14 && Scan(s, 0, Strlen(s)) == Ok(4)
  {
    var cps: seq<rune> := [0x1F3F3, 0xFE0F, 0x200D, 0x1F308];
    assert Encode(cps[0]) == s[0..4];
    assert Encode(cps[1]) == s[4..7];
    assert Encode(cps[2]) == s[7..10];
    assert Encode(cps[3]) == s[10..14];
    assert EncodeAll(cps[3..]) == s[10..14];
    assert EncodeAll(cps[2..]) == s[7..14];
    assert EncodeAll(cps[1..]) == s[4..14];
    assert EncodeAll(cps) == s[0..14];
    assert s == s[0..14] + [0];
    SCountsCodePoints(cps);
  }

  /** The mixed emoji and CJK test: 24 bytes, seven code points. */
  lemma MixedScripts(s: seq<byte>)
    requires s == [0xF0, 0x9F, 0x91, 0x8B, 0xF0, 0x9F, 0x91, 0x8F, 0xE4, 0xBB, 0x96,
                   0xE6, 0x98, 0xAF, 0xE6, 0x88, 0x91, 0xE7, 0x9A, 0x84,
                   0xF0, 0x9F, 0x98, 0xBA, 0x00]
    ensures Strlen(s) == 24 && Scan(s, 0, Strlen(s)) == Ok(7)
  {
    MixedScriptsLeads(s);
    MixedScriptsCount(s);
    StrlenIsFirstNul(s, 24);
  }

  /** The lead bytes of the mixed test and its terminating NUL. */
  lemma MixedScriptsLeads(s: seq<byte>)
    requires s == [0xF0, 0x9F, 0x91, 0x8B, 0xF0, 0x9F, 0x91, 0x8F, 0xE4, 0xBB, 0x96,
                   0xE6, 0x98, 0xAF, 0xE6, 0x88, 0x91, 0xE7, 0x9A, 0x84,
                   0xF0, 0x9F, 0x98, 0xBA, 0x00]
    ensures |s| == 25 && s[0] == 0xF0 && s[4] == 0xF0 && s[8] == 0xE4 && s[11] == 0xE6
    ensures s[14] == 0xE6 && s[17] == 0xE7 && s[20] == 0xF0 && s[24] == 0x00
  {
  }

  /**
   * The count of the mixed test depends only on its lead bytes: two four-byte
   * sequences, four three-byte ones, one more four-byte one and the NUL.
   */
  lemma MixedScriptsCount(s: seq<byte>)
    requires |s| == 25 && s[0] == 0xF0 && s[4] == 0xF0 && s[8] == 0xE4 && s[11] == 0xE6
    requires s[14] == 0xE6 && s[17] == 0xE7 && s[20] == 0xF0 && s[24] == 0x00
    ensures Scan(s, 0, 24) == Ok(7)
  {
    ScanAdvances(s, 0, 24, 0, 4);
    ScanAdvances(s, 4, 23, 1, 4);
    ScanAdvances(s, 8, 22, 2, 3);
    ScanAdvances(s, 11, 21, 3, 3);
    ScanAdvances(s, 14, 20, 4, 3);
    ScanAdvances(s, 17, 19, 5, 3);
    ScanAdvances(s, 20, 18, 6, 4);
    ScanStopsAtNul(s, 24, 17, 7);
  }

  /** The runes the mixed test reads back: waving hand, clapping hands and the grinning cat. */
  lemma MixedScriptsRunes(s: seq<byte>)
    requires s == [0xF0, 0x9F, 0x91, 0x8B, 0xF0, 0x9F, 0x91, 0x8F, 0xE4, 0xBB, 0x96,
                   0xE6, 0x98, 0xAF, 0xE6, 0x88, 0x91, 0xE7, 0x9A, 0x84,
                   0xF0, 0x9F, 0x98, 0xBA, 0x00]
    ensures Assemble(s[0..4], 4) == 0x1F44B
    ensures Assemble(s[4..8], 4) == 0x1F44F
    ensures Assemble(s[20..24], 4) == 0x1F63A
  {
    assert Encode(0x1F44B) == s[0..4];
    DecodeEncode(0x1F44B);
    assert Encode(0x1F44F) == s[4..8];
    DecodeEncode(0x1F44F);
    assert Encode(0x1F63A) == s[20..24];
    DecodeEncode(0x1F63A);
  }

  /** A stray continuation byte is counted on every remaining iteration and never stepped over. */
  lemma {:induction false} StrayContinuationRepeats(str: seq<byte>, srci: nat, fuel: nat)
    requires srci < |str| && 0x80 <= str[srci] < 0xC0
    ensures Scan(str, srci, fuel) == Ok(fuel)
    decreases fuel
  {
    if fuel > 0 {
      StrayContinuationRepeats(str, srci, fuel - 1);
    }
  }

  /** A sequence cut short by the end of the buffer makes str_to_utf8 read past it. */
  lemma TruncatedSequence()
    ensures Scan([0xE2, 0x80], 0, 2) == Fail(ReadPastEnd)
    ensures Scan([0x41, 0xF0, 0x9F], 0, 3) == Fail(ReadPastEnd)
  {
  }

  /**
   * A sequence cut short inside the buffer is stepped over whole, NUL
   * included: the three bytes announced by 0xE2 swallow the NUL at index 2,
   * and the count goes on at 0x42 until the `strlen` bound runs out.
   */
  lemma TruncatedStepsOverNul(s: seq<byte>)
    requires s == [0xE2, 0x41, 0x00, 0x42, 0x00]
    ensures Strlen(s) == 2 && Scan(s, 0, Strlen(s)) == Ok(2)
  {
    StrlenIsFirstNul(s, 2);
  }

  /** A byte from 0xF8 up makes utf8_len walk off its table. */
  lemma NoEntryForF8()
    ensures Scan([0x41, 0xF8, 0x00], 0, 2) == Fail(PastTable)
  {
  }
}
