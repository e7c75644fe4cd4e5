/**
  Base64 against RFC 4648, without its tables and bit shuffling being taken from the code: which
  characters stand for which bits, which texts decode, and what they decode to.
 */
module Rfc4648 {
  import opened Wrappers
  import opened Base64

  // ---------------------------------------------------------------------------------------
  // What is encoded
  // ---------------------------------------------------------------------------------------

  lemma Upper(v: nat)
    requires v < 26
    ensures ('A' as int + v) as char == "ABCDEFGHIJKLMNOPQRSTUVWXYZ"[v]
  {
  }

  lemma Lower(v: nat)
    requires v < 26
    ensures ('a' as int + v) as char == "abcdefghijklmnopqrstuvwxyz"[v]
  {
  }

  lemma Digit(v: nat)
    requires v < 10
    ensures ('0' as int + v) as char == "0123456789"[v]
  {
  }

  /** Tables 1 and 2 of RFC 4648. */
  lemma SymbolOfTable(enc: Encoding, v: Sextet)
    ensures var last := if enc.StdEncoding? then "+/" else "-_";
            Symbol(enc, v) == ("ABCDEFGHIJKLMNOPQRSTUVWXYZ" + "abcdefghijklmnopqrstuvwxyz" + "0123456789" + last)[v]
  {
    if v < 26 {
      Upper(v);
    } else if v < 52 {
      Lower(v - 26);
    } else if v < 62 {
      Digit(v - 52);
    }
  }

  /** The byte at k, zero beyond the end. */
  function ByteAt(bytes: seq<Byte>, k: nat): Byte {
    if k < |bytes| then bytes[k] else 0
  }

  /** Bits 6k to 6k + 5 of the 24 bits of group g. */
  function BitsAt(bytes: seq<Byte>, g: nat, k: nat): Sextet
    requires k < 4
  {
    var bits := ByteAt(bytes, 3 * g) * 0x1_0000 + ByteAt(bytes, 3 * g + 1) * 0x100 + ByteAt(bytes, 3 * g + 2);
    bits / (if k == 0 then 0x4_0000 else if k == 1 then 0x1000 else if k == 2 then 0x40 else 1) % 64
  }

  lemma SextetsAreBits(b0: Byte, b1: Byte, b2: Byte, k: nat)
    requires k < 4
    ensures Sextets(b0, b1, b2)[k] == BitsAt([b0, b1, b2], 0, k)
  {
    TopBits(b0 * 0x1_0000 + b1 * 0x100 + b2, b0 / 4, b0 % 4, b1 / 16, b1 % 16, b2 / 64, b2 % 64);
  }

  lemma TopBits(bits: nat, a: nat, b: nat, c: nat, d: nat, e: nat, f: nat)
    requires a < 64 && b < 4 && c < 16 && d < 16 && e < 4 && f < 64
    requires bits == a * 0x4_0000 + b * 0x1_0000 + c * 0x1000 + d * 0x100 + e * 0x40 + f
    ensures bits / 0x4_0000 % 64 == a && bits / 0x1000 % 64 == b * 16 + c
    ensures bits / 0x40 % 64 == d * 4 + e && bits % 64 == f
  {
    assert bits / 0x40 == a * 0x1000 + b * 0x400 + c * 0x40 + d * 4 + e;
    assert bits / 0x1000 == a * 0x40 + b * 0x10 + c;
    assert bits / 0x4_0000 == a;
  }

  lemma LaterGroup(bytes: seq<Byte>, g: nat, k: nat)
    requires |bytes| >= 3 && g > 0 && k < 4
    ensures BitsAt(bytes, g, k) == BitsAt(bytes[3..], g - 1, k)
  {
  }

  lemma FirstGroup(enc: Encoding, bytes: seq<Byte>, k: nat)
    requires k < 4 && k * 6 < |bytes| * 8
    ensures k < |Encode(enc, bytes)|
    ensures Encode(enc, bytes)[k] == Symbol(enc, Sextets(ByteAt(bytes, 0), ByteAt(bytes, 1), ByteAt(bytes, 2))[k])
  {
  }

  /** The character at 4 * g + k stands for bits k of group g. */
  ghost predicate Stands(enc: Encoding, bytes: seq<Byte>, g: nat, k: nat) {
    k < 4 && 4 * g + k < |Encode(enc, bytes)| && Encode(enc, bytes)[4 * g + k] == Symbol(enc, BitsAt(bytes, g, k))
  }

  lemma FirstBits(bytes: seq<Byte>, k: nat)
    requires k < 4
    ensures BitsAt(bytes, 0, k) == Sextets(ByteAt(bytes, 0), ByteAt(bytes, 1), ByteAt(bytes, 2))[k]
  {
    SextetsAreBits(ByteAt(bytes, 0), ByteAt(bytes, 1), ByteAt(bytes, 2), k);
  }

  lemma FirstStands(enc: Encoding, bytes: seq<Byte>, k: nat)
    requires k < 4 && k * 6 < |bytes| * 8
    ensures Stands(enc, bytes, 0, k)
  {
    FirstBits(bytes, k);
    FirstGroup(enc, bytes, k);
  }

  lemma LaterStands(enc: Encoding, bytes: seq<Byte>, g: nat, k: nat)
    requires |bytes| >= 3 && g > 0 && Stands(enc, bytes[3..], g - 1, k)
    ensures Stands(enc, bytes, g, k)
  {
    LaterGroup(bytes, g, k);
  }

  lemma {:induction false} EncodedStands(enc: Encoding, bytes: seq<Byte>, g: nat, k: nat)
    requires k < 4 && (4 * g + k) * 6 < |bytes| * 8
    ensures Stands(enc, bytes, g, k)
  {
    if g == 0 {
      FirstStands(enc, bytes, k);
    } else {
      EncodedStands(enc, bytes[3..], g - 1, k);
      LaterStands(enc, bytes, g, k);
    }
  }

  lemma {:induction false} EncodedPadding(enc: Encoding, bytes: seq<Byte>, p: nat)
    requires p * 6 >= |bytes| * 8 && p < |Encode(enc, bytes)|
    ensures Encode(enc, bytes)[p] == '='
  {
    if |bytes| <= 2 {
    } else {
      EncodedPadding(enc, bytes[3..], p - 4);
    }
  }

  /**
    Section 4 of RFC 4648, position by position: the characters stand for the bits of the input
    taken six at a time, zero bits filling up the last group, and `=` fills up a padded text.
   */
  lemma EncodesBits(enc: Encoding, bytes: seq<Byte>, p: nat)
    requires p < |Encode(enc, bytes)|
    ensures var last := if enc.StdEncoding? then "+/" else "-_";
            var table := "ABCDEFGHIJKLMNOPQRSTUVWXYZ" + "abcdefghijklmnopqrstuvwxyz" + "0123456789" + last;
            Encode(enc, bytes)[p] == if p * 6 < |bytes| * 8 then table[BitsAt(bytes, p / 4, p % 4)] else '='
  {
    if p * 6 < |bytes| * 8 {
      EncodedStands(enc, bytes, p / 4, p % 4);
      SymbolOfTable(enc, BitsAt(bytes, p / 4, p % 4));
    } else {
      EncodedPadding(enc, bytes, p);
    }
  }

  // ---------------------------------------------------------------------------------------
  // What decodes
  // ---------------------------------------------------------------------------------------

  predicate InTable(enc: Encoding, c: char) {
    || c in "ABCDEFGHIJKLMNOPQRSTUVWXYZ" || c in "abcdefghijklmnopqrstuvwxyz"
    || c in "0123456789" || c in (if enc.StdEncoding? then "+/" else "-_")
  }

  lemma Capitals(c: char)
    ensures 'A' <= c <= 'Z' <==> c in "ABCDEFGHIJKLMNOPQRSTUVWXYZ"
  {
  }

  lemma Smalls(c: char)
    ensures 'a' <= c <= 'z' <==> c in "abcdefghijklmnopqrstuvwxyz"
  {
  }

  lemma Digits(c: char)
    ensures '0' <= c <= '9' <==> c in "0123456789"
  {
  }

  lemma KnownInTable(enc: Encoding, c: char)
    ensures SymbolValue(enc, c).Some? <==> InTable(enc, c)
    ensures SymbolValue(enc, c).Some? ==> Symbol(enc, SymbolValue(enc, c).value) == c
  {
    Capitals(c);
    Smalls(c);
    Digits(c);
  }

  /** An encoding without padding has characters of the alphabet only. */
  lemma UnpaddedInTable(bytes: seq<Byte>)
    ensures forall c :: c in Encode(RawURLEncoding, bytes) ==> InTable(RawURLEncoding, c)
  {
    var text := Encode(RawURLEncoding, bytes);
    forall p | 0 <= p < |text| ensures InTable(RawURLEncoding, text[p]) {
      EncodedLength(RawURLEncoding, bytes);
      EncodedStands(RawURLEncoding, bytes, p / 4, p % 4);
      SymbolInTable(RawURLEncoding, BitsAt(bytes, p / 4, p % 4));
    }
  }

  lemma SymbolInTable(enc: Encoding, v: Sextet)
    ensures InTable(enc, Symbol(enc, v))
  {
    SymbolRoundTrip(enc, v);
    KnownInTable(enc, Symbol(enc, v));
  }

  predicate Known(enc: Encoding, s: string, n: nat)
    requires n <= |s|
  {
    forall i :: 0 <= i < n ==> SymbolValue(enc, s[i]).Some?
  }

  lemma {:induction false} ValuesIff(enc: Encoding, s: string, n: nat)
    requires n <= |s|
    ensures Values(enc, s, n).Some? <==> Known(enc, s, n)
    ensures Values(enc, s, n).Some? ==>
              forall i :: 0 <= i < n ==> SymbolValue(enc, s[i]) == Some(Values(enc, s, n).value[i])
  {
    if n == 0 {
    } else {
      ValuesIff(enc, s, n - 1);
    }
  }

  predicate Complete(enc: Encoding, s: string, n: nat) {
    n <= |s| && n % 4 != 1 && Known(enc, s, n) && s[n..] == Padding(enc, (4 - n % 4) % 4)
  }

  lemma PaddingUnknown(enc: Encoding, n: nat)
    ensures forall i :: 0 <= i < |Padding(enc, n)| ==> SymbolValue(enc, Padding(enc, n)[i]).None?
  {
  }

  lemma TailIff(enc: Encoding, s: string)
    ensures Tail(enc, s).Some? <==> Complete(enc, s, 2) || Complete(enc, s, 3)
  {
    if |s| >= 2 {
      ValuesIff(enc, s, 2);
    }
    if |s| >= 3 {
      ValuesIff(enc, s, 3);
    }
  }

  lemma LeadingGroup(enc: Encoding, s: string, n: nat)
    requires |s| >= 4 && Known(enc, s, 4)
    ensures n >= 4 ==> (Complete(enc, s, n) <==> Complete(enc, s[4..], n - 4))
    ensures n < 4 ==> !Complete(enc, s, n)
  {
    if n >= 4 && n <= |s| {
      assert s[4..][n - 4..] == s[n..];
      assert Known(enc, s, n) <==> Known(enc, s[4..], n - 4) by {
        if Known(enc, s[4..], n - 4) {
          forall i | 0 <= i < n ensures SymbolValue(enc, s[i]).Some? {
            if i >= 4 {
              assert s[4..][i - 4] == s[i];
            }
          }
        }
      }
    } else if n < 4 {
      PaddingUnknown(enc, (4 - n % 4) % 4);
      assert s[n..][0] == s[n];
    }
  }

  lemma LastGroup(enc: Encoding, s: string, n: nat)
    requires s != "" && (|s| < 4 || !Known(enc, s, 4)) && Complete(enc, s, n)
    ensures n == 2 || n == 3
  {
    assert s[0..] == s;
  }

  lemma {:induction false} GroupsComplete(enc: Encoding, s: string) returns (n: nat)
    requires Groups(enc, s).Some?
    ensures Complete(enc, s, n)
  {
    if s == "" {
      n := 0;
    } else if |s| >= 4 && Values(enc, s, 4).Some? {
      ValuesIff(enc, s, 4);
      n := GroupsComplete(enc, s[4..]);
      n := n + 4;
      LeadingGroup(enc, s, n);
    } else {
      TailIff(enc, s);
      n := if Complete(enc, s, 2) then 2 else 3;
    }
  }

  lemma {:induction false} CompleteGroups(enc: Encoding, s: string, n: nat)
    requires Complete(enc, s, n)
    ensures Groups(enc, s).Some?
  {
    if |s| >= 4 {
      ValuesIff(enc, s, 4);
    }
    if s == "" {
    } else if |s| >= 4 && Values(enc, s, 4).Some? {
      LeadingGroup(enc, s, n);
      CompleteGroups(enc, s[4..], n - 4);
    } else {
      LastGroup(enc, s, n);
      TailIff(enc, s);
    }
  }

  /**
    n characters of the alphabet, never just one in the last group, and then the padding that
    is due.
   */
  predicate Shaped(enc: Encoding, s: string, n: nat) {
    && n <= |s| && n % 4 != 1 && s[n..] == (if enc.StdEncoding? then "==="[..(4 - n % 4) % 4] else "")
    && forall i :: 0 <= i < n ==> InTable(enc, s[i])
  }

  lemma ShapedIff(enc: Encoding, s: string, n: nat)
    ensures Shaped(enc, s, n) <==> Complete(enc, s, n)
  {
    assert "==="[..(4 - n % 4) % 4] == Padding(StdEncoding, (4 - n % 4) % 4);
    if n <= |s| {
      forall i | 0 <= i < n ensures SymbolValue(enc, s[i]).Some? <==> InTable(enc, s[i]) {
        KnownInTable(enc, s[i]);
      }
    }
  }

  /**
    Which texts decode: line breaks aside, some characters of the alphabet, not one more than a
    multiple of four, and then exactly the padding that is due.
   */
  lemma DecodesIff(enc: Encoding, s: string, text: string)
    requires text == Unbroken(s)
    ensures Decode(enc, s).Some? <==> exists n: nat :: Shaped(enc, text, n)
  {
    if Decode(enc, s).Some? {
      var n := GroupsComplete(enc, text);
      ShapedIff(enc, text, n);
    }
    forall n: nat | Shaped(enc, text, n) ensures Groups(enc, text).Some? {
      ShapedIff(enc, text, n);
      CompleteGroups(enc, text, n);
    }
  }

  /** Only line feeds and carriage returns are skipped. */
  lemma {:induction false} UnbrokenKeeps(s: string, c: char)
    ensures c in Unbroken(s) <==> c in s && c != '\n' && c != '\r'
  {
    if s == "" {
    } else {
      UnbrokenKeeps(s[1..], c);
      assert s == [s[0]] + s[1..];
    }
  }

  lemma Regrouped(a: nat, b: nat, c: nat, d: nat, e: nat, f: nat)
    requires a < 64 && b < 4 && c < 16 && d < 16 && e < 4 && f < 64
    ensures Sextets(a * 4 + b, c * 16 + d, e * 64 + f) == [a, b * 16 + c, d * 4 + e, f]
  {
    assert (a * 4 + b) / 4 == a && (c * 16 + d) / 16 == c && (e * 64 + f) / 64 == e;
  }

  lemma QuotientBy16(v: Sextet) returns (q: nat, r: nat)
    ensures q == v / 16 && r == v % 16 && v == q * 16 + r && q < 4 && r < 16
  {
    q, r := v / 16, v % 16;
  }

  lemma QuotientBy4(v: Sextet) returns (q: nat, r: nat)
    ensures q == v / 4 && r == v % 4 && v == q * 4 + r && q < 16 && r < 4
  {
    q, r := v / 4, v % 4;
  }

  lemma SextetsOfOctets(v0: Sextet, v1: Sextet, v2: Sextet, v3: Sextet)
    ensures var b := Octets(v0, v1, v2, v3); Sextets(b[0], b[1], b[2]) == [v0, v1, v2, v3]
  {
    var b, c := QuotientBy16(v1);
    var d, e := QuotientBy4(v2);
    Regrouped(v0, b, c, d, e, v3);
  }

  lemma KnownSymbols(enc: Encoding, s: string, n: nat)
    requires n <= |s| && Values(enc, s, n).Some?
    ensures Symbols(enc, Values(enc, s, n).value) == s[..n]
  {
    ValuesIff(enc, s, n);
    forall i | 0 <= i < n ensures Symbol(enc, Values(enc, s, n).value[i]) == s[i] {
      KnownInTable(enc, s[i]);
    }
  }

  /** Characters that stand for whole bits of the bytes, or are padding. */
  predicate Counts(bytes: seq<Byte>, s: string, p: nat)
    requires p < |s|
  {
    p * 6 + 6 <= |bytes| * 8 || s[p] == '='
  }

  lemma TailReEncodes(enc: Encoding, s: string, p: nat)
    requires Tail(enc, s).Some? && p < |s|
    ensures |Encode(enc, Tail(enc, s).value)| == |s|
    ensures Counts(Tail(enc, s).value, s, p) ==> Encode(enc, Tail(enc, s).value)[p] == s[p]
  {
    if |Tail(enc, s).value| == 1 {
      var v := Values(enc, s, 2).value;
      KnownSymbols(enc, s, 2);
      SextetsOfOctets(v[0], v[1], 0, 0);
    } else {
      var v := Values(enc, s, 3).value;
      KnownSymbols(enc, s, 3);
      SextetsOfOctets(v[0], v[1], v[2], 0);
    }
  }

  lemma {:induction false} GroupsReEncode(enc: Encoding, s: string, p: nat)
    requires Groups(enc, s).Some? && p < |s|
    ensures |Encode(enc, Groups(enc, s).value)| == |s|
    ensures Counts(Groups(enc, s).value, s, p) ==> Encode(enc, Groups(enc, s).value)[p] == s[p]
  {
    if |s| >= 4 && Values(enc, s, 4).Some? {
      var v, rest := Values(enc, s, 4).value, Groups(enc, s[4..]).value;
      KnownSymbols(enc, s, 4);
      SextetsOfOctets(v[0], v[1], v[2], v[3]);
      OctetsThenRest(enc, v, rest);
      if s[4..] != "" {
        GroupsReEncode(enc, s[4..], if p < 4 then 0 else p - 4);
      }
    } else {
      TailReEncodes(enc, s, p);
    }
  }

  lemma OctetsThenRest(enc: Encoding, v: seq<Sextet>, rest: seq<Byte>)
    requires |v| == 4
    ensures Encode(enc, Octets(v[0], v[1], v[2], v[3]) + rest) == Symbols(enc, v) + Encode(enc, rest)
  {
    var b := Octets(v[0], v[1], v[2], v[3]);
    SextetsOfOctets(v[0], v[1], v[2], v[3]);
    assert (b + rest)[3..] == rest && v == [v[0], v[1], v[2], v[3]];
  }

  /**
    What is decoded: encoding the bytes again gives the text without its line breaks, but for the
    character whose last bits are unused.
   */
  lemma DecodedReEncodes(enc: Encoding, s: string, text: string, p: nat)
    requires text == Unbroken(s) && Decode(enc, s).Some? && p < |text|
    ensures |Encode(enc, Decode(enc, s).value)| == |text|
    ensures p * 6 + 6 <= |Decode(enc, s).value| * 8 || text[p] == '=' ==>
              Encode(enc, Decode(enc, s).value)[p] == text[p]
  {
    GroupsReEncode(enc, text, p);
  }
}
