/**
  Base64 as the service uses it: the standard alphabet with padding for Basic credentials
  (section 4 of RFC 4648) and the URL alphabet without padding for generated secrets and
  published keys (sections 3.2 and 5 of RFC 4648).

  Decoding is as tolerant as Go's: line breaks are skipped and the unused low bits of the last
  character are not checked, so it undoes encoding but is not injective.
 */
module Base64 {
  import opened Wrappers

  type Byte = b: int | 0 <= b < 256
  type Sextet = v: int | 0 <= v < 64

  datatype Encoding = StdEncoding | RawURLEncoding

  function Symbol(enc: Encoding, v: Sextet): char {
    if v < 26 then ('A' as int + v) as char
    else if v < 52 then ('a' as int + v - 26) as char
    else if v < 62 then ('0' as int + v - 52) as char
    else if v == 62 then (if enc.StdEncoding? then '+' else '-')
    else (if enc.StdEncoding? then '/' else '_')
  }

  function SymbolValue(enc: Encoding, c: char): Option<Sextet> {
    if 'A' <= c <= 'Z' then Some(c as int - 'A' as int)
    else if 'a' <= c <= 'z' then Some(c as int - 'a' as int + 26)
    else if '0' <= c <= '9' then Some(c as int - '0' as int + 52)
    else if c == (if enc.StdEncoding? then '+' else '-') then Some(62)
    else if c == (if enc.StdEncoding? then '/' else '_') then Some(63)
    else None
  }

  lemma SymbolRoundTrip(enc: Encoding, v: Sextet)
    ensures SymbolValue(enc, Symbol(enc, v)) == Some(v)
    ensures Symbol(enc, v) != '=' && Symbol(enc, v) != ':' && !LineBreak(Symbol(enc, v))
  {
  }

  /** The sextets of three bytes, missing ones read as zero. */
  function Sextets(b0: Byte, b1: Byte, b2: Byte): (v: seq<Sextet>)
    ensures |v| == 4
  {
    [b0 / 4, b0 % 4 * 16 + b1 / 16, b1 % 16 * 4 + b2 / 64, b2 % 64]
  }

  /** The bytes of four sextets. */
  function Octets(v0: Sextet, v1: Sextet, v2: Sextet, v3: Sextet): (b: seq<Byte>)
    ensures |b| == 3
  {
    [v0 * 4 + v1 / 16, v1 % 16 * 16 + v2 / 4, v2 % 4 * 64 + v3]
  }

  lemma OctetsOfSextets(b0: Byte, b1: Byte, b2: Byte)
    ensures var v := Sextets(b0, b1, b2); Octets(v[0], v[1], v[2], v[3]) == [b0, b1, b2]
  {
  }

  function Symbols(enc: Encoding, v: seq<Sextet>): (s: string)
    ensures |s| == |v|
    ensures forall i :: 0 <= i < |v| ==> s[i] == Symbol(enc, v[i])
  {
    seq(|v|, i requires 0 <= i < |v| => Symbol(enc, v[i]))
  }

  function Padding(enc: Encoding, n: nat): (s: string)
    ensures enc.RawURLEncoding? ==> s == ""
    ensures enc.StdEncoding? ==> |s| == n && forall i :: 0 <= i < n ==> s[i] == '='
  {
    if enc.StdEncoding? then seq(n, i => '=') else ""
  }

  function Encode(enc: Encoding, bytes: seq<Byte>): string {
    if |bytes| == 0 then ""
    else if |bytes| == 1 then Symbols(enc, Sextets(bytes[0], 0, 0)[..2]) + Padding(enc, 2)
    else if |bytes| == 2 then Symbols(enc, Sextets(bytes[0], bytes[1], 0)[..3]) + Padding(enc, 1)
    else Symbols(enc, Sextets(bytes[0], bytes[1], bytes[2])) + Encode(enc, bytes[3..])
  }

  lemma EncodeGroup(enc: Encoding, bytes: seq<Byte>, i: nat, before: string)
    requires i + 3 <= |bytes|
    ensures before + Encode(enc, bytes[i..]) ==
            before + Symbols(enc, Sextets(bytes[i], bytes[i + 1], bytes[i + 2])) + Encode(enc, bytes[i + 3..])
  {
    assert bytes[i..][3..] == bytes[i + 3..];
  }

  method EncodeToString(enc: Encoding, bytes: seq<Byte>) returns (s: string)
    ensures s == Encode(enc, bytes)
  {
    s := "";
    var i := 0;
    while i + 3 <= |bytes|
      invariant 0 <= i <= |bytes|
      invariant s + Encode(enc, bytes[i..]) == Encode(enc, bytes)
    {
      var quad := Symbols(enc, Sextets(bytes[i], bytes[i + 1], bytes[i + 2]));
      EncodeGroup(enc, bytes, i, s);
      s := s + quad;
      i := i + 3;
    }
    if |bytes| - i == 1 {
      s := s + Symbols(enc, Sextets(bytes[i], 0, 0)[..2]) + Padding(enc, 2);
    } else if |bytes| - i == 2 {
      s := s + Symbols(enc, Sextets(bytes[i], bytes[i + 1], 0)[..3]) + Padding(enc, 1);
    }
  }

  predicate LineBreak(c: char) {
    c == '\n' || c == '\r'
  }

  function Unbroken(s: string): string {
    if s == "" then ""
    else if LineBreak(s[0]) then Unbroken(s[1..])
    else [s[0]] + Unbroken(s[1..])
  }

  /** The values of the first n characters, if all are in the alphabet. */
  function Values(enc: Encoding, s: string, n: nat): (v: Option<seq<Sextet>>)
    requires n <= |s|
    ensures v.Some? ==> |v.value| == n
  {
    if n == 0 then Some([])
    else if Values(enc, s, n - 1).None? || SymbolValue(enc, s[n - 1]).None? then None
    else Some(Values(enc, s, n - 1).value + [SymbolValue(enc, s[n - 1]).value])
  }

  /** The last, incomplete group: two or three characters, then whatever padding is due. */
  function Tail(enc: Encoding, s: string): Option<seq<Byte>> {
    if |s| >= 2 && s[2..] == Padding(enc, 2) && Values(enc, s, 2).Some? then
      var v := Values(enc, s, 2).value;
      Some(Octets(v[0], v[1], 0, 0)[..1])
    else if |s| >= 3 && s[3..] == Padding(enc, 1) && Values(enc, s, 3).Some? then
      var v := Values(enc, s, 3).value;
      Some(Octets(v[0], v[1], v[2], 0)[..2])
    else None
  }

  function Groups(enc: Encoding, s: string): Option<seq<Byte>> {
    if s == "" then Some([])
    else if |s| >= 4 && Values(enc, s, 4).Some? then
      var v := Values(enc, s, 4).value;
      match Groups(enc, s[4..])
      case None => None
      case Some(rest) => Some(Octets(v[0], v[1], v[2], v[3]) + rest)
    else Tail(enc, s)
  }

  lemma GroupsStep(enc: Encoding, s: string, before: seq<Byte>)
    requires |s| >= 4 && Values(enc, s, 4).Some?
    ensures Groups(enc, s).Some? <==> Groups(enc, s[4..]).Some?
    ensures Groups(enc, s).Some? ==>
              var v := Values(enc, s, 4).value;
              before + Groups(enc, s).value == before + Octets(v[0], v[1], v[2], v[3]) + Groups(enc, s[4..]).value
  {
  }

  function Decode(enc: Encoding, s: string): Option<seq<Byte>> {
    Groups(enc, Unbroken(s))
  }

  method DropLineBreaks(s: string) returns (text: string)
    ensures text == Unbroken(s)
  {
    text := "";
    var k := |s|;
    while k > 0
      invariant 0 <= k <= |s|
      invariant text == Unbroken(s[k..])
    {
      k := k - 1;
      assert s[k..][1..] == s[k + 1..];
      if !LineBreak(s[k]) {
        text := [s[k]] + text;
      }
    }
    assert s[0..] == s;
  }

  method DecodeString(enc: Encoding, s: string) returns (bytes: Option<seq<Byte>>)
    ensures bytes == Decode(enc, s)
  {
    var text := DropLineBreaks(s);
    var decoded: seq<Byte> := [];
    var i := 0;
    while i + 4 <= |text| && Values(enc, text[i..], 4).Some?
      invariant 0 <= i <= |text|
      invariant Groups(enc, text).Some? <==> Groups(enc, text[i..]).Some?
      invariant Groups(enc, text).Some? ==> Groups(enc, text).value == decoded + Groups(enc, text[i..]).value
    {
      var v := Values(enc, text[i..], 4).value;
      GroupsStep(enc, text[i..], decoded);
      assert text[i..][4..] == text[i + 4..];
      decoded := decoded + Octets(v[0], v[1], v[2], v[3]);
      i := i + 4;
    }
    if i == |text| {
      assert text[i..] == "" && decoded + [] == decoded;
      return Some(decoded);
    }
    var last := Tail(enc, text[i..]);
    return if last.Some? then Some(decoded + last.value) else None;
  }

  // ---------------------------------------------------------------------------------------
  // Round trip and lengths
  // ---------------------------------------------------------------------------------------

  lemma {:induction false} UnbrokenId(s: string)
    requires forall i :: 0 <= i < |s| ==> !LineBreak(s[i])
    ensures Unbroken(s) == s
  {
    if s == "" {
    } else {
      UnbrokenId(s[1..]);
    }
  }

  /** Every character of an encoding is a symbol or padding: never a line break or a colon. */
  lemma {:induction false} EncodedCharacters(enc: Encoding, bytes: seq<Byte>)
    ensures forall i :: 0 <= i < |Encode(enc, bytes)| ==>
                          !LineBreak(Encode(enc, bytes)[i]) && Encode(enc, bytes)[i] != ':'
  {
    if |bytes| <= 2 {
    } else {
      EncodedCharacters(enc, bytes[3..]);
    }
  }

  lemma {:induction false} ValuesOfSymbols(enc: Encoding, v: seq<Sextet>, rest: string, n: nat)
    requires n <= |v|
    ensures Values(enc, Symbols(enc, v) + rest, n) == Some(v[..n])
  {
    if n == 0 {
    } else {
      ValuesOfSymbols(enc, v, rest, n - 1);
      SymbolRoundTrip(enc, v[n - 1]);
      assert (Symbols(enc, v) + rest)[n - 1] == Symbol(enc, v[n - 1]);
      assert v[..n - 1] + [v[n - 1]] == v[..n];
    }
  }

  /** A padding character has no value, so a padded group is never read as a full one. */
  lemma PaddingStops(enc: Encoding, s: string, k: nat, n: nat)
    requires k < n <= |s| && s[k] == '='
    ensures Values(enc, s, n).None?
  {
  }

  lemma TailRoundTrip(enc: Encoding, bytes: seq<Byte>)
    requires 1 <= |bytes| <= 2
    ensures Groups(enc, Encode(enc, bytes)) == Some(bytes)
  {
    var b1 := if |bytes| == 2 then bytes[1] else 0;
    var n := |bytes| + 1;
    var v := Sextets(bytes[0], b1, 0)[..n];
    var pad := Padding(enc, 4 - n);
    var s := Encode(enc, bytes);
    assert s == Symbols(enc, v) + pad;
    ValuesOfSymbols(enc, v, pad, n);
    ValuesOfSymbols(enc, v, pad, 2);
    OctetsOfSextets(bytes[0], b1, 0);
    assert s[n..] == pad;
    if enc.StdEncoding? {
      PaddingStops(enc, s, n, 4);
      if n == 2 {
        assert Octets(v[0], v[1], 0, 0)[..1] == bytes;
      } else {
        assert s[2] != '=' by {
          SymbolRoundTrip(enc, v[2]);
        }
        assert s[2..] != Padding(enc, 2);
        assert Octets(v[0], v[1], v[2], 0)[..2] == bytes;
      }
    } else {
      assert Octets(v[0], v[1], if n == 2 then 0 else v[2], 0)[..|bytes|] == bytes;
    }
  }

  /** Decoding undoes encoding, for every byte sequence and both encodings. */
  lemma RoundTrip(enc: Encoding, bytes: seq<Byte>)
    ensures Decode(enc, Encode(enc, bytes)) == Some(bytes)
  {
    EncodedCharacters(enc, bytes);
    UnbrokenId(Encode(enc, bytes));
    GroupsRoundTrip(enc, bytes);
  }

  lemma {:induction false} GroupsRoundTrip(enc: Encoding, bytes: seq<Byte>)
    ensures Groups(enc, Encode(enc, bytes)) == Some(bytes)
  {
    if 1 <= |bytes| <= 2 {
      TailRoundTrip(enc, bytes);
    } else if |bytes| > 2 {
      var v := Sextets(bytes[0], bytes[1], bytes[2]);
      var rest := Encode(enc, bytes[3..]);
      GroupsRoundTrip(enc, bytes[3..]);
      ValuesOfSymbols(enc, v, rest, 4);
      OctetsOfSextets(bytes[0], bytes[1], bytes[2]);
      assert v[..4] == v;
      assert (Symbols(enc, v) + rest)[4..] == rest;
      assert bytes == [bytes[0], bytes[1], bytes[2]] + bytes[3..];
    }
  }

  /** Equal encodings come from equal bytes. */
  lemma EncodeInjective(enc: Encoding, a: seq<Byte>, b: seq<Byte>)
    requires Encode(enc, a) == Encode(enc, b)
    ensures a == b
  {
    RoundTrip(enc, a);
    RoundTrip(enc, b);
  }

  lemma {:induction false} EncodedLength(enc: Encoding, bytes: seq<Byte>)
    ensures enc.StdEncoding? ==> |Encode(enc, bytes)| == (|bytes| + 2) / 3 * 4
    ensures enc.RawURLEncoding? ==> |Encode(enc, bytes)| == (|bytes| * 4 + 2) / 3
  {
    if |bytes| <= 2 {
    } else {
      EncodedLength(enc, bytes[3..]);
    }
  }

  lemma {:induction false} UnbrokenShrinks(s: string)
    ensures |Unbroken(s)| <= |s|
  {
    if s == "" {
    } else {
      UnbrokenShrinks(s[1..]);
    }
  }

  lemma {:induction false} GroupsLength(enc: Encoding, s: string)
    requires Groups(enc, s).Some?
    ensures 4 * |Groups(enc, s).value| <= 3 * |s|
  {
    if |s| < 4 || Values(enc, s, 4).None? {
    } else {
      GroupsLength(enc, s[4..]);
    }
  }

  /** Decoding yields at most three bytes for four characters. */
  lemma DecodedLength(enc: Encoding, s: string)
    requires Decode(enc, s).Some?
    ensures 4 * |Decode(enc, s).value| <= 3 * |s|
  {
    UnbrokenShrinks(s);
    GroupsLength(enc, Unbroken(s));
  }

  lemma {:induction false} UnbrokenConcat(a: string, b: string)
    ensures Unbroken(a + b) == Unbroken(a) + Unbroken(b)
  {
    if a == "" {
      assert a + b == b;
    } else {
      assert (a + b)[1..] == a[1..] + b;
      UnbrokenConcat(a[1..], b);
    }
  }

  /** Line breaks anywhere are skipped, so different texts decode alike: decoding is not injective. */
  lemma LineBreaksIgnored(enc: Encoding, a: string, b: string, c: char)
    requires c == '\n' || c == '\r'
    ensures Decode(enc, a + [c] + b) == Decode(enc, a + b)
  {
    UnbrokenConcat(a + [c], b);
    UnbrokenConcat(a, [c]);
    UnbrokenConcat(a, b);
    assert [c][1..] == "";
    assert Unbroken([c]) == "";
    assert Unbroken(a) + "" == Unbroken(a);
  }
}
