/** Basic credentials (api/m2m.go, section 2 of RFC 7617) and the generated secret (m2m/provision.go). */
module BasicAuth {
  import opened Wrappers
  import opened Base64
  import opened Validation

  const MAX_SECRET_LENGTH: nat := 1024
  const MAX_CLIENT_ID_LENGTH: nat := 64
  const MAX_HEADER_LENGTH: nat := 4096
  const CLIENT_SECRET_BYTES: nat := 32

  /** A Go string: each character stands for one byte. */
  predicate ByteText(s: string) {
    forall i :: 0 <= i < |s| ==> s[i] as int < 256
  }

  function TextBytes(s: string): (b: seq<Byte>)
    requires ByteText(s)
    ensures |b| == |s|
  {
    seq(|s|, i requires 0 <= i < |s| => s[i] as int)
  }

  function BytesText(b: seq<Byte>): (s: string)
    ensures |s| == |b| && ByteText(s)
    ensures forall i :: 0 <= i < |s| ==> s[i] as int == b[i]
  {
    seq(|b|, i requires 0 <= i < |b| => b[i] as char)
  }

  lemma TextRoundTrip(s: string)
    requires ByteText(s)
    ensures BytesText(TextBytes(s)) == s
  {
  }

  /** The position of the first c, or the length when there is none. */
  function IndexOf(s: string, c: char): (n: nat)
    ensures n <= |s|
    ensures forall i :: 0 <= i < n ==> s[i] != c
    ensures n < |s| ==> s[n] == c
  {
    if s == "" || s[0] == c then 0 else 1 + IndexOf(s[1..], c)
  }

  /** strings.Cut around the first colon, and the checks on both halves. */
  function SplitCredentials(text: string): Option<(string, string)> {
    var n := IndexOf(text, ':');
    if n == |text| || n == 0 || n == |text| - 1 || n > MAX_CLIENT_ID_LENGTH then None
    else Some((text[..n], text[n + 1..]))
  }

  function ParseBasicAuth(header: string): Option<(string, string)> {
    if header == "" || |header| > MAX_HEADER_LENGTH || !("Basic " <= header) then None
    else
      match Decode(StdEncoding, header[6..])
      case None => None
      case Some(raw) =>
        if |raw| > MAX_HEADER_LENGTH then None else SplitCredentials(BytesText(raw))
  }

  /** parseBasicAuth, over the decoding loop. */
  method ParseHeader(header: string) returns (credentials: Option<(string, string)>)
    ensures credentials == ParseBasicAuth(header)
  {
    if header == "" || |header| > MAX_HEADER_LENGTH || !("Basic " <= header) {
      return None;
    }
    var raw := DecodeString(StdEncoding, header[6..]);
    if raw.None? {
      return None;
    }
    var val := BytesText(raw.value);
    if |val| > MAX_HEADER_LENGTH {
      return None;
    }
    return SplitCredentials(val);
  }

  /** The decoded text behind a header within the cap. */
  function DecodedText(header: string): Option<string> {
    if |header| > MAX_HEADER_LENGTH || !("Basic " <= header) || Decode(StdEncoding, header[6..]).None? then None
    else Some(BytesText(Decode(StdEncoding, header[6..]).value))
  }

  /** The header cap makes the check on the decoded length redundant. */
  lemma DecodedLengthCheckNeverFires(header: string)
    requires DecodedText(header).Some?
    ensures |DecodedText(header).value| < 4096
    ensures ParseBasicAuth(header) == SplitCredentials(DecodedText(header).value)
  {
    DecodedLength(StdEncoding, header[6..]);
  }

  /**
    Parsing yields (id, secret) exactly when the header is within the cap and decodes to
    id + ":" + secret with a non-empty colon-free id of at most 64 bytes and a non-empty secret.
   */
  lemma ParsesIff(header: string, id: string, secret: string)
    ensures ParseBasicAuth(header) == Some((id, secret)) <==>
            && |header| <= 4096 && "Basic " <= header && Decode(StdEncoding, header[6..]).Some?
            && BytesText(Decode(StdEncoding, header[6..]).value) == id + ":" + secret
            && 1 <= |id| <= 64 && ':' !in id && secret != ""
  {
    if DecodedText(header).Some? {
      DecodedLengthCheckNeverFires(header);
      var text := DecodedText(header).value;
      var n := IndexOf(text, ':');
      if text == id + ":" + secret {
        assert text[|id|] == ':' && text[..|id|] == id && text[|id| + 1..] == secret;
        assert forall i :: 0 <= i < |id| ==> text[i] == id[i];
      }
      if SplitCredentials(text) == Some((id, secret)) {
        assert text == text[..n] + ":" + text[n + 1..];
      }
    }
  }

  /** The header a client sends for its credentials. */
  function BasicHeader(id: string, secret: string): string
    requires ByteText(id) && ByteText(secret)
  {
    "Basic " + Encode(StdEncoding, TextBytes(id + ":" + secret))
  }

  /** Every valid client id with every non-empty secret of at most 1024 bytes survives the trip. */
  lemma CredentialsRoundTrip(id: string, secret: string)
    requires ValidName(id) && ByteText(secret) && 1 <= |secret| <= 1024
    ensures ByteText(id) && ParseBasicAuth(BasicHeader(id, secret)) == Some((id, secret))
  {
    var text := id + ":" + secret;
    assert forall i :: 0 <= i < |id| ==> NameChar(id[i]) && id[i] != ':';
    assert ByteText(id);
    assert ByteText(text);
    var header := BasicHeader(id, secret);
    EncodedLength(StdEncoding, TextBytes(text));
    RoundTrip(StdEncoding, TextBytes(text));
    TextRoundTrip(text);
    assert header[6..] == Encode(StdEncoding, TextBytes(text));
    ParsesIff(header, id, secret);
  }

  /** base64url of 32 random bytes; None stands for a failing random source. */
  method GenerateClientSecret(random: Option<seq<Byte>>) returns (secret: Option<string>)
    requires random.Some? ==> |random.value| == CLIENT_SECRET_BYTES
    ensures secret.Some? <==> random.Some?
    ensures secret.Some? ==> secret.value == Encode(RawURLEncoding, random.value) && |secret.value| == 43
  {
    if random.None? {
      return None;
    }
    var text := EncodeToString(RawURLEncoding, random.value);
    EncodedLength(RawURLEncoding, random.value);
    return Some(text);
  }

  lemma {:induction false} EncodingIsByteText(enc: Encoding, bytes: seq<Byte>)
    ensures ByteText(Encode(enc, bytes))
  {
    if |bytes| <= 2 {
    } else {
      EncodingIsByteText(enc, bytes[3..]);
    }
  }

  /** A generated secret has 43 characters and no colon, and reaches the exchange unchanged. */
  lemma GeneratedSecretArrives(id: string, raw: seq<Byte>)
    requires ValidName(id) && |raw| == CLIENT_SECRET_BYTES
    ensures var secret := Encode(RawURLEncoding, raw);
            && |secret| == 43 && ':' !in secret
            && ByteText(id) && ByteText(secret)
            && ParseBasicAuth(BasicHeader(id, secret)) == Some((id, secret))
  {
    EncodedLength(RawURLEncoding, raw);
    EncodedCharacters(RawURLEncoding, raw);
    EncodingIsByteText(RawURLEncoding, raw);
    CredentialsRoundTrip(id, Encode(RawURLEncoding, raw));
  }
}
