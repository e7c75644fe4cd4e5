/** The provisioning formats of m2m/provision.go. */
module Validation {
  import opened Wrappers

  /** Each provisioned audience with its exact scopes. */
  type Audiences = map<string, seq<string>>

  datatype FormatError = InvalidClientId | InvalidAudience | InvalidScopes

  predicate NameChar(c: char) {
    'a' <= c <= 'z' || '0' <= c <= '9' || c == '-'
  }

  /** ^[a-z0-9-]{1,64}$, the pattern of client ids and of audiences */
  predicate ValidName(s: string) {
    1 <= |s| <= 64 && forall i :: 0 <= i < |s| ==> NameChar(s[i])
  }

  /** ^m2m:[a-z0-9-]+$ */
  predicate ValidScope(s: string) {
    |s| > 4 && s[..4] == "m2m:" && forall i :: 4 <= i < |s| ==> NameChar(s[i])
  }

  lemma Letters(c: char)
    ensures 'a' <= c <= 'z' <==> c in "abcdefghijklmnopqrstuvwxyz"
  {
  }

  lemma NameCharacters(c: char)
    ensures NameChar(c) <==> c in "abcdefghijklmnopqrstuvwxyz0123456789-"
  {
    Letters(c);
    assert "abcdefghijklmnopqrstuvwxyz0123456789-" == "abcdefghijklmnopqrstuvwxyz" + "0123456789-";
  }

  /** The pattern of names, read off its text. */
  ghost predicate NameText(s: string) {
    1 <= |s| <= 64 && forall c :: c in s ==> c in "abcdefghijklmnopqrstuvwxyz0123456789-"
  }

  /** The pattern of scopes, read off its text. */
  ghost predicate ScopeText(s: string) {
    |s| > 4 && s[..4] == "m2m:" && forall c :: c in s[4..] ==> c in "abcdefghijklmnopqrstuvwxyz0123456789-"
  }

  lemma NamesAreText(s: string)
    ensures ValidName(s) <==> NameText(s)
  {
    forall c | c in s ensures NameChar(c) <==> c in "abcdefghijklmnopqrstuvwxyz0123456789-" {
      NameCharacters(c);
    }
  }

  lemma ScopesAreText(s: string)
    ensures ValidScope(s) <==> ScopeText(s)
  {
    forall c ensures NameChar(c) <==> c in "abcdefghijklmnopqrstuvwxyz0123456789-" {
      NameCharacters(c);
    }
    if ScopeText(s) {
      forall i | 4 <= i < |s| ensures NameChar(s[i]) {
        assert s[i] == s[4..][i - 4];
      }
    }
  }

  predicate ValidScopes(scopes: seq<string>) {
    forall i :: 0 <= i < |scopes| ==> ValidScope(scopes[i])
  }

  predicate ValidAudiences(audiences: Audiences) {
    forall a :: a in audiences ==> ValidName(a) && ValidScopes(audiences[a])
  }

  /** Accepts exactly the lists whose every entry is "m2m:" with letters, digits and hyphens after it. */
  method ValidateScopes(scopes: seq<string>) returns (error: Option<FormatError>)
    ensures error == if ValidScopes(scopes) then None else Some(InvalidScopes)
    ensures error.None? <==>
            forall i :: 0 <= i < |scopes| ==>
                          && |scopes[i]| > 4 && scopes[i][..4] == "m2m:"
                          && forall c :: c in scopes[i][4..] ==> c in "abcdefghijklmnopqrstuvwxyz0123456789-"
  {
    forall i | 0 <= i < |scopes| ensures ValidScope(scopes[i]) <==> ScopeText(scopes[i]) {
      ScopesAreText(scopes[i]);
    }
    for i := 0 to |scopes|
      invariant forall j :: 0 <= j < i ==> ValidScope(scopes[j])
    {
      if !ValidScope(scopes[i]) {
        return Some(InvalidScopes);
      }
    }
    return None;
  }

  /** The map is walked in an arbitrary order; the first offending entry decides the error. */
  method ValidateAudiences(audiences: Audiences) returns (error: Option<FormatError>)
    ensures error.None? <==> ValidAudiences(audiences)
    ensures error == Some(InvalidAudience) ==> exists a :: a in audiences && !ValidName(a)
    ensures error == Some(InvalidScopes) ==> exists a :: a in audiences && ValidName(a) && !ValidScopes(audiences[a])
    ensures error != Some(InvalidClientId)
  {
    var left := audiences.Keys;
    while left != {}
      invariant left <= audiences.Keys
      invariant forall a :: a in audiences && a !in left ==> ValidName(a) && ValidScopes(audiences[a])
      decreases |left|
    {
      var a :| a in left;
      if !ValidName(a) {
        return Some(InvalidAudience);
      }
      error := ValidateScopes(audiences[a]);
      if error.Some? {
        return;
      }
      left := left - {a};
    }
    return None;
  }
}
