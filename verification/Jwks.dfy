/** The published key set (cmd/jwks.go, section 5 of RFC 7517) and its key configuration (cmd/config.go). */
module Jwks {
  import opened Wrappers
  import opened Base64
  import opened Ordering

  /** The public half of an RSA key. */
  datatype RsaKey = RsaKey(n: nat, e: nat)

  datatype Jwk = Jwk(kty: string, kid: string, use: string, alg: string, n: string, e: string)

  // ---------------------------------------------------------------------------------------
  // Base64urlUInt (section 2 of RFC 7518)
  // ---------------------------------------------------------------------------------------

  /** The big-endian value of a byte sequence. */
  function Value(bytes: seq<Byte>): nat {
    if bytes == [] then 0 else Value(bytes[..|bytes| - 1]) * 256 + bytes[|bytes| - 1]
  }

  /** big.Int.Bytes(): big-endian, without leading zero octets, empty for zero. */
  function Octets256(n: nat): seq<Byte> {
    if n == 0 then [] else Octets256(n / 256) + [n % 256]
  }

  method BigBytes(n: nat) returns (bytes: seq<Byte>)
    ensures bytes == Octets256(n)
  {
    bytes := [];
    var left := n;
    while left > 0
      invariant Octets256(n) == Octets256(left) + bytes
    {
      assert Octets256(left) + bytes == Octets256(left / 256) + ([left % 256] + bytes);
      bytes := [left % 256] + bytes;
      left := left / 256;
    }
  }

  lemma {:induction false} OctetsValue(n: nat)
    ensures Value(Octets256(n)) == n
    ensures n > 0 ==> Octets256(n) != [] && Octets256(n)[0] != 0
  {
    if n == 0 {
    } else {
      OctetsValue(n / 256);
      assert Octets256(n)[..|Octets256(n)| - 1] == Octets256(n / 256);
    }
  }

  function UInt(n: nat): string {
    Encode(RawURLEncoding, Octets256(n))
  }

  /** A consumer's reading of a Base64urlUInt. */
  function UIntValue(s: string): Option<nat> {
    match Decode(RawURLEncoding, s)
    case None => None
    case Some(bytes) => Some(Value(bytes))
  }

  /**
    Decoding gives back the integer.  The text represents it as RFC 7518 asks, with at least one
    octet and no leading zero octet, exactly when it is not zero.
   */
  lemma UIntRoundTrip(n: nat)
    ensures UIntValue(UInt(n)) == Some(n)
    ensures var octets := Decode(RawURLEncoding, UInt(n)).value; n > 0 <==> octets != [] && octets[0] != 0
  {
    RoundTrip(RawURLEncoding, Octets256(n));
    OctetsValue(n);
  }

  // ---------------------------------------------------------------------------------------
  // Sorted key ids
  // ---------------------------------------------------------------------------------------

  /** One insertion of the sort. */
  method Insert(kids: seq<string>, kid: string) returns (all: seq<string>)
    requires Ascending(kids) && kid !in kids
    ensures Ascending(all) && Elements(all) == Elements(kids) + {kid}
  {
    var i := 0;
    while i < |kids| && Below(kids[i], kid)
      invariant 0 <= i <= |kids|
      invariant forall j :: 0 <= j < i ==> Below(kids[j], kid)
    {
      i := i + 1;
    }
    all := kids[..i] + [kid] + kids[i..];
    forall j | i <= j < |kids| ensures Below(kid, kids[j]) {
      BelowTotal(kid, kids[i]);
      if i < j {
        BelowTransitive(kid, kids[i], kids[j]);
      }
    }
    assert forall x :: x in all <==> x in kids || x == kid;
  }

  /** The keys of a map, collected in whatever order the map yields them, then sorted. */
  method SortedKids<K>(m: map<string, K>) returns (kids: seq<string>)
    ensures Ascending(kids) && Elements(kids) == m.Keys
  {
    var collected: seq<string> := [];
    var left := m.Keys;
    while left != {}
      invariant left <= m.Keys && Elements(collected) == m.Keys - left
      invariant forall i, j :: 0 <= i < j < |collected| ==> collected[i] != collected[j]
      decreases |left|
    {
      var kid :| kid in left;
      assert kid !in Elements(collected);
      assert Elements(collected + [kid]) == Elements(collected) + {kid};
      collected := collected + [kid];
      left := left - {kid};
    }
    kids := [];
    for i := 0 to |collected|
      invariant Ascending(kids) && Elements(kids) == Elements(collected[..i])
    {
      assert collected[i] !in kids by {
        assert collected[i] !in Elements(collected[..i]);
        assert forall x :: x in kids ==> x in Elements(kids);
      }
      assert Elements(collected[..i + 1]) == Elements(collected[..i]) + {collected[i]};
      kids := Insert(kids, collected[i]);
    }
    assert collected[..|collected|] == collected;
  }

  // ---------------------------------------------------------------------------------------
  // The key set
  // ---------------------------------------------------------------------------------------

  function PublicJwk(kid: string, key: RsaKey): Jwk {
    Jwk("RSA", kid, "sig", "RS256", UInt(key.n), UInt(key.e))
  }

  method RsaPublicJwk(kid: string, key: RsaKey) returns (jwk: Jwk)
    ensures jwk == PublicJwk(kid, key)
  {
    var nBytes := BigBytes(key.n);
    var eBytes := BigBytes(key.e);
    var n := EncodeToString(RawURLEncoding, nBytes);
    var e := EncodeToString(RawURLEncoding, eBytes);
    return Jwk("RSA", kid, "sig", "RS256", n, e);
  }

  /** `keys` lists exactly the given keys, in ascending order of their ids. */
  ghost predicate Lists(keys: seq<Jwk>, m: map<string, RsaKey>) {
    && (forall i :: 0 <= i < |keys| ==> keys[i].kid in m && keys[i] == PublicJwk(keys[i].kid, m[keys[i].kid]))
    && Ascending(Kids(keys))
    && Elements(Kids(keys)) == m.Keys
  }

  function Kids(keys: seq<Jwk>): (kids: seq<string>)
    ensures |kids| == |keys| && forall i :: 0 <= i < |keys| ==> kids[i] == keys[i].kid
  {
    seq(|keys|, i requires 0 <= i < |keys| => keys[i].kid)
  }

  method ListKeys(m: map<string, RsaKey>) returns (keys: seq<Jwk>)
    ensures Lists(keys, m)
  {
    var kids := SortedKids(m);
    keys := [];
    for i := 0 to |kids|
      invariant Kids(keys) == kids[..i]
      invariant forall j :: 0 <= j < i ==> keys[j].kid in m && keys[j] == PublicJwk(keys[j].kid, m[keys[j].kid])
    {
      assert kids[i] in Elements(kids);
      var jwk := RsaPublicJwk(kids[i], m[kids[i]]);
      assert Kids(keys + [jwk]) == kids[..i + 1];
      keys := keys + [jwk];
    }
    assert kids[..|kids|] == kids;
  }

  /** Machine keys first, then user keys. */
  method KeypairJwks(machineKeys: map<string, RsaKey>, userKeys: map<string, RsaKey>) returns (keys: seq<Jwk>)
    ensures |keys| >= |machineKeys| && Lists(keys[..|machineKeys|], machineKeys)
          && Lists(keys[|machineKeys|..], userKeys)
  {
    var machine := ListKeys(machineKeys);
    var user := ListKeys(userKeys);
    keys := machine + user;
    ListedSize(machine, machineKeys);
    assert keys[..|machine|] == machine && keys[|machine|..] == user;
  }

  lemma {:induction false} DistinctSize(kids: seq<string>)
    requires Ascending(kids)
    ensures |Elements(kids)| == |kids|
  {
    if kids == [] {
      assert Elements(kids) == {};
    } else {
      TailElements(kids);
      DistinctSize(kids[1..]);
      assert kids[0] in Elements(kids);
    }
  }

  lemma ListedSize(keys: seq<Jwk>, m: map<string, RsaKey>)
    requires Lists(keys, m)
    ensures |keys| == |m|
  {
    DistinctSize(Kids(keys));
    assert |m| == |m.Keys|;
  }

  /** The published set depends on the key maps only, not on the order they were walked in. */
  lemma ListingUnique(a: seq<Jwk>, b: seq<Jwk>, m: map<string, RsaKey>)
    requires Lists(a, m) && Lists(b, m)
    ensures a == b
  {
    AscendingUnique(Kids(a), Kids(b));
    forall i | 0 <= i < |a| ensures a[i] == b[i] {
      assert Kids(a)[i] == Kids(b)[i];
    }
  }

  /** Entry i, and no other, publishes this key under this id, readably. */
  ghost predicate PublishedAt(keys: seq<Jwk>, kid: string, key: RsaKey, i: int) {
    && 0 <= i < |keys| && keys[i].kid == kid
    && keys[i].kty == "RSA" && keys[i].use == "sig" && keys[i].alg == "RS256"
    && UIntValue(keys[i].n) == Some(key.n) && UIntValue(keys[i].e) == Some(key.e)
    && forall j :: 0 <= j < |keys| && j != i ==> keys[j].kid != kid
  }

  lemma ListedOnce(keys: seq<Jwk>, m: map<string, RsaKey>, kid: string)
    requires Lists(keys, m) && kid in m
    ensures exists i :: PublishedAt(keys, kid, m[kid], i)
  {
    assert kid in Elements(Kids(keys));
    var i :| 0 <= i < |keys| && Kids(keys)[i] == kid;
    forall j | 0 <= j < |keys| && j != i ensures keys[j].kid != kid {
      BelowIrreflexive(kid);
      assert Kids(keys)[j] == keys[j].kid;
    }
    UIntRoundTrip(m[kid].n);
    UIntRoundTrip(m[kid].e);
    assert PublishedAt(keys, kid, m[kid], i);
  }

  /**
    A key id of either map is published exactly once, as an RSA signature key for RS256 with n and
    e that decode to its key's integers, if and only if the other map does not use the same id.
   */
  lemma PublishedOnce(machineKeys: map<string, RsaKey>, userKeys: map<string, RsaKey>, machine: seq<Jwk>,
      user: seq<Jwk>, kid: string)
    requires kid in machineKeys || kid in userKeys
    requires Lists(machine, machineKeys) && Lists(user, userKeys)
    ensures var key := if kid in machineKeys then machineKeys[kid] else userKeys[kid];
            (exists i :: PublishedAt(machine + user, kid, key, i)) <==> kid !in machineKeys || kid !in userKeys
  {
    Appears(machine, machineKeys, kid);
    Appears(user, userKeys, kid);
    JoinOnce(machine, user, kid, KeyOf(machineKeys, kid), KeyOf(userKeys, kid));
  }

  function KeyOf(m: map<string, RsaKey>, kid: string): Option<RsaKey> {
    if kid in m then Some(m[kid]) else None
  }

  /** Once under this key, or nowhere. */
  ghost predicate AppearsAs(keys: seq<Jwk>, kid: string, key: Option<RsaKey>) {
    match key
    case None => forall i :: 0 <= i < |keys| ==> keys[i].kid != kid
    case Some(k) => exists i :: PublishedAt(keys, kid, k, i)
  }

  lemma Appears(keys: seq<Jwk>, m: map<string, RsaKey>, kid: string)
    requires Lists(keys, m)
    ensures AppearsAs(keys, kid, KeyOf(m, kid))
  {
    if kid in m {
      ListedOnce(keys, m, kid);
    }
  }

  lemma JoinOnce(a: seq<Jwk>, b: seq<Jwk>, kid: string, inA: Option<RsaKey>, inB: Option<RsaKey>)
    requires AppearsAs(a, kid, inA) && AppearsAs(b, kid, inB) && (inA.Some? || inB.Some?)
    ensures var key := if inA.Some? then inA.value else inB.value;
            (exists i :: PublishedAt(a + b, kid, key, i)) <==> inA.None? || inB.None?
  {
    if inA.Some? && inB.Some? {
      var i :| PublishedAt(a, kid, inA.value, i);
      var j :| PublishedAt(b, kid, inB.value, j);
      Twice(a, b, kid, inA.value, i, j);
    } else if inA.Some? {
      var i :| PublishedAt(a, kid, inA.value, i);
      Widen(a, b, kid, inA.value, i);
    } else {
      var i :| PublishedAt(b, kid, inB.value, i);
      Shift(a, b, kid, inB.value, i);
    }
  }

  lemma Twice(a: seq<Jwk>, b: seq<Jwk>, kid: string, key: RsaKey, i: nat, j: nat)
    requires i < |a| && j < |b| && a[i].kid == kid && b[j].kid == kid
    ensures !exists k :: PublishedAt(a + b, kid, key, k)
  {
    assert (a + b)[i].kid == kid && (a + b)[|a| + j].kid == kid;
  }

  lemma Widen(a: seq<Jwk>, b: seq<Jwk>, kid: string, key: RsaKey, i: int)
    requires PublishedAt(a, kid, key, i) && forall j :: 0 <= j < |b| ==> b[j].kid != kid
    ensures PublishedAt(a + b, kid, key, i)
  {
  }

  lemma Shift(a: seq<Jwk>, b: seq<Jwk>, kid: string, key: RsaKey, i: int)
    requires PublishedAt(b, kid, key, i) && forall j :: 0 <= j < |a| ==> a[j].kid != kid
    ensures PublishedAt(a + b, kid, key, |a| + i)
  {
  }

  /** Both current keys are published, even when the two maps share an id. */
  lemma CurrentKeysPublished(machineKeys: map<string, RsaKey>, userKeys: map<string, RsaKey>, machine: seq<Jwk>,
      user: seq<Jwk>, currentMachine: string, currentUser: string)
    requires Lists(machine, machineKeys) && Lists(user, userKeys)
    requires currentMachine in machineKeys && currentUser in userKeys
    ensures PublicJwk(currentMachine, machineKeys[currentMachine]) in machine + user
    ensures PublicJwk(currentUser, userKeys[currentUser]) in machine + user
  {
    assert currentMachine in Elements(Kids(machine)) && currentUser in Elements(Kids(user));
  }

  // ---------------------------------------------------------------------------------------
  // Key configuration
  // ---------------------------------------------------------------------------------------

  /**
    The loop of parseRSAJWTSigningKeysJSON over the decoded parameter; `parse` stands for the
    PEM parser.  It succeeds exactly when every key parses and the current key is among them.
   */
  method ParseSigningKeys(currentKey: string, pems: map<string, string>, parse: string -> Option<RsaKey>)
    returns (keys: Option<map<string, RsaKey>>)
    ensures keys.Some? <==> currentKey in pems && forall kid :: kid in pems ==> parse(pems[kid]).Some?
    ensures keys.Some? ==>
              && currentKey in keys.value && keys.value.Keys == pems.Keys
              && forall kid :: kid in pems ==> parse(pems[kid]) == Some(keys.value[kid])
  {
    var parsed: map<string, RsaKey> := map[];
    var left := pems.Keys;
    while left != {}
      invariant left <= pems.Keys && parsed.Keys == pems.Keys - left
      invariant forall kid :: kid in parsed ==> parse(pems[kid]) == Some(parsed[kid])
      decreases |left|
    {
      var kid :| kid in left;
      var key := parse(pems[kid]);
      if key.None? {
        return None;
      }
      parsed := parsed[kid := key.value];
      left := left - {kid};
    }
    return if currentKey in parsed then Some(parsed) else None;
  }
}
