/** The machine-credential record and the single-item writes made to it (dynamo/m2m.go). */
module Records {
  import opened Wrappers
  import opened Validation

  /** Rounds kept: the current one and its predecessor (m2m/provision.go). */
  const MAX_SECRET_ROUNDS: nat := 2

  /** An ideal salted hash: no two hashes share a salt, and only the hashed secret matches. */
  datatype Hash = Hash(salt: nat, secret: string)

  predicate Matches(hash: Hash, secret: string) {
    hash.secret == secret
  }

  datatype Record = Record(rounds: seq<Hash>, audiences: Audiences, active: bool)

  /** The conditional writes of the store, one per table call. */
  datatype Change =
    | Put(record: Record)
    | Swap(expected: seq<Hash>, next: seq<Hash>)
    | Deactivate
    | Replace(audiences: Audiences)

  /** The write's condition expression. */
  predicate Allows(stored: Option<Record>, change: Change) {
    match change
    case Put(_) => stored.None?
    case Swap(expected, _) => stored.Some? && stored.value.rounds == expected
    case Deactivate => stored.Some?
    case Replace(_) => stored.Some?
  }

  /** The write's update expression. */
  function Changed(stored: Option<Record>, change: Change): Record
    requires Allows(stored, change)
  {
    match change
    case Put(record) => record
    case Swap(_, next) => stored.value.(rounds := next)
    case Deactivate => stored.value.(active := false)
    case Replace(audiences) => stored.value.(audiences := audiences)
  }

  /** RotateClient's next rounds: the new hash in front, trimmed to the cap. */
  function NextRounds(hash: Hash, rounds: seq<Hash>): seq<Hash> {
    var next := [hash] + rounds;
    if |next| > MAX_SECRET_ROUNDS then next[..MAX_SECRET_ROUNDS] else next
  }

  predicate Verifies(rounds: seq<Hash>, secret: string) {
    exists i :: 0 <= i < |rounds| && Matches(rounds[i], secret)
  }

  /** How many hashes a search that stops at the first match compares. */
  function Comparisons(rounds: seq<Hash>, secret: string): (n: nat)
    ensures n <= |rounds|
    ensures forall i :: 0 <= i < n - 1 ==> !Matches(rounds[i], secret)
    ensures Verifies(rounds, secret) <==> n > 0 && Matches(rounds[n - 1], secret)
    ensures !Verifies(rounds, secret) ==> n == |rounds|
  {
    if rounds == [] then 0
    else if Matches(rounds[0], secret) then 1
    else
      var n := Comparisons(rounds[1..], secret);
      assert forall i :: 0 <= i < |rounds[1..]| ==> rounds[1..][i] == rounds[i + 1];
      assert Verifies(rounds, secret) ==> Verifies(rounds[1..], secret) by {
        if Verifies(rounds, secret) {
          var i :| 0 <= i < |rounds| && Matches(rounds[i], secret);
          assert Matches(rounds[1..][i - 1], secret);
        }
      }
      1 + n
  }

  /** m2m/service.go VerifySecret; `compared` counts the hash comparisons it makes. */
  method VerifySecret(rounds: seq<Hash>, secret: string) returns (ok: bool, compared: nat)
    ensures ok == Verifies(rounds, secret)
    ensures compared == Comparisons(rounds, secret)
  {
    for i := 0 to |rounds|
      invariant forall j :: 0 <= j < i ==> !Matches(rounds[j], secret)
    {
      if Matches(rounds[i], secret) {
        return true, i + 1;
      }
    }
    return false, |rounds|;
  }
}
