/**
 * Password hashing and the reuse guard.
 *
 * bcrypt is modelled the way it works: a stored hash carries the salt it was
 * made with (the cost factor and a random nonce) and a checksum; checking a
 * candidate re-derives the checksum from the candidate and that salt. The key
 * derivation itself (`Eks`, expensive Blowfish setup) is left uninterpreted: it
 * is a parameter, so nothing proved here depends on what it computes.
 */
module Password {
  type Nonce = seq<bv8>
  type Checksum = seq<bv8>

  /** Milliseconds since the epoch. */
  type Timestamp = int

  /** The fixed bcrypt cost factor. */
  const SaltRounds: nat := 12

  datatype Salt = Salt(rounds: nat, nonce: Nonce)

  datatype Digest = Digest(salt: Salt, checksum: Checksum)

  /** bcrypt's key derivation: plaintext and salt to checksum. */
  type Eks = (string, Salt) -> Checksum

  /** `bcrypt.compare`: does `plain` hash to `hash` under the salt stored in it? */
  predicate Matches(eks: Eks, plain: string, hash: Digest)
  {
    eks(plain, hash.salt) == hash.checksum
  }

  /**
   * `hashPassword`: a fresh salt of the fixed cost (its random part is the
   * parameter `nonce`), then the hash of `password` under it.
   */
  function HashPassword(eks: Eks, password: string, nonce: Nonce): (d: Digest)
    ensures d.salt == Salt(SaltRounds, nonce)
    ensures Matches(eks, password, d)
  {
    var salt := Salt(SaltRounds, nonce);
    Digest(salt, eks(password, salt))
  }

  /** One entry of an account's password history. */
  datatype PreviousPassword = PreviousPassword(hash: Digest, changedAt: Timestamp)

  /** `candidate` matches some entry of `previous`. */
  ghost predicate Reused(eks: Eks, candidate: string, previous: seq<PreviousPassword>)
  {
    exists i :: 0 <= i < |previous| && Matches(eks, candidate, previous[i].hash)
  }

  /**
   * The index of the first entry of `previous` that `candidate` matches, or
   * |previous| when there is none.
   */
  function FirstMatch(eks: Eks, candidate: string, previous: seq<PreviousPassword>): (k: nat)
    ensures k <= |previous|
    ensures forall i :: 0 <= i < k ==> !Matches(eks, candidate, previous[i].hash)
    ensures k < |previous| ==> Matches(eks, candidate, previous[k].hash)
    ensures k < |previous| <==> Reused(eks, candidate, previous)
  {
    if previous == [] then 0
    else if Matches(eks, candidate, previous[0].hash) then 0
    else 1 + FirstMatch(eks, candidate, previous[1..])
  }

  /**
   * `isPasswordReused`: scans the history in order and stops at the first
   * entry the candidate matches. `compared` counts the bcrypt comparisons made:
   * one per entry up to and including the first match, and no more.
   */
  method IsPasswordReused(eks: Eks, newPassword: string, previous: seq<PreviousPassword>)
    returns (reused: bool, ghost compared: nat)
    ensures reused <==> Reused(eks, newPassword, previous)
    ensures previous == [] ==> !reused
    ensures compared == if reused then FirstMatch(eks, newPassword, previous) + 1 else |previous|
  {
    compared := 0;
    for i := 0 to |previous|
      invariant compared == i
      invariant forall j :: 0 <= j < i ==> !Matches(eks, newPassword, previous[j].hash)
    {
      compared := compared + 1;
      var isMatch := Matches(eks, newPassword, previous[i].hash);
      if isMatch {
        return true, compared;
      }
    }
    return false, compared;
  }
}
