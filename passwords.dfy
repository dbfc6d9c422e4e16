/**
 * bcrypt, as the users and auth services use it (`bcrypt.hash(p, 10)` and
 * `bcrypt.compare(p, digest)`), modelled symbolically: a digest records the salt, the cost and
 * the plaintext it was made from, and comparison can only tell whether a plaintext is that one.
 */
module Passwords {
  /** The cost factor the users service passes to `bcrypt.hash`. */
  const SaltRounds: nat := 10

  /**
   * What the `usersPassword` column holds: a bcrypt digest, or, where a code path stores the
   * submitted text as it is, that text.
   */
  datatype StoredPassword =
    | Digest(rounds: nat, salt: seq<bv8>, plaintext: string)
    | Unhashed(text: string)

  /** `bcrypt.hash(plain, SaltRounds)` with the random salt `salt`. */
  function Hash(plain: string, salt: seq<bv8>): (d: StoredPassword)
    ensures d.Digest? && d.rounds == SaltRounds
    ensures Compare(plain, d)
  {
    Digest(SaltRounds, salt, plain)
  }

  /** `bcrypt.compare(plain, stored)`: true only for the plaintext a genuine digest was made from. */
  predicate Compare(plain: string, stored: StoredPassword) {
    stored.Digest? && stored.plaintext == plain
  }

  /** A digest accepts its own plaintext and no other, whatever the salt. */
  lemma {:induction false} CompareHashIff(plain: string, other: string, salt: seq<bv8>)
    ensures Compare(other, Hash(plain, salt)) <==> other == plain
  {
  }

  /** Text stored without hashing is never accepted by `compare`, not even the text itself. */
  lemma {:induction false} CompareRejectsUnhashed(plain: string, text: string)
    ensures !Compare(plain, Unhashed(text))
  {
  }
}
