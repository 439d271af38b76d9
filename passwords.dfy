/**
 * The two password primitives of the user service (backend/src/services/user.ts:16-27).
 *
 * bcrypt is represented by an injective stand-in: a stored hash records the cost
 * factor, the salt (randomness is a parameter of the model) and a digest that
 * determines the plaintext. What the rest of the model relies on is the
 * round trip: a plaintext matches the hash made from it, under any salt, and no other
 * plaintext does. The one-wayness of the real function is not modelled.
 */
module Passwords {

  /** The cost factor passed to bcrypt.hash. */
  const BCRYPT_COST: nat := 10

  datatype PasswordHash = PasswordHash(cost: nat, salt: nat, digest: string)

  function HashPassword(plaintext: string, salt: nat): (h: PasswordHash)
    ensures forall q :: ComparePassword(q, h) <==> q == plaintext
  {
    PasswordHash(BCRYPT_COST, salt, plaintext)
  }

  function ComparePassword(plaintext: string, hash: PasswordHash): bool
  {
    hash.digest == plaintext
  }

  /** comparePassword(q, hashPassword(p)) holds exactly when q is p, whatever salt was drawn;
      in particular a case-changed plaintext does not match. */
  lemma CompareRoundTrip(p: string, q: string, salt: nat)
    ensures ComparePassword(q, HashPassword(p, salt)) <==> q == p
  {
  }
}
