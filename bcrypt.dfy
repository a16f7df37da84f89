/** The password hashing that the registration and login handlers delegate
    to bcrypt: `bcrypt.hash(password, 10)` and `bcrypt.compare(password,
    hash)`. The salt, which bcrypt draws at random, is a parameter. */
module Bcrypt {
  import Text
  import Digest

  /** The cost factor passed to `bcrypt.hash` by the registration handler. */
  const SaltRounds: nat := 10

  /** A stored password hash: bcrypt keeps the cost and the salt next to the
      digest, which is how `compare` can recompute it. */
  datatype PasswordHash = PasswordHash(cost: nat, salt: string, digest: nat)

  function DigestOf(cost: nat, salt: string, raw: string): nat {
    Digest.Fingerprint("$2a$" + Text.Dec(cost) + "$" + salt + raw)
  }

  /** `bcrypt.compare(raw, h)`: recompute the digest with the stored cost and
      salt and compare. */
  function Compare(raw: string, h: PasswordHash): (ok: bool)
    ensures ok <==> h == PasswordHash(h.cost, h.salt, DigestOf(h.cost, h.salt, raw))
  {
    h.digest == DigestOf(h.cost, h.salt, raw)
  }

  /** `bcrypt.hash(raw, 10)` with the given salt: the result records the cost
      and salt, and `compare` accepts the password it was made from. */
  function Hash(raw: string, salt: string): (h: PasswordHash)
    ensures h.cost == SaltRounds && h.salt == salt
    ensures Compare(raw, h)
  {
    PasswordHash(SaltRounds, salt, DigestOf(SaltRounds, salt, raw))
  }

  /** A hash of cost 10 accepts a password exactly when it is that
      password's hash under the hash's own salt. */
  lemma CompareOnlyItsHash(raw: string, h: PasswordHash)
    requires h.cost == SaltRounds
    ensures Compare(raw, h) <==> h == Hash(raw, h.salt)
  {
  }
}
