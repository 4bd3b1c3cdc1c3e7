/**
 * The password hasher (the `bcrypt` library) as an idealised primitive:
 * `hash(password, 10)` draws a salt and yields a digest; `compare(password, digest)`
 * accepts exactly the password the digest was made from.
 */
module Bcrypt {
  /** The work factor every registration handler passes to `bcrypt.hash`. */
  const SaltRounds: nat := 10

  /** An opaque digest: the work factor, the salt drawn for it and an injective seal of the password. */
  datatype Digest = Digest(cost: nat, salt: nat, seal: string)

  /** `bcrypt.hash(password, 10)`, the random salt passed in. */
  function Hash(password: string, salt: nat): (d: Digest)
    ensures d.cost == SaltRounds && d.salt == salt
    ensures forall attempt :: Compare(attempt, d) <==> attempt == password
  {
    Digest(SaltRounds, salt, password)
  }

  /** `bcrypt.compare(password, digest)`. */
  function Compare(attempt: string, d: Digest): bool
  {
    d.seal == attempt
  }

  /** On a cost-10 digest, `compare` accepts exactly when hashing the attempt with the digest's own salt reproduces the digest. */
  lemma CompareRehashes(attempt: string, d: Digest)
    requires d.cost == SaltRounds
    ensures Compare(attempt, d) <==> Hash(attempt, d.salt) == d
  {
  }
}
