/** bcrypt as the auth core sees it: two foreign functions it does not look
    inside.  The salt that GenerateFromPassword draws from crypto/rand is an
    explicit argument, so that hashing is a function of its inputs. */
module Bcrypt {
  import opened Errors
  import opened Models

  /** bcrypt.DefaultCost, the cost the service hashes passwords with. */
  const DefaultCost: int := 10

  /** `hash(password, cost, salt)` is GenerateFromPassword, which may fail;
      `matches(hash, password)` holds exactly when CompareHashAndPassword
      returns nil (a mismatch and a malformed hash are both "no"). */
  datatype Hasher = Hasher(
    hash: (Bytes, int, Bytes) -> Result<Bytes>,
    matches: (Bytes, Bytes) -> bool)
}
