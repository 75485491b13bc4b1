/** The domain records the core passes around.  Go strings are byte strings,
    so the values the core only hands to bcrypt or to the signer as []byte
    (a password hash, an app secret) are kept as byte sequences. */
module Models {

  newtype byte = x: int | 0 <= x < 256

  type Bytes = seq<byte>

  /** A registered account: the id the store assigned, the login email and
      the bcrypt hash of the password. */
  datatype User = User(id: int, email: string, passHash: Bytes)

  /** A client application: its id and the key its tokens are signed with. */
  datatype App = App(id: int, secret: Bytes)
}
