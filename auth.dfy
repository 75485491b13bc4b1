/** The auth service: its constructor, the login pipeline and registration.
    The logger is left out; the three store interfaces are Store objects and
    bcrypt is a Hasher passed to the operations that use it. */
module AuthService {
  import opened Errors
  import opened Models
  import opened Bcrypt
  import opened Storage

  /** The operation tags the service wraps its errors with. */
  const LoginOp: string := "auth.Login"
  const RegisterOp: string := "auth.RegisterNewUser"

  /** The one error both credential failures of Login return. */
  const LoginInvalidCredentials: Error := Wrapped(LoginOp, Sentinel(ErrInvalidCredentials))

  /** What a login ends in.  The Go function has no return on its success
      path, so success is the pair it has resolved by then; a rejection
      `Rejected(e)` stands for the return ("", e). */
  datatype LoginOutcome = Resolved(user: User, app: App) | Rejected(err: Error)

  class Auth {
    const usrSaver: Store
    const usrProvider: Store
    const appProvider: Store
    /** The token lifetime in nanoseconds (the Go field is spelt toketTTL). */
    const tokenTTL: int

    /** New: stores the collaborators and the token lifetime as given. */
    constructor New(usersaver: Store, userProvider: Store, appProvider: Store, tokenTTL: int)
      ensures this.usrSaver == usersaver
      ensures this.usrProvider == userProvider
      ensures this.appProvider == appProvider
      ensures this.tokenTTL == tokenTTL
    {
      this.usrSaver := usersaver;
      this.usrProvider := userProvider;
      this.appProvider := appProvider;
      this.tokenTTL := tokenTTL;
    }

    /** Login: look the user up by email, check the password against the
        stored hash, then look the app up.  The first step that fails decides
        the outcome.  Being a function, it reads the stores and cannot write
        them. */
    function Login(email: string, password: Bytes, appID: int, bc: Hasher): (r: LoginOutcome)
      reads usrProvider, appProvider
      ensures r.Resolved? <==>
        && usrProvider.fault.None? && email in usrProvider.users
        && bc.matches(usrProvider.users[email].passHash, password)
        && appProvider.fault.None? && appID in appProvider.apps
      ensures r.Resolved? ==>
        && email in usrProvider.users && r.user == usrProvider.users[email]
        && appID in appProvider.apps && r.app == appProvider.apps[appID]
      ensures r.Rejected? ==> r.err.Wrapped? && r.err.op == LoginOp
    {
      match usrProvider.LookupUser(email)
      case Err(e) =>
        if Is(e, ErrUserNotFound) then Rejected(Wrap(LoginOp, Sentinel(ErrInvalidCredentials)))
        else Rejected(Wrap(LoginOp, e))
      case Ok(user) =>
        if !bc.matches(user.passHash, password) then
          Rejected(Wrap(LoginOp, Sentinel(ErrInvalidCredentials)))
        else
          match appProvider.LookupApp(appID)
          case Err(e) => Rejected(Wrap(LoginOp, e))
          case Ok(app) => Resolved(user, app)
    }

    /** The credential part of Login: the user is found and the password
        matches the stored hash. */
    predicate CredentialsAccepted(email: string, password: Bytes, bc: Hasher)
      reads usrProvider
    {
      usrProvider.LookupUser(email).Ok? &&
      bc.matches(usrProvider.LookupUser(email).value.passHash, password)
    }

    /** RegisterNewUser: hash the password with the default cost, then save
        the user.  A hashing failure returns the wrapped error before the
        store is called; a save failure returns the wrapped store error; in
        both cases the id is 0 and the store is as it was.  On success the id
        is the one the store assigned and the stored hash is the hasher's. */
    method RegisterNewUser(email: string, pass: Bytes, salt: Bytes, bc: Hasher)
      returns (uid: int, err: Option<Error>)
      requires usrSaver.Valid()
      modifies usrSaver
      ensures usrSaver.Valid()
      ensures bc.hash(pass, DefaultCost, salt).Err? ==>
        && uid == 0
        && err == Some(Wrap(RegisterOp, bc.hash(pass, DefaultCost, salt).error))
        && unchanged(usrSaver)
      ensures bc.hash(pass, DefaultCost, salt).Ok? && old(usrSaver.fault).Some? ==>
        && uid == 0
        && err == Some(Wrap(RegisterOp, old(usrSaver.fault).value))
        && unchanged(usrSaver)
      ensures bc.hash(pass, DefaultCost, salt).Ok? && old(usrSaver.fault).None?
              && email in old(usrSaver.users) ==>
        && uid == 0
        && err == Some(Wrap(RegisterOp, Sentinel(ErrUserExists)))
        && unchanged(usrSaver)
      ensures bc.hash(pass, DefaultCost, salt).Ok? && old(usrSaver.fault).None?
              && email !in old(usrSaver.users) ==>
        && err.None?
        && uid == old(usrSaver.nextId)
        && usrSaver.users == old(usrSaver.users)[email := User(uid, email, bc.hash(pass, DefaultCost, salt).value)]
        && usrSaver.nextId == old(usrSaver.nextId) + 1
        && usrSaver.apps == old(usrSaver.apps)
        && usrSaver.fault == old(usrSaver.fault)
    {
      var hashed := bc.hash(pass, DefaultCost, salt);
      if hashed.Err? {
        return 0, Some(Wrap(RegisterOp, hashed.error));
      }
      var id, saveErr := usrSaver.SaveUser(email, hashed.value);
      if saveErr.Some? {
        return 0, Some(Wrap(RegisterOp, saveErr.value));
      }
      return id, None;
    }
  }

  /** An email the store does not know is answered with the service's
      invalid-credentials error, not with the store's not-found error. */
  lemma LoginUnknownUser(a: Auth, email: string, password: Bytes, appID: int, bc: Hasher)
    requires a.usrProvider.LookupUser(email).Err?
    requires Is(a.usrProvider.LookupUser(email).error, ErrUserNotFound)
    ensures a.Login(email, password, appID, bc) == Rejected(LoginInvalidCredentials)
    ensures Is(a.Login(email, password, appID, bc).err, ErrInvalidCredentials)
    ensures !Is(a.Login(email, password, appID, bc).err, ErrUserNotFound)
  {
  }

  /** A back end that wraps its not-found sentinel in layers of its own
      operation tags is still answered with invalid credentials: errors.Is
      sees through every layer. */
  lemma LoginWrappedNotFound(a: Auth, ops: seq<string>, email: string, password: Bytes,
                             appID: int, bc: Hasher)
    requires a.usrProvider.fault == Some(WrapAll(ops, Sentinel(ErrUserNotFound)))
    ensures a.Login(email, password, appID, bc) == Rejected(LoginInvalidCredentials)
  {
    WrapAllKeepsKind(ops, Sentinel(ErrUserNotFound), ErrUserNotFound);
  }

  /** Any other failure of the user lookup is passed through, wrapped: it is
      recognised as exactly the kinds the store error is, so a store failure
      is never reported as invalid credentials. */
  lemma LoginUserLookupFails(a: Auth, email: string, password: Bytes, appID: int, bc: Hasher)
    requires a.usrProvider.LookupUser(email).Err?
    requires !Is(a.usrProvider.LookupUser(email).error, ErrUserNotFound)
    ensures a.Login(email, password, appID, bc) == Rejected(Wrap(LoginOp, a.usrProvider.LookupUser(email).error))
    ensures forall k :: Is(a.Login(email, password, appID, bc).err, k) <==> Is(a.usrProvider.LookupUser(email).error, k)
  {
  }

  /** A password that does not match the stored hash gets the same error as
      an unknown email. */
  lemma LoginWrongPassword(a: Auth, email: string, password: Bytes, appID: int, bc: Hasher)
    requires a.usrProvider.LookupUser(email).Ok?
    requires !bc.matches(a.usrProvider.LookupUser(email).value.passHash, password)
    ensures a.Login(email, password, appID, bc) == Rejected(LoginInvalidCredentials)
    ensures Is(a.Login(email, password, appID, bc).err, ErrInvalidCredentials)
  {
  }

  /** Enumeration safety: an unknown email and a known email with a wrong
      password produce the very same outcome, message included, whatever the
      two passwords and app ids are. */
  lemma LoginEnumerationSafety(a: Auth, unknown: string, known: string,
                               pw1: Bytes, pw2: Bytes, app1: int, app2: int, bc: Hasher)
    requires a.usrProvider.fault.None?
    requires unknown !in a.usrProvider.users
    requires known in a.usrProvider.users
    requires !bc.matches(a.usrProvider.users[known].passHash, pw2)
    ensures a.Login(unknown, pw1, app1, bc) == a.Login(known, pw2, app2, bc)
    ensures Message(a.Login(unknown, pw1, app1, bc).err) == "auth.Login: invalid credentials"
  {
    LoginUnknownUser(a, unknown, pw1, app1, bc);
    LoginWrongPassword(a, known, pw2, app2, bc);
  }

  /** Short-circuiting: when the credentials are not accepted the app store
      plays no part; two services sharing a user store but with any two app
      stores reject the attempt alike. */
  lemma LoginShortCircuits(a: Auth, b: Auth, email: string, password: Bytes,
                           appID: int, bc: Hasher)
    requires a.usrProvider == b.usrProvider
    requires !a.CredentialsAccepted(email, password, bc)
    ensures a.Login(email, password, appID, bc) == b.Login(email, password, appID, bc)
    ensures a.Login(email, password, appID, bc).Rejected?
  {
  }

  /** An app-lookup failure after accepted credentials, ErrAppNotFound
      included, is passed through wrapped and keeps its kind; it is never
      turned into invalid credentials. */
  lemma LoginAppLookupFails(a: Auth, email: string, password: Bytes, appID: int, bc: Hasher)
    requires a.CredentialsAccepted(email, password, bc)
    requires a.appProvider.LookupApp(appID).Err?
    ensures a.Login(email, password, appID, bc) == Rejected(Wrap(LoginOp, a.appProvider.LookupApp(appID).error))
    ensures forall k :: Is(a.Login(email, password, appID, bc).err, k) <==> Is(a.appProvider.LookupApp(appID).error, k)
    ensures a.appProvider.fault.None? ==> Is(a.Login(email, password, appID, bc).err, ErrAppNotFound)
    ensures a.appProvider.fault.None? ==> !Is(a.Login(email, password, appID, bc).err, ErrInvalidCredentials)
  {
  }

  /** Registration followed by login: with a hasher that accepts the hash it
      produced, a fresh email is registered under the next id, and logging in
      with the same email and password then resolves that user and the app. */
  method RegisterThenLogin(a: Auth, email: string, pass: Bytes, salt: Bytes,
                           appID: int, bc: Hasher)
    returns (uid: int, err: Option<Error>, outcome: LoginOutcome)
    requires a.usrSaver == a.usrProvider
    requires a.usrSaver.Valid() && a.usrSaver.fault.None?
    requires email !in a.usrSaver.users
    requires bc.hash(pass, DefaultCost, salt).Ok?
    requires bc.matches(bc.hash(pass, DefaultCost, salt).value, pass)
    requires a.appProvider.fault.None? && appID in a.appProvider.apps
    modifies a.usrSaver
    ensures err.None? && uid == old(a.usrSaver.nextId)
    ensures outcome == Resolved(User(uid, email, bc.hash(pass, DefaultCost, salt).value),
                                old(a.appProvider.apps[appID]))
  {
    uid, err := a.RegisterNewUser(email, pass, salt, bc);
    outcome := a.Login(email, pass, appID, bc);
  }

  /** Registering an email twice: the second attempt fails with an error
      recognised as ErrUserExists and the first record stays as it was. */
  method RegisterTwice(a: Auth, email: string, pass1: Bytes, pass2: Bytes,
                       salt1: Bytes, salt2: Bytes, bc: Hasher)
    returns (uid1: int, err1: Option<Error>, uid2: int, err2: Option<Error>)
    requires a.usrSaver.Valid() && a.usrSaver.fault.None?
    requires email !in a.usrSaver.users
    requires bc.hash(pass1, DefaultCost, salt1).Ok? && bc.hash(pass2, DefaultCost, salt2).Ok?
    modifies a.usrSaver
    ensures err1.None? && uid1 == old(a.usrSaver.nextId)
    ensures uid2 == 0 && err2.Some? && Is(err2.value, ErrUserExists)
    ensures email in a.usrSaver.users
    ensures a.usrSaver.users[email] == User(uid1, email, bc.hash(pass1, DefaultCost, salt1).value)
  {
    uid1, err1 := a.RegisterNewUser(email, pass1, salt1, bc);
    uid2, err2 := a.RegisterNewUser(email, pass2, salt2, bc);
  }

  /** The register-and-login walk-through for alice with app 7, run on a
      fresh store and a toy hasher that appends the password to the salt:
      alice gets id 1, her login resolves her and app 7, and a wrong password
      and an unregistered email are answered identically. */
  method AliceScenario() returns (id: int, good: LoginOutcome, wrong: LoginOutcome, unknown: LoginOutcome)
    ensures id == 1
    ensures good.Resolved? && good.user.id == 1 && good.user.email == "alice@example.com"
    ensures good.Resolved? && good.app.id == 7
    ensures wrong == unknown == Rejected(LoginInvalidCredentials)
  {
    var secret: Bytes := [115, 51, 99, 114, 101, 116];      // "s3cret"
    var badPass: Bytes := [119, 114, 111, 110, 103];        // "wrong"
    var anything: Bytes := [97, 110, 121];                  // "any"
    var salt: Bytes := [1, 2];
    var bc := Hasher(
      (p: Bytes, cost: int, s: Bytes) => Ok(s + p),
      (h: Bytes, p: Bytes) => |p| <= |h| && h[|h| - |p|..] == p);

    var store := new Store(map[7 := App(7, [7, 7, 7])]);
    var a := new Auth.New(store, store, store, 3_600_000_000_000);
    var err;
    id, err := a.RegisterNewUser("alice@example.com", secret, salt, bc);
    good := a.Login("alice@example.com", secret, 7, bc);
    ghost var hash := salt + secret;
    assert hash[|hash| - |badPass|..][0] != badPass[0];
    wrong := a.Login("alice@example.com", badPass, 7, bc);
    unknown := a.Login("bob@example.com", anything, 7, bc);
  }
}
