/** An in-memory implementation of the three store interfaces the auth
    service is built over (UserSaver, UserProvider, AppProvider).  One object
    plays all three parts; a service may be given the same store three times
    or three different stores. */
module Storage {
  import opened Errors
  import opened Models

  class Store {
    /** The user table, keyed by email: the store keeps emails unique. */
    var users: map<string, User>
    /** The app table, provisioned out of band and never written here. */
    var apps: map<int, App>
    /** The id the next saved user receives. */
    var nextId: int
    /** A failing back end (a lost connection, a disk error): while it is
        set, every call fails with this error and changes nothing. */
    var fault: Option<Error>

    /** Every record is filed under its own email, ids are below nextId and
        distinct, and every app is filed under its own id. */
    ghost predicate Valid()
      reads this
    {
      && nextId >= 1
      && (forall e | e in users :: users[e].email == e && 1 <= users[e].id < nextId)
      && (forall e1, e2 | e1 in users && e2 in users && users[e1].id == users[e2].id :: e1 == e2)
      && (forall id | id in apps :: apps[id].id == id)
    }

    constructor (apps: map<int, App>)
      requires forall id | id in apps :: apps[id].id == id
      ensures Valid()
      ensures users == map[] && this.apps == apps && nextId == 1 && fault == None
    {
      users := map[];
      this.apps := apps;
      nextId := 1;
      fault := None;
    }

    /** UserSaver.SaveUser: insert-if-absent.  A duplicate email fails with
        ErrUserExists and leaves the existing record as it was; otherwise the
        new record gets a fresh id, which is returned. */
    method SaveUser(email: string, passHash: Bytes) returns (uid: int, err: Option<Error>)
      requires Valid()
      modifies this
      ensures Valid()
      ensures apps == old(apps) && fault == old(fault)
      ensures err.Some? ==> unchanged(this)
      ensures old(fault).Some? ==>
        uid == 0 && err == old(fault) && users == old(users) && nextId == old(nextId)
      ensures old(fault).None? && email in old(users) ==>
        uid == 0 && err == Some(Sentinel(ErrUserExists)) && users == old(users) && nextId == old(nextId)
      ensures old(fault).None? && email !in old(users) ==>
        && err.None?
        && uid == old(nextId)
        && (forall e | e in old(users) :: old(users)[e].id != uid)
        && users == old(users)[email := User(uid, email, passHash)]
        && nextId == old(nextId) + 1
    {
      if fault.Some? {
        return 0, fault;
      }
      if email in users {
        return 0, Some(Sentinel(ErrUserExists));
      }
      uid := nextId;
      users := users[email := User(uid, email, passHash)];
      nextId := nextId + 1;
      err := None;
    }

    /** UserProvider.User: the record filed under `email`, or ErrUserNotFound
        when there is none. */
    function LookupUser(email: string): (r: Result<User>)
      reads this
      ensures r.Ok? ==> fault.None? && email in users && r.value == users[email]
      ensures fault.None? && email in users ==> r == Ok(users[email])
      ensures fault.None? && email !in users ==> r == Err(Sentinel(ErrUserNotFound))
      ensures fault.Some? ==> r == Err(fault.value)
    {
      if fault.Some? then Err(fault.value)
      else if email in users then Ok(users[email])
      else Err(Sentinel(ErrUserNotFound))
    }

    /** AppProvider.App: the app with id `appID`, or ErrAppNotFound when
        there is none. */
    function LookupApp(appID: int): (r: Result<App>)
      reads this
      ensures r.Ok? ==> fault.None? && appID in apps && r.value == apps[appID]
      ensures fault.None? && appID in apps ==> r == Ok(apps[appID])
      ensures fault.None? && appID !in apps ==> r == Err(Sentinel(ErrAppNotFound))
      ensures fault.Some? ==> r == Err(fault.value)
    {
      if fault.Some? then Err(fault.value)
      else if appID in apps then Ok(apps[appID])
      else Err(Sentinel(ErrAppNotFound))
    }

    /** In a valid store a found user carries the email it was looked up by,
        and a found app the id it was looked up by. */
    lemma LookupsAgreeWithKeys(email: string, appID: int)
      requires Valid()
      ensures LookupUser(email).Ok? ==> LookupUser(email).value.email == email
      ensures LookupApp(appID).Ok? ==> LookupApp(appID).value.id == appID
    {
    }
  }
}
