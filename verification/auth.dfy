/**
 * Sign-in (src/contexts/AuthContext.tsx): the three built-in demo accounts, which share the
 * password "password", are tried first; then the approved self-registered hosts kept in the
 * browser's storage. A successful sign-in is remembered in the storage's session key.
 */
module Auth {
  import opened Wrappers
  import opened DataModel
  import opened BrowserStorage

  /** The password every built-in account accepts. */
  const DemoPassword := "password"

  /** The built-in accounts: one security officer, one host and one administrator. */
  const MockUsers: seq<User> := [
    User("1", "Security Officer Johnson", "security@company.com", SecurityRole, Some("Security")),
    User("2", "John Doe", "john@company.com", HostRole, Some("Engineering")),
    User("3", "Admin User", "admin@company.com", AdminRole, Some("IT"))
  ]

  /** `mockUsers.find(u => u.email === email)`. */
  function FindMock(us: seq<User>, email: string): (r: Option<User>)
    ensures r.Some? ==> r.value in us && r.value.email == email
    ensures r.Some? ==> exists k :: 0 <= k < |us| && us[k] == r.value && forall i :: 0 <= i < k ==> us[i].email != email
    ensures r.None? <==> forall k :: 0 <= k < |us| ==> us[k].email != email
  {
    if us == [] then None
    else if us[0].email == email then (assert us[0] == us[0]; Some(us[0]))
    else
      var r := FindMock(us[1..], email);
      if r.Some? then
        var k :| 0 <= k < |us[1..]| && us[1..][k] == r.value && forall i :: 0 <= i < k ==> us[1..][i].email != email;
        assert us[k + 1] == r.value;
        r
      else r
  }

  /** The stored record accepts this e-mail and password and has been approved. */
  predicate Accepts(h: StoredHost, email: string, password: string) {
    h.email == email && h.password == password && h.isApproved
  }

  /** `registeredHosts.find(h => h.email === email && h.password === password && h.isApproved)`. */
  function FindRegistered(rs: seq<StoredHost>, email: string, password: string): (r: Option<StoredHost>)
    ensures r.Some? ==> r.value in rs && Accepts(r.value, email, password)
    ensures r.Some? ==> exists k :: 0 <= k < |rs| && rs[k] == r.value && forall i :: 0 <= i < k ==> !Accepts(rs[i], email, password)
    ensures r.None? <==> forall k :: 0 <= k < |rs| ==> !Accepts(rs[k], email, password)
  {
    if rs == [] then None
    else if Accepts(rs[0], email, password) then (assert rs[0] == rs[0]; Some(rs[0]))
    else
      var r := FindRegistered(rs[1..], email, password);
      if r.Some? then
        var k :| 0 <= k < |rs[1..]| && rs[1..][k] == r.value && forall i :: 0 <= i < k ==> !Accepts(rs[1..][i], email, password);
        assert rs[k + 1] == r.value;
        r
      else r
  }

  /** The session user made from a registered host. */
  function HostUser(h: StoredHost): (u: User)
    ensures u.id == h.id && u.email == h.email && u.role == HostRole
  {
    User(h.id, h.name, h.email, HostRole, Some(h.department))
  }

  /** The credential check of `login`: `None` is a refused sign-in. */
  function Authenticate(rs: seq<StoredHost>, email: string, password: string): (r: Option<User>)
    ensures r.Some? <==> ((FindMock(MockUsers, email).Some? && password == DemoPassword)
                          || exists k :: 0 <= k < |rs| && Accepts(rs[k], email, password))
    ensures r.Some? ==> r.value.email == email
    ensures FindMock(MockUsers, email).Some? && password == DemoPassword ==> r == FindMock(MockUsers, email)
    ensures !(FindMock(MockUsers, email).Some? && password == DemoPassword) && r.Some? ==> r.value.role == HostRole
  {
    var mock := FindMock(MockUsers, email);
    if mock.Some? && password == DemoPassword then mock
    else
      var found := FindRegistered(rs, email, password);
      if found.Some? then Some(HostUser(found.value)) else None
  }

  /** Each built-in account signs in with the shared password, as itself. */
  lemma {:induction false} EveryDemoAccountSignsIn(rs: seq<StoredHost>, k: nat)
    requires k < |MockUsers|
    ensures Authenticate(rs, MockUsers[k].email, DemoPassword) == Some(MockUsers[k])
  {
    assert FindMock(MockUsers, MockUsers[k].email) == Some(MockUsers[k]);
  }

  /** A built-in e-mail with another password is looked up among the registered hosts like any other. */
  lemma WrongDemoPasswordFallsThrough(rs: seq<StoredHost>, email: string, password: string)
    requires password != DemoPassword
    ensures Authenticate(rs, email, password).Some? <==> FindRegistered(rs, email, password).Some?
    ensures Authenticate(rs, email, password).Some? ==>
              Authenticate(rs, email, password) == Some(HostUser(FindRegistered(rs, email, password).value))
  {
  }

  /** Who is signed in. */
  class AuthSession {
    var user: Option<User>
    var isAuthenticated: bool

    /** The flag follows the user, and the stored session holds the same user. */
    predicate InStep(storage: Storage)
      reads this, storage
    {
      isAuthenticated == user.Some? && storage.sessionUser == user
    }

    /** The provider after its mount effect: a stored session is taken over as it is. */
    constructor Restore(storage: Storage)
      ensures user == storage.sessionUser && isAuthenticated == storage.sessionUser.Some?
      ensures InStep(storage)
    {
      user := storage.sessionUser;
      isAuthenticated := storage.sessionUser.Some?;
    }

    /** `login`: on success the user is set, flagged and stored; on failure nothing changes. */
    method Login(storage: Storage, email: string, password: string) returns (ok: bool)
      modifies this, storage
      ensures ok == Authenticate(old(storage.registeredHosts), email, password).Some?
      ensures ok ==> user == Authenticate(old(storage.registeredHosts), email, password) && isAuthenticated
      ensures ok ==> storage.sessionUser == user
      ensures !ok ==> user == old(user) && isAuthenticated == old(isAuthenticated)
                      && storage.sessionUser == old(storage.sessionUser)
      ensures storage.registeredHosts == old(storage.registeredHosts)
      ensures old(InStep(storage)) ==> InStep(storage)
    {
      var mock := FindMock(MockUsers, email);
      if mock.Some? && password == DemoPassword {
        user := mock;
        isAuthenticated := true;
        storage.sessionUser := mock;
        return true;
      }
      var found := FindRegistered(storage.registeredHosts, email, password);
      if found.Some? {
        var hostUser := HostUser(found.value);
        user := Some(hostUser);
        isAuthenticated := true;
        storage.sessionUser := Some(hostUser);
        return true;
      }
      return false;
    }

    /** `logout`: no user, not authenticated, no stored session. */
    method Logout(storage: Storage)
      modifies this, storage
      ensures user.None? && !isAuthenticated && storage.sessionUser.None?
      ensures storage.registeredHosts == old(storage.registeredHosts)
      ensures InStep(storage)
    {
      user := None;
      isAuthenticated := false;
      storage.sessionUser := None;
    }
  }
}
