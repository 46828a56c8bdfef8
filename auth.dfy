/**
 * The session holder (`AuthProvider`): a list of known credentials that
 * `register` extends, the current user, the `isLoading` flag, and the
 * `restaurant-user` entry of local storage that mirrors the current user.
 *
 * Neither the mount check nor `login`/`register` catch errors: text that
 * `JSON.parse` rejects makes the mount check throw, and a `setItem` that
 * throws rejects the promise `login`/`register` return, after the current user
 * was already set.
 */
module Auth {
  import opened Wrappers
  import opened Text
  import Browser

  datatype Role = Employee | Manager

  /** The current identity: a credential without its password. */
  datatype User = User(id: string, email: string, name: string, role: Role)

  /** A known credential (`User & { password }`). */
  datatype Credential = Credential(id: string, email: string, password: string, name: string, role: Role)

  /** `const { password: _, ...userWithoutPassword } = credential`. */
  function WithoutPassword(c: Credential): User {
    User(c.id, c.email, c.name, c.role)
  }

  const UserKey: string := "restaurant-user"

  /** The credentials every session starts with. */
  const MockUsers: seq<Credential> := [
    Credential("1", "manager@restaurant.com", "password123", "John Manager", Manager),
    Credential("2", "employee@restaurant.com", "password123", "Jane Employee", Employee)
  ]

  /** How an async operation ends: its promise resolves to a value or rejects. */
  datatype Outcome = Resolved(value: bool) | Rejected

  /** `mockUsers.find(u => u.email === email && u.password === password)`, as a position. */
  function FindLogin(creds: seq<Credential>, email: string, password: string): (r: Option<nat>)
    ensures r.None? <==> forall k :: 0 <= k < |creds| ==> !(creds[k].email == email && creds[k].password == password)
    ensures r.Some? ==> r.value < |creds| && creds[r.value].email == email && creds[r.value].password == password
    ensures r.Some? ==> forall j :: 0 <= j < r.value ==> !(creds[j].email == email && creds[j].password == password)
  {
    if creds == [] then None
    else if creds[0].email == email && creds[0].password == password then Some(0)
    else match FindLogin(creds[1..], email, password)
      case None => None
      case Some(k) => Some(k + 1)
  }

  /** `mockUsers.find(u => u.email === email)` finds something. */
  predicate EmailTaken(creds: seq<Credential>, email: string) {
    exists k :: 0 <= k < |creds| && creds[k].email == email
  }

  /** No two credentials share an email. */
  ghost predicate DistinctEmails(creds: seq<Credential>) {
    forall j, k :: 0 <= j < k < |creds| ==> creds[j].email != creds[k].email
  }

  /** The credential `register` creates. */
  function NewCredential(email: string, password: string, name: string, now: int): Credential {
    Credential(IntToString(now), email, password, name, Employee)
  }

  /** The seed credentials have distinct emails. */
  lemma MockUsersDistinct()
    ensures DistinctEmails(MockUsers)
  {
  }

  /** The manager's seed credential logs in as the manager. */
  lemma ManagerCanLogIn()
    ensures FindLogin(MockUsers, "manager@restaurant.com", "password123") == Some(0)
    ensures MockUsers[0].role == Manager
  {
  }

  /** Appending a credential whose email is new keeps the emails distinct. */
  lemma RegisterKeepsEmailsDistinct(creds: seq<Credential>, c: Credential)
    requires DistinctEmails(creds) && !EmailTaken(creds, c.email)
    ensures DistinctEmails(creds + [c])
  {
    forall j, k | 0 <= j < k < |creds| + 1 ensures (creds + [c])[j].email != (creds + [c])[k].email {
      if k == |creds| {
        assert (creds + [c])[j] == creds[j];
      }
    }
  }

  /** After a successful registration the same email and password log in as the new credential. */
  lemma {:induction false} LoginAfterRegister(creds: seq<Credential>, email: string, password: string, name: string, now: int)
    requires !EmailTaken(creds, email)
    ensures FindLogin(creds + [NewCredential(email, password, name, now)], email, password) == Some(|creds|)
  {
    var created := NewCredential(email, password, name, now);
    if creds != [] {
      assert creds[0].email != email;
      assert (creds + [created])[1..] == creds[1..] + [created];
      assert !EmailTaken(creds[1..], email) by {
        forall k | 0 <= k < |creds[1..]| ensures creds[1..][k].email != email {
          assert creds[1..][k] == creds[k + 1];
        }
      }
      LoginAfterRegister(creds[1..], email, password, name, now);
    }
  }

  class AuthProvider {
    /** The module-level `mockUsers` list. */
    var credentials: seq<Credential>
    var user: Option<User>
    var isLoading: bool
    /** The part of the browser's local storage this provider reads and writes. */
    var local: Browser.LocalStorage<User>

    ghost predicate Valid()
      reads this
    {
      DistinctEmails(credentials)
    }

    /** The provider's first render: no user yet, still loading. */
    constructor (browser: Browser.LocalStorage<User>)
      ensures Valid()
      ensures credentials == MockUsers && user == None && isLoading && local == browser
    {
      MockUsersDistinct();
      credentials, user, isLoading, local := MockUsers, None, true, browser;
    }

    /**
     * The mount check: a stored user becomes current and `isLoading` turns
     * false. A missing or blank entry leaves the user as it is; an entry
     * `JSON.parse` rejects throws, and `isLoading` stays true.
     */
    method Mount() returns (threw: bool)
      modifies this
      ensures credentials == old(credentials) && local == old(local)
      ensures threw <==> UserKey in local.slots && local.slots[UserKey].Malformed?
      ensures threw ==> user == old(user) && isLoading == old(isLoading)
      ensures !threw ==> !isLoading
      ensures !threw && UserKey in local.slots && local.slots[UserKey].Json? ==> user == Some(local.slots[UserKey].value)
      ensures !threw && (UserKey !in local.slots || local.slots[UserKey].Blank?) ==> user == old(user)
    {
      threw := false;
      if UserKey in local.slots {
        match local.slots[UserKey]
        case Json(stored) => user := Some(stored);
        case Blank =>
        case Malformed => threw := true;
      }
      if !threw {
        isLoading := false;
      }
    }

    /**
     * `login`: the first credential matching both email and password becomes
     * the current user (without its password) and is written to local storage.
     */
    method Login(email: string, password: string) returns (result: Outcome)
      modifies this
      ensures credentials == old(credentials) && isLoading == old(isLoading)
      ensures FindLogin(credentials, email, password).None? ==>
        result == Resolved(false) && user == old(user) && local == old(local)
      ensures FindLogin(credentials, email, password).Some? ==>
        var found := WithoutPassword(credentials[FindLogin(credentials, email, password).value]);
        && user == Some(found)
        && (old(local).full ==> result == Rejected && local == old(local))
        && (!old(local).full ==> result == Resolved(true) && local == Browser.SetItem(old(local), UserKey, found).value)
    {
      match FindLogin(credentials, email, password)
      case None =>
        result := Resolved(false);
      case Some(k) =>
        var found := WithoutPassword(credentials[k]);
        user := Some(found);
        match Browser.SetItem(local, UserKey, found)
        case None =>
          result := Rejected;
        case Some(written) =>
          local := written;
          result := Resolved(true);
    }

    /**
     * `register`: refuse an email that is already known; otherwise append an
     * `employee` credential, make it the current user and write it to local
     * storage.
     */
    method Register(email: string, password: string, name: string, now: int) returns (result: Outcome)
      requires Valid()
      modifies this
      ensures Valid() && isLoading == old(isLoading)
      ensures EmailTaken(old(credentials), email) ==>
        && result == Resolved(false)
        && credentials == old(credentials) && user == old(user) && local == old(local)
      ensures !EmailTaken(old(credentials), email) ==>
        var created := NewCredential(email, password, name, now);
        && credentials == old(credentials) + [created]
        && user == Some(WithoutPassword(created))
        && (old(local).full ==> result == Rejected && local == old(local))
        && (!old(local).full ==>
              result == Resolved(true) && local == Browser.SetItem(old(local), UserKey, WithoutPassword(created)).value)
    {
      if EmailTaken(credentials, email) {
        result := Resolved(false);
        return;
      }
      var created := NewCredential(email, password, name, now);
      RegisterKeepsEmailsDistinct(credentials, created);
      credentials := credentials + [created];
      user := Some(WithoutPassword(created));
      match Browser.SetItem(local, UserKey, WithoutPassword(created))
      case None =>
        result := Rejected;
      case Some(written) =>
        local := written;
        result := Resolved(true);
    }

    /** `logout`: no current user, and the stored entry is removed. */
    method Logout()
      modifies this
      ensures user == None && local == Browser.RemoveItem(old(local), UserKey)
      ensures credentials == old(credentials) && isLoading == old(isLoading)
    {
      user := None;
      local := Browser.RemoveItem(local, UserKey);
    }
  }

  /** A client session: register, log out, log back in with the same credentials. */
  method RegisterLogoutLogin(browser: Browser.LocalStorage<User>, email: string, password: string, name: string, now: int)
    returns (loggedIn: Outcome, current: Option<User>)
    requires !browser.full && !EmailTaken(MockUsers, email)
    ensures loggedIn == Resolved(true)
    ensures current == Some(User(IntToString(now), email, name, Employee))
  {
    var auth := new AuthProvider(browser);
    var registered := auth.Register(email, password, name, now);
    assert registered == Resolved(true);
    auth.Logout();
    LoginAfterRegister(MockUsers, email, password, name, now);
    loggedIn := auth.Login(email, password);
    current := auth.user;
  }
}
