/** The login state: the signed-in user name or none, mirrored into the
    "user" storage item after every change. The configured administrator
    name and password are parameters (either may be unset). */
module AuthContext {
  import opened Common

  /** `username === ADMIN_USERNAME && password === ADMIN_PASSWORD`; an unset
      value matches nothing. */
  predicate Accepts(username: string, password: string, adminUsername: Option<string>, adminPassword: Option<string>)
  {
    adminUsername == Some(username) && adminPassword == Some(password)
  }

  class Auth {
    var user: Option<string>
    /** The "user" storage item: `None` when it was never written,
        `Some(None)` when it holds `null`. */
    var stored: Option<Option<string>>

    ghost predicate Mirrored()
      reads this
    {
      stored == Some(user)
    }

    /** The initial user is the saved one, if any; the effect then writes it
        back. */
    constructor(saved: Option<Option<string>>)
      ensures user == (if saved.Some? then saved.value else None)
      ensures Mirrored()
    {
      user := if saved.Some? then saved.value else None;
      stored := Some(user);
    }

    /** `login`: succeeds exactly for the administrator's name and password,
        and then signs that name in; a failed attempt changes nothing. */
    method Login(username: string, password: string, adminUsername: Option<string>, adminPassword: Option<string>)
      returns (ok: bool)
      requires Mirrored()
      modifies this
      ensures ok <==> Accepts(username, password, adminUsername, adminPassword)
      ensures ok ==> user == Some(username)
      ensures !ok ==> user == old(user) && stored == old(stored)
      ensures Mirrored()
    {
      if adminUsername == Some(username) && adminPassword == Some(password) {
        user := Some(username);
        stored := Some(user);
        return true;
      }
      return false;
    }

    /** `logout`: no user, from any state, so doing it twice is doing it
        once. */
    method Logout()
      modifies this
      ensures user == None && stored == Some(None)
      ensures Mirrored()
    {
      user := None;
      stored := Some(user);
    }
  }
}
