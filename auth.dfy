/**
 * The session helpers over the browser's `localStorage`, modelled as a map
 * from keys to strings. `hasWindow` is false where no `window` exists
 * (server-side rendering); every helper then answers "not logged in" and
 * `Logout` does nothing.
 */
module Auth {
  import opened Wrappers

  const InviteCodeKey: string := "inviteCode"
  const UserNameKey: string := "userName"
  const UserRoleKey: string := "userRole"
  const SessionKeys: set<string> := {InviteCodeKey, UserNameKey, UserRoleKey}

  /** The user read back from storage. The role is the stored string; it is
      not checked to be "family" or "guest". */
  datatype User = User(code: string, name: string, role: string)

  /** A value of `getItem` that JavaScript treats as true: present and not empty. */
  predicate Truthy(v: Option<string>) {
    v.Some? && v.value != ""
  }

  class Browser {
    const hasWindow: bool
    var localStorage: map<string, string>

    constructor (hasWindow: bool, items: map<string, string>)
      ensures this.hasWindow == hasWindow && localStorage == items
    {
      this.hasWindow := hasWindow;
      localStorage := items;
    }

    /** `localStorage.getItem(key)`: None stands for null. */
    function GetItem(key: string): Option<string>
      reads this
    {
      if key in localStorage then Some(localStorage[key]) else None
    }

    /** `isLoggedIn`. */
    predicate IsLoggedIn()
      reads this
    {
      hasWindow && GetItem(InviteCodeKey) != None
    }

    /** `getCurrentUser`. */
    function GetCurrentUser(): Option<User>
      reads this
    {
      if !hasWindow then None
      else
        var code := GetItem(InviteCodeKey);
        var name := GetItem(UserNameKey);
        var role := GetItem(UserRoleKey);
        if !Truthy(code) || !Truthy(name) || !Truthy(role) then None
        else Some(User(code.value, name.value, role.value))
    }

    /** `canAddMemories`. */
    predicate CanAddMemories()
      reads this
    {
      var user := GetCurrentUser();
      user.Some? && user.value.role == "family"
    }

    /** `logout`: removes the three session keys. */
    method Logout()
      modifies this
      ensures localStorage == if hasWindow then old(localStorage) - SessionKeys else old(localStorage)
      ensures hasWindow ==> !IsLoggedIn() && GetCurrentUser() == None && !CanAddMemories()
    {
      if !hasWindow {
        return;
      }
      localStorage := localStorage - {InviteCodeKey};
      localStorage := localStorage - {UserNameKey};
      localStorage := localStorage - {UserRoleKey};
    }
  }

  /** Without a window nobody is logged in. */
  lemma NoWindowNoSession(b: Browser)
    requires !b.hasWindow
    ensures !b.IsLoggedIn() && b.GetCurrentUser() == None && !b.CanAddMemories()
  {
  }

  /** Logged in exactly when the invite-code key is present, whatever its
      value, the empty string included. */
  lemma LoggedInIffCodeKey(b: Browser)
    requires b.hasWindow
    ensures b.IsLoggedIn() <==> InviteCodeKey in b.localStorage
  {
  }

  /** A current user exists exactly when all three keys hold non-empty
      values, and it carries exactly those values. */
  lemma CurrentUserIffAllKeys(b: Browser)
    ensures b.GetCurrentUser().Some? <==>
      b.hasWindow && (forall k :: k in SessionKeys ==> k in b.localStorage && b.localStorage[k] != "")
    ensures b.GetCurrentUser().Some? ==>
      b.GetCurrentUser().value == User(b.localStorage[InviteCodeKey], b.localStorage[UserNameKey], b.localStorage[UserRoleKey])
  {
  }

  /** A current user implies a session. */
  lemma CurrentUserImpliesLoggedIn(b: Browser)
    ensures b.GetCurrentUser().Some? ==> b.IsLoggedIn()
  {
  }

  /** The converse fails: an empty stored invite code counts as logged in
      but yields no user. */
  lemma LoggedInWithoutUser(b: Browser)
    requires b.hasWindow && b.localStorage == map[InviteCodeKey := ""]
    ensures b.IsLoggedIn() && b.GetCurrentUser() == None
  {
  }

  /** Adding memories is allowed exactly when, in a browser, all three session
      keys hold non-empty values and the stored role is "family". */
  lemma CanAddIffFamily(b: Browser)
    ensures b.CanAddMemories() <==>
      && b.hasWindow
      && (forall k :: k in SessionKeys ==> k in b.localStorage && b.localStorage[k] != "")
      && b.localStorage[UserRoleKey] == "family"
    ensures b.CanAddMemories() ==> b.IsLoggedIn()
  {
    CurrentUserIffAllKeys(b);
  }

  /** A stored role other than "family" or "guest" still yields a user, who cannot add memories. */
  lemma UncheckedRole(b: Browser)
    requires b.hasWindow
    requires b.localStorage == map[InviteCodeKey := "x", UserNameKey := "y", UserRoleKey := "admin"]
    ensures b.GetCurrentUser() == Some(User("x", "y", "admin")) && !b.CanAddMemories()
  {
  }
}
