/**
 * The user store: the current user and whether the session is
 * authenticated. Only the user is persisted; a restored session always
 * starts unauthenticated.
 */
module UserStore {
  import opened Js

  datatype User = User(id: string, email: string, fullName: Option<string>, trackingId: Option<string>)

  /** What `partialize` writes to session storage. */
  datatype Snapshot = Snapshot(currentUser: Option<User>, isAuthenticated: bool)

  class UserStore {
    var currentUser: Option<User>
    var isAuthenticated: bool

    constructor()
      ensures currentUser == None && !isAuthenticated
    {
      currentUser := None;
      isAuthenticated := false;
    }

    method SetCurrentUser(user: User)
      modifies this
      ensures currentUser == Some(user) && isAuthenticated
    {
      currentUser := Some(user);
      isAuthenticated := true;
    }

    method ClearCurrentUser()
      modifies this
      ensures currentUser == None && !isAuthenticated
    {
      currentUser := None;
      isAuthenticated := false;
    }

    /** The persisted part of the state: the user, never the authentication flag. */
    function Partialize(): (s: Snapshot)
      reads this
      ensures s.currentUser == currentUser
      ensures !s.isAuthenticated
    {
      Snapshot(currentUser, false)
    }
  }

  /** Setting a user and then clearing it returns the store to its initial state. */
  method SetThenClear(store: UserStore, user: User)
    modifies store
    ensures store.currentUser == None && !store.isAuthenticated
  {
    store.SetCurrentUser(user);
    store.ClearCurrentUser();
  }
}
