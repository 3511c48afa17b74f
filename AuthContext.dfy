/**
  * The authentication state of the app: the signed-in user, the access
  * token and the start-up loading flag, with the token also kept in the
  * secure store so that a session survives a restart.
  */
module AuthContext {
  import opened Wrappers
  import opened Http
  import opened AuthService
  import opened SecureStore

  /** The saved token as the start-up check sees it: a missing or empty value is no token. */
  function SavedToken(entries: map<string, string>): (saved: Option<string>)
    ensures saved.Some? <==> TokenKey in entries && entries[TokenKey] != []
    ensures saved.Some? ==> saved.value == entries[TokenKey]
  {
    if TokenKey in entries && entries[TokenKey] != [] then Some(entries[TokenKey]) else None
  }

  class AuthProvider {
    var user: Option<AuthUser>
    var token: Option<string>
    /** True only while the saved session is being checked at start-up. */
    var isLoading: bool
    const store: Store

    /** A published token is the one the store holds, so a restart would restore it. */
    predicate Persisted()
      reads this, store
    {
      token.Some? ==> TokenKey in store.entries && store.entries[TokenKey] == token.value
    }

    /** The provider mounts signed out and loading. */
    constructor(store: Store)
      ensures user == None && token == None && isLoading && this.store == store
      ensures Persisted()
    {
      user := None;
      token := None;
      isLoading := true;
      this.store := store;
    }

    /**
      * The start-up check: read the saved token; if there is one, fetch the
      * profile with it and publish both. A failed read or fetch deletes the
      * saved token, best-effort. Loading ends on every path. `sent` is the
      * token the profile request carried, if one was made.
      */
    method RestoreSession(read: StoreOutcome, me: Reply<AuthUser>, deleted: StoreOutcome) returns (sent: Option<string>)
      modifies this, store
      ensures !isLoading
      ensures sent == (if read.Done? then SavedToken(old(store.entries)) else None)
      ensures read.Done? && sent.None? ==>
                user == old(user) && token == old(token) && store.entries == old(store.entries)
      ensures sent.Some? && FetchMeApi(me).Ok? ==>
                token == sent && user == Some(FetchMeApi(me).value) && store.entries == old(store.entries)
      ensures read.Rejected? || (sent.Some? && FetchMeApi(me).Err?) ==>
                user == old(user) && token == old(token) && store.entries == Deleted(old(store.entries), TokenKey, deleted)
      ensures old(token) == None ==> Persisted()
    {
      sent := None;
      var saved := store.GetItem(TokenKey, read);
      var failed := saved.Err?;
      if saved.Ok? && saved.value.Some? && saved.value.value != [] {
        sent := saved.value;
        var profile := FetchMeApi(me);
        if profile.Ok? {
          token := sent;
          user := Some(profile.value);
        } else {
          failed := true;
        }
      }
      if failed {
        var _ := store.DeleteItem(TokenKey, deleted);
      }
      isLoading := false;
    }

    /**
      * Signing in: log in, fetch the profile with the new token, save the
      * token, then publish token and user. The first failure is the error
      * and leaves token, user and the store as they were; a rejected save
      * is such a failure too. `loginSent` is the login request and `meSent`
      * the profile request, made only once the login succeeded.
      */
    method SignIn(email: string, password: string, login: Reply<AuthTokens>, me: Reply<AuthUser>, saved: StoreOutcome)
      returns (r: Result<()>, loginSent: Request<string>, meSent: Option<Request<string>>)
      modifies this, store
      ensures loginSent == LoginRequest(email, password)
      ensures meSent.Some? <==> LoginApi(login).Ok?
      ensures meSent.Some? ==> meSent.value == MeRequest(LoginApi(login).value.accessToken)
      ensures isLoading == old(isLoading)
      ensures LoginApi(login).Err? ==> r == Err(LoginApi(login).message)
      ensures LoginApi(login).Ok? && FetchMeApi(me).Err? ==> r == Err(FetchMeApi(me).message)
      ensures LoginApi(login).Ok? && FetchMeApi(me).Ok? && saved.Rejected? ==> r == Err(saved.message)
      ensures r.Err? ==> user == old(user) && token == old(token) && store.entries == old(store.entries)
      ensures r.Ok? <==> LoginApi(login).Ok? && FetchMeApi(me).Ok? && saved.Done?
      ensures r.Ok? ==>
                token == Some(LoginApi(login).value.accessToken) && user == Some(FetchMeApi(me).value) &&
                store.entries == old(store.entries)[TokenKey := LoginApi(login).value.accessToken]
      ensures old(Persisted()) ==> Persisted()
    {
      loginSent := LoginRequest(email, password);
      meSent := None;
      var tokens := LoginApi(login);
      if tokens.Err? {
        return Err(tokens.message), loginSent, meSent;
      }
      meSent := Some(MeRequest(tokens.value.accessToken));
      var profile := FetchMeApi(me);
      if profile.Err? {
        return Err(profile.message), loginSent, meSent;
      }
      var written := store.SetItem(TokenKey, tokens.value.accessToken, saved);
      if written.Err? {
        return Err(written.message), loginSent, meSent;
      }
      token := Some(tokens.value.accessToken);
      user := Some(profile.value);
      r := Ok(());
    }

    /** Signing out: delete the saved token, best-effort, then clear token and user. */
    method SignOut(deleted: StoreOutcome)
      modifies this, store
      ensures token == None && user == None && isLoading == old(isLoading)
      ensures store.entries == Deleted(old(store.entries), TokenKey, deleted)
      ensures Persisted()
    {
      var _ := store.DeleteItem(TokenKey, deleted);
      token := None;
      user := None;
    }
  }

  /**
    * From a fresh start: mounting and checking a saved session that the
    * server accepts signs the user in with that token; any failure leaves
    * the app signed out with loading finished.
    */
  method Startup(store: Store, read: StoreOutcome, me: Reply<AuthUser>, deleted: StoreOutcome)
    returns (auth: AuthProvider)
    modifies store
    ensures fresh(auth) && auth.store == store && !auth.isLoading && auth.Persisted()
    ensures auth.token.Some? <==> read.Done? && SavedToken(old(store.entries)).Some? && FetchMeApi(me).Ok?
    ensures auth.token.Some? ==> auth.token == SavedToken(old(store.entries)) && auth.user == Some(FetchMeApi(me).value)
    ensures auth.token.None? ==> auth.user == None
  {
    auth := new AuthProvider(store);
    var _ := auth.RestoreSession(read, me, deleted);
  }
}
