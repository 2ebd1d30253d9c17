/**
 * The session store of AuthContext.js: four pieces of in-memory state
 * (`isLoading`, `userToken`, `refreshToken`, `userData`), a key-value store
 * holding `accessToken`, `refreshToken` and `userData`, and the operations
 * `login`, `logout`, `refreshAuthToken` and the start-up restore
 * `checkLoginStatus`, which also starts the two-minute refresh interval.
 *
 * Every storage call goes through a wrapper that logs and swallows its own
 * exception; `faults` names the keys whose storage call throws during one
 * operation, so a faulty call leaves that key as it was (a read gives null).
 * The token endpoint's reply, or the exception it raised, is a parameter.
 */
module AuthContext {
  import opened Common
  import Json

  const AccessKey := "accessToken"
  const RefreshKey := "refreshToken"
  const UserKey := "userData"
  const InvalidTokenCode := "token_not_valid"

  /** Outcome of the POST to the token-refresh endpoint: the fetch or `response.json()` threw,
      or a reply arrived with its `ok` flag and the `access` and `code` fields of its body
      (`None` where the body has no such field, which the program reads as `undefined`). */
  datatype RefreshReply = Threw | Replied(ok: bool, access: Option<string>, code: Option<string>)

  /** The provider's state and the persisted store; `intervalRunning` records whether the
      refresh interval has been started. */
  datatype AuthState = AuthState(
    isLoading: bool,
    userToken: Option<string>,
    refreshToken: Option<string>,
    userData: Option<Json.Profile>,
    store: map<string, string>,
    intervalRunning: bool)

  /** Key `k` has the same binding (or absence) in both stores. */
  predicate SameAt(a: map<string, string>, b: map<string, string>, k: string) {
    (k in a <==> k in b) && (k in a ==> a[k] == b[k])
  }

  predicate IsSessionKey(k: string) {
    k == AccessKey || k == RefreshKey || k == UserKey
  }

  /** `Storage.setItem(key, value)` */
  function SetItem(store: map<string, string>, key: string, value: string, faults: set<string>): (r: map<string, string>)
    ensures key !in faults ==> key in r && r[key] == value
    ensures forall k :: k != key || key in faults ==> SameAt(r, store, k)
  {
    if key in faults then store else store[key := value]
  }

  /** `Storage.removeItem(key)` */
  function RemoveItem(store: map<string, string>, key: string, faults: set<string>): (r: map<string, string>)
    ensures key !in faults ==> key !in r
    ensures forall k :: k != key || key in faults ==> SameAt(r, store, k)
  {
    if key in faults then store else store - {key}
  }

  /** `Storage.getItem(key)`: null for a missing key and for a read that throws. */
  function GetItem(store: map<string, string>, key: string, faults: set<string>): (r: Option<string>)
    ensures r.Some? <==> key in store && key !in faults
    ensures r.Some? ==> r.value == store[key]
  {
    if key in store && key !in faults then Some(store[key]) else None
  }

  /** The provider as first rendered: loading, no session, the store as persisted. */
  function Mount(persisted: map<string, string>): AuthState {
    AuthState(true, None, None, None, persisted, false)
  }

  /** `login(access, refresh, user)`: the three writes, then the three state fields. A failing
      write is swallowed by the storage wrapper, so the state is set regardless. */
  function LoginStep(st: AuthState, access: string, refresh: string, user: Json.Profile, faults: set<string>): (r: AuthState)
    ensures r.userToken == Some(access) && r.refreshToken == Some(refresh) && r.userData == Some(user)
    ensures !r.isLoading && r.intervalRunning == st.intervalRunning
    ensures AccessKey !in faults ==> AccessKey in r.store && r.store[AccessKey] == access
    ensures RefreshKey !in faults ==> RefreshKey in r.store && r.store[RefreshKey] == refresh
    ensures UserKey !in faults ==> UserKey in r.store && r.store[UserKey] == Json.Stringify(user)
    ensures forall k :: !IsSessionKey(k) || k in faults ==> SameAt(r.store, st.store, k)
  {
    var s1 := SetItem(st.store, AccessKey, access, faults);
    var s2 := SetItem(s1, RefreshKey, refresh, faults);
    var s3 := SetItem(s2, UserKey, Json.Stringify(user), faults);
    AuthState(false, Some(access), Some(refresh), Some(user), s3, st.intervalRunning)
  }

  /** `logout()`: the three removals, then the three state fields become null. */
  function LogoutStep(st: AuthState, faults: set<string>): (r: AuthState)
    ensures r.userToken.None? && r.refreshToken.None? && r.userData.None?
    ensures !r.isLoading && r.intervalRunning == st.intervalRunning
    ensures forall k :: IsSessionKey(k) && k !in faults ==> k !in r.store
    ensures forall k :: !IsSessionKey(k) || k in faults ==> SameAt(r.store, st.store, k)
  {
    var s1 := RemoveItem(st.store, AccessKey, faults);
    var s2 := RemoveItem(s1, RefreshKey, faults);
    var s3 := RemoveItem(s2, UserKey, faults);
    AuthState(false, None, None, None, s3, st.intervalRunning)
  }

  /** `refreshAuthToken()` run by a closure that sees `captured` as the refresh token.
      Returns the new state and the boolean the call resolves to. */
  function RefreshStep(st: AuthState, captured: Option<string>, reply: RefreshReply, faults: set<string>): (r: (AuthState, bool))
    ensures !Truthy(captured) ==> r == (st, false)
    ensures reply.Threw? ==> r == (st, false)
    ensures r.1 <==> Truthy(captured) && reply.Replied? && reply.ok
    ensures r.1 && reply.access.Some? ==>
      r.0 == st.(userToken := reply.access, store := SetItem(st.store, AccessKey, reply.access.value, faults))
    ensures r.1 && reply.access.None? ==> r.0 == st.(userToken := None)
    ensures Truthy(captured) && reply.Replied? && !reply.ok ==>
      r.0 == if reply.code == Some(InvalidTokenCode) then LogoutStep(st, faults) else st
  {
    if !Truthy(captured) then (st, false)
    else
      match reply
      case Threw => (st, false)
      case Replied(ok, access, code) =>
        if ok then
          match access
          case Some(a) => (st.(userToken := access, store := SetItem(st.store, AccessKey, a, faults)), true)
          case None => (st.(userToken := None), true)
        else if code == Some(InvalidTokenCode) then (LogoutStep(st, faults), false)
        else (st, false)
  }

  /** All three keys read back as non-empty strings. */
  predicate StoredSession(store: map<string, string>, faults: set<string>) {
    Truthy(GetItem(store, AccessKey, faults)) && Truthy(GetItem(store, RefreshKey, faults))
    && Truthy(GetItem(store, UserKey, faults))
  }

  /** `checkLoginStatus()`: read the three keys; adopt them only when all three are non-empty.
      `JSON.parse` runs after the two tokens are set, so a profile that does not parse leaves the
      tokens adopted, `userData` as it was, and no interval started. `isLoading` ends false. */
  function RestoreStep(st: AuthState, faults: set<string>): (r: AuthState)
    ensures !r.isLoading && r.store == st.store
    ensures StoredSession(st.store, faults) ==>
      r.userToken == GetItem(st.store, AccessKey, faults) && r.refreshToken == GetItem(st.store, RefreshKey, faults)
    ensures !StoredSession(st.store, faults) ==> r == st.(isLoading := false)
    ensures StoredSession(st.store, faults) && Json.Parse(GetItem(st.store, UserKey, faults).value).Some? ==>
      r.userData == Json.Parse(GetItem(st.store, UserKey, faults).value) && r.intervalRunning
    ensures StoredSession(st.store, faults) && Json.Parse(GetItem(st.store, UserKey, faults).value).None? ==>
      r.userData == st.userData && r.intervalRunning == st.intervalRunning
    ensures r.intervalRunning != st.intervalRunning ==>
      r.userData.Some? && UserKey in st.store && Json.Parse(st.store[UserKey]) == r.userData
  {
    var a := GetItem(st.store, AccessKey, faults);
    var rt := GetItem(st.store, RefreshKey, faults);
    var u := GetItem(st.store, UserKey, faults);
    if Truthy(a) && Truthy(rt) && Truthy(u) then
      match Json.Parse(u.value)
      case Some(p) => st.(isLoading := false, userToken := a, refreshToken := rt, userData := Some(p), intervalRunning := true)
      case None => st.(isLoading := false, userToken := a, refreshToken := rt)
    else st.(isLoading := false)
  }

  /** Logging in and then restarting the app (mounting afresh over the persisted store) yields
      the same access token, refresh token and profile, with the interval running. */
  lemma LoginThenRestore(st: AuthState, access: string, refresh: string, user: Json.Profile)
    requires access != "" && refresh != ""
    ensures var restored := RestoreStep(Mount(LoginStep(st, access, refresh, user, {}).store), {});
      restored.userToken == Some(access) && restored.refreshToken == Some(refresh)
      && restored.userData == Some(user) && restored.intervalRunning && !restored.isLoading
  {
    var store := LoginStep(st, access, refresh, user, {}).store;
    Json.ParseStringify(user);
    assert GetItem(store, UserKey, {}) == Some(Json.Stringify(user));
  }

  /** The interval as written: its callback is the `refreshAuthToken` of the first render,
      whose `refreshToken` is the initial null. */
  function StaleIntervalTick(st: AuthState, reply: RefreshReply, faults: set<string>): (AuthState, bool) {
    RefreshStep(st, None, reply, faults)
  }

  /** As written, a tick never refreshes anything, whatever the session and the server say. */
  lemma StaleIntervalNeverRefreshes(st: AuthState, reply: RefreshReply, faults: set<string>)
    ensures StaleIntervalTick(st, reply, faults) == (st, false)
  {
  }

  /** A logged-in session whose server would accept the refresh: the corrected tick refreshes,
      the tick as written does not. */
  lemma StaleIntervalCounterexample()
    ensures var st := LoginStep(Mount(map[]), "A1", "R1", [], {});
      var reply := Replied(true, Some("A2"), None);
      StaleIntervalTick(st, reply, {}).0.userToken == Some("A1")
      && IntervalTick(st, reply, {}).0.userToken == Some("A2")
  {
  }

  /** The intended tick: refresh with the refresh token the session currently holds. */
  function IntervalTick(st: AuthState, reply: RefreshReply, faults: set<string>): (r: (AuthState, bool))
    ensures Truthy(st.refreshToken) && reply.Replied? && reply.ok ==>
      r.1 && r.0.userToken == reply.access && r.0.refreshToken == st.refreshToken
      && r.0.userData == st.userData
  {
    RefreshStep(st, st.refreshToken, reply, faults)
  }

  class AuthProvider {
    var isLoading: bool
    var userToken: Option<string>
    var refreshToken: Option<string>
    var userData: Option<Json.Profile>
    var store: map<string, string>
    var intervalRunning: bool

    function State(): AuthState
      reads this
    {
      AuthState(isLoading, userToken, refreshToken, userData, store, intervalRunning)
    }

    /** The provider's first render over the persisted store. */
    constructor (persisted: map<string, string>)
      ensures State() == Mount(persisted)
    {
      isLoading := true;
      userToken := None;
      refreshToken := None;
      userData := None;
      store := persisted;
      intervalRunning := false;
    }

    method Login(access: string, refresh: string, user: Json.Profile, faults: set<string>)
      modifies this
      ensures State() == LoginStep(old(State()), access, refresh, user, faults)
    {
      isLoading := true;
      store := SetItem(store, AccessKey, access, faults);
      store := SetItem(store, RefreshKey, refresh, faults);
      store := SetItem(store, UserKey, Json.Stringify(user), faults);
      userToken := Some(access);
      refreshToken := Some(refresh);
      userData := Some(user);
      isLoading := false;
    }

    method Logout(faults: set<string>)
      modifies this
      ensures State() == LogoutStep(old(State()), faults)
    {
      isLoading := true;
      store := RemoveItem(store, AccessKey, faults);
      store := RemoveItem(store, RefreshKey, faults);
      store := RemoveItem(store, UserKey, faults);
      userToken := None;
      refreshToken := None;
      userData := None;
      isLoading := false;
    }

    method RefreshAuthToken(reply: RefreshReply, faults: set<string>) returns (ok: bool)
      modifies this
      ensures (State(), ok) == RefreshStep(old(State()), old(refreshToken), reply, faults)
    {
      if !Truthy(refreshToken) {
        return false;
      }
      match reply
      case Threw =>
        ok := false;
      case Replied(replyOk, access, code) =>
        if replyOk {
          if access.Some? {
            store := SetItem(store, AccessKey, access.value, faults);
          }
          userToken := access;
          ok := true;
        } else {
          if code == Some(InvalidTokenCode) {
            Logout(faults);
          }
          ok := false;
        }
    }

    method CheckLoginStatus(faults: set<string>)
      modifies this
      ensures State() == RestoreStep(old(State()), faults)
    {
      isLoading := true;
      var access := GetItem(store, AccessKey, faults);
      var storedRefresh := GetItem(store, RefreshKey, faults);
      var storedUser := GetItem(store, UserKey, faults);
      if Truthy(access) && Truthy(storedRefresh) && Truthy(storedUser) {
        userToken := access;
        refreshToken := storedRefresh;
        var parsed := Json.Parse(storedUser.value);
        if parsed.Some? {
          userData := parsed;
          intervalRunning := true;
        }
      }
      isLoading := false;
    }

    /** One firing of the two-minute interval as the program runs it: the callback is the
        first render's `refreshAuthToken`, whose refresh token is null, so it returns false
        at once and changes nothing. */
    method StaleIntervalFires(reply: RefreshReply, faults: set<string>) returns (ok: bool)
      requires intervalRunning
      modifies this
      ensures (State(), ok) == StaleIntervalTick(old(State()), reply, faults)
    {
      ok := false;
    }

    /** One firing of the interval as evidently intended (not what the program does), refreshing
        with the refresh token the provider currently holds. */
    method CorrectedIntervalFires(reply: RefreshReply, faults: set<string>) returns (ok: bool)
      requires intervalRunning
      modifies this
      ensures (State(), ok) == IntervalTick(old(State()), reply, faults)
    {
      ok := RefreshAuthToken(reply, faults);
    }
  }
}
