/**
 * The session kept by `AuthProvider` (src/contexts/AuthContext.jsx): the
 * authentication state, the loading flag and the token kept in the
 * browser's storage under "authToken", with one method per transition.
 *
 * The profile request is not made: its outcome is a parameter.
 */
module AuthSession {
  import opened Wrappers

  /**
   * A user record. `role` and `loginType` are the two properties the
   * session inspects; `fields` holds every other property, copied as is.
   */
  datatype User = User(fields: map<string, string>, role: Option<string>, loginType: Option<string>)

  /** The outcome of the profile request: an error, or a response body with or without a `user`. */
  datatype ProfileResponse = ProfileFailed | ProfileReceived(user: Option<User>)

  /** JavaScript truthiness of a string that may be absent: absent and empty are falsy. */
  predicate Truthy(s: Option<string>)
  {
    s.Some? && s.value != ""
  }

  /** `toLowerCase` on the characters that can lower to one of the two role names. */
  function LowerChar(c: char): char
  {
    if 'A' <= c <= 'Z' then (c as int + 32) as char else c
  }

  function ToLower(s: string): (r: string)
    ensures |r| == |s|
  {
    if s == [] then [] else [LowerChar(s[0])] + ToLower(s[1..])
  }

  /** Lowering works character by character. */
  lemma {:induction false} ToLowerChars(s: string)
    ensures forall i :: 0 <= i < |s| ==> ToLower(s)[i] == LowerChar(s[i])
  {
    if s != [] {
      ToLowerChars(s[1..]);
      assert forall i :: 1 <= i < |s| ==> ToLower(s)[i] == ToLower(s[1..])[i - 1];
    }
  }

  /** A role the application accepts, compared after lowering its case. */
  predicate IsKnownRole(role: string)
  {
    ToLower(role) == "requester" || ToLower(role) == "volunteer"
  }

  /** The two role names are known roles themselves. */
  /** Lowering a string of lower-case letters changes nothing. */
  lemma {:induction false} LowercaseUnchanged(s: string)
    requires forall i :: 0 <= i < |s| ==> 'a' <= s[i] <= 'z'
    ensures ToLower(s) == s
  {
    if s != [] {
      LowercaseUnchanged(s[1..]);
    }
  }

  lemma RoleNamesAreKnown()
    ensures IsKnownRole("requester") && IsKnownRole("volunteer")
  {
    LowercaseUnchanged("requester");
    LowercaseUnchanged("volunteer");
  }

  /**
   * The role check of `fetchUser`: a role whose lower-case form is
   * "requester" or "volunteer" is kept exactly as received; a missing,
   * empty or other role becomes "requester".
   */
  function NormalizeRole(role: Option<string>): (r: string)
    ensures IsKnownRole(r)
    ensures role.Some? && IsKnownRole(role.value) ==> r == role.value
    ensures r != "requester" ==> role == Some(r)
  {
    if Truthy(role) && IsKnownRole(role.value) then role.value
    else
      RoleNamesAreKnown();
      EmptyRoleUnknown();
      "requester"
  }

  /** The empty role is not a known role. */
  lemma EmptyRoleUnknown()
    ensures !IsKnownRole("")
  {
  }

  /** Case is not normalised: a known role keeps the case it was received in. */
  lemma NormalizeRoleKeepsCase()
    ensures NormalizeRole(Some("Volunteer")) == "Volunteer"
    ensures NormalizeRole(Some("admin")) == "requester"
  {
    CapitalizedVolunteerIsKnown();
    AdminIsUnknown();
  }

  lemma CapitalizedVolunteerIsKnown()
    ensures ToLower("Volunteer") == "volunteer"
  {
    var tail := "olunteer";
    assert "Volunteer"[1..] == tail;
    LowercaseUnchanged(tail);
  }

  lemma AdminIsUnknown()
    ensures !IsKnownRole("admin")
  {
    LowercaseUnchanged("admin");
  }

  /** Normalising a normalised role changes nothing. */
  lemma NormalizeRoleIdempotent(role: Option<string>)
    ensures NormalizeRole(Some(NormalizeRole(role))) == NormalizeRole(role)
  {
  }

  /**
   * The user `fetchUser` stores: the fetched record with its role
   * normalised and `loginType` defaulting to "email".
   */
  function NormalizeUser(u: User): (r: User)
    ensures r.fields == u.fields
    ensures r.role.Some? && IsKnownRole(r.role.value)
    ensures r.role == Some(NormalizeRole(u.role))
    ensures Truthy(r.loginType)
    ensures Truthy(u.loginType) ==> r.loginType == u.loginType
    ensures !Truthy(u.loginType) ==> r.loginType == Some("email")
  {
    User(u.fields, Some(NormalizeRole(u.role)), if Truthy(u.loginType) then u.loginType else Some("email"))
  }

  /** The user after the URL-token effect: the previous user, if any, with its `loginType` replaced. */
  function WithLoginType(prev: Option<User>, loginType: Option<string>): (r: User)
    ensures Truthy(loginType) ==> r.loginType == loginType
    ensures !Truthy(loginType) ==> r.loginType == Some("google")
    ensures prev.Some? ==> r.fields == prev.value.fields && r.role == prev.value.role
    ensures prev.None? ==> r.fields == map[] && r.role == None
  {
    var lt := if Truthy(loginType) then loginType else Some("google");
    match prev
    case Some(u) => User(u.fields, u.role, lt)
    case None => User(map[], None, lt)
  }

  class Session {
    /** `authState.token` */
    var token: Option<string>
    /** `authState.user` */
    var user: Option<User>
    var loading: bool
    /** The "authToken" entry of the browser's storage. */
    var storedToken: Option<string>

    /** The storage holds the state's token when it is truthy, and nothing otherwise. */
    ghost predicate StorageInSync()
      reads this
    {
      storedToken == (if Truthy(token) then token else None)
    }

    /** The initial state, read from storage; an empty stored token counts as none. */
    constructor (stored: Option<string>)
      ensures storedToken == stored
      ensures token == (if Truthy(stored) then stored else None)
      ensures user == None && loading
    {
      storedToken := stored;
      token := if Truthy(stored) then stored else None;
      user := None;
      loading := true;
    }

    /** `localStorage.setItem("authToken", t)` */
    method StoreToken(t: string)
      modifies this`storedToken
      ensures storedToken == Some(t)
    {
      storedToken := Some(t);
    }

    /** The effect on `[authState.token]`: store the token if it is truthy, remove it otherwise. */
    method SyncStorage()
      modifies this`storedToken
      ensures StorageInSync()
      ensures Truthy(token) ==> storedToken == token
    {
      if Truthy(token) {
        storedToken := token;
      } else {
        storedToken := None;
      }
    }

    /**
     * `setAuthState` with a new state, followed by the storage effect, which
     * runs only when the token changed.
     */
    method SetAuthState(newToken: Option<string>, newUser: Option<User>)
      modifies this`token, this`user, this`storedToken
      ensures token == newToken && user == newUser
      ensures newToken != old(token) ==> StorageInSync()
      ensures newToken == old(token) ==> storedToken == old(storedToken)
    {
      var changed := newToken != token;
      token, user := newToken, newUser;
      if changed {
        SyncStorage();
      }
    }

    /**
     * `fetchUser(t)`: without a truthy token, no request and no change but
     * `loading`; a response with a user stores the normalised user and keeps
     * the token; a response without a user, or an error, clears the stored
     * token and the state. `loading` is false on every path.
     */
    method FetchUser(t: Option<string>, response: ProfileResponse) returns (requested: bool)
      modifies this
      ensures requested == Truthy(t)
      ensures !loading
      ensures !requested ==> token == old(token) && user == old(user) && storedToken == old(storedToken)
      ensures requested && response.ProfileReceived? && response.user.Some? ==>
        token == old(token) && user == Some(NormalizeUser(response.user.value))
        && storedToken == old(storedToken)
      ensures requested && !(response.ProfileReceived? && response.user.Some?) ==>
        token == None && user == None && storedToken == None
      ensures old(StorageInSync()) ==> StorageInSync()
    {
      if !Truthy(t) {
        loading := false;
        return false;
      }
      requested := true;
      match response {
        case ProfileReceived(Some(u)) =>
          user := Some(NormalizeUser(u));
        case _ =>
          storedToken := None;
          SetAuthState(None, None);
      }
      loading := false;
    }

    /**
     * The effect that reads a token from the page's URL: a truthy token is
     * stored and becomes the state's token, and the user's `loginType`
     * becomes the URL's one or "google".
     */
    method ApplyUrlToken(tokenFromUrl: Option<string>, loginType: Option<string>)
      modifies this`token, this`user, this`storedToken
      ensures Truthy(tokenFromUrl) ==>
        token == tokenFromUrl && storedToken == tokenFromUrl && StorageInSync()
        && user == Some(WithLoginType(old(user), loginType))
      ensures !Truthy(tokenFromUrl) ==>
        token == old(token) && user == old(user) && storedToken == old(storedToken)
    {
      if Truthy(tokenFromUrl) {
        StoreToken(tokenFromUrl.value);
        SetAuthState(tokenFromUrl, Some(WithLoginType(user, loginType)));
      }
    }
  }
}
