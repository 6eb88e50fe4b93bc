/** The admin panel's authentication state: the token kept in the browser's
    storage, the `Authorization` header of every API request, the signed-in
    user and the start-up `loading` flag. The server's answers to
    `/auth/me` and `/auth/login` are parameters. */
module AdminAuthContext {
  import opened Common
  import opened Text
  import AuthRoutes

  /** The scheme word of the header (section 2.1 of RFC 6750). */
  const BearerPrefix := "Bearer "

  /** `Bearer ${token}`. */
  function HeaderFor(token: string): (h: string)
    ensures |h| == |BearerPrefix| + |token|
    ensures StartsWith(h, BearerPrefix)
  {
    BearerPrefix + token
  }

  /** What a server reads back from the header: the text after the scheme
      word, or nothing when the header does not start with it. */
  function TokenOf(header: string): (t: Option<string>)
    ensures t.Some? <==> StartsWith(header, BearerPrefix)
    ensures t.Some? ==> header == BearerPrefix + t.value
  {
    if StartsWith(header, BearerPrefix) then Some(header[|BearerPrefix|..]) else None
  }

  /** The header carries the token and nothing else: reading it back gives
      the token, and two tokens never share a header. */
  lemma HeaderRoundTrip(token: string, other: string)
    ensures TokenOf(HeaderFor(token)) == Some(token)
    ensures HeaderFor(token) == HeaderFor(other) ==> token == other
  {
    assert HeaderFor(token)[|BearerPrefix|..] == token;
    if HeaderFor(token) == HeaderFor(other) {
      assert HeaderFor(other)[|BearerPrefix|..] == other;
    }
  }

  /** The answer of a successful `POST /auth/login`. */
  datatype LoginAnswer = LoginAnswer(token: string, user: AuthRoutes.PublicUser)

  class AuthProvider {
    /** `localStorage.adminToken`. */
    var storedToken: Option<string>
    /** `api.defaults.headers.common['Authorization']`. */
    var header: Option<string>
    var user: Option<AuthRoutes.PublicUser>
    var loading: bool

    /** The header is present only as the header of the stored token, and a
        stored (non-empty) token always has its header. */
    ghost predicate Valid()
      reads this
    {
      && (header.Some? ==> storedToken.Some? && header.value == HeaderFor(storedToken.value))
      && (Truthy(storedToken) ==> header.Some?)
    }

    /** `isAuthenticated: !!user`. */
    function IsAuthenticated(): (b: bool)
      reads this
      ensures b <==> user.Some?
    {
      user.Some?
    }

    /** `{!loading && children}`: the pages show once loading is over. */
    function ShowsChildren(): (b: bool)
      reads this
      ensures b <==> !loading
    {
      !loading
    }

    /** The provider mounting with `stored` in the browser's storage: with a
        token, the header is set and loading lasts until the `/auth/me`
        check answers; without one, loading ends at once, signed out. */
    constructor (stored: Option<string>)
      ensures Valid()
      ensures storedToken == stored && user.None?
      ensures Truthy(stored) ==> header == Some(HeaderFor(stored.value)) && loading
      ensures !Truthy(stored) ==> header.None? && !loading
    {
      storedToken := stored;
      user := None;
      if Truthy(stored) {
        header := Some(HeaderFor(stored.value));
        loading := true;
      } else {
        header := None;
        loading := false;
      }
    }

    /** `checkAuth()` with `me` the user `/auth/me` answered with, or `None`
        when the request failed: a failure forgets the token and the header.
        Loading ends either way. */
    method CheckAuth(me: Option<AuthRoutes.PublicUser>)
      requires Valid()
      modifies this
      ensures Valid() && !loading
      ensures me.Some? ==> user == me && storedToken == old(storedToken) && header == old(header)
      ensures me.None? ==> user == old(user) && storedToken.None? && header.None?
    {
      if me.Some? {
        user := me;
      } else {
        storedToken := None;
        header := None;
      }
      loading := false;
    }

    /** `login(email, password)` with `answer` the server's reply, or `None`
        when the request failed (the error reaches the caller and nothing
        changes). Token, header and user all come from the one reply. */
    method Login(answer: Option<LoginAnswer>) returns (r: Option<LoginAnswer>)
      requires Valid()
      modifies this
      ensures Valid() && r == answer && loading == old(loading)
      ensures answer.None? ==> storedToken == old(storedToken) && header == old(header) && user == old(user)
      ensures answer.Some? ==> && storedToken == Some(answer.value.token)
                               && header == Some(HeaderFor(answer.value.token))
                               && user == Some(answer.value.user)
    {
      if answer.Some? {
        storedToken := Some(answer.value.token);
        header := Some(HeaderFor(answer.value.token));
        user := Some(answer.value.user);
      }
      r := answer;
    }

    /** `logout()`: token, header and user are gone. */
    method Logout()
      requires Valid()
      modifies this
      ensures Valid() && !IsAuthenticated() && loading == old(loading)
      ensures storedToken.None? && header.None? && user.None?
    {
      storedToken := None;
      header := None;
      user := None;
    }
  }

  /** A whole session on a browser that starts with `stored`: mount, the
      start-up check when there is a token, a login, then a logout. The
      header follows the stored token at every step, and the user is the
      one the login answered with until the logout. */
  method SignInOut(stored: Option<string>, me: Option<AuthRoutes.PublicUser>, answer: LoginAnswer)
    returns (afterLogin: Option<string>, signedIn: bool, afterLogout: Option<string>)
    ensures afterLogin == Some(HeaderFor(answer.token)) && signedIn
    ensures afterLogout.None?
  {
    var p := new AuthProvider(stored);
    if Truthy(stored) {
      p.CheckAuth(me);
    }
    assert p.ShowsChildren();
    var _ := p.Login(Some(answer));
    afterLogin := p.header;
    signedIn := p.IsAuthenticated();
    if signedIn {
      assert TokenOf(p.header.value) == p.storedToken by {
        HeaderRoundTrip(answer.token, answer.token);
      }
    }
    p.Logout();
    afterLogout := p.header;
  }
}
