/** The session controller (`AuthProvider`): who is signed in, the stored
    bearer token, the bootstrap `loading` flag and the two auth-modal flags.
    Every server call is an input `Response`, so each operation is a pure
    transition from one session to the next. */
module Auth {
  import opened Common

  datatype User = User(id: string, name: string, email: string, picture: Option<string>, phone: Option<string>)

  /** `{ token, user, needsPhone }` returned by the Google sign-in exchange. */
  datatype LoginData = LoginData(token: string, user: User, needsPhone: bool)

  /** The body of a `PUT /user-auth/update-profile` request; the name is
      `undefined` when a caller passes `user?.name` with no user. */
  datatype ProfileUpdate = ProfileUpdate(name: Option<string>, phone: string)

  /** The `localStorage` key of the bearer token. */
  const TokenKey := "userToken"

  /** The context's state, with `localStorage` held alongside it. */
  datatype Session = Session(
    user: Option<User>,
    storage: Storage,
    loading: bool,
    showLoginModal: bool,
    showProfileModal: bool)

  /** The state the provider starts in, over whatever storage the browser has. */
  function Init(storage: Storage): (s: Session)
    ensures s.user.None? && s.loading
    ensures !s.showLoginModal && !s.showProfileModal
    ensures s.storage == storage
  {
    Session(None, storage, true, false, false)
  }

  /** Bootstrap asks the server to verify the token only when a truthy token
      is stored. */
  predicate BootstrapVerifies(s: Session) {
    StoredTruthy(s.storage, TokenKey)
  }

  /** The mount effect: with a stored token, `GET /user-auth/verify` (whose
      outcome is `verify`) either signs the user in or evicts the token; in
      every case `loading` ends false. */
  function Bootstrap(s: Session, verify: Response<User>): (r: Session)
    ensures !r.loading
    ensures r.showLoginModal == s.showLoginModal && r.showProfileModal == s.showProfileModal
    ensures !BootstrapVerifies(s) ==> r.user == s.user && r.storage == s.storage
    ensures BootstrapVerifies(s) && verify.Ok? ==> r.user == Some(verify.data) && r.storage == s.storage
    ensures BootstrapVerifies(s) && verify.Err? ==>
              r.user == s.user && TokenKey !in r.storage && r.storage == s.storage - {TokenKey}
  {
    if BootstrapVerifies(s) then
      match verify
      case Ok(u) => s.(user := Some(u), loading := false)
      case Err(_) => s.(storage := s.storage - {TokenKey}, loading := false)
    else
      s.(loading := false)
  }

  /** Without a stored token the verify outcome plays no part: no call is
      made. */
  lemma BootstrapWithoutTokenIgnoresServer(s: Session, v1: Response<User>, v2: Response<User>)
    requires !BootstrapVerifies(s)
    ensures Bootstrap(s, v1) == Bootstrap(s, v2)
    ensures !Bootstrap(s, v1).loading
  {
  }

  /** From the initial state, bootstrap signs a user in exactly when a token
      is stored and the server verifies it; a token survives exactly when it
      was not rejected. */
  lemma BootstrapFromInit(storage: Storage, verify: Response<User>)
    ensures var r := Bootstrap(Init(storage), verify);
      && !r.loading
      && (r.user.Some? <==> StoredTruthy(storage, TokenKey) && verify.Ok?)
      && (r.user.Some? ==> r.user == Some(verify.data) && r.storage == storage)
      && (StoredTruthy(storage, TokenKey) && verify.Err? ==> TokenKey !in r.storage)
  {
  }

  /** The outcome of `googleLogin`: the new session and what the caller
      receives (the whole response data, or the rethrown failure). */
  datatype LoginResult = LoginResult(session: Session, returned: Response<LoginData>)

  /** `googleLogin`: on success stores `res.token`, signs `res.user` in and
      returns the response data; on failure the exception reaches the caller
      and neither token nor user changes. */
  function GoogleLogin(s: Session, resp: Response<LoginData>): (r: LoginResult)
    ensures r.returned == resp
    ensures resp.Ok? ==> r.session.user == Some(resp.data.user)
    ensures resp.Ok? ==> r.session.storage == s.storage[TokenKey := resp.data.token]
    ensures resp.Err? ==> r.session == s
    ensures r.session.loading == s.loading
    ensures r.session.showLoginModal == s.showLoginModal && r.session.showProfileModal == s.showProfileModal
  {
    match resp
    case Ok(data) =>
      LoginResult(s.(storage := s.storage[TokenKey := data.token], user := Some(data.user)), resp)
    case Err(_) => LoginResult(s, resp)
  }

  /** A Google sign-in survives a reload exactly when the server issued a
      non-empty token: the next bootstrap verifies that token, and signs in
      whoever the server then vouches for. */
  lemma GoogleLoginThenReload(s: Session, d: LoginData, verify: Response<User>)
    ensures var r := Bootstrap(Init(GoogleLogin(s, Ok(d)).session.storage), verify);
      && (r.user.Some? <==> d.token != "" && verify.Ok?)
      && (r.user.Some? ==> r.user == Some(verify.data))
      && (d.token != "" && verify.Err? ==> TokenKey !in r.storage)
  {
  }

  /** The outcome of `updateProfile`. */
  datatype UpdateResult = UpdateResult(session: Session, returned: Response<User>)

  /** `updateProfile`: on success the server's profile replaces `user`; the
      token is never touched, and a failure changes nothing. */
  function UpdateProfile(s: Session, resp: Response<User>): (r: UpdateResult)
    ensures r.returned == resp
    ensures r.session.storage == s.storage
    ensures resp.Ok? ==> r.session == s.(user := Some(resp.data))
    ensures resp.Err? ==> r.session == s
  {
    match resp
    case Ok(u) => UpdateResult(s.(user := Some(u)), resp)
    case Err(_) => UpdateResult(s, resp)
  }

  /** A profile update never touches the token, so the next reload goes
      exactly as it would have gone without the update. */
  lemma UpdateProfileKeepsReload(s: Session, resp: Response<User>, verify: Response<User>)
    ensures BootstrapVerifies(UpdateProfile(s, resp).session) == BootstrapVerifies(s)
    ensures Bootstrap(Init(UpdateProfile(s, resp).session.storage), verify) == Bootstrap(Init(s.storage), verify)
  {
  }

  /** `logout`: forget the token and the user; the modal flags and every
      other stored key stay. */
  function Logout(s: Session): (r: Session)
    ensures r.user.None? && TokenKey !in r.storage
    ensures r.storage.Keys == s.storage.Keys - {TokenKey}
    ensures forall k :: k in r.storage ==> r.storage[k] == s.storage[k]
    ensures r.loading == s.loading
    ensures r.showLoginModal == s.showLoginModal && r.showProfileModal == s.showProfileModal
  {
    s.(storage := s.storage - {TokenKey}, user := None)
  }

  /** Logging out twice is logging out once. */
  lemma LogoutIdempotent(s: Session)
    ensures Logout(Logout(s)) == Logout(s)
  {
  }

  /** After a logout a bootstrap never signs anyone in, whatever the server
      would say. */
  lemma LogoutThenBootstrap(s: Session, verify: Response<User>)
    ensures Bootstrap(Logout(s), verify).user.None?
  {
  }

  /** `setShowLoginModal(b)`: nothing else changes. */
  function SetShowLoginModal(s: Session, b: bool): (r: Session)
    ensures r.showLoginModal == b
    ensures r.user == s.user && r.storage == s.storage && r.loading == s.loading
    ensures r.showProfileModal == s.showProfileModal
  {
    s.(showLoginModal := b)
  }

  /** `setShowProfileModal(b)`: nothing else changes. */
  function SetShowProfileModal(s: Session, b: bool): (r: Session)
    ensures r.showProfileModal == b
    ensures r.user == s.user && r.storage == s.storage && r.loading == s.loading
    ensures r.showLoginModal == s.showLoginModal
  {
    s.(showProfileModal := b)
  }
}
