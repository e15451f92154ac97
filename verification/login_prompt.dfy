/** The one-shot sign-in prompt of `App`: ten seconds after the session has
    finished loading with nobody signed in, the login modal opens once per
    browser session. The timer is an abstract "fire" event. */
module LoginPrompt {
  import opened Common
  import opened Auth

  /** The `sessionStorage` key that records that the prompt was shown. */
  const ShownKey := "loginPopupShown"

  /** The session, `sessionStorage`, and whether a prompt timer is pending. */
  datatype App = App(auth: Session, session: Storage, pending: bool)

  /** The effect's guards: not loading, nobody signed in, prompt not yet
      shown this session. */
  predicate Schedules(auth: Session, session: Storage) {
    !auth.loading && auth.user.None? && !StoredTruthy(session, ShownKey)
  }

  /** The effect's first run, on mount. */
  function Mount(auth: Session, session: Storage): (a: App)
    ensures a.pending <==> !auth.loading && auth.user.None? && !StoredTruthy(session, ShownKey)
    ensures a.auth == auth && a.session == session
    ensures Consistent(a)
  {
    App(auth, session, Schedules(auth, session))
  }

  /** The session changed. When `user` or `loading` changed the effect's
      cleanup cancels any pending timer and the effect runs again; otherwise
      the effect does not re-run and a pending timer stays pending. */
  function AuthChanged(a: App, next: Session): (r: App)
    ensures r.auth == next && r.session == a.session
    ensures next.loading || next.user.Some? ==> (r.pending ==> a.pending && next.user == a.auth.user && next.loading == a.auth.loading)
    ensures next.user != a.auth.user || next.loading != a.auth.loading ==> (r.pending <==> Schedules(next, a.session))
    ensures next.user == a.auth.user && next.loading == a.auth.loading ==> r.pending == a.pending
    ensures StoredTruthy(a.session, ShownKey) ==> (r.pending ==> a.pending)
  {
    if next.user == a.auth.user && next.loading == a.auth.loading then a.(auth := next)
    else App(next, a.session, Schedules(next, a.session))
  }

  /** The timer fires: open the login modal and record the prompt in
      `sessionStorage`. A timer that is not pending cannot fire. */
  function Fire(a: App): (r: App)
    ensures !r.pending
    ensures a.pending ==> r.auth.showLoginModal && r.session == a.session[ShownKey := "true"]
    ensures a.pending ==> r.auth == SetShowLoginModal(a.auth, true)
    ensures !a.pending ==> r == a
  {
    if a.pending then App(SetShowLoginModal(a.auth, true), a.session[ShownKey := "true"], false)
    else a
  }

  datatype Event = SessionUpdate(next: Session) | TimerFires

  function Step(a: App, e: Event): App {
    match e
    case SessionUpdate(next) => AuthChanged(a, next)
    case TimerFires => Fire(a)
  }

  /** How many times the prompt actually opened over a run of events. */
  function Prompts(a: App, events: seq<Event>): nat
    decreases |events|
  {
    if events == [] then 0
    else (if events[0].TimerFires? && a.pending then 1 else 0) + Prompts(Step(a, events[0]), events[1..])
  }

  /** Once the flag is recorded nothing is pending any more, and the flag
      stays recorded. */
  ghost predicate Consistent(a: App) {
    StoredTruthy(a.session, ShownKey) ==> !a.pending
  }

  /** The prompt opens at most once per browser session, and never when the
      flag was already recorded. */
  lemma {:induction false} PromptAtMostOnce(a: App, events: seq<Event>)
    requires Consistent(a)
    ensures Prompts(a, events) <= (if StoredTruthy(a.session, ShownKey) then 0 else 1)
    decreases |events|
  {
    if events != [] {
      var b := Step(a, events[0]);
      assert Consistent(b);
      PromptAtMostOnce(b, events[1..]);
      if events[0].TimerFires? && a.pending {
        assert StoredTruthy(b.session, ShownKey);
      }
    }
  }
}
