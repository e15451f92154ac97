/** The sign-in modal: a Google sign-in step, then, when the server says the
    profile lacks a phone number, a phone-entry step that cannot be dismissed
    until a phone is saved. */
module LoginModal {
  import opened Common
  import opened Auth

  /** The modal's local state: the spinner flag, whether the phone step is
      showing, and the phone field. */
  datatype Modal = Modal(loading: bool, phoneStep: bool, phone: string)

  datatype View = View(auth: Session, modal: Modal)

  const Initial := Modal(false, false, "")

  /** What is on screen when the modal renders. */
  datatype Screen = Screen(phoneForm: bool, closeButton: bool, busy: bool)

  /** Nothing renders unless `showLoginModal`; the close button is offered
      only outside the phone step, and the phone form only inside it. */
  function Render(v: View): (r: Option<Screen>)
    ensures r.Some? <==> v.auth.showLoginModal
    ensures r.Some? ==> r.value.phoneForm == v.modal.phoneStep
    ensures r.Some? ==> r.value.closeButton == !v.modal.phoneStep
    ensures r.Some? ==> r.value.busy == v.modal.loading
  {
    if !v.auth.showLoginModal then None
    else Some(Screen(v.modal.phoneStep, !v.modal.phoneStep, v.modal.loading))
  }

  /** `handleGoogleSuccess`, given the outcome of the sign-in exchange. */
  function GoogleSuccess(v: View, resp: Response<LoginData>): (r: View)
    ensures !r.modal.loading
    ensures r.modal.phone == v.modal.phone
    ensures r.auth.loading == v.auth.loading && r.auth.showProfileModal == v.auth.showProfileModal
    ensures resp.Ok? ==> r.auth.user == Some(resp.data.user)
    ensures resp.Ok? ==> r.auth.storage == v.auth.storage[TokenKey := resp.data.token]
    ensures resp.Ok? && resp.data.needsPhone ==>
              r.modal.phoneStep && r.auth.showLoginModal == v.auth.showLoginModal
    ensures resp.Ok? && !resp.data.needsPhone ==>
              !r.auth.showLoginModal && r.modal.phoneStep == v.modal.phoneStep
    ensures resp.Err? ==> r.auth == v.auth && r.modal.phoneStep == v.modal.phoneStep
  {
    var signedIn := GoogleLogin(v.auth, resp);
    match resp
    case Ok(data) =>
      if data.needsPhone then View(signedIn.session, v.modal.(phoneStep := true, loading := false))
      else View(SetShowLoginModal(signedIn.session, false), v.modal.(loading := false))
    case Err(_) => View(v.auth, v.modal.(loading := false))
  }

  /** The phone check of `handlePhoneSubmit`: `!phone || phone.length < 10`
      rejects. */
  predicate PhoneRejected(phone: string) {
    phone == "" || |phone| < 10
  }

  /** The phone-submit outcome: the next view and the update request sent,
      if any. */
  datatype PhoneResult = PhoneResult(view: View, sent: Option<ProfileUpdate>)

  /** `user?.name`. */
  function NameOf(user: Option<User>): Option<string> {
    if user.Some? then Some(user.value.name) else None
  }

  /** `handlePhoneSubmit`, given the outcome of `updateProfile`. */
  function PhoneSubmit(v: View, resp: Response<User>): (r: PhoneResult)
    ensures r.sent.None? <==> |v.modal.phone| < 10
    ensures r.sent.None? ==> r.view == v
    ensures r.sent.Some? ==> r.sent.value == ProfileUpdate(NameOf(v.auth.user), v.modal.phone)
    ensures r.sent.Some? ==> !r.view.modal.loading && r.view.auth.storage == v.auth.storage
    ensures r.view.auth.loading == v.auth.loading && r.view.auth.showProfileModal == v.auth.showProfileModal
    ensures r.sent.Some? && resp.Ok? ==>
              && r.view.auth.user == Some(resp.data)
              && !r.view.auth.showLoginModal
              && !r.view.modal.phoneStep
              && r.view.modal.phone == ""
    ensures r.sent.Some? && resp.Err? ==>
              r.view.auth == v.auth && r.view.modal == v.modal.(loading := false)
  {
    if PhoneRejected(v.modal.phone) then PhoneResult(v, None)
    else
      var request := ProfileUpdate(NameOf(v.auth.user), v.modal.phone);
      var updated := UpdateProfile(v.auth, resp);
      match resp
      case Ok(_) =>
        PhoneResult(View(SetShowLoginModal(updated.session, false), Modal(false, false, "")), Some(request))
      case Err(_) => PhoneResult(View(v.auth, v.modal.(loading := false)), Some(request))
  }

  /** The two ways to dismiss the modal: the backdrop, and the close button
      (which only exists outside the phone step). */
  datatype Dismissal = Backdrop | CloseButton

  /** A dismissal closes the modal only outside the phone step, and touches
      nothing else. */
  function Dismiss(v: View, d: Dismissal): (r: View)
    ensures r.auth.showLoginModal == (v.auth.showLoginModal && v.modal.phoneStep)
    ensures r.modal == v.modal
    ensures r.auth.user == v.auth.user && r.auth.storage == v.auth.storage
    ensures r.auth.loading == v.auth.loading && r.auth.showProfileModal == v.auth.showProfileModal
  {
    match d
    case Backdrop =>
      if !v.modal.phoneStep then v.(auth := SetShowLoginModal(v.auth, false)) else v
    case CloseButton =>
      // In the phone step the button is not rendered, so no click arrives.
      if Render(v).Some? && Render(v).value.closeButton then v.(auth := SetShowLoginModal(v.auth, false))
      else v
  }

  /** User events while the phone step shows. */
  datatype PhoneStepEvent = Dismissed(how: Dismissal) | Typed(text: string) | Submitted(resp: Response<User>)

  function Step(v: View, e: PhoneStepEvent): View {
    match e
    case Dismissed(d) => Dismiss(v, d)
    case Typed(text) => v.(modal := v.modal.(phone := text))
    case Submitted(resp) => PhoneSubmit(v, resp).view
  }

  function Run(v: View, events: seq<PhoneStepEvent>): View
    decreases |events|
  {
    if events == [] then v else Run(Step(v, events[0]), events[1..])
  }

  /** No event of the run saves a phone: every submit either fails at the
      server or is refused by the length check before it is sent. */
  predicate NoPhoneSaved(v: View, events: seq<PhoneStepEvent>)
    decreases |events|
  {
    || events == []
    || (&& !(events[0].Submitted? && events[0].resp.Ok? && !PhoneRejected(v.modal.phone))
        && NoPhoneSaved(Step(v, events[0]), events[1..]))
  }

  /** Once in the phone step, the modal stays open and in that step through
      any dismissals, typing, and submits that are refused or fail: only a
      successful phone update leaves it. */
  lemma {:induction false} PhoneStepIsSticky(v: View, events: seq<PhoneStepEvent>)
    requires v.auth.showLoginModal && v.modal.phoneStep
    requires NoPhoneSaved(v, events)
    ensures Run(v, events).auth.showLoginModal && Run(v, events).modal.phoneStep
    ensures Run(v, events).auth.user == v.auth.user
    decreases |events|
  {
    if events != [] {
      PhoneStepIsSticky(Step(v, events[0]), events[1..]);
    }
  }

  /** A Google sign-in that answers `needsPhone` leaves the modal open, in the
      phone step and signed in as the returned user, until a phone is
      saved. */
  lemma {:induction false} PhoneSignInStaysOpen(v: View, d: LoginData, events: seq<PhoneStepEvent>)
    requires v.auth.showLoginModal && d.needsPhone
    requires NoPhoneSaved(GoogleSuccess(v, Ok(d)), events)
    ensures var w := Run(GoogleSuccess(v, Ok(d)), events);
      w.auth.showLoginModal && w.modal.phoneStep && w.auth.user == Some(d.user)
  {
    PhoneStepIsSticky(GoogleSuccess(v, Ok(d)), events);
  }
}
