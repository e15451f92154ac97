/** The contact page's message form: only signed-in users with a non-blank
    mobile number can send a query. */
module Contact {
  import opened Common
  import opened Auth

  datatype Form = Form(message: string, mobile: string, loading: bool)

  const Initial := Form("", "", false)

  /** The prefill effect (re-run when `user` changes): `mobile` becomes the
      user's phone only when there is a user with a non-empty phone. */
  function Prefill(f: Form, user: Option<User>): (r: Form)
    ensures r.message == f.message && r.loading == f.loading
    ensures user.Some? && user.value.phone.Some? && user.value.phone.value != "" ==>
              r.mobile == user.value.phone.value
    ensures !(user.Some? && user.value.phone.Some? && user.value.phone.value != "") ==> r == f
  {
    if user.Some? && user.value.phone.Some? && user.value.phone.value != "" then
      f.(mobile := user.value.phone.value)
    else f
  }

  /** The body of `POST /queries`. */
  datatype Query = Query(name: string, mobile: string, message: string)

  /** Why a submit was refused before reaching the network. */
  datatype Rejection = LoginRequired | MobileRequired

  datatype SubmitResult = SubmitResult(form: Form, rejected: Option<Rejection>, sent: Option<Query>)

  /** `user.name || 'User'`. */
  function SenderName(u: User): (name: string)
    ensures name != ""
    ensures u.name != "" ==> name == u.name
  {
    if u.name != "" then u.name else "User"
  }

  /** `handleSubmit`, given the outcome of the post. Without a user, or with
      a blank mobile, nothing is posted. Success clears the message but keeps
      the mobile; failure clears neither; `loading` ends false either way. */
  function Submit(f: Form, user: Option<User>, resp: Response<()>): (r: SubmitResult)
    ensures r.sent.None? <==> r.rejected.Some?
    ensures r.rejected == Some(LoginRequired) <==> user.None?
    ensures r.rejected == Some(MobileRequired) <==> user.Some? && Blank(f.mobile)
    ensures r.sent.None? ==> r.form == f
    ensures r.sent.Some? ==> r.sent.value == Query(SenderName(user.value), f.mobile, f.message)
    ensures r.sent.Some? ==> !r.form.loading && r.form.mobile == f.mobile
    ensures r.sent.Some? && resp.Ok? ==> r.form.message == ""
    ensures r.sent.Some? && resp.Err? ==> r.form.message == f.message
  {
    if user.None? then SubmitResult(f, Some(LoginRequired), None)
    else if f.mobile == "" || Trim(f.mobile) == "" then SubmitResult(f, Some(MobileRequired), None)
    else
      var query := Query(SenderName(user.value), f.mobile, f.message);
      var next := if resp.Ok? then f.(message := "", loading := false) else f.(loading := false);
      SubmitResult(next, None, Some(query))
  }

  /** A signed-in user whose profile has a phone number can send a message
      straight after the page prefills the form. */
  lemma PrefilledPhoneIsAccepted(f: Form, u: User, resp: Response<()>)
    requires u.phone.Some? && !Blank(u.phone.value)
    ensures Submit(Prefill(f, Some(u)), Some(u), resp).sent.Some?
    ensures Submit(Prefill(f, Some(u)), Some(u), resp).sent.value.mobile == u.phone.value
  {
  }
}
