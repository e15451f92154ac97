/** The profile editor: a name/phone form seeded from the signed-in user,
    validated before `updateProfile` is called. */
module ProfileModal {
  import opened Common
  import opened Auth

  datatype Form = Form(name: string, phone: string)

  datatype Modal = Modal(form: Form, loading: bool)

  datatype View = View(auth: Session, modal: Modal)

  const Initial := Modal(Form("", ""), false)

  /** The seeding effect (re-run when `user` or `showProfileModal` changes):
      with a user, the form becomes `user.name || ''` and `user.phone || ''`;
      without one, the form keeps whatever it held. */
  function Seed(m: Modal, user: Option<User>): (r: Modal)
    ensures r.loading == m.loading
    ensures user.None? ==> r == m
    ensures user.Some? ==> r.form.name == user.value.name
    ensures user.Some? && user.value.phone.Some? ==> r.form.phone == user.value.phone.value
    ensures user.Some? && user.value.phone.None? ==> r.form.phone == ""
  {
    match user
    case None => m
    case Some(u) => m.(form := Form(u.name, u.phone.GetOr("")))
  }

  /** The modal renders only when it is asked for and a user is signed in,
      and then shows the form as it stands. */
  function Render(v: View): (shown: Option<Form>)
    ensures shown.Some? <==> v.auth.showProfileModal && v.auth.user.Some?
    ensures shown.Some? ==> shown.value == v.modal.form
  {
    if v.auth.showProfileModal && v.auth.user.Some? then Some(v.modal.form) else None
  }

  /** Once the seeding effect has run, an open modal shows the signed-in
      user's own name and phone. */
  lemma OpenModalShowsProfile(v: View)
    requires v.auth.showProfileModal && v.auth.user.Some?
    ensures var shown := Render(v.(modal := Seed(v.modal, v.auth.user)));
      && shown.Some?
      && shown.value.name == v.auth.user.value.name
      && shown.value.phone == v.auth.user.value.phone.GetOr("")
  {
  }

  /** Why `handleSubmit` refused the form. */
  datatype Rejection = NameRequired | InvalidPhone

  /** The checks of `handleSubmit`, in order: a blank name, then a blank
      phone or an (untrimmed) phone shorter than ten characters. */
  function Validate(f: Form): (r: Option<Rejection>)
    ensures r == Some(NameRequired) <==> Blank(f.name)
    ensures r == Some(InvalidPhone) <==> !Blank(f.name) && (Blank(f.phone) || |f.phone| < 10)
    ensures r.None? <==> !Blank(f.name) && !Blank(f.phone) && |f.phone| >= 10
  {
    if Trim(f.name) == "" then Some(NameRequired)
    else if Trim(f.phone) == "" || |f.phone| < 10 then Some(InvalidPhone)
    else None
  }

  /** The submit outcome: the next view, the rejection shown (if any) and the
      update request sent (if any). */
  datatype SubmitResult = SubmitResult(view: View, rejected: Option<Rejection>, sent: Option<ProfileUpdate>)

  /** `handleSubmit`, given the outcome of `updateProfile`. */
  function Submit(v: View, resp: Response<User>): (r: SubmitResult)
    ensures r.rejected.Some? <==> r.sent.None?
    ensures r.sent.None? ==> r.view == v
    ensures r.sent.Some? <==> !Blank(v.modal.form.name) && !Blank(v.modal.form.phone) && |v.modal.form.phone| >= 10
    ensures r.sent.Some? ==> r.sent.value == ProfileUpdate(Some(v.modal.form.name), v.modal.form.phone)
    ensures r.sent.Some? ==> !r.view.modal.loading && r.view.modal.form == v.modal.form
    ensures r.sent.Some? && resp.Ok? ==>
              r.view.auth == v.auth.(user := Some(resp.data), showProfileModal := false)
    ensures r.sent.Some? && resp.Err? ==> r.view.auth == v.auth
  {
    match Validate(v.modal.form)
    case Some(why) => SubmitResult(v, Some(why), None)
    case None =>
      var request := ProfileUpdate(Some(v.modal.form.name), v.modal.form.phone);
      var updated := UpdateProfile(v.auth, resp);
      var auth := if resp.Ok? then SetShowProfileModal(updated.session, false) else v.auth;
      SubmitResult(View(auth, v.modal.(loading := false)), None, Some(request))
  }

  /** A user whose stored profile already passes validation can save the
      seeded form unchanged: the request carries their own name and phone. */
  lemma SeededFormOfCompleteProfile(m: Modal, u: User, auth: Session, resp: Response<User>)
    requires !Blank(u.name) && u.phone.Some? && |u.phone.value| >= 10 && !Blank(u.phone.value)
    ensures var r := Submit(View(auth, Seed(m, Some(u))), resp);
      r.sent == Some(ProfileUpdate(Some(u.name), u.phone.value))
  {
  }
}
