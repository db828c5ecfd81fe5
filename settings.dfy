/** Model of components/Settings.tsx: the profile form and its save. The
    signed-in user is the App's Session; the view's own state is the form
    and the "saved" flag. */
module Settings {
  import opened Collections
  import opened Types
  import opened AppState

  /** formData. */
  datatype ProfileForm = ProfileForm(name: string, salonName: string, email: string, address: string)

  /** `user?.field || ''`, field by field. */
  function InitialForm(user: Option<User>): (r: ProfileForm)
    ensures user.None? ==> r == ProfileForm("", "", "", "")
    ensures user.Some? ==> r.name == user.value.name && r.salonName == user.value.salonName &&
                           r.email == user.value.email
    ensures user.Some? && user.value.address.Some? ==> r.address == user.value.address.value
    ensures user.Some? && user.value.address.None? ==> r.address == ""
  {
    match user
    case None => ProfileForm("", "", "", "")
    case Some(u) => ProfileForm(u.name, u.salonName, u.email, if u.address.Some? then u.address.value else "")
  }

  /** `{ ...user, ...formData }`: the account keeps its id and password
      and takes the four form values. */
  function Merged(u: User, f: ProfileForm): (v: User)
    ensures v.id == u.id && v.password == u.password
    ensures v.name == f.name && v.salonName == f.salonName && v.email == f.email && v.address == Some(f.address)
  {
    u.(name := f.name, salonName := f.salonName, email := f.email, address := Some(f.address))
  }

  /** Reopening the settings shows exactly what was saved. */
  lemma SaveThenReopen(u: User, f: ProfileForm)
    ensures InitialForm(Some(Merged(u, f))) == f
  {
  }

  /** Saving the form as it was opened changes nothing, except that a
      missing address becomes the empty one. */
  lemma SaveUnedited(u: User)
    ensures Merged(u, InitialForm(Some(u))) == u.(address := Some(if u.address.Some? then u.address.value else ""))
    ensures u.address.Some? ==> Merged(u, InitialForm(Some(u))) == u
  {
  }

  /** Saving twice with the same form is saving once. */
  lemma MergedIdempotent(u: User, f: ProfileForm)
    ensures Merged(Merged(u, f), f) == Merged(u, f)
  {
  }

  class SettingsView {
    const session: Session
    var formData: ProfileForm
    var isSaved: bool

    constructor (session: Session)
      ensures this.session == session
      ensures formData == InitialForm(session.currentUser) && !isSaved
    {
      this.session := session;
      formData := InitialForm(session.currentUser);
      isSaved := false;
    }

    /** The four inputs. */
    method EditForm(name: string, salonName: string, email: string, address: string)
      modifies this`formData
      ensures formData == ProfileForm(name, salonName, email, address)
    {
      formData := ProfileForm(name, salonName, email, address);
    }

    /** handleSubmit. Without a user nothing happens; the flag's reset three
        seconds later is not modelled. */
    method HandleSubmit()
      modifies session, this`isSaved
      ensures old(session.currentUser).None? ==> session.currentUser.None? && isSaved == old(isSaved)
      ensures old(session.currentUser).Some? ==>
                session.currentUser == Some(Merged(old(session.currentUser).value, formData)) && isSaved
    {
      if session.currentUser.None? {
        return;
      }
      session.currentUser := Some(Merged(session.currentUser.value, formData));
      isSaved := true;
    }
  }
}
