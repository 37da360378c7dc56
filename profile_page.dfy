/** The profile page: load, edit, photo choice, save, and the password change form. */
module ProfilePage {
  import opened Wrappers
  import opened Js
  import opened Profiles

  /**
   * The JSON body of `PUT /api/profile`: the four editable fields. The
   * e-mail is not among them, so an edit of it never reaches the server.
   */
  datatype SavePayload = SavePayload(fullName: string, phone: string, gender: string, address: string)

  function SavePayloadOf(p: Profile): (r: SavePayload)
    ensures r.fullName == p.Get(FullName) && r.phone == p.Get(Phone)
    ensures r.gender == p.Get(Gender) && r.address == p.Get(Address)
  {
    SavePayload(p.fullName, p.phone, p.gender, p.address)
  }

  /** A chosen file is taken as a photo only when its MIME type starts with "image/". */
  predicate IsImageFile(f: File) {
    StartsWith(f.mimeType, "image/")
  }

  /** The JSON body of `PUT /api/profile/change-password`. */
  datatype PasswordPayload = PasswordPayload(currentPassword: string, newPassword: string)

  /**
   * What `handleSave` captured when it was clicked: the form it sends and
   * whose photo it later replaces, and the photo file it uploads.
   */
  datatype PendingSave = PendingSave(snapshot: Profile, photoFile: Option<File>)

  datatype PasswordError = MissingPasswordField | PasswordsDiffer

  /** The two checks `handlePasswordChange` makes before sending anything. */
  function CheckPasswordChange(current: string, newPassword: string, confirm: string): (r: Result<PasswordPayload, PasswordError>)
    ensures r == Err(MissingPasswordField) <==> current == "" || newPassword == "" || confirm == ""
    ensures r == Err(PasswordsDiffer) <==> current != "" && newPassword != "" && confirm != "" && newPassword != confirm
    ensures r.Ok? <==> current != "" && newPassword != "" && newPassword == confirm
    ensures r.Ok? ==> r.value == PasswordPayload(current, newPassword)
  {
    if current == "" || newPassword == "" || confirm == "" then Err(MissingPasswordField)
    else if newPassword != confirm then Err(PasswordsDiffer)
    else Ok(PasswordPayload(current, newPassword))
  }

  class Page {
    var profile: Profile
    var editing: bool
    var selectedPhotoFile: Option<File>
    var loading: bool
    var showPasswordModal: bool

    constructor ()
      ensures profile == EmptyProfile && !editing && selectedPhotoFile == None && loading && !showPasswordModal
    {
      profile := EmptyProfile;
      editing := false;
      selectedPhotoFile := None;
      loading := true;
      showPasswordModal := false;
    }

    /**
     * The load effect with the fetch's outcome given: a profile response
     * is normalised into the form; any failure keeps the form. Loading
     * ends in every outcome once a request was made.
     */
    method LoadProfile(hasToken: bool, outcome: Call<ProfileData>)
      modifies this`profile, this`loading
      ensures !hasToken ==> profile == old(profile) && loading == old(loading)
      ensures hasToken ==> !loading
      ensures hasToken && outcome.Succeeded? ==> profile == Normalize(outcome.value)
      ensures hasToken && outcome.Failed? ==> profile == old(profile)
    {
      if !hasToken {
        return;
      }
      if outcome.Succeeded? {
        profile := Normalize(outcome.value);
      }
      loading := false;
    }

    /** The Edit button. */
    method StartEditing()
      modifies this`editing
      ensures editing
    {
      editing := true;
    }

    /** `handleChange`: only the named field takes the new value. */
    method HandleChange(f: Field, v: string)
      modifies this`profile
      ensures profile.Get(f) == v
      ensures forall g :: g != f ==> profile.Get(g) == old(profile).Get(g)
      ensures profile.photo == old(profile).photo
    {
      profile := profile.With(f, v);
    }

    /**
     * `handlePhoto`: no file, or a file that is not an image, changes
     * nothing; an image is kept for upload and previewed (the preview URL
     * comes from the browser).
     */
    method HandlePhoto(file: Option<File>, previewUrl: string)
      modifies this`selectedPhotoFile, this`profile
      ensures file.None? || !IsImageFile(file.value) ==>
        selectedPhotoFile == old(selectedPhotoFile) && profile == old(profile)
      ensures file.Some? && IsImageFile(file.value) ==>
        selectedPhotoFile == file && profile == old(profile).(photo := previewUrl)
    {
      if file.None? {
        return;
      }
      if !IsImageFile(file.value) {
        return;
      }
      selectedPhotoFile := file;
      profile := profile.(photo := previewUrl);
    }

    /**
     * `handleSave` up to the awaited PUT: without a token nothing is sent
     * and nothing changes; otherwise the page shows its spinner, the four
     * editable fields are sent, and the form and the chosen photo are
     * captured for the rest of the handler.
     */
    method BeginSave(hasToken: bool) returns (sent: Option<SavePayload>, pending: Option<PendingSave>)
      modifies this`loading
      ensures !hasToken ==> sent == None && pending == None && loading == old(loading)
      ensures hasToken ==>
        && sent == Some(SavePayloadOf(profile))
        && pending == Some(PendingSave(profile, selectedPhotoFile))
        && loading
    {
      if !hasToken {
        return None, None;
      }
      loading := true;
      sent := Some(SavePayloadOf(profile));
      pending := Some(PendingSave(profile, selectedPhotoFile));
    }

    /**
     * `handleSave` after the PUT settles, with the photo upload's outcome
     * given. A captured photo is uploaded only after the profile update
     * succeeded, and its URL is set on the captured form. Editing ends and
     * the chosen photo is dropped only when every call succeeded. The
     * spinner goes in every outcome.
     */
    method SettleSave(p: PendingSave, profileOk: bool, photo: Call<string>)
      modifies this`profile, this`editing, this`selectedPhotoFile, this`loading
      ensures !loading
      ensures var done := profileOk && (p.photoFile.None? || photo.Succeeded?);
        && (done ==> !editing && selectedPhotoFile == None)
        && (!done ==> editing == old(editing) && selectedPhotoFile == old(selectedPhotoFile))
      ensures profileOk && p.photoFile.Some? && photo.Succeeded? ==>
        profile == p.snapshot.(photo := photo.value)
      ensures !(profileOk && p.photoFile.Some? && photo.Succeeded?) ==>
        profile == old(profile)
    {
      if profileOk {
        var uploaded := true;
        if p.photoFile.Some? {
          if photo.Succeeded? {
            profile := p.snapshot.(photo := photo.value);
          } else {
            uploaded := false;
          }
        }
        if uploaded {
          editing := false;
          selectedPhotoFile := None;
        }
      }
      loading := false;
    }

    /**
     * The whole `handleSave` with both calls' outcomes given and nothing
     * else happening while they are in flight.
     */
    method HandleSave(hasToken: bool, profileOk: bool, photo: Call<string>) returns (sent: Option<SavePayload>)
      modifies this`profile, this`editing, this`selectedPhotoFile, this`loading
      ensures !hasToken ==>
        && sent == None && profile == old(profile) && editing == old(editing)
        && selectedPhotoFile == old(selectedPhotoFile) && loading == old(loading)
      ensures hasToken ==> sent == Some(SavePayloadOf(old(profile))) && !loading
      ensures var done := hasToken && profileOk && (old(selectedPhotoFile).None? || photo.Succeeded?);
        && (done ==> !editing && selectedPhotoFile == None)
        && (!done ==> editing == old(editing) && selectedPhotoFile == old(selectedPhotoFile))
      ensures hasToken && profileOk && old(selectedPhotoFile).Some? && photo.Succeeded? ==>
        profile == old(profile).(photo := photo.value)
      ensures !(hasToken && profileOk && old(selectedPhotoFile).Some? && photo.Succeeded?) ==>
        profile == old(profile)
    {
      var pending;
      sent, pending := BeginSave(hasToken);
      if pending.Some? {
        SettleSave(pending.value, profileOk, photo);
      }
    }

    /** The "Change Password" button. */
    method OpenPasswordModal()
      modifies this`showPasswordModal
      ensures showPasswordModal
    {
      showPasswordModal := true;
    }

    /**
     * `handlePasswordChange` with the request's outcome given: a form that
     * fails either check sends nothing; the modal closes only when the
     * request was sent and succeeded.
     */
    method HandlePasswordChange(current: string, newPassword: string, confirm: string, ok: bool)
      returns (sent: Option<PasswordPayload>)
      modifies this`showPasswordModal
      ensures sent.Some? <==> CheckPasswordChange(current, newPassword, confirm).Ok?
      ensures sent.Some? ==> sent.value == PasswordPayload(current, newPassword)
      ensures showPasswordModal == (old(showPasswordModal) && !(sent.Some? && ok))
    {
      var check := CheckPasswordChange(current, newPassword, confirm);
      if check.Err? {
        return None;
      }
      sent := Some(check.value);
      if ok {
        showPasswordModal := false;
      }
    }
  }
}
