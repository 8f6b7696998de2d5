/** The add/edit form of `components/VideoUploadModal.tsx`: how the form is
    filled when the component mounts, how it lives on across openings, what
    choosing a file does, and what submitting validates, sends to the parent
    and leaves behind. The parent's save is a parameter that either succeeds
    or throws. */
module UploadModal {
  import opened Seqs
  import opened JsStrings
  import opened VideoTypes
  import MockVideos

  /** The form's state: its field values and the error line, if any. */
  datatype Form = Form(
    url: string,
    caption: string,
    username: string,
    userAvatar: string,
    likes: int,
    comments: int,
    shares: int,
    isVisible: bool,
    error: Option<string>)

  const DefaultAvatar := "https://i.pravatar.cc/150?img=8"
  const InvalidFileMessage := "Please select a valid video file"
  const UrlMessage := "Please provide a video URL or upload a file"
  const CaptionMessage := "Please provide a caption"
  const UsernameMessage := "Please provide a username"
  const SaveFailedMessage := "Failed to save video. Please try again."

  /** An empty form that keeps the given avatar. */
  function BlankForm(avatar: string): Form {
    Form("", "", "", avatar, 0, 0, 0, true, None)
  }

  /** `x || fallback` for a string: the empty string is falsy. */
  function OrElse(s: string, fallback: string): string {
    if s != "" then s else fallback
  }

  /** The `useState` initialisers: the edited video's values, with `|| ''`,
      `|| 0` and the avatar fallback; visible unless the video says `false`.
      Without a video the form is blank with the default avatar. They run
      only when the component mounts (see `Mount`). */
  function InitialForm(editing: Option<Video>): (f: Form)
    ensures f.error.None? && f.userAvatar != ""
    ensures f.isVisible <==> !(editing.Some? && editing.value.isVisible == Some(false))
    ensures editing.None? ==> f == BlankForm(DefaultAvatar)
    ensures editing.Some? ==>
      && f.url == editing.value.url && f.caption == editing.value.caption
      && f.username == editing.value.username
      && f.likes == editing.value.likes && f.comments == editing.value.comments
      && f.shares == editing.value.shares
      && (editing.value.userAvatar != "" ==> f.userAvatar == editing.value.userAvatar)
  {
    match editing
    case None => BlankForm(DefaultAvatar)
    case Some(v) =>
      Form(OrElse(v.url, ""), OrElse(v.caption, ""), OrElse(v.username, ""),
           OrElse(v.userAvatar, DefaultAvatar), v.likes, v.comments, v.shares,
           v.isVisible != Some(false), None)
  }

  /** `handleFileChange`: `file` is the chosen file's MIME type, if a file was
      chosen, and `objectUrl` the local URL the browser makes for it. */
  function FileChange(form: Form, file: Option<string>, objectUrl: string): (f: Form)
    ensures f.(url := form.url, error := form.error) == form
    ensures f.url != form.url ==> f.url == objectUrl
    ensures file.Some? && (exists t :: file.value == "video/" + t) ==> f.url == objectUrl && f.error.None?
    ensures file.Some? && !(exists t :: file.value == "video/" + t) ==>
      f.url == form.url && f.error == Some(InvalidFileMessage)
    ensures file.None? ==> f == form
  {
    match file
    case None => form
    case Some(mime) =>
      if !StartsWith(mime, "video/") then form.(error := Some(InvalidFileMessage))
      else form.(url := objectUrl, error := None)
  }

  /** What one submit produces: the form afterwards, the payload handed to
      the parent's `onSubmit` (if validation let it through), and whether the
      modal closed. */
  datatype Outcome = Outcome(form: Form, sent: Option<MockVideos.VideoInput>, closed: bool)

  /** `handleSubmit`. `editing` says whether a video is being edited and
      `saveSucceeds` whether the parent's save returns or throws. */
  function Submit(form: Form, editing: bool, saveSucceeds: bool): (o: Outcome)
    // The three checks run in order; the first failure is reported and
    // nothing is sent.
    ensures o.form.error == Some(UrlMessage) <==> AllWhitespace(form.url)
    ensures o.form.error == Some(CaptionMessage) <==>
      !AllWhitespace(form.url) && AllWhitespace(form.caption)
    ensures o.form.error == Some(UsernameMessage) <==>
      !AllWhitespace(form.url) && !AllWhitespace(form.caption) && AllWhitespace(form.username)
    ensures o.sent.None? <==>
      AllWhitespace(form.url) || AllWhitespace(form.caption) || AllWhitespace(form.username)
    // The payload: URL as typed, caption and username trimmed (and therefore
    // non-empty), the rest as entered.
    ensures o.sent.Some? ==>
      && o.sent.value.url == form.url
      && o.sent.value.caption == Trim(form.caption) && o.sent.value.caption != ""
      && o.sent.value.username == Trim(form.username) && o.sent.value.username != ""
      && o.sent.value.userAvatar == form.userAvatar
      && o.sent.value.likes == form.likes && o.sent.value.comments == form.comments
      && o.sent.value.shares == form.shares
      && o.sent.value.isVisible == Some(form.isVisible)
    // The modal closes exactly when something was sent and saved; a failed
    // save is reported and the form kept.
    ensures o.closed <==> o.sent.Some? && saveSucceeds
    ensures o.form.error.None? <==> o.closed
    ensures o.form.error == Some(SaveFailedMessage) <==> o.sent.Some? && !saveSucceeds
    ensures !o.closed ==> o.form.(error := form.error) == form
    // After a successful add the form is blank except for the avatar; after
    // an edit it is kept.
    ensures o.closed && !editing ==> o.form == BlankForm(form.userAvatar)
    ensures o.closed && editing ==> o.form == form.(error := None)
  {
    TrimEmpty(form.url);
    TrimEmpty(form.caption);
    TrimEmpty(form.username);
    if Trim(form.url) == [] then
      Outcome(form.(error := Some(UrlMessage)), None, false)
    else if Trim(form.caption) == [] then
      Outcome(form.(error := Some(CaptionMessage)), None, false)
    else if Trim(form.username) == [] then
      Outcome(form.(error := Some(UsernameMessage)), None, false)
    else
      var payload := MockVideos.VideoInput(
        form.url, Trim(form.caption), form.likes, form.comments, form.shares,
        Trim(form.username), form.userAvatar, Some(form.isVisible));
      if !saveSucceeds then
        Outcome(form.(error := Some(SaveFailedMessage)), Some(payload), false)
      else if editing then
        Outcome(form.(error := None), Some(payload), true)
      else
        Outcome(BlankForm(form.userAvatar), Some(payload), true)
  }

  // ---- the modal's lifetime in the admin panel ----

  /** Where the video comes from: the URL input or the file picker. Only the
      chosen one is rendered. */
  datatype InputMethod = ByUrl | ByFile

  /** The mounted modal: the form state and the input source, which React
      keeps for as long as the component stays mounted, and the two props
      the panel controls. */
  datatype Modal = Modal(form: Form, source: InputMethod, isOpen: bool, editing: Option<Video>)

  /** The panel renders the modal, without a `key`, whenever it shows its
      video list (while loading or after a load error it returns early). At
      each such mount the modal is closed and `editingVideo` is null, since
      every close clears it, so this is the only state the initialisers ever
      produce. `if (!isOpen) return null` hides the modal without unmounting
      it. */
  function Mount(): (m: Modal)
    ensures !m.isOpen && m.editing.None? && m.source == ByUrl
    ensures m.form == BlankForm(DefaultAvatar)
  {
    Modal(InitialForm(None), ByUrl, false, None)
  }

  /** `handleAddVideo` and `handleEditVideo` as written: they set the props
      and open the modal, and nothing refills the form. */
  function Open(m: Modal, editing: Option<Video>): (r: Modal)
    ensures r.isOpen && r.editing == editing
    ensures r.form == m.form && r.source == m.source
  {
    m.(isOpen := true, editing := editing)
  }

  /** The opening the edit button evidently means: the form shows the edited
      video's values, or a blank form for a new video. */
  function OpenPrefilled(m: Modal, editing: Option<Video>): (r: Modal)
    ensures r.isOpen && r.editing == editing && r.source == m.source
    ensures editing.None? ==> r.form == BlankForm(DefaultAvatar)
    ensures editing.Some? ==> r.form.url == editing.value.url && r.form.caption == editing.value.caption
  {
    m.(form := InitialForm(editing), isOpen := true, editing := editing)
  }

  /** The modal's `onClose`: the panel closes it and clears `editingVideo`;
      the form keeps whatever it held, error line included. */
  function Close(m: Modal): (r: Modal)
    ensures !r.isOpen && r.editing.None?
    ensures r.form == m.form && r.source == m.source
  {
    m.(isOpen := false, editing := None)
  }

  /** The browser's constraint check before it fires `submit`, apart from
      URL syntax: the caption and the username must not be empty, nor the URL
      while its input is rendered (`required`; a value of spaces passes, only
      `handleSubmit` trims), and no count may be below the inputs' `min` of 0. */
  predicate BrowserAccepts(f: Form, source: InputMethod) {
    && (source == ByUrl ==> f.url != "") && f.caption != "" && f.username != ""
    && f.likes >= 0 && f.comments >= 0 && f.shares >= 0
  }

  /** Pressing the submit button in the open modal. The browser first checks
      `BrowserAccepts` and the URL syntax of the `type=url` inputs
      (`urlsValid`, a browser fact); if either fails, `handleSubmit` does not
      run and nothing changes. Otherwise `handleSubmit` runs with
      `editingVideo` as the panel passed it, followed by the close when the
      save went through. Returns the modal afterwards and the payload sent,
      if any. */
  function SubmitOpen(m: Modal, urlsValid: bool, saveSucceeds: bool): (r: (Modal, Option<MockVideos.VideoInput>))
    requires m.isOpen
    ensures !(BrowserAccepts(m.form, m.source) && urlsValid) ==> r == (m, None)
    ensures BrowserAccepts(m.form, m.source) && urlsValid ==>
      && r.1 == Submit(m.form, m.editing.Some?, saveSucceeds).sent
      && r.0.form == Submit(m.form, m.editing.Some?, saveSucceeds).form
      && (r.0.isOpen <==> r.1.None? || !saveSucceeds)
  {
    if !(BrowserAccepts(m.form, m.source) && urlsValid) then (m, None)
    else
      var o := Submit(m.form, m.editing.Some?, saveSucceeds);
      if o.closed then (Close(m.(form := o.form)), o.sent) else (m.(form := o.form), o.sent)
  }

  /** The toggle between the URL input and the file picker. */
  function SetSource(m: Modal, source: InputMethod): (r: Modal)
    ensures r.source == source && r.(source := m.source) == m
  {
    m.(source := source)
  }

  /** As written, editing a video right after the panel mounted shows a blank
      form: in either input mode the browser refuses to submit it, because
      the caption is required, so nothing is sent and nothing changes,
      whatever the video holds. */
  lemma EditOpensBlank(v: Video, source: InputMethod, urlsValid: bool, saveSucceeds: bool)
    ensures var m := SetSource(Open(Mount(), Some(v)), source);
      && m.form == BlankForm(DefaultAvatar)
      && SubmitOpen(m, urlsValid, saveSucceeds) == (m, None)
  {
  }

  /** As written, the form outlives an edit: after a video is saved from the
      edit form and the modal closes, "Add New Video" opens on that video's
      values rather than on a blank form. */
  lemma AddAfterEditKeepsValues(m: Modal, urlsValid: bool)
    requires m.isOpen && m.editing.Some?
    requires SubmitOpen(m, urlsValid, true).1.Some?
    ensures var added := Open(SubmitOpen(m, urlsValid, true).0, None);
      && !SubmitOpen(m, urlsValid, true).0.isOpen
      && added.form == m.form.(error := None)
      && added.form.url == m.form.url
  {
  }

  /** After a successful add the form is reset, so submitting it again, in
      either mode and for either kind of opening, is refused by the browser
      and sends nothing. */
  lemma AddThenResubmit(m: Modal, urlsValid: bool, editing: Option<Video>, source: InputMethod,
                        urlsValid': bool, saveSucceeds: bool)
    requires m.isOpen && m.editing.None?
    requires SubmitOpen(m, urlsValid, true).1.Some?
    ensures var again := SetSource(Open(SubmitOpen(m, urlsValid, true).0, editing), source);
      && again.form.caption == ""
      && SubmitOpen(again, urlsValid', saveSucceeds) == (again, None)
  {
  }

  /** In file mode the URL input is not rendered, so an empty URL gets past
      the browser and `handleSubmit` reports the missing URL itself, unless a
      negative count has the browser refuse the submit first. Nothing is sent
      either way. */
  lemma FileModeAsksForUrl(m: Modal, saveSucceeds: bool)
    requires m.isOpen && m.source == ByFile && m.form.url == ""
    requires m.form.caption != "" && m.form.username != ""
    ensures SubmitOpen(m, true, saveSucceeds).1.None?
    ensures m.form.likes >= 0 && m.form.comments >= 0 && m.form.shares >= 0 ==>
      SubmitOpen(m, true, saveSucceeds).0.form.error == Some(UrlMessage)
    ensures !(m.form.likes >= 0 && m.form.comments >= 0 && m.form.shares >= 0) ==>
      SubmitOpen(m, true, saveSucceeds).0 == m
  {
    assert AllWhitespace("");
  }

  /** With the intended opening, a well-formed video opened for editing and
      saved without changes sends back exactly its editable fields, with the
      visibility made explicit, whenever the browser accepts the URLs and the
      counts are not negative; otherwise the browser refuses the submit. */
  lemma EditUnchanged(m: Modal, v: Video, urlsValid: bool, saveSucceeds: bool)
    requires !AllWhitespace(v.url) && v.userAvatar != ""
    requires IsTrimmed(v.caption) && v.caption != ""
    requires IsTrimmed(v.username) && v.username != ""
    ensures urlsValid && v.likes >= 0 && v.comments >= 0 && v.shares >= 0 ==>
      SubmitOpen(OpenPrefilled(m, Some(v)), urlsValid, saveSucceeds).1 == Some(MockVideos.VideoInput(
      v.url, v.caption, v.likes, v.comments, v.shares, v.username, v.userAvatar,
      Some(v.isVisible != Some(false))))
    ensures !(urlsValid && v.likes >= 0 && v.comments >= 0 && v.shares >= 0) ==>
      SubmitOpen(OpenPrefilled(m, Some(v)), urlsValid, saveSucceeds).1.None?
  {
    assert AllWhitespace("");
    TrimPadded([], v.caption, []);
    assert [] + v.caption + [] == v.caption;
    TrimPadded([], v.username, []);
    assert [] + v.username + [] == v.username;
    TrimEmpty(v.caption);
    TrimEmpty(v.username);
  }

  /** A video file chosen in the form is what gets sent as the URL. */
  lemma FileThenSubmit(form: Form, t: string, objectUrl: string, editing: bool, saveSucceeds: bool)
    requires !AllWhitespace(objectUrl)
    requires !AllWhitespace(form.caption) && !AllWhitespace(form.username)
    ensures Submit(FileChange(form, Some("video/" + t), objectUrl), editing, saveSucceeds).sent.Some?
    ensures Submit(FileChange(form, Some("video/" + t), objectUrl), editing, saveSucceeds).sent.value.url == objectUrl
  {
  }
}
