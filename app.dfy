/** The application object: the mutable `state` record, and the handlers that change it
    (sign-in, load, save, the link modal, submit and delete). Every reply from the repository
    host is an argument; what a handler sends is its result. */
module App {
  import opened Wrappers
  import opened Text
  import opened Links
  import opened Tags
  import opened Forms
  import opened Remote

  /** Which of the two screens is visible. */
  datatype View = AuthView | AppView

  /** The three credentials, each a string or `null`. */
  datatype Config = Config(username: Option<string>, token: Option<string>, repoName: Option<string>)

  /** JavaScript truthiness of a string-or-null: present and not empty. */
  predicate Truthy(v: Option<string>) {
    v.Some? && v.value != []
  }

  /** All three credentials are truthy. */
  predicate SignedIn(c: Config) {
    Truthy(c.username) && Truthy(c.token) && Truthy(c.repoName)
  }

  /** A snapshot of `state` together with the visible screen. */
  datatype Session = Session(
    config: Config,
    links: seq<Link>,
    isEditing: bool,
    currentEditId: Option<string>,
    view: View)

  /** The edit flag is always the truthiness of the edited id. */
  predicate Consistent(s: Session) {
    s.isEditing == Truthy(s.currentEditId)
  }

  /** The replies to the three requests a save may make: the read for the revision token,
      the write, and the reload after a successful write. */
  datatype SaveReplies = SaveReplies(pre: Reply<RemoteFile>, put: Reply<()>, reload: Reply<RemoteFile>)

  /** A load: only the list and the screen can change. A rejected load keeps the list and
      shows the credentials screen; any other load replaces the list and keeps the screen. */
  function Loading(s: Session, reply: Reply<RemoteFile>): (t: Session)
    ensures t.config == s.config && t.isEditing == s.isEditing && t.currentEditId == s.currentEditId
    ensures LoadResult(reply).Rejected? ==> t.links == s.links && t.view == AuthView
    ensures LoadResult(reply).Loaded? ==> t.view == s.view && t.links == LoadResult(reply).links
  {
    match LoadResult(reply)
    case Loaded(l) => s.(links := l)
    case Rejected => s.(view := AuthView)
  }

  /** The start-up decision: with all three credentials, show the list screen and load;
      otherwise show the credentials screen and send nothing. */
  function CheckingAuth(s: Session, first: Reply<RemoteFile>): (t: Session)
    ensures !SignedIn(s.config) ==> t == s.(view := AuthView)
    ensures SignedIn(s.config) ==> t == Loading(s.(view := AppView), first)
  {
    if SignedIn(s.config) then Loading(s.(view := AppView), first) else s.(view := AuthView)
  }

  /** The session at start-up, with the credentials found in storage, if any. */
  function Initial(saved: Option<Config>): (s: Session)
    ensures Consistent(s) && s.links == []
    ensures !s.isEditing && s.currentEditId == None
    ensures saved.Some? ==> s.config == saved.value
    ensures saved.None? ==> s.config == Config(None, None, None)
  {
    var config := if saved.Some? then saved.value else Config(None, None, None);
    Session(config, [], false, None, AuthView)
  }

  /** The credentials form: store what was typed, show the list screen and load. */
  function SigningIn(s: Session, username: string, token: string, repoName: string, first: Reply<RemoteFile>): (t: Session)
    ensures t.config == Config(Some(username), Some(token), Some(repoName))
    ensures t.isEditing == s.isEditing && t.currentEditId == s.currentEditId
    ensures t.view == AppView <==> !LoadResult(first).Rejected?
    ensures t.links == if LoadResult(first).Rejected? then s.links else LoadResult(first).links
  {
    Loading(s.(config := Config(Some(username), Some(token), Some(repoName)), view := AppView), first)
  }

  /** Closing the modal: back to add mode. */
  function Closed(s: Session): (t: Session)
    ensures Consistent(t)
    ensures !t.isEditing && t.currentEditId == None
    ensures t.config == s.config && t.links == s.links && t.view == s.view
  {
    s.(isEditing := false, currentEditId := None)
  }

  /** A save: the write sent and the session after it. Nothing changes when encoding fails
      or the write fails (the local change is not rolled back); after a successful write the
      modal is closed and the list is reloaded. */
  function Saving(s: Session, r: SaveReplies): (t: Session)
    ensures SaveRequest(s.links, s.isEditing, r.pre).None? || !Succeeded(r.put) ==> t == s
    ensures t.config == s.config
    ensures SaveRequest(s.links, s.isEditing, r.pre).Some? && Succeeded(r.put) ==> t == Loading(Closed(s), r.reload)
  {
    match SaveRequest(s.links, s.isEditing, r.pre)
    case None => s
    case Some(_) => if Succeeded(r.put) then Loading(Closed(s), r.reload) else s
  }

  /** Opening the modal, add mode for a falsy id and edit mode otherwise: the flags. */
  function Opened(s: Session, linkId: Option<string>): (t: Session)
    ensures Consistent(t)
    ensures t.currentEditId == linkId && t.isEditing == Truthy(linkId)
    ensures t.config == s.config && t.links == s.links && t.view == s.view
  {
    s.(isEditing := Truthy(linkId), currentEditId := linkId)
  }

  /** What the opened modal shows: an empty form in add mode, the link's fields in edit mode,
      and `None` when no link has the id (the source fails reading a field of `undefined`). */
  function OpenedForm(s: Session, linkId: Option<string>): (f: Option<Form>)
    ensures !Truthy(linkId) ==> f == Some(BlankForm)
    ensures Truthy(linkId) ==> (f.None? <==> !HasId(s.links, linkId.value))
    ensures Truthy(linkId) && f.Some? ==> f.value == Prefill(Find(s.links, linkId.value).value)
  {
    if Truthy(linkId) then
      match Find(s.links, linkId.value)
      case None => None
      case Some(x) => Some(Prefill(x))
    else
      Some(BlankForm)
  }

  /** The local change a submitted form makes before the save: in add mode a new link in front,
      in edit mode the edited link replaced where it stands; `None` when the edited id is missing
      (the source fails reading `createdAt` of `undefined`). Only the list changes. */
  function Submitted(s: Session, f: Form, newId: string, createdStamp: string, updatedStamp: string): (t: Option<Session>)
    ensures t.None? <==> s.isEditing && (s.currentEditId.None? || !HasId(s.links, s.currentEditId.value))
    ensures t.Some? ==> t.value == s.(links := t.value.links)
    ensures t.Some? && !s.isEditing ==>
      |t.value.links| == |s.links| + 1 && t.value.links[0] == NewLink(f, newId, createdStamp, updatedStamp)
      && forall j :: 0 <= j < |s.links| ==> t.value.links[j + 1] == s.links[j]
    ensures t.Some? && s.isEditing ==>
      |t.value.links| == |s.links|
      && (forall j :: 0 <= j < |s.links| && s.links[j].id != s.currentEditId.value ==> t.value.links[j] == s.links[j])
      && exists i :: 0 <= i < |s.links| && s.links[i].id == s.currentEditId.value
                     && t.value.links[i] == EditedLink(f, s.links[i], updatedStamp)
    ensures t.Some? && s.isEditing ==>
      var i := FirstIndex(s.links, s.currentEditId.value).value;
      t.value.links == s.links[i := EditedLink(f, s.links[i], updatedStamp)]
  {
    if !s.isEditing then
      var added := [NewLink(f, newId, createdStamp, updatedStamp)] + s.links;
      assert forall j :: 0 <= j < |s.links| ==> added[j + 1] == s.links[j];
      Some(s.(links := added))
    else if s.currentEditId.None? then
      None
    else
      match EditList(s.links, s.currentEditId.value, f, updatedStamp)
      case None => None
      case Some(l) => Some(s.(links := l))
  }

  /** The submit handler: the local change, then a save; a missing edit target stops it first. */
  function Submitting(s: Session, f: Form, newId: string, createdStamp: string, updatedStamp: string, r: SaveReplies): (t: Session)
    ensures Submitted(s, f, newId, createdStamp, updatedStamp).None? ==> t == s
    ensures t.config == s.config
    ensures Submitted(s, f, newId, createdStamp, updatedStamp).Some? && !Succeeded(r.put)
            ==> t == Submitted(s, f, newId, createdStamp, updatedStamp).value
    ensures Submitted(s, f, newId, createdStamp, updatedStamp).Some?
            ==> t == Saving(Submitted(s, f, newId, createdStamp, updatedStamp).value, r)
  {
    match Submitted(s, f, newId, createdStamp, updatedStamp)
    case None => s
    case Some(t) => Saving(t, r)
  }

  /** The delete handler: when confirmed, drop every link with the id, then save. */
  function Deleting(s: Session, id: string, confirmed: bool, r: SaveReplies): (t: Session)
    ensures !confirmed ==> t == s
    ensures t.config == s.config
    ensures confirmed && !Succeeded(r.put) ==> t == s.(links := Without(s.links, id))
    ensures confirmed ==> t == Saving(s.(links := Without(s.links, id)), r)
  {
    if confirmed then Saving(s.(links := Without(s.links, id)), r) else s
  }

  // ---------------------------------------------------------------------------
  // Properties of the handlers

  /** The list screen is shown after start-up exactly when all three credentials are there and
      the first load is not rejected. */
  lemma StartupView(s: Session, first: Reply<RemoteFile>)
    ensures CheckingAuth(s, first).view == AppView <==> SignedIn(s.config) && !LoadResult(first).Rejected?
  {
  }

  /** The first run of a signed-in user, whose repository has no data file yet, shows an
      empty list on the list screen. */
  lemma FirstRunStartsEmpty(s: Session, statusText: string, body: RemoteFile)
    requires SignedIn(s.config)
    ensures CheckingAuth(s, Response(404, statusText, body)).links == []
    ensures CheckingAuth(s, Response(404, statusText, body)).view == AppView
  {
    LoadNotFound(statusText, body);
  }

  /** Signing in against a repository without the data file shows an empty list. */
  lemma SignInWithoutFile(s: Session, username: string, token: string, repoName: string, statusText: string, body: RemoteFile)
    ensures SigningIn(s, username, token, repoName, Response(404, statusText, body)).links == []
    ensures SigningIn(s, username, token, repoName, Response(404, statusText, body)).view == AppView
  {
    LoadNotFound(statusText, body);
  }

  /** A load whose error message does not mention 404 keeps the list and returns to the
      credentials screen: a wrong token, for instance. */
  lemma LoadFailureSignsOut(s: Session, status: nat, statusText: string, body: RemoteFile)
    requires 100 <= status <= 999 && !(200 <= status <= 299) && status != 404
    requires !Contains(statusText, "404")
    ensures Loading(s, Response(status, statusText, body)) == s.(view := AuthView)
  {
    LoadOtherStatusRejected(status, statusText, body);
  }

  /** A successful write followed by a reload that reads back what was written leaves the
      list as it was before the save, with the modal closed. */
  lemma SaveThenReloadRoundTrip(s: Session, r: SaveReplies)
    requires Encodable(s.links) && Succeeded(r.put)
    requires Succeeded(r.reload) && r.reload.body.content == JsonArray(s.links)
    ensures Saving(s, r) == Closed(s)
  {
    assert ReadLinks(r.reload) == Returned(s.links);
  }

  /** A failed write keeps the local change: the list is not rolled back. */
  lemma FailedSaveKeepsLocalChange(s: Session, f: Form, newId: string, createdStamp: string, updatedStamp: string, r: SaveReplies)
    requires !Succeeded(r.put)
    requires Submitted(s, f, newId, createdStamp, updatedStamp).Some?
    ensures Submitting(s, f, newId, createdStamp, updatedStamp, r) == Submitted(s, f, newId, createdStamp, updatedStamp).value
  {
  }

  /** Submitting with a missing edit target changes nothing. */
  lemma SubmitMissingTarget(s: Session, f: Form, newId: string, createdStamp: string, updatedStamp: string, r: SaveReplies)
    requires s.isEditing && s.currentEditId.Some? && !HasId(s.links, s.currentEditId.value)
    ensures Submitting(s, f, newId, createdStamp, updatedStamp, r) == s
  {
  }

  /** Ids stay unique through a submit, as long as a new link gets an id not yet in the list. */
  lemma SubmitKeepsUnique(s: Session, f: Form, newId: string, createdStamp: string, updatedStamp: string)
    requires UniqueIds(s.links)
    requires !s.isEditing ==> !HasId(s.links, newId)
    requires Submitted(s, f, newId, createdStamp, updatedStamp).Some?
    ensures UniqueIds(Submitted(s, f, newId, createdStamp, updatedStamp).value.links)
  {
    if s.isEditing {
      EditKeepsUnique(s.links, s.currentEditId.value, f, updatedStamp);
    } else {
      AddFreshKeepsUnique(s.links, NewLink(f, newId, createdStamp, updatedStamp));
    }
  }

  /** Opening the edit form on a link and submitting it unchanged only renews that link's
      update time: the record is otherwise the one that was opened. */
  lemma ResubmitOpenedForm(s: Session, id: string, newId: string, createdStamp: string, updatedStamp: string)
    requires id != [] && HasId(s.links, id)
    requires forall k :: 0 <= k < |Find(s.links, id).value.tags| ==> WellFormedTag(Find(s.links, id).value.tags[k])
    ensures Submitted(Opened(s, Some(id)), OpenedForm(s, Some(id)).value, newId, createdStamp, updatedStamp).Some?
    ensures var i := FirstIndex(s.links, id).value;
            Submitted(Opened(s, Some(id)), OpenedForm(s, Some(id)).value, newId, createdStamp, updatedStamp).value.links
            == s.links[i := s.links[i].(updatedAt := updatedStamp)]
  {
    var x := Find(s.links, id).value;
    var i := FirstIndex(s.links, id).value;
    ResubmitUnchanged(x, updatedStamp);
    var t := Submitted(Opened(s, Some(id)), Prefill(x), newId, createdStamp, updatedStamp).value;
    var target := s.links[i := x.(updatedAt := updatedStamp)];
    assert |t.links| == |target|;
    forall j | 0 <= j < |target|
      ensures t.links[j] == target[j]
    {
      if j != i && s.links[j].id == id {
        assert i < j;
      }
    }
  }

  /** A confirmed delete that is written and read back leaves no link with the id and keeps
      the others in their order. */
  lemma DeleteRoundTrip(s: Session, id: string, r: SaveReplies)
    requires Encodable(Without(s.links, id)) && Succeeded(r.put)
    requires Succeeded(r.reload) && r.reload.body.content == JsonArray(Without(s.links, id))
    ensures !HasId(Deleting(s, id, true, r).links, id)
    ensures IsSubsequence(Deleting(s, id, true, r).links, s.links)
    ensures Deleting(s, id, true, r) == Closed(s.(links := Without(s.links, id)))
  {
    SaveThenReloadRoundTrip(s.(links := Without(s.links, id)), r);
  }

  /** A confirmed delete of a list that could be saved is always sent, and outside edit mode it
      is committed with the message of an add. */
  lemma DeleteIsSent(s: Session, id: string, pre: Reply<RemoteFile>)
    requires Encodable(s.links)
    ensures SaveRequest(Without(s.links, id), s.isEditing, pre).Some?
    ensures !s.isEditing ==> SaveRequest(Without(s.links, id), s.isEditing, pre).value.message == "Add new link to LinkHub"
  {
    KeepKeepsEncodable(s.links, IdOtherThan(id));
  }

  /** Every handler keeps the edit flag consistent with the edited id. */
  lemma HandlersKeepConsistent(s: Session, first: Reply<RemoteFile>, linkId: Option<string>, f: Form,
                               newId: string, createdStamp: string, updatedStamp: string, id: string, confirmed: bool, r: SaveReplies,
                               username: string, token: string, repoName: string)
    requires Consistent(s)
    ensures Consistent(CheckingAuth(s, first)) && Consistent(Opened(s, linkId)) && Consistent(Closed(s))
    ensures Consistent(SigningIn(s, username, token, repoName, first))
    ensures Consistent(Submitting(s, f, newId, createdStamp, updatedStamp, r))
    ensures Consistent(Deleting(s, id, confirmed, r))
  {
  }

  /** The application object. The three credentials, the list and the two edit flags are the
      fields of `state`; `view` is the screen shown. */
  class LinkHub {
    var username: Option<string>
    var token: Option<string>
    var repoName: Option<string>
    var links: seq<Link>
    var isEditing: bool
    var currentEditId: Option<string>
    var view: View

    function State(): Session
      reads this
    {
      Session(Config(username, token, repoName), links, isEditing, currentEditId, view)
    }

    ghost predicate Valid()
      reads this
    {
      Consistent(State())
    }

    /** Start-up: the stored credentials, then the start-up decision. */
    constructor (saved: Option<Config>, first: Reply<RemoteFile>)
      ensures Valid()
      ensures State() == CheckingAuth(Initial(saved), first)
    {
      var config := if saved.Some? then saved.value else Config(None, None, None);
      username, token, repoName := config.username, config.token, config.repoName;
      links := [];
      isEditing, currentEditId := false, None;
      view := AuthView;
      new;
      CheckAuthState(first);
    }

    /** `_checkAuthState`. */
    method CheckAuthState(first: Reply<RemoteFile>)
      requires Valid()
      modifies this
      ensures Valid()
      ensures State() == CheckingAuth(old(State()), first)
    {
      if Truthy(username) && Truthy(token) && Truthy(repoName) {
        view := AppView;
        Load(first);
      } else {
        view := AuthView;
      }
    }

    /** `_handleAuthSubmit`: the typed credentials are taken as they are. */
    method HandleAuthSubmit(typedUsername: string, typedToken: string, typedRepoName: string, first: Reply<RemoteFile>)
      requires Valid()
      modifies this
      ensures Valid()
      ensures State() == SigningIn(old(State()), typedUsername, typedToken, typedRepoName, first)
    {
      username, token, repoName := Some(typedUsername), Some(typedToken), Some(typedRepoName);
      view := AppView;
      Load(first);
    }

    /** `_loadLinksFromGitHub`. */
    method Load(reply: Reply<RemoteFile>)
      requires Valid()
      modifies this
      ensures Valid()
      ensures State() == Loading(old(State()), reply)
    {
      match ReadLinks(reply)
      case Returned(items) =>
        links := items;
      case Threw(m) =>
        if Contains(m, "404") {
          links := [];
        } else {
          view := AuthView;
        }
    }

    /** `_saveLinksToGitHub`: returns the write it sends, if any. */
    method Save(r: SaveReplies) returns (sent: Option<PutRequest>)
      requires Valid()
      modifies this
      ensures Valid()
      ensures sent == SaveRequest(old(links), old(isEditing), r.pre)
      ensures State() == Saving(old(State()), r)
    {
      if !Encodable(links) {
        return None;
      }
      var sha := RevisionToken(r.pre);
      sent := Some(PutRequest(CommitMessage(isEditing), links, sha));
      if CallApi(r.put).Returned? {
        CloseModal();
        Load(r.reload);
      }
    }

    /** `_openModal`: sets the flags, then returns the form the modal shows, or `None` when
        the edited link is missing. */
    method OpenModal(linkId: Option<string>) returns (form: Option<Form>)
      modifies this
      ensures Valid()
      ensures State() == Opened(old(State()), linkId)
      ensures form == OpenedForm(old(State()), linkId)
    {
      isEditing := Truthy(linkId);
      currentEditId := linkId;
      if isEditing {
        var found := Find(links, linkId.value);
        if found.None? {
          return None;
        }
        form := Some(Prefill(found.value));
      } else {
        form := Some(BlankForm);
      }
    }

    /** `_closeModal`. */
    method CloseModal()
      modifies this
      ensures Valid()
      ensures State() == Closed(old(State()))
    {
      isEditing := false;
      currentEditId := None;
    }

    /** `_handleLinkSubmit`: the local change, then the save; returns the write sent, if any. */
    method HandleLinkSubmit(f: Form, newId: string, createdStamp: string, updatedStamp: string, r: SaveReplies)
      returns (sent: Option<PutRequest>)
      requires Valid()
      modifies this
      ensures Valid()
      ensures State() == Submitting(old(State()), f, newId, createdStamp, updatedStamp, r)
      ensures !old(isEditing) && sent.Some? ==>
        sent.value.content == [NewLink(f, newId, createdStamp, updatedStamp)] + old(links)
      ensures old(isEditing) && sent.Some? ==>
        EditList(old(links), old(currentEditId).value, f, updatedStamp) == Some(sent.value.content)
      ensures var local := Submitted(old(State()), f, newId, createdStamp, updatedStamp);
              sent == if local.Some? then SaveRequest(local.value.links, old(isEditing), r.pre) else None
    {
      if isEditing {
        var index := FirstIndex(links, currentEditId.value);
        if index.None? {
          return None;
        }
        var edited := EditedLink(f, links[index.value], updatedStamp);
        links := links[index.value := edited];
      } else {
        links := [NewLink(f, newId, createdStamp, updatedStamp)] + links;
      }
      sent := Save(r);
    }

    /** The delete button: when confirmed, every link with the id is dropped, then the list
        is saved; returns the write sent, if any. */
    method DeleteLink(id: string, confirmed: bool, r: SaveReplies) returns (sent: Option<PutRequest>)
      requires Valid()
      modifies this
      ensures Valid()
      ensures State() == Deleting(old(State()), id, confirmed, r)
      ensures sent.Some? ==> confirmed && sent.value.content == Without(old(links), id)
      ensures sent == if confirmed then SaveRequest(Without(old(links), id), old(isEditing), r.pre) else None
    {
      sent := None;
      if confirmed {
        links := Without(links, id);
        sent := Save(r);
      }
    }
  }
}
