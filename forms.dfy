/** The link form: what it shows when it opens, and the record a submitted form becomes,
    either as a new link or as the edit of an existing one. */
module Forms {
  import opened Wrappers
  import opened Links
  import opened Tags

  /** The four fields of the form, as `FormData` hands them over. */
  datatype Form = Form(title: string, url: string, tags: string, notes: string)

  /** The form after `reset()`: every field empty. */
  const BlankForm := Form("", "", "", "")

  /** The form opened on an existing link: its title, URL and notes, and its tags joined by ", ". */
  function Prefill(link: Link): Form {
    Form(link.title, link.url, FormatTags(link.tags), link.notes)
  }

  /** The record a form becomes in add mode, with its id and timestamps supplied by the caller;
      its tags are the kind the parser produces. */
  function NewLink(f: Form, id: string, createdStamp: string, updatedStamp: string): (x: Link)
    ensures x.id == id && x.createdAt == createdStamp && x.updatedAt == updatedStamp
    ensures x.title == f.title && x.url == f.url && x.notes == f.notes && x.tags == ParseTags(f.tags)
    ensures forall k :: 0 <= k < |x.tags| ==> WellFormedTag(x.tags[k])
  {
    Link(id, f.title, f.url, ParseTags(f.tags), f.notes, createdStamp, updatedStamp)
  }

  /** The record a form becomes in edit mode: the edited link's id and creation time are kept. */
  function EditedLink(f: Form, original: Link, updatedStamp: string): (x: Link)
    ensures x.id == original.id && x.createdAt == original.createdAt && x.updatedAt == updatedStamp
    ensures x.title == f.title && x.url == f.url && x.notes == f.notes && x.tags == ParseTags(f.tags)
    ensures forall k :: 0 <= k < |x.tags| ==> WellFormedTag(x.tags[k])
  {
    Link(original.id, f.title, f.url, ParseTags(f.tags), f.notes, original.createdAt, updatedStamp)
  }

  /** The list after an edit of the link with id `id`: `None` when no link has that id (the
      source then fails reading `createdAt` of `undefined`); otherwise the first link with that
      id is replaced where it stands and every other link stays as it was. */
  function EditList(links: seq<Link>, id: string, f: Form, updatedStamp: string): (r: Option<seq<Link>>)
    ensures r.None? <==> !HasId(links, id)
    ensures r.Some? ==> |r.value| == |links|
    ensures r.Some? ==> forall j :: 0 <= j < |links| ==> r.value[j].id == links[j].id
    ensures r.Some? ==> forall j :: 0 <= j < |links| && links[j].id != id ==> r.value[j] == links[j]
    ensures r.Some? ==> exists i :: 0 <= i < |links| && r.value[i] == EditedLink(f, links[i], updatedStamp)
    ensures r.Some? ==> var i := FirstIndex(links, id).value;
                        r.value == links[i := EditedLink(f, links[i], updatedStamp)]
  {
    match FirstIndex(links, id)
    case None => None
    case Some(i) =>
      var x := EditedLink(f, links[i], updatedStamp);
      assert links[i := x][i] == x;
      Some(links[i := x])
  }

  /** Submitting an edit form exactly as it was opened changes only the update time,
      as long as the link's tags are the kind the form produces. */
  lemma ResubmitUnchanged(x: Link, updatedStamp: string)
    requires forall k :: 0 <= k < |x.tags| ==> WellFormedTag(x.tags[k])
    ensures EditedLink(Prefill(x), x, updatedStamp) == x.(updatedAt := updatedStamp)
  {
    ParseFormatRoundTrip(x.tags);
  }

  /** Editing keeps ids unique. */
  lemma EditKeepsUnique(links: seq<Link>, id: string, f: Form, updatedStamp: string)
    requires UniqueIds(links) && HasId(links, id)
    ensures UniqueIds(EditList(links, id, f, updatedStamp).value)
  {
  }
}
