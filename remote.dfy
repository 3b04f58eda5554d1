/** The content API of the repository host as the application sees it: one reply per request,
    turned into a value or a thrown error, and the rules that decide what a load or a save
    does with those replies. */
module Remote {
  import opened Wrappers
  import opened Text
  import opened Links

  /** The stored file's content once base64- and JSON-decoded: an array of links, any other
      JSON value, or text that does not decode, with the message of the error decoding throws. */
  datatype Decoded = JsonArray(items: seq<Link>) | JsonOther | Undecodable(message: string)

  /** The body of a successful read of the data file. */
  datatype RemoteFile = RemoteFile(content: Decoded, sha: string)

  /** What one request gets back: a response with its status line and body, or a failure of
      the request itself, with the message the failure carries. */
  datatype Reply<T> = Response(status: nat, statusText: string, body: T) | RequestFailure(message: string)

  /** A value, or the message of the error thrown instead. */
  datatype Outcome<T> = Returned(value: T) | Threw(message: string)

  /** The response's status is in the 2xx range. */
  predicate Succeeded<T>(reply: Reply<T>) {
    reply.Response? && 200 <= reply.status <= 299
  }

  const ApiErrorPrefix := "GitHub API error:"

  /** The message of the error thrown for a non-2xx status: the fixed prefix first, the
      status text last. */
  function ApiErrorMessage(status: nat, statusText: string): (m: string)
    ensures |m| > |ApiErrorPrefix| + |statusText| && m[..|ApiErrorPrefix|] == ApiErrorPrefix
    ensures m[|m| - |statusText|..] == statusText
  {
    ApiErrorPrefix + " " + Decimal(status) + " " + statusText
  }

  /** A request through the API wrapper: the body when the status is 2xx, otherwise an error. */
  function CallApi<T>(reply: Reply<T>): (o: Outcome<T>)
    ensures o.Returned? <==> Succeeded(reply)
    ensures o.Returned? ==> o.value == reply.body
    ensures o.Threw? ==> o.message == if reply.RequestFailure? then reply.message
                                     else ApiErrorMessage(reply.status, reply.statusText)
  {
    match reply
    case RequestFailure(m) => Threw(m)
    case Response(status, text, body) =>
      if 200 <= status <= 299 then Returned(body) else Threw(ApiErrorMessage(status, text))
  }

  /** The error message of a failed status mentions "404" exactly when the status numeral
      or the status text does. */
  lemma ApiErrorMentions404(status: nat, statusText: string)
    ensures Contains(ApiErrorMessage(status, statusText), "404")
            <==> Contains(Decimal(status), "404") || Contains(statusText, "404")
  {
    var q := "404";
    assert AllDigits(q);
    assert NoDigits(ApiErrorPrefix);
    NoDigitsNoRun(ApiErrorPrefix, q);
    var tail := Decimal(status) + " " + statusText;
    assert ApiErrorMessage(status, statusText) == ApiErrorPrefix + [' '] + tail;
    RunAroundSeparator(ApiErrorPrefix, ' ', tail, q);
    assert tail == Decimal(status) + [' '] + statusText;
    RunAroundSeparator(Decimal(status), ' ', statusText, q);
  }

  /** What a load ends with: a new list, or a failure that sends the user back to the
      credentials screen and leaves the list alone. */
  datatype LoadOutcome = Loaded(links: seq<Link>) | Rejected

  /** The reading part of a load: the decoded array, the empty list for any other JSON value,
      or what is thrown on the way. */
  function ReadLinks(reply: Reply<RemoteFile>): (o: Outcome<seq<Link>>)
    ensures !Succeeded(reply) ==> o == Threw(CallApi(reply).message)
    ensures Succeeded(reply) && reply.body.content.JsonArray? ==> o == Returned(reply.body.content.items)
    ensures Succeeded(reply) && reply.body.content.JsonOther? ==> o == Returned([])
    ensures Succeeded(reply) && reply.body.content.Undecodable? ==> o == Threw(reply.body.content.message)
  {
    match CallApi(reply)
    case Threw(m) => Threw(m)
    case Returned(file) =>
      match file.content
      case JsonArray(items) => Returned(items)
      case JsonOther => Returned([])
      case Undecodable(m) => Threw(m)
  }

  /** A load: the decoded array when there is one; an empty list for content that is not an
      array and for any error whose message mentions "404"; a rejection otherwise. */
  function LoadResult(reply: Reply<RemoteFile>): (r: LoadOutcome)
    ensures r.Loaded? && r.links != [] ==> Succeeded(reply) && reply.body.content == JsonArray(r.links)
    ensures Succeeded(reply) && reply.body.content.JsonArray? ==> r == Loaded(reply.body.content.items)
    ensures Succeeded(reply) && reply.body.content.JsonOther? ==> r == Loaded([])
    ensures r.Rejected? <==> ReadLinks(reply).Threw? && !Contains(ReadLinks(reply).message, "404")
  {
    match ReadLinks(reply)
    case Returned(links) => Loaded(links)
    case Threw(m) => if Contains(m, "404") then Loaded([]) else Rejected
  }

  /** A file that exists but does not hold an array loads as the empty list. */
  lemma LoadNonArray(reply: Reply<RemoteFile>)
    requires Succeeded(reply) && reply.body.content == JsonOther
    ensures LoadResult(reply) == Loaded([])
  {
  }

  /** A missing data file (status 404) loads as the empty list: the first run starts empty. */
  lemma LoadNotFound(statusText: string, body: RemoteFile)
    ensures LoadResult(Response(404, statusText, body)) == Loaded([])
  {
    ThreeDigitsMention404(404);
    ApiErrorMentions404(404, statusText);
  }

  /** Any other failing status, with a status text that does not itself mention 404,
      is rejected. */
  lemma LoadOtherStatusRejected(status: nat, statusText: string, body: RemoteFile)
    requires 100 <= status <= 999 && !(200 <= status <= 299) && status != 404
    requires !Contains(statusText, "404")
    ensures LoadResult(Response(status, statusText, body)) == Rejected
  {
    ThreeDigitsMention404(status);
    ApiErrorMentions404(status, statusText);
  }

  /** The token sent with a write: the sha of the file as read just before, or none when that
      read failed for any reason. */
  function RevisionToken(pre: Reply<RemoteFile>): (sha: Option<string>)
    ensures sha.Some? <==> Succeeded(pre)
    ensures sha.Some? ==> sha.value == pre.body.sha
  {
    match CallApi(pre)
    case Returned(file) => Some(file.sha)
    case Threw(_) => None
  }

  /** `btoa` accepts only characters up to U+00FF. */
  predicate Latin1(s: string) {
    forall i | 0 <= i < |s| :: s[i] as int < 0x100
  }

  predicate TagsLatin1(tags: seq<string>) {
    forall k | 0 <= k < |tags| :: Latin1(tags[k])
  }

  predicate LinkLatin1(x: Link) {
    Latin1(x.id) && Latin1(x.title) && Latin1(x.url) && TagsLatin1(x.tags) && Latin1(x.notes)
    && Latin1(x.createdAt) && Latin1(x.updatedAt)
  }

  /** The list's JSON text can be base64-encoded: JSON syntax is ASCII, and every other
      character of the text comes from a string field of some link. */
  predicate Encodable(links: seq<Link>) {
    forall k | 0 <= k < |links| :: LinkLatin1(links[k])
  }

  /** Dropping links never makes a list impossible to encode: a delete can always be saved
      when the list before it could. */
  lemma KeepKeepsEncodable(links: seq<Link>, p: Link -> bool)
    requires Encodable(links)
    ensures Encodable(Keep(links, p))
  {
    var kept := Keep(links, p);
    forall k | 0 <= k < |kept|
      ensures LinkLatin1(kept[k])
    {
      var j :| 0 <= j < |links| && links[j] == kept[k];
    }
  }

  /** The write request: commit message, the whole list as content, and the revision token. */
  datatype PutRequest = PutRequest(message: string, content: seq<Link>, sha: Option<string>)

  /** The commit message chosen by the edit flag. */
  function CommitMessage(isEditing: bool): string {
    if isEditing then "Update link in LinkHub" else "Add new link to LinkHub"
  }

  /** The write a save sends, or `None` when encoding the list throws before any request. */
  function SaveRequest(links: seq<Link>, isEditing: bool, pre: Reply<RemoteFile>): (req: Option<PutRequest>)
    ensures req.Some? <==> Encodable(links)
    ensures req.Some? ==> req.value.content == links && req.value.sha == RevisionToken(pre)
    ensures req.Some? ==> req.value.message == CommitMessage(isEditing)
  {
    if Encodable(links) then Some(PutRequest(CommitMessage(isEditing), links, RevisionToken(pre))) else None
  }

  /** With no data file yet, the write is a creation: no token is sent. */
  lemma FirstSaveCreates(links: seq<Link>, isEditing: bool, statusText: string, body: RemoteFile)
    requires Encodable(links)
    ensures SaveRequest(links, isEditing, Response(404, statusText, body)).value.sha == None
  {
  }

  /** With a data file in place, the write carries that file's sha. */
  lemma LaterSaveUpdates(links: seq<Link>, isEditing: bool, file: RemoteFile)
    requires Encodable(links)
    ensures SaveRequest(links, isEditing, Response(200, "OK", file)).value.sha == Some(file.sha)
  {
  }
}
