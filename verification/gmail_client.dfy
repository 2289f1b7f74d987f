/** The calls the program makes to the mailbox service: a paginated message search,
    the raw form of one message, and the attachments of one message.

    The authenticated service is modelled by what it answers. A failed `execute()`
    is an `Err` answer, and nothing here catches it: it reaches the caller unchanged. */
module GmailClient {
  import opened Results
  import opened Seqs
  import opened FileSystem

  /** The HTTP status of a failed request. */
  datatype ApiError = ApiError(status: int)

  /** One response of `messages().list`: the ids on this page (the `"messages"` key may be
      absent) and the cursor for the next page. */
  datatype ListPage = ListPage(messages: Option<seq<string>>, nextPageToken: Option<string>)

  type ListAnswer = Result<ListPage, ApiError>

  datatype Body = Body(attachmentId: Option<string>)

  /** One entry of `payload.parts`; each key may be absent. */
  datatype Part = Part(filename: Option<string>, body: Option<Body>)

  datatype Payload = Payload(parts: Option<seq<Part>>)

  /** A message as `messages().get` returns it in the default format. */
  datatype Message = Message(payload: Option<Payload>)

  /** What the service answers, request by request. */
  datatype Mailbox = Mailbox(
    // the answers to the first, second, ... list request for a query
    listing: string -> seq<ListAnswer>,
    // messages().get(id=...)
    get: string -> Result<Message, ApiError>,
    // the "raw" field of messages().get(id=..., format="raw"), still base64url-encoded
    getRaw: string -> Result<string, ApiError>,
    // the "data" field of messages().attachments().get(messageId=..., id=...), still encoded
    getAttachment: (string, string) -> Result<string, ApiError>)

  /** `base64.urlsafe_b64decode`, a library function taken as given. */
  type Decoder = string -> Bytes

  // ---------------------------------------------------------------------------
  // search_messages

  /** `list_next` yields another request only when the page carries a non-empty cursor. */
  predicate HasNext(page: ListPage)
  {
    page.nextPageToken.Some? && page.nextPageToken.value != ""
  }

  /** The loop stops after this answer: `execute()` raised, or there is no next request. */
  predicate Stops(answer: ListAnswer)
  {
    answer.Err? || !HasNext(answer.value)
  }

  /** The service ends the cursor chain within the answers given. */
  predicate ListingEnds(answers: seq<ListAnswer>)
  {
    exists k :: 0 <= k < |answers| && Stops(answers[k])
  }

  /** The index of the answer after which the loop stops. */
  function LastRequest(answers: seq<ListAnswer>): (k: nat)
    requires ListingEnds(answers)
    ensures k < |answers| && Stops(answers[k])
    ensures forall j :: 0 <= j < k ==> !Stops(answers[j])
    decreases |answers|
  {
    if Stops(answers[0]) then 0
    else
      ListingEndsLater(answers);
      1 + LastRequest(answers[1..])
  }

  /** When the first answer does not stop the loop, the remaining answers still end the chain. */
  lemma ListingEndsLater(answers: seq<ListAnswer>)
    requires ListingEnds(answers) && !Stops(answers[0])
    ensures ListingEnds(answers[1..])
  {
    var j :| 0 <= j < |answers| && Stops(answers[j]);
    assert Stops(answers[1..][j - 1]);
  }

  /** The ids on one page: `response.get("messages", [])`. */
  function PageIds(answer: ListAnswer): seq<string>
  {
    if answer.Ok? && answer.value.messages.Some? then answer.value.messages.value else []
  }

  /** The ids of the given pages, page after page, each page in its own order. */
  function IdsOf(answers: seq<ListAnswer>): seq<string>
    decreases |answers|
  {
    if answers == [] then [] else PageIds(answers[0]) + IdsOf(answers[1..])
  }

  /** The pagination contract, one request at a time: execute the request; if it raised,
      so does the search; otherwise its ids come first, followed, when there is a next
      request, by everything the remaining requests list. */
  function Paginate(answers: seq<ListAnswer>): (r: Result<seq<string>, ApiError>)
    requires ListingEnds(answers)
    decreases |answers|
  {
    var first := answers[0];
    if first.Err? then Err(first.error)
    else if !HasNext(first.value) then Ok(PageIds(first))
    else
      ListingEndsLater(answers);
      var rest := Paginate(answers[1..]);
      if rest.Err? then rest else Ok(PageIds(first) + rest.value)
  }

  lemma {:induction false} IdsOfConcat(a: seq<ListAnswer>, b: seq<ListAnswer>)
    ensures IdsOf(a + b) == IdsOf(a) + IdsOf(b)
    decreases |a|
  {
    if a == [] {
      assert a + b == b;
    } else {
      assert (a + b)[1..] == a[1..] + b;
      IdsOfConcat(a[1..], b);
    }
  }

  /** Every request up to the last one is executed exactly once, in order: the search fails
      with the last request's error, or lists exactly the ids of all the pages up to and
      including the last one, in page order and in each page's order. */
  lemma {:induction false} PaginateExecutesEachPage(answers: seq<ListAnswer>)
    requires ListingEnds(answers)
    ensures var k := LastRequest(answers);
      Paginate(answers) ==
        if answers[k].Err? then Err(answers[k].error) else Ok(IdsOf(answers[..k + 1]))
    decreases |answers|
  {
    var k := LastRequest(answers);
    if k == 0 {
      var first := answers[..1];
      assert first == [answers[0]] && first[1..] == [];
      assert IdsOf(first) == PageIds(answers[0]);
    } else {
      var rest := answers[1..];
      PaginateExecutesEachPage(rest);
      assert LastRequest(rest) == k - 1;
      assert answers[..k + 1] == [answers[0]] + rest[..k];
    }
  }

  /** A page without a `"messages"` key contributes nothing and does not end the search. */
  lemma PageWithoutMessages(token: string, rest: seq<ListAnswer>)
    requires token != "" && ListingEnds(rest)
    ensures ListingEnds([Ok(ListPage(None, Some(token)))] + rest)
    ensures Paginate([Ok(ListPage(None, Some(token)))] + rest) == Paginate(rest)
  {
    var answers := [Ok(ListPage(None, Some(token)))] + rest;
    var j :| 0 <= j < |rest| && Stops(rest[j]);
    assert Stops(answers[j + 1]);
    assert answers[1..] == rest;
    assert !Stops(answers[0]) && PageIds(answers[0]) == [];
    var tail := Paginate(rest);
    if tail.Ok? {
      assert PageIds(answers[0]) + tail.value == tail.value;
    }
  }

  /** The ids of one more page come after those of the pages before it. */
  lemma IdsOfSnoc(answers: seq<ListAnswer>, k: nat)
    requires k < |answers|
    ensures IdsOf(answers[..k + 1]) == IdsOf(answers[..k]) + PageIds(answers[k])
  {
    assert answers[..k + 1] == answers[..k] + [answers[k]];
    IdsOfConcat(answers[..k], [answers[k]]);
  }

  /** `for msg in response.get("messages", []): ids.append(msg["id"])`. */
  method AppendPage(ids: seq<string>, messages: seq<string>) returns (r: seq<string>)
    ensures r == ids + messages
  {
    r := ids;
    for i := 0 to |messages|
      invariant r == ids + messages[..i]
    {
      assert messages[..i + 1] == messages[..i] + [messages[i]];
      r := r + [messages[i]];
    }
    assert messages[..|messages|] == messages;
  }

  /** `search_messages(service, query)`: request pages until `list_next` yields no request,
      appending each page's ids. `executed` counts the requests executed. */
  method SearchMessages(service: Mailbox, query: string) returns (r: Result<seq<string>, ApiError>, ghost executed: nat)
    requires ListingEnds(service.listing(query))
    ensures r == Paginate(service.listing(query))
    ensures executed == LastRequest(service.listing(query)) + 1
  {
    var answers := service.listing(query);
    ghost var last := LastRequest(answers);
    var ids: seq<string> := [];
    var k := 0;
    var more := true;  // `request` is not None
    while more
      invariant k <= last + 1
      invariant more ==> k <= last
      invariant !more ==> k == last + 1 && answers[last].Ok?
      invariant ids == IdsOf(answers[..k])
      decreases last + 1 - k
    {
      var response := answers[k];
      if response.Err? {
        PaginateExecutesEachPage(answers);
        return Err(response.error), k + 1;
      }
      ids := AppendPage(ids, PageIds(response));
      IdsOfSnoc(answers, k);
      more := HasNext(response.value);
      k := k + 1;
    }
    PaginateExecutesEachPage(answers);
    r, executed := Ok(ids), k;
  }

  // ---------------------------------------------------------------------------
  // fetch_raw_message

  /** `fetch_raw_message(service, msg_id)`: the decoded `"raw"` field, or the request's error. */
  function FetchRawMessage(service: Mailbox, decode: Decoder, msgId: string): (r: Result<Bytes, ApiError>)
    ensures r.Err? <==> service.getRaw(msgId).Err?
    ensures r.Err? ==> r.error == service.getRaw(msgId).error
    ensures r.Ok? ==> r.value == decode(service.getRaw(msgId).value)
  {
    match service.getRaw(msgId)
    case Err(e) => Err(e)
    case Ok(raw) => Ok(decode(raw))
  }

  // ---------------------------------------------------------------------------
  // fetch_attachments

  datatype Attachment = Attachment(filename: string, data: Bytes)

  /** `msg.get("payload", {}).get("parts", [])`. */
  function PartsOf(msg: Message): seq<Part>
  {
    if msg.payload.Some? && msg.payload.value.parts.Some? then msg.payload.value.parts.value else []
  }

  /** A part is fetched when both its filename and its attachment id are present and non-empty. */
  predicate IsAttachment(part: Part)
  {
    && part.filename.Some? && part.filename.value != ""
    && part.body.Some? && part.body.value.attachmentId.Some? && part.body.value.attachmentId.value != ""
  }

  /** The parts that are fetched, in the order of the parts list. */
  function AttachmentParts(parts: seq<Part>): (r: seq<Part>)
    ensures forall i :: 0 <= i < |r| ==> IsAttachment(r[i]) && r[i] in parts
  {
    Filter(parts, IsAttachment)
  }

  /** The attachment stored for one attachment part. */
  function Download(service: Mailbox, decode: Decoder, msgId: string, part: Part): Result<Attachment, ApiError>
    requires IsAttachment(part)
  {
    match service.getAttachment(msgId, part.body.value.attachmentId.value)
    case Err(e) => Err(e)
    case Ok(data) => Ok(Attachment(part.filename.value, decode(data)))
  }

  /** The attachment parts are exactly the parts with a filename and an attachment id, each as
      often as it occurs in the message, and in the message's order. */
  lemma AttachmentPartsExact(parts: seq<Part>, p: Part)
    ensures p in AttachmentParts(parts) <==> p in parts && IsAttachment(p)
    ensures multiset(AttachmentParts(parts))[p] == if IsAttachment(p) then multiset(parts)[p] else 0
  {
    FilterMembership(parts, IsAttachment, p);
    FilterCount(parts, IsAttachment, p);
  }

  /** The attachment parts of a longer parts list are those of its beginning, then those of the rest. */
  lemma AttachmentPartsConcat(parts: seq<Part>, more: seq<Part>)
    ensures AttachmentParts(parts + more) == AttachmentParts(parts) + AttachmentParts(more)
  {
    FilterConcat(parts, more, IsAttachment);
  }

  /** Downloading the given attachment parts one after the other; the first failure ends it. */
  function DownloadAll(service: Mailbox, decode: Decoder, msgId: string, parts: seq<Part>): Result<seq<Attachment>, ApiError>
    requires forall i :: 0 <= i < |parts| ==> IsAttachment(parts[i])
    decreases |parts|
  {
    if parts == [] then Ok([])
    else
      var done := DownloadAll(service, decode, msgId, parts[..|parts| - 1]);
      var next := Download(service, decode, msgId, parts[|parts| - 1]);
      if done.Err? then done
      else if next.Err? then Err(next.error)
      else Ok(done.value + [next.value])
  }

  /** What `fetch_attachments` returns for a message, or the error it raises. */
  function AttachmentsOf(service: Mailbox, decode: Decoder, msgId: string): (r: Result<seq<Attachment>, ApiError>)
    ensures service.get(msgId).Err? ==> r == Err(service.get(msgId).error)
    ensures service.get(msgId).Ok? && PartsOf(service.get(msgId).value) == [] ==> r == Ok([])
  {
    match service.get(msgId)
    case Err(e) => Err(e)
    case Ok(msg) => DownloadAll(service, decode, msgId, AttachmentParts(PartsOf(msg)))
  }

  /** On success there is one attachment per attachment part, in the parts' order, named
      after the part and holding the decoded data the service returned for its id. */
  lemma {:induction false} DownloadAllOneEach(service: Mailbox, decode: Decoder, msgId: string, parts: seq<Part>)
    requires forall i :: 0 <= i < |parts| ==> IsAttachment(parts[i])
    requires DownloadAll(service, decode, msgId, parts).Ok?
    ensures var atts := DownloadAll(service, decode, msgId, parts).value;
      && |atts| == |parts|
      && forall i :: 0 <= i < |parts| ==>
           && service.getAttachment(msgId, parts[i].body.value.attachmentId.value).Ok?
           && atts[i] == Attachment(parts[i].filename.value,
                decode(service.getAttachment(msgId, parts[i].body.value.attachmentId.value).value))
    decreases |parts|
  {
    if parts != [] {
      DownloadAllOneEach(service, decode, msgId, parts[..|parts| - 1]);
    }
  }

  /** A failure is the error of the first attachment part whose download failed. */
  lemma {:induction false} DownloadAllFirstFailure(service: Mailbox, decode: Decoder, msgId: string, parts: seq<Part>)
    requires forall i :: 0 <= i < |parts| ==> IsAttachment(parts[i])
    requires DownloadAll(service, decode, msgId, parts).Err?
    ensures exists k :: (0 <= k < |parts|
      && Download(service, decode, msgId, parts[k]) == Err(DownloadAll(service, decode, msgId, parts).error)
      && forall j :: 0 <= j < k ==> Download(service, decode, msgId, parts[j]).Ok?)
    decreases |parts|
  {
    var init := parts[..|parts| - 1];
    var e := DownloadAll(service, decode, msgId, parts).error;
    var k: nat;
    if DownloadAll(service, decode, msgId, init).Err? {
      assert DownloadAll(service, decode, msgId, init).error == e;
      DownloadAllFirstFailure(service, decode, msgId, init);
      k :| 0 <= k < |init|
        && Download(service, decode, msgId, init[k]) == Err(e)
        && forall j :: 0 <= j < k ==> Download(service, decode, msgId, init[j]).Ok?;
      assert parts[k] == init[k];
    } else {
      DownloadAllOneEach(service, decode, msgId, init);
      k := |parts| - 1;
      assert Download(service, decode, msgId, parts[k]) == Err(e);
    }
    forall j | 0 <= j < k
      ensures Download(service, decode, msgId, parts[j]).Ok?
    {
      assert parts[j] == init[j];
    }
    assert Download(service, decode, msgId, parts[k]) == Err(e);
  }

  /** Once a download has failed, the later parts change nothing: the first error stands. */
  lemma {:induction false} DownloadAllKeepsError(service: Mailbox, decode: Decoder, msgId: string, xs: seq<Part>, ys: seq<Part>)
    requires forall i :: 0 <= i < |xs| ==> IsAttachment(xs[i])
    requires forall i :: 0 <= i < |ys| ==> IsAttachment(ys[i])
    requires DownloadAll(service, decode, msgId, xs).Err?
    ensures DownloadAll(service, decode, msgId, xs + ys) == DownloadAll(service, decode, msgId, xs)
    decreases |ys|
  {
    if ys != [] {
      var init := ys[..|ys| - 1];
      DownloadAllKeepsError(service, decode, msgId, xs, init);
      assert (xs + ys)[..|xs + ys| - 1] == xs + init;
    } else {
      assert xs + ys == xs;
    }
  }

  /** One more part of the message: an attachment part adds its download, any other part nothing. */
  lemma DownloadNextPart(service: Mailbox, decode: Decoder, msgId: string, parts: seq<Part>, part: Part)
    ensures var before := DownloadAll(service, decode, msgId, AttachmentParts(parts));
      DownloadAll(service, decode, msgId, AttachmentParts(parts + [part])) ==
        if !IsAttachment(part) || before.Err? then before
        else
          var next := Download(service, decode, msgId, part);
          if next.Err? then Err(next.error) else Ok(before.value + [next.value])
  {
    FilterConcat(parts, [part], IsAttachment);
    var wanted := AttachmentParts(parts + [part]);
    if IsAttachment(part) {
      assert wanted == AttachmentParts(parts) + [part];
      assert wanted[..|wanted| - 1] == AttachmentParts(parts);
    } else {
      assert Filter([part], IsAttachment) == [];
      assert wanted == AttachmentParts(parts);
    }
  }

  /** The loop over the parts, one part further: an attachment part adds its download or
      ends the loop with its error, any other part changes nothing. */
  lemma DownloadPartsStep(service: Mailbox, decode: Decoder, msgId: string, parts: seq<Part>, i: nat, done: seq<Attachment>)
    requires i < |parts|
    requires DownloadAll(service, decode, msgId, AttachmentParts(parts[..i])) == Ok(done)
    ensures !IsAttachment(parts[i]) ==> DownloadAll(service, decode, msgId, AttachmentParts(parts[..i + 1])) == Ok(done)
    ensures IsAttachment(parts[i]) ==>
      DownloadAll(service, decode, msgId, AttachmentParts(parts[..i + 1])) ==
        (match Download(service, decode, msgId, parts[i])
         case Err(e) => Err(e)
         case Ok(a) => Ok(done + [a]))
  {
    assert parts[..i + 1] == parts[..i] + [parts[i]];
    DownloadNextPart(service, decode, msgId, parts[..i], parts[i]);
  }

  /** Once a download has failed, the parts after it change nothing. */
  lemma DownloadPartsStop(service: Mailbox, decode: Decoder, msgId: string, parts: seq<Part>, i: nat)
    requires i <= |parts|
    requires DownloadAll(service, decode, msgId, AttachmentParts(parts[..i])).Err?
    ensures DownloadAll(service, decode, msgId, AttachmentParts(parts)) == DownloadAll(service, decode, msgId, AttachmentParts(parts[..i]))
  {
    assert parts == parts[..i] + parts[i..];
    AttachmentPartsConcat(parts[..i], parts[i..]);
    DownloadAllKeepsError(service, decode, msgId, AttachmentParts(parts[..i]), AttachmentParts(parts[i..]));
  }

  /** The loop of `fetch_attachments` over the parts: download each attachment in order; the
      first failed download ends it. */
  method DownloadParts(service: Mailbox, decode: Decoder, msgId: string, parts: seq<Part>) returns (r: Result<seq<Attachment>, ApiError>)
    ensures r == DownloadAll(service, decode, msgId, AttachmentParts(parts))
  {
    var attachments: seq<Attachment> := [];
    for i := 0 to |parts|
      invariant DownloadAll(service, decode, msgId, AttachmentParts(parts[..i])) == Ok(attachments)
    {
      var part := parts[i];
      DownloadPartsStep(service, decode, msgId, parts, i, attachments);
      if IsAttachment(part) {
        var att := service.getAttachment(msgId, part.body.value.attachmentId.value);
        if att.Err? {
          DownloadPartsStop(service, decode, msgId, parts, i + 1);
          return Err(att.error);
        }
        attachments := attachments + [Attachment(part.filename.value, decode(att.value))];
      }
    }
    assert parts[..|parts|] == parts;
    r := Ok(attachments);
  }

  /** `fetch_attachments(service, msg_id)`: fetch the message, then, part by part, download
      each part that has both a filename and an attachment id. */
  method FetchAttachments(service: Mailbox, decode: Decoder, msgId: string) returns (r: Result<seq<Attachment>, ApiError>)
    ensures r == AttachmentsOf(service, decode, msgId)
  {
    var got := service.get(msgId);
    if got.Err? {
      return Err(got.error);
    }
    r := DownloadParts(service, decode, msgId, PartsOf(got.value));
  }
}
