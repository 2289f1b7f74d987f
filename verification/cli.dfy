/** The command: check the profile, load its configuration, create the target directory,
    list the matching messages, keep those not downloaded yet, and handle each new one
    according to the profile's mode.

    The metadata fetch, the three save operations, the metadata scan and the search with a
    resumption date are collaborators whose definitions are not part of this model: the
    fetch and the search are given as functions, the scan as a function of the target, and
    each save is recorded as a step of the run, in the order the command performs them. */
module Cli {
  import opened Results
  import opened Seqs
  import opened FileSystem
  import opened GmailClient
  import opened Config

  // ---------------------------------------------------------------------------
  // The new-id diff

  /** The test of the comprehension: the id is not among the downloaded ones. */
  function IsNew(downloaded: set<string>): string -> bool
  {
    id => id !in downloaded
  }

  /** `[mid for mid in msg_ids if mid not in downloaded_ids]`. */
  function NewIds(msgIds: seq<string>, downloaded: set<string>): (r: seq<string>)
    ensures |r| <= |msgIds|
    ensures forall i :: 0 <= i < |r| ==> r[i] !in downloaded && r[i] in msgIds
  {
    Filter(msgIds, IsNew(downloaded))
  }

  /** An id is new exactly when it is listed and not downloaded, and it is kept as many times
      as the listing repeats it. */
  lemma NewIdsExact(msgIds: seq<string>, downloaded: set<string>, x: string)
    ensures x in NewIds(msgIds, downloaded) <==> x in msgIds && x !in downloaded
    ensures multiset(NewIds(msgIds, downloaded))[x] == if x in downloaded then 0 else multiset(msgIds)[x]
  {
    FilterMembership(msgIds, IsNew(downloaded), x);
    FilterCount(msgIds, IsNew(downloaded), x);
  }

  /** The diff keeps the listing's order: the new ids of an earlier stretch of the listing all
      come before those of a later one. */
  lemma NewIdsKeepOrder(a: seq<string>, b: seq<string>, downloaded: set<string>)
    ensures NewIds(a + b, downloaded) == NewIds(a, downloaded) + NewIds(b, downloaded)
  {
    FilterConcat(a, b, IsNew(downloaded));
  }

  /** With nothing downloaded, every listed id is new. */
  lemma NewIdsNothingDownloaded(msgIds: seq<string>)
    ensures NewIds(msgIds, {}) == msgIds
  {
    FilterKeepsAll(msgIds, IsNew({}));
  }

  /** Once the new ids are downloaded, the same listing has nothing new. */
  lemma NewIdsAfterDownload(msgIds: seq<string>, downloaded: set<string>)
    ensures NewIds(msgIds, downloaded + Elements(NewIds(msgIds, downloaded))) == []
  {
    var first := NewIds(msgIds, downloaded);
    var again := NewIds(msgIds, downloaded + Elements(first));
    if again != [] {
      var x := again[0];
      NewIdsExact(msgIds, downloaded, x);
      assert false;
    }
  }

  // ---------------------------------------------------------------------------
  // The per-id dispatch

  /** What `fetch_message_metadata` returns: header names and their values. */
  type Metadata = map<string, string>

  /** One observable action of the loop, in the order it happens. */
  datatype Step =
    | FetchedMetadata(id: string)
    | FetchedRaw(id: string)
    | SavedEml(id: string, date: string, raw: Bytes)
    | FetchedAttachments(id: string)
    | SavedAttachments(id: string, date: string, attachments: seq<Attachment>)
    | SavedMetadata(id: string, date: string, metadata: Metadata)

  /** Why the command stopped. */
  datatype SyncError =
    | ProfileNotFound(path: Path)          // click.ClickException
    | BadConfig(configError: ConfigError)  // raised by load_config
    | TargetNotCreated(fsError: FsError)   // raised by mkdir
    | Api(apiError: ApiError)              // a request's execute() raised
    | MissingDate(id: string)              // KeyError: the metadata has no "date"

  /** The steps taken so far and the error that ended them, if any. */
  datatype Run = Run(steps: seq<Step>, error: Option<SyncError>)

  /** The attachment steps shared by both modes: the fetch, then a save only when there is
      something to save. */
  function AttachmentSteps(service: Mailbox, decode: Decoder, id: string, date: string): (r: Run)
    ensures |r.steps| > 0 && r.steps[0] == FetchedAttachments(id)
    ensures r.error.Some? <==> AttachmentsOf(service, decode, id).Err?
    ensures AttachmentsOf(service, decode, id).Ok? && AttachmentsOf(service, decode, id).value != [] ==>
      SavedAttachments(id, date, AttachmentsOf(service, decode, id).value) in r.steps
  {
    var atts := AttachmentsOf(service, decode, id);
    if atts.Err? then Run([FetchedAttachments(id)], Some(Api(atts.error)))
    else if atts.value == [] then Run([FetchedAttachments(id)], None)
    else Run([FetchedAttachments(id), SavedAttachments(id, date, atts.value)], None)
  }

  /** The mode-dependent steps for one message whose metadata carries `date`. */
  function ModeSteps(service: Mailbox, decode: Decoder, mode: string, id: string, date: string): (r: Run)
    ensures mode == "full" ==> |r.steps| > 0 && r.steps[0] == FetchedRaw(id)
    ensures mode == "full" && r.error.None? ==>
      FetchRawMessage(service, decode, id).Ok? && SavedEml(id, date, FetchRawMessage(service, decode, id).value) in r.steps
  {
    if mode == "full" then
      var raw := FetchRawMessage(service, decode, id);
      if raw.Err? then Run([FetchedRaw(id)], Some(Api(raw.error)))
      else
        var rest := AttachmentSteps(service, decode, id, date);
        Run([FetchedRaw(id), SavedEml(id, date, raw.value)] + rest.steps, rest.error)
    else if mode == "attachments_only" then AttachmentSteps(service, decode, id, date)
    else Run([], None)
  }

  /** One iteration of the loop for `msg_id`: fetch the metadata, read its date, do what the
      mode asks, then save the metadata. */
  function ItemRun(service: Mailbox, decode: Decoder, metadataOf: string -> Result<Metadata, ApiError>, mode: string, id: string): (r: Run)
    ensures |r.steps| > 0 && r.steps[0] == FetchedMetadata(id)
    ensures r.error.None? ==>
      && metadataOf(id).Ok? && "date" in metadataOf(id).value
      && r.steps[|r.steps| - 1] == SavedMetadata(id, metadataOf(id).value["date"], metadataOf(id).value)
  {
    var md := metadataOf(id);
    if md.Err? then Run([FetchedMetadata(id)], Some(Api(md.error)))
    else if "date" !in md.value then Run([FetchedMetadata(id)], Some(MissingDate(id)))
    else
      var date := md.value["date"];
      var body := ModeSteps(service, decode, mode, id, date);
      if body.error.Some? then Run([FetchedMetadata(id)] + body.steps, body.error)
      else Run([FetchedMetadata(id)] + body.steps + [SavedMetadata(id, date, md.value)], None)
  }

  /** The mode-dependent steps all concern the message; outside `full` mode they never touch
      the raw message; and they save attachments only when the fetched list is non-empty. */
  lemma ModeStepsFacts(service: Mailbox, decode: Decoder, mode: string, id: string, date: string)
    ensures var steps := ModeSteps(service, decode, mode, id, date).steps;
      && (forall k :: 0 <= k < |steps| ==> steps[k].id == id && !steps[k].FetchedMetadata? && !steps[k].SavedMetadata?)
      && (mode != "full" ==> forall k :: 0 <= k < |steps| ==> !steps[k].FetchedRaw? && !steps[k].SavedEml?)
      && (forall k :: 0 <= k < |steps| && steps[k].SavedAttachments? ==>
            steps[k].attachments != [] && AttachmentsOf(service, decode, id) == Ok(steps[k].attachments))
  {
  }

  /** Within one iteration every step concerns its id; the metadata is fetched only at the
      start and saved only at the end; no raw message is touched outside `full` mode; and
      attachments are saved only when the fetched list is non-empty. */
  lemma ItemRunSteps(service: Mailbox, decode: Decoder, metadataOf: string -> Result<Metadata, ApiError>, mode: string, id: string)
    ensures var steps := ItemRun(service, decode, metadataOf, mode, id).steps;
      && (forall k :: 0 <= k < |steps| ==> steps[k].id == id)
      && (forall k :: 0 < k < |steps| ==> !steps[k].FetchedMetadata?)
      && (forall k :: 0 <= k < |steps| - 1 ==> !steps[k].SavedMetadata?)
      && (mode != "full" ==> forall k :: 0 <= k < |steps| ==> !steps[k].FetchedRaw? && !steps[k].SavedEml?)
      && (forall k :: 0 <= k < |steps| && steps[k].SavedAttachments? ==>
            steps[k].attachments != [] && AttachmentsOf(service, decode, id) == Ok(steps[k].attachments))
  {
    var md := metadataOf(id);
    if md.Ok? && "date" in md.value {
      ModeStepsFacts(service, decode, mode, id, md.value["date"]);
    }
  }

  /** The iteration of the loop of `main`, as a function of the id. */
  function Iteration(service: Mailbox, decode: Decoder, metadataOf: string -> Result<Metadata, ApiError>, mode: string): string -> Run
  {
    id => ItemRun(service, decode, metadataOf, mode, id)
  }

  /** A loop running `item` for each id in order; the first error ends it. */
  function RunEach(item: string -> Run, ids: seq<string>): Run
    decreases |ids|
  {
    if ids == [] then Run([], None)
    else
      var before := RunEach(item, ids[..|ids| - 1]);
      if before.error.Some? then before
      else Run(before.steps + item(ids[|ids| - 1]).steps, item(ids[|ids| - 1]).error)
  }

  /** One more id: its iteration runs unless an earlier one failed. */
  lemma RunEachSnoc(item: string -> Run, ids: seq<string>, id: string)
    ensures var before := RunEach(item, ids);
      RunEach(item, ids + [id]) ==
        if before.error.Some? then before else Run(before.steps + item(id).steps, item(id).error)
  {
    assert (ids + [id])[..|ids|] == ids;
  }

  /** An error ends the loop: the ids after it are not processed. */
  lemma {:induction false} RunEachKeepsError(item: string -> Run, ids: seq<string>, more: seq<string>)
    requires RunEach(item, ids).error.Some?
    ensures RunEach(item, ids + more) == RunEach(item, ids)
    decreases |more|
  {
    if more == [] {
      assert ids + more == ids;
    } else {
      var init := more[..|more| - 1];
      RunEachKeepsError(item, ids, init);
      assert (ids + more)[..|ids + more| - 1] == ids + init;
    }
  }

  /** The steps of each id's iteration, id by id. */
  function Items(item: string -> Run, ids: seq<string>): (items: seq<seq<Step>>)
    ensures |items| == |ids|
    ensures forall i :: 0 <= i < |ids| ==> items[i] == item(ids[i]).steps
    decreases |ids|
  {
    if ids == [] then [] else Items(item, ids[..|ids| - 1]) + [item(ids[|ids| - 1]).steps]
  }

  /** A loop that ends without error is the iterations of its ids, one after the other, in order. */
  lemma {:induction false} RunEachInOrder(item: string -> Run, ids: seq<string>)
    requires RunEach(item, ids).error.None?
    ensures RunEach(item, ids).steps == Flatten(Items(item, ids))
    decreases |ids|
  {
    if ids != [] {
      var init := ids[..|ids| - 1];
      RunEachInOrder(item, init);
      FlattenSnoc(Items(item, init), item(ids[|ids| - 1]).steps);
    }
  }

  /** In a loop that ends without error, every id's iteration ends without error. */
  lemma {:induction false} RunEachEachSucceeds(item: string -> Run, ids: seq<string>, i: nat)
    requires RunEach(item, ids).error.None?
    requires i < |ids|
    ensures item(ids[i]).error.None?
    decreases |ids|
  {
    var init := ids[..|ids| - 1];
    if i < |init| {
      RunEachEachSucceeds(item, init, i);
      assert ids[i] == init[i];
    }
  }

  /** Every step of a loop belongs to the iteration of one of its ids. */
  lemma {:induction false} RunEachStepOrigin(item: string -> Run, ids: seq<string>, k: nat)
    requires k < |RunEach(item, ids).steps|
    ensures exists i :: 0 <= i < |ids| && RunEach(item, ids).steps[k] in item(ids[i]).steps
    decreases |ids|
  {
    var init := ids[..|ids| - 1];
    var before := RunEach(item, init);
    var steps := RunEach(item, ids).steps;
    if before.error.Some? || k < |before.steps| {
      RunEachStepOrigin(item, init, k);
      var i :| 0 <= i < |init| && before.steps[k] in item(init[i]).steps;
      assert init[i] == ids[i];
    } else {
      assert steps[k] == item(ids[|ids| - 1]).steps[k - |before.steps|];
    }
  }

  /** The loop over `ids` raised at `ids[j]`: every earlier iteration ran in full and in order,
      then the iteration of `ids[j]` ran up to its error. */
  predicate FailedAt(item: string -> Run, ids: seq<string>, j: nat)
  {
    && j < |ids|
    && (forall i :: 0 <= i < j ==> item(ids[i]).error.None?)
    && item(ids[j]).error == RunEach(item, ids).error
    && RunEach(item, ids).steps == Flatten(Items(item, ids[..j])) + item(ids[j]).steps
  }

  /** A loop that raised stopped at the first id whose iteration raised. */
  lemma {:induction false} RunEachFirstFailure(item: string -> Run, ids: seq<string>)
    requires RunEach(item, ids).error.Some?
    ensures exists j: nat :: FailedAt(item, ids, j)
    decreases |ids|
  {
    var init := ids[..|ids| - 1];
    if RunEach(item, init).error.Some? {
      RunEachFirstFailure(item, init);
      var j: nat :| FailedAt(item, init, j);
      assert RunEach(item, ids) == RunEach(item, init);
      assert init[..j] == ids[..j];
      assert forall i :: 0 <= i <= j ==> init[i] == ids[i];
      assert FailedAt(item, ids, j);
    } else {
      var j := |ids| - 1;
      assert RunEach(item, ids) == Run(RunEach(item, init).steps + item(ids[j]).steps, item(ids[j]).error);
      RunEachInOrder(item, init);
      forall i | 0 <= i < j
        ensures item(ids[i]).error.None?
      {
        RunEachEachSucceeds(item, init, i);
        assert init[i] == ids[i];
      }
      assert init == ids[..j];
      assert FailedAt(item, ids, j);
    }
  }

  /** The loop of `main` over the new ids. */
  function RunAll(service: Mailbox, decode: Decoder, metadataOf: string -> Result<Metadata, ApiError>, mode: string, ids: seq<string>): Run
  {
    RunEach(Iteration(service, decode, metadataOf, mode), ids)
  }

  /** In `attachments_only` mode no raw message is fetched or saved, for any id. */
  lemma AttachmentsOnlyNeverRaw(service: Mailbox, decode: Decoder, metadataOf: string -> Result<Metadata, ApiError>, ids: seq<string>)
    ensures var steps := RunAll(service, decode, metadataOf, "attachments_only", ids).steps;
      forall k :: 0 <= k < |steps| ==> !steps[k].FetchedRaw? && !steps[k].SavedEml?
  {
    var item := Iteration(service, decode, metadataOf, "attachments_only");
    var steps := RunEach(item, ids).steps;
    forall k | 0 <= k < |steps|
      ensures !steps[k].FetchedRaw? && !steps[k].SavedEml?
    {
      RunEachStepOrigin(item, ids, k);
      var i :| 0 <= i < |ids| && steps[k] in item(ids[i]).steps;
      ItemRunSteps(service, decode, metadataOf, "attachments_only", ids[i]);
    }
  }

  /** In either mode, attachments are saved only when the fetched list is non-empty, and what
      is saved is the list fetched for that message. */
  lemma AttachmentsSavedOnlyWhenPresent(service: Mailbox, decode: Decoder, metadataOf: string -> Result<Metadata, ApiError>, mode: string, ids: seq<string>)
    ensures var steps := RunAll(service, decode, metadataOf, mode, ids).steps;
      forall k :: 0 <= k < |steps| && steps[k].SavedAttachments? ==>
        steps[k].attachments != [] && AttachmentsOf(service, decode, steps[k].id) == Ok(steps[k].attachments)
  {
    var item := Iteration(service, decode, metadataOf, mode);
    var steps := RunEach(item, ids).steps;
    forall k | 0 <= k < |steps| && steps[k].SavedAttachments?
      ensures steps[k].attachments != [] && AttachmentsOf(service, decode, steps[k].id) == Ok(steps[k].attachments)
    {
      RunEachStepOrigin(item, ids, k);
      var i :| 0 <= i < |ids| && steps[k] in item(ids[i]).steps;
      ItemRunSteps(service, decode, metadataOf, mode, ids[i]);
    }
  }

  /** For every id processed, whatever the mode, the metadata is fetched first and, when the
      iteration succeeds, saved last; a loop that ends without error is exactly these
      iterations, in the order of the new ids. */
  lemma MetadataFirstAndLast(service: Mailbox, decode: Decoder, metadataOf: string -> Result<Metadata, ApiError>, mode: string, ids: seq<string>, i: nat)
    requires RunAll(service, decode, metadataOf, mode, ids).error.None?
    requires i < |ids|
    ensures var item := ItemRun(service, decode, metadataOf, mode, ids[i]);
      && item.error.None?
      && item.steps[0] == FetchedMetadata(ids[i])
      && item.steps[|item.steps| - 1].SavedMetadata? && item.steps[|item.steps| - 1].id == ids[i]
      && RunAll(service, decode, metadataOf, mode, ids).steps ==
         Flatten(Items(Iteration(service, decode, metadataOf, mode), ids))
  {
    var item := Iteration(service, decode, metadataOf, mode);
    RunEachEachSucceeds(item, ids, i);
    RunEachInOrder(item, ids);
  }

  /** The iteration for `id` ran without error: it fetched the metadata first and saved it last. */
  predicate FullIteration(service: Mailbox, decode: Decoder, metadataOf: string -> Result<Metadata, ApiError>, mode: string, id: string)
  {
    var item := ItemRun(service, decode, metadataOf, mode, id);
    && item.error.None?
    && item.steps[0] == FetchedMetadata(id)
    && item.steps[|item.steps| - 1].SavedMetadata? && item.steps[|item.steps| - 1].id == id
  }

  /** A loop that raised ran, for each id before the failing one, an iteration that fetched
      the metadata first and saved it last; the failing iteration also began with the metadata
      fetch; nothing after it ran. */
  lemma MetadataFirstAndLastUntilFailure(service: Mailbox, decode: Decoder, metadataOf: string -> Result<Metadata, ApiError>, mode: string, ids: seq<string>)
    requires RunAll(service, decode, metadataOf, mode, ids).error.Some?
    ensures exists j :: (0 <= j < |ids|
      && (forall i :: 0 <= i < j ==> FullIteration(service, decode, metadataOf, mode, ids[i]))
      && ItemRun(service, decode, metadataOf, mode, ids[j]).steps[0] == FetchedMetadata(ids[j])
      && ItemRun(service, decode, metadataOf, mode, ids[j]).error == RunAll(service, decode, metadataOf, mode, ids).error
      && RunAll(service, decode, metadataOf, mode, ids).steps ==
         Flatten(Items(Iteration(service, decode, metadataOf, mode), ids[..j])) + ItemRun(service, decode, metadataOf, mode, ids[j]).steps)
  {
    var item := Iteration(service, decode, metadataOf, mode);
    RunEachFirstFailure(item, ids);
    var j: nat :| FailedAt(item, ids, j);
    forall i | 0 <= i < j
      ensures FullIteration(service, decode, metadataOf, mode, ids[i])
    {
      assert item(ids[i]) == ItemRun(service, decode, metadataOf, mode, ids[i]);
    }
    assert item(ids[j]) == ItemRun(service, decode, metadataOf, mode, ids[j]);
  }

  /** `steps` save the decoded raw message of `id` under the date its metadata gives. */
  predicate SavesEml(service: Mailbox, decode: Decoder, metadataOf: string -> Result<Metadata, ApiError>, id: string, steps: seq<Step>)
  {
    && metadataOf(id).Ok? && "date" in metadataOf(id).value
    && FetchRawMessage(service, decode, id).Ok?
    && SavedEml(id, metadataOf(id).value["date"], FetchRawMessage(service, decode, id).value) in steps
  }

  /** In `full` mode, an iteration that ran without error saved the decoded raw message. */
  lemma FullIterationSavesEml(service: Mailbox, decode: Decoder, metadataOf: string -> Result<Metadata, ApiError>, id: string)
    requires ItemRun(service, decode, metadataOf, "full", id).error.None?
    ensures SavesEml(service, decode, metadataOf, id, ItemRun(service, decode, metadataOf, "full", id).steps)
  {
    var md := metadataOf(id);
    var date := md.value["date"];
    var body := ModeSteps(service, decode, "full", id, date);
    assert ItemRun(service, decode, metadataOf, "full", id).steps == [FetchedMetadata(id)] + body.steps + [SavedMetadata(id, date, md.value)];
  }

  /** In `full` mode, a loop that ends without error saves the decoded raw message of every
      new id, under the date its metadata gives. */
  lemma FullModeSavesEveryEml(service: Mailbox, decode: Decoder, metadataOf: string -> Result<Metadata, ApiError>, ids: seq<string>, i: nat)
    requires RunAll(service, decode, metadataOf, "full", ids).error.None?
    requires i < |ids|
    ensures metadataOf(ids[i]).Ok? && "date" in metadataOf(ids[i]).value
    ensures FetchRawMessage(service, decode, ids[i]).Ok?
    ensures SavedEml(ids[i], metadataOf(ids[i]).value["date"], FetchRawMessage(service, decode, ids[i]).value)
      in RunAll(service, decode, metadataOf, "full", ids).steps
  {
    var item := Iteration(service, decode, metadataOf, "full");
    RunEachInOrder(item, ids);
    RunEachEachSucceeds(item, ids, i);
    assert item(ids[i]) == ItemRun(service, decode, metadataOf, "full", ids[i]);
    FullIterationSavesEml(service, decode, metadataOf, ids[i]);
    var saved := SavedEml(ids[i], metadataOf(ids[i]).value["date"], FetchRawMessage(service, decode, ids[i]).value);
    FlattenContains(Items(item, ids), i, saved);
  }

  /** In `full` mode, a loop that raised at `ids[j]` had already saved the decoded raw message
      of every id before it, under the date its metadata gives. */
  lemma FullModeSavesEmlUntilFailure(service: Mailbox, decode: Decoder, metadataOf: string -> Result<Metadata, ApiError>, ids: seq<string>)
    requires RunAll(service, decode, metadataOf, "full", ids).error.Some?
    ensures exists j: nat :: (FailedAt(Iteration(service, decode, metadataOf, "full"), ids, j)
      && forall i :: 0 <= i < j ==> SavesEml(service, decode, metadataOf, ids[i], RunAll(service, decode, metadataOf, "full", ids).steps))
  {
    var item := Iteration(service, decode, metadataOf, "full");
    RunEachFirstFailure(item, ids);
    var j: nat :| FailedAt(item, ids, j);
    var items := Items(item, ids[..j]);
    forall i | 0 <= i < j
      ensures SavesEml(service, decode, metadataOf, ids[i], RunAll(service, decode, metadataOf, "full", ids).steps)
    {
      assert item(ids[i]) == ItemRun(service, decode, metadataOf, "full", ids[i]);
      FullIterationSavesEml(service, decode, metadataOf, ids[i]);
      var saved := SavedEml(ids[i], metadataOf(ids[i]).value["date"], FetchRawMessage(service, decode, ids[i]).value);
      assert ids[..j][i] == ids[i];
      FlattenContains(items, i, saved);
    }
    assert FailedAt(item, ids, j);
  }

  /** The attachment part of the loop body: fetch the attachments, save them when there are any. */
  method ProcessAttachments(service: Mailbox, decode: Decoder, id: string, date: string)
    returns (steps: seq<Step>, error: Option<SyncError>)
    ensures Run(steps, error) == AttachmentSteps(service, decode, id, date)
  {
    steps := [FetchedAttachments(id)];
    var attachments := FetchAttachments(service, decode, id);
    if attachments.Err? {
      return steps, Some(Api(attachments.error));
    }
    if attachments.value != [] {
      steps := steps + [SavedAttachments(id, date, attachments.value)];
    }
    error := None;
  }

  /** The mode dispatch of the loop body. */
  method ProcessMode(service: Mailbox, decode: Decoder, mode: string, id: string, date: string)
    returns (steps: seq<Step>, error: Option<SyncError>)
    ensures Run(steps, error) == ModeSteps(service, decode, mode, id, date)
  {
    steps := [];
    if mode == "full" {
      steps := [FetchedRaw(id)];
      var raw := FetchRawMessage(service, decode, id);
      if raw.Err? {
        return steps, Some(Api(raw.error));
      }
      steps := steps + [SavedEml(id, date, raw.value)];
    }
    error := None;
    if mode == "full" || mode == "attachments_only" {
      var more, moreError := ProcessAttachments(service, decode, id, date);
      steps, error := steps + more, moreError;
    }
  }

  /** `for msg_id in new_ids`: the loop body of `main`, for one id. */
  method ProcessOne(service: Mailbox, decode: Decoder, metadataOf: string -> Result<Metadata, ApiError>, mode: string, id: string)
    returns (steps: seq<Step>, error: Option<SyncError>)
    ensures Run(steps, error) == ItemRun(service, decode, metadataOf, mode, id)
  {
    steps := [FetchedMetadata(id)];
    var metadata := metadataOf(id);
    if metadata.Err? {
      return steps, Some(Api(metadata.error));
    }
    if "date" !in metadata.value {
      return steps, Some(MissingDate(id));
    }
    var date := metadata.value["date"];
    var body, bodyError := ProcessMode(service, decode, mode, id, date);
    steps := steps + body;
    if bodyError.Some? {
      return steps, bodyError;
    }
    steps := steps + [SavedMetadata(id, date, metadata.value)];
    error := None;
  }

  /** The loop of `main`, one id further after the ids before it ended without error. */
  lemma RunAllStep(service: Mailbox, decode: Decoder, metadataOf: string -> Result<Metadata, ApiError>, mode: string,
                   ids: seq<string>, i: nat, steps: seq<Step>, run: Run)
    requires i < |ids|
    requires RunAll(service, decode, metadataOf, mode, ids[..i]) == Run(steps, None)
    requires run == ItemRun(service, decode, metadataOf, mode, ids[i])
    ensures RunAll(service, decode, metadataOf, mode, ids[..i + 1]) == Run(steps + run.steps, run.error)
  {
    assert ids[..i + 1] == ids[..i] + [ids[i]];
    RunEachSnoc(Iteration(service, decode, metadataOf, mode), ids[..i], ids[i]);
  }

  /** A loop that failed at some id stays failed whatever ids follow. */
  lemma RunAllStop(service: Mailbox, decode: Decoder, metadataOf: string -> Result<Metadata, ApiError>, mode: string,
                   ids: seq<string>, i: nat)
    requires i <= |ids|
    requires RunAll(service, decode, metadataOf, mode, ids[..i]).error.Some?
    ensures RunAll(service, decode, metadataOf, mode, ids) == RunAll(service, decode, metadataOf, mode, ids[..i])
  {
    assert ids == ids[..i] + ids[i..];
    RunEachKeepsError(Iteration(service, decode, metadataOf, mode), ids[..i], ids[i..]);
  }

  /** The loop of `main` over the new ids. */
  method ProcessNewIds(service: Mailbox, decode: Decoder, metadataOf: string -> Result<Metadata, ApiError>, mode: string, newIds: seq<string>)
    returns (steps: seq<Step>, error: Option<SyncError>)
    ensures Run(steps, error) == RunAll(service, decode, metadataOf, mode, newIds)
  {
    steps, error := [], None;
    for i := 0 to |newIds|
      invariant RunAll(service, decode, metadataOf, mode, newIds[..i]) == Run(steps, None)
      invariant error.None?
    {
      var itemSteps, itemError := ProcessOne(service, decode, metadataOf, mode, newIds[i]);
      RunAllStep(service, decode, metadataOf, mode, newIds, i, steps, Run(itemSteps, itemError));
      steps := steps + itemSteps;
      if itemError.Some? {
        RunAllStop(service, decode, metadataOf, mode, newIds, i + 1);
        return steps, itemError;
      }
    }
    assert newIds[..|newIds|] == newIds;
  }

  // ---------------------------------------------------------------------------
  // main

  /** What the metadata scan of the target directory reports: the ids already downloaded
      and the date of the most recent one, if any. */
  datatype Scan = Scan(downloaded: set<string>, mostRecentDate: Option<string>)

  /** `Path(profile_dir) / profile`. */
  function ProfilePath(profileDir: string, profile: string): Path
  {
    Child(Parse(profileDir), profile)
  }

  /** What `main` does once the configuration is loaded: the target directory is created,
      then the search is made with the scan's resumption date, then the new ids are processed.
      A failed `mkdir` or search ends the command before any id is processed. */
  function TargetRun(t: Tree, cwd: Location, config: ProfileConfig,
                     service: Mailbox, decode: Decoder, metadataOf: string -> Result<Metadata, ApiError>,
                     scan: string -> Scan, search: (string, Option<string>) -> Result<seq<string>, ApiError>): (r: Run)
    requires IsDir(t, Root)
    ensures MakeDirsResult(t, Resolve(cwd, Parse(config.targetDirectory))).Err? ==>
      r == Run([], Some(TargetNotCreated(MakeDirsResult(t, Resolve(cwd, Parse(config.targetDirectory))).error)))
    ensures MakeDirsResult(t, Resolve(cwd, Parse(config.targetDirectory))).Ok? ==>
      var found := search(config.filter, scan(config.targetDirectory).mostRecentDate);
      && (found.Err? ==> r == Run([], Some(Api(found.error))))
      && (found.Ok? ==> r == RunAll(service, decode, metadataOf, config.mode, NewIds(found.value, scan(config.targetDirectory).downloaded)))
  {
    var made := MakeDirsResult(t, Resolve(cwd, Parse(config.targetDirectory)));
    if made.Err? then Run([], Some(TargetNotCreated(made.error)))
    else
      var scanned := scan(config.targetDirectory);
      var found := search(config.filter, scanned.mostRecentDate);
      if found.Err? then Run([], Some(Api(found.error)))
      else RunAll(service, decode, metadataOf, config.mode, NewIds(found.value, scanned.downloaded))
  }

  /** The part of `main` after the configuration is loaded: create the target directory, scan
      it, search for the filter, and process the ids not yet downloaded. Only the `mkdir`
      changes the tree. */
  method SyncTarget(disk: Disk, config: ProfileConfig,
                    service: Mailbox, decode: Decoder, metadataOf: string -> Result<Metadata, ApiError>,
                    scan: string -> Scan, search: (string, Option<string>) -> Result<seq<string>, ApiError>)
    returns (steps: seq<Step>, error: Option<SyncError>)
    requires disk.Valid()
    modifies disk
    ensures disk.Valid()
    ensures disk.tree == After(old(disk.tree), MakeDirsResult(old(disk.tree), Resolve(disk.cwd, Parse(config.targetDirectory))))
    ensures Run(steps, error) == TargetRun(old(disk.tree), disk.cwd, config, service, decode, metadataOf, scan, search)
  {
    var made := disk.MakeDirs(Parse(config.targetDirectory));
    if made.Fail? {
      return [], Some(TargetNotCreated(made.error));
    }
    var scanned := scan(config.targetDirectory);
    var found := search(config.filter, scanned.mostRecentDate);
    if found.Err? {
      return [], Some(Api(found.error));
    }
    var newIds := NewIds(found.value, scanned.downloaded);
    steps, error := ProcessNewIds(service, decode, metadataOf, config.mode, newIds);
  }

  /** What `main(profile, profile_dir)` does: a missing profile directory raises before anything
      else; then the configuration is loaded, and a failure to load it ends the command. */
  function SyncRun(t: Tree, cwd: Location, profileDir: string, profile: string, parse: Bytes -> YamlDoc,
                   service: Mailbox, decode: Decoder, metadataOf: string -> Result<Metadata, ApiError>,
                   scan: string -> Scan, search: (string, Option<string>) -> Result<seq<string>, ApiError>): (r: Run)
    requires IsDir(t, Root)
    ensures !IsDir(t, Resolve(cwd, ProfilePath(profileDir, profile))) ==>
      r == Run([], Some(ProfileNotFound(ProfilePath(profileDir, profile))))
    ensures IsDir(t, Resolve(cwd, ProfilePath(profileDir, profile))) ==>
      var loaded := ConfigOf(t, cwd, ProfilePath(profileDir, profile), parse);
      && (loaded.Err? ==> r == Run([], Some(BadConfig(loaded.error))))
      && (loaded.Ok? ==> r == TargetRun(t, cwd, loaded.value, service, decode, metadataOf, scan, search))
  {
    var profilePath := ProfilePath(profileDir, profile);
    if !IsDir(t, Resolve(cwd, profilePath)) then Run([], Some(ProfileNotFound(profilePath)))
    else
      var loaded := ConfigOf(t, cwd, profilePath, parse);
      if loaded.Err? then Run([], Some(BadConfig(loaded.error)))
      else TargetRun(t, cwd, loaded.value, service, decode, metadataOf, scan, search)
  }

  /** The tree after `main`, as far as the changes this model tracks go: the target directory's
      `mkdir`, made only once the profile and its configuration were found. The saves and the
      token file written during authentication are not part of it. */
  function SyncTree(t: Tree, cwd: Location, profileDir: string, profile: string, parse: Bytes -> YamlDoc): (r: Tree)
    requires IsDir(t, Root)
    ensures !IsDir(t, Resolve(cwd, ProfilePath(profileDir, profile))) ==> r == t
    ensures ConfigOf(t, cwd, ProfilePath(profileDir, profile), parse).Err? ==> r == t
    ensures forall x :: x in t ==> x in r && r[x] == t[x]
  {
    var profilePath := ProfilePath(profileDir, profile);
    var loaded := ConfigOf(t, cwd, profilePath, parse);
    if !IsDir(t, Resolve(cwd, profilePath)) || loaded.Err? then t
    else After(t, MakeDirsResult(t, Resolve(cwd, Parse(loaded.value.targetDirectory))))
  }

  /** With authentication and the saves taken to succeed, `main` ends without error exactly
      when the profile directory exists, the configuration loads, the target directory can be
      created, the search succeeds and every new id is processed without error. */
  lemma SyncSucceeds(t: Tree, cwd: Location, profileDir: string, profile: string, parse: Bytes -> YamlDoc,
                     service: Mailbox, decode: Decoder, metadataOf: string -> Result<Metadata, ApiError>,
                     scan: string -> Scan, search: (string, Option<string>) -> Result<seq<string>, ApiError>)
    requires IsDir(t, Root)
    ensures var r := SyncRun(t, cwd, profileDir, profile, parse, service, decode, metadataOf, scan, search);
      var loaded := ConfigOf(t, cwd, ProfilePath(profileDir, profile), parse);
      r.error.None? <==>
        && IsDir(t, Resolve(cwd, ProfilePath(profileDir, profile)))
        && loaded.Ok?
        && MakeDirsResult(t, Resolve(cwd, Parse(loaded.value.targetDirectory))).Ok?
        && var target := loaded.value.targetDirectory;
           && search(loaded.value.filter, scan(target).mostRecentDate).Ok?
           && RunAll(service, decode, metadataOf, loaded.value.mode,
                     NewIds(search(loaded.value.filter, scan(target).mostRecentDate).value, scan(target).downloaded)).error.None?
  {
  }

  /** `main(profile, profile_dir)`: authentication and the progress messages are not modelled. */
  method Sync(disk: Disk, profileDir: string, profile: string, parse: Bytes -> YamlDoc,
              service: Mailbox, decode: Decoder, metadataOf: string -> Result<Metadata, ApiError>,
              scan: string -> Scan, search: (string, Option<string>) -> Result<seq<string>, ApiError>)
    returns (steps: seq<Step>, error: Option<SyncError>)
    requires disk.Valid()
    modifies disk
    ensures disk.Valid()
    ensures disk.tree == SyncTree(old(disk.tree), disk.cwd, profileDir, profile, parse)
    ensures Run(steps, error) == SyncRun(old(disk.tree), disk.cwd, profileDir, profile, parse, service, decode, metadataOf, scan, search)
  {
    var profilePath := ProfilePath(profileDir, profile);
    if !IsDir(disk.tree, Resolve(disk.cwd, profilePath)) {
      return [], Some(ProfileNotFound(profilePath));
    }
    var loaded := LoadConfig(disk, profilePath, parse);
    if loaded.Err? {
      return [], Some(BadConfig(loaded.error));
    }
    steps, error := SyncTarget(disk, loaded.value, service, decode, metadataOf, scan, search);
  }
}
