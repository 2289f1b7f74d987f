# gmail-streamer, modelled in Dafny

gmail-streamer downloads the Gmail messages that match a profile's search filter. A profile is a
directory holding `config.yaml`. The configuration gives the filter, the target directory and a
storage mode. In `full` mode every new message is stored as a raw `.eml` file together with its
attachments. In `attachments_only` mode only the attachments are stored.

This project models the core of the program in Dafny and proves properties of that model:

- **`gmail_client.py`**:
  - the paginated message search;
  - the raw-message fetch;
  - the attachment extraction.
- **`state.py`**: the record of downloaded ids.
- **`storage.py`**: writing messages and attachments into the target directory.
- **`config.py`**:
  - the configuration and its mode check;
  - the resolution of a relative target directory.
- **`paths.py`**: the profile lookup rules.
- **`cli.py`**: the command itself.
  - It checks the profile, loads the configuration and creates the target.
  - It computes the ids not downloaded yet.
  - It runs the per-id dispatch, which depends on the mode.

The modules:

- `Results`: `Result`, `Outcome` and `Option`.
- `Seqs`: order-preserving filtering and flattening of sequences.
- `Order`: Python's string ordering, by code point, and sorting a set of names.
- `FileSystem`:
  - `pathlib` paths: parsing, `str()`, `/`, and `resolve()` against a working directory;
  - a directory tree `map<Path, Node>`;
  - the class `Disk`, whose `MakeDirs` and `WriteBytes` change the tree in place.
- `GmailClient`:
  - the service is a `Mailbox` value: the sequence of answers to the list requests, and the answers to `get`, `get(format="raw")` and `attachments().get`;
  - base64 decoding is a `Decoder` function;
  - `SearchMessages` and `FetchAttachments` are loops proved against the reference functions `Paginate` and `AttachmentsOf`.
- `StateFile`: the class `State`. The JSON files it reads and writes are the class `JsonStore`, a map from resolved locations to lists of strings.
- `Storage`:
  - `SaveEml` and `SaveAttachments` act on a `Disk`;
  - each is proved to produce the tree given by the functions `SaveEmlEffect` and `SaveAttachmentsEffect`.
- `Config`:
  - `ProfileConfig`;
  - the keyword-argument and mode checks, in `FromDocument` and `NewProfileConfig`;
  - `LoadConfig` on a `Disk`. The YAML parser is a parameter.
- `ProfilePaths`: `get_profiles_dir`, `resolve_profile` and `list_profiles` as functions of a directory tree.
- `Cli`:
  - `Sync` is `main`;
  - the loop over the new ids produces a `Run`: the ordered list of fetch and save steps it performs, plus the error that ended it, if any;
  - the functions `ItemRun` and `RunAll` state what that run is, and the loop methods are proved equal to them.

An error the source raises is an `Err`, or `Some(error)`, that reaches the caller unchanged. The
source catches no exception anywhere in the modelled code.

## Model

| member | source | states |
|---|---|---|
| GmailClient.LastRequest | src/gmail_streamer/gmail_client.py:8-12 | the loop runs up to the first answer that raised or has no next request, and no earlier answer stops it |
| GmailClient.PaginateExecutesEachPage | src/gmail_streamer/gmail_client.py:6-13 | every request up to the last one is executed once, in order: the search raises the last request's error, or returns all pages' ids, page after page, each page in its own order |
| GmailClient.IdsOfConcat | src/gmail_streamer/gmail_client.py:10-11 | the ids of two stretches of pages are the ids of the first followed by those of the second |
| GmailClient.PageWithoutMessages | src/gmail_streamer/gmail_client.py:10 | a page without a `messages` key but with a next-page token adds nothing and does not stop the search |
| GmailClient.IdsOfSnoc | src/gmail_streamer/gmail_client.py:10-11 | one more page's ids are appended after those of the earlier pages |
| GmailClient.AppendPage | src/gmail_streamer/gmail_client.py:10-11 | the inner loop appends the page's ids to the list, in order |
| GmailClient.SearchMessages | src/gmail_streamer/gmail_client.py:4-13 | the `while request` loop returns exactly `Paginate` of the answers, and executes exactly `LastRequest + 1` requests |
| GmailClient.FetchRawMessage | src/gmail_streamer/gmail_client.py:16-19 | the result is the decoded `raw` field, or the request's error when it raised |
| GmailClient.AttachmentParts | src/gmail_streamer/gmail_client.py:26-30 | only parts with a non-empty filename and a non-empty attachment id are fetched, and each is a part of the message |
| GmailClient.AttachmentPartsExact | src/gmail_streamer/gmail_client.py:26-30 | a part is fetched iff it is in the message and has both keys; it is fetched as often as it occurs |
| GmailClient.AttachmentPartsConcat | src/gmail_streamer/gmail_client.py:26-30 | the attachment parts of a longer parts list are those of its beginning followed by those of the rest, so the parts' order is kept |
| GmailClient.AttachmentsOf | src/gmail_streamer/gmail_client.py:22-40 | a failed `get` is raised; a message without `payload` or `parts` yields an empty list |
| GmailClient.DownloadAllOneEach | src/gmail_streamer/gmail_client.py:26-39 | on success there is one entry per attachment part, in the parts' order, named after the part and holding the decode of the data fetched for its id |
| GmailClient.DownloadAllFirstFailure | src/gmail_streamer/gmail_client.py:31-37 | a failure is the error of the first part whose download raised; every earlier download succeeded |
| GmailClient.DownloadAllKeepsError | src/gmail_streamer/gmail_client.py:31-37 | after a download raised, the later parts change nothing |
| GmailClient.DownloadNextPart | src/gmail_streamer/gmail_client.py:26-39 | one more part adds its download when it is an attachment part, and nothing otherwise |
| GmailClient.DownloadPartsStep | src/gmail_streamer/gmail_client.py:26-39 | one iteration of the parts loop: a non-attachment part changes nothing; an attachment part appends its download or ends with its error |
| GmailClient.DownloadPartsStop | src/gmail_streamer/gmail_client.py:31-37 | once a download raised, the remaining parts leave the result unchanged |
| GmailClient.DownloadParts | src/gmail_streamer/gmail_client.py:25-40 | the `for part` loop returns exactly the reference list of downloads of the attachment parts, or the first error |
| GmailClient.FetchAttachments | src/gmail_streamer/gmail_client.py:22-40 | `fetch_attachments` returns exactly `AttachmentsOf` the message |
| StateFile.StoredIds | src/gmail_streamer/state.py:12-14 | the ids of a state file are exactly the strings it lists; a missing file lists none |
| StateFile.State.constructor | src/gmail_streamer/state.py:6-9 | a new state has the given path and the ids of its file, so none when the file does not exist |
| StateFile.State.Load | src/gmail_streamer/state.py:11-14 | an existing file at the location the path resolves to replaces the ids with those it lists; otherwise they are kept |
| StateFile.State.Save | src/gmail_streamer/state.py:16-18 | the file at the location the path resolves to becomes the ids, strictly ascending and so without repeats, listing exactly the ids held; no other file changes |
| StateFile.State.IsDownloaded | src/gmail_streamer/state.py:20-21 | true iff the id is held; nothing changes |
| StateFile.State.MarkDownloaded | src/gmail_streamer/state.py:23-24 | the id is held afterwards; every other id keeps its membership; marking an id already held changes nothing |
| StateFile.SaveThenReload | src/gmail_streamer/state.py:9-18 | loading the file another state saved gives back exactly its ids |
| Order.SortedNames | src/gmail_streamer/state.py:18 | `sorted` of a set: strictly ascending, with the same elements and no repeats |
| Order.SortedListingUnique | src/gmail_streamer/paths.py:35-38 | a strictly ascending listing of a set of names is the sorted one: the result of `sorted` is determined |
| FileSystem.Parse | src/gmail_streamer/config.py:25-26 | `Path(s)` is absolute iff `s` starts with a slash |
| FileSystem.ParseRender | src/gmail_streamer/config.py:27 | `Path(str(p))` is `p` again |
| FileSystem.ResolveLocation | src/gmail_streamer/paths.py:15 | an already resolved path resolves to itself, from any working directory |
| FileSystem.CollapseKeepsComponents | src/gmail_streamer/paths.py:15 | resolving only removes components: every component of the resolved path comes from the path joined to the working directory |
| FileSystem.ResolveIdempotent | src/gmail_streamer/paths.py:27 | resolving twice is resolving once |
| FileSystem.ResolveChild | src/gmail_streamer/storage.py:13 | a relative name without ".." resolves under the resolved directory |
| FileSystem.ResolveJoinResolved | src/gmail_streamer/config.py:27 | joining to a directory and resolving depends only on where the directory resolves to |
| FileSystem.MakeDirsResult | src/gmail_streamer/storage.py:5 | `mkdir(parents=True, exist_ok=True)`: on success the path is a directory, existing entries are unchanged and only its missing ancestors are added; it fails only when the path or an ancestor is a file, and succeeds whenever none is; it raises `FileExistsError` iff the path itself is a file |
| FileSystem.MakeDirsExisting | src/gmail_streamer/storage.py:11 | an existing directory is not an error and changes nothing |
| FileSystem.MakeDirsIdempotent | src/gmail_streamer/storage.py:5 | creating the directories a second time changes nothing |
| FileSystem.MakeDirsKeepsClosed | src/gmail_streamer/storage.py:5 | when every entry sits in a directory of the tree, it still does after `mkdir`: each new level sits in the level above it |
| FileSystem.WalkError | src/gmail_streamer/storage.py:6 | path lookup walks down from the root: it passes iff every ancestor is a directory, and otherwise raises `FileNotFoundError` or `NotADirectoryError` |
| FileSystem.WalkErrorAt | src/gmail_streamer/storage.py:6 | the first ancestor that is not a directory decides the error: missing gives `FileNotFoundError`, a file gives `NotADirectoryError` |
| FileSystem.WriteResult | src/gmail_streamer/storage.py:6 | `write_bytes` succeeds iff every ancestor is a directory and the path is not one; it then adds or overwrites exactly that path with the data; otherwise it raises the walk's error, or `IsADirectoryError` |
| FileSystem.WriteInClosedTree | src/gmail_streamer/storage.py:6 | in a tree where every entry sits in a directory, the write succeeds iff the parent is a directory and the path is not one |
| FileSystem.WriteKeepsClosed | src/gmail_streamer/storage.py:6 | when every entry sits in a directory of the tree, it still does after `write_bytes` |
| FileSystem.Disk.ClimbToExisting | src/gmail_streamer/storage.py:5 | `mkdir(parents=True)` climbs from the path to its deepest existing ancestor |
| FileSystem.Disk.AddMissingLevels | src/gmail_streamer/storage.py:5 | it then adds exactly the missing levels below that ancestor, as directories |
| FileSystem.Disk.MakeDirs | src/gmail_streamer/storage.py:5 | the disk's tree and the outcome become those of `MakeDirsResult` |
| FileSystem.Disk.WriteBytes | src/gmail_streamer/storage.py:6 | the disk's tree and the outcome become those of `WriteResult` |
| Storage.SaveEmlEffect | src/gmail_streamer/storage.py:4-6 | on success `{msg_id}.eml` holds exactly `raw`; no other existing path changes; new paths are the file and the directories leading to the target |
| Storage.SaveEml | src/gmail_streamer/storage.py:4-6 | `save_eml` leaves the tree and outcome of `SaveEmlEffect` |
| Storage.SaveAttachmentsEffect | src/gmail_streamer/storage.py:9-13 | an empty list still creates `target_dir/msg_id` and writes no file |
| Storage.WriteEachSnoc | src/gmail_streamer/storage.py:12-13 | one more attachment is written unless an earlier write failed |
| Storage.LaterAttachmentWins | src/gmail_streamer/storage.py:12-13 | after a successful run each destination holds the data of the last attachment written to it |
| Storage.WriteEachKeepsOthers | src/gmail_streamer/storage.py:12-13 | no path other than the destinations changes |
| Storage.WriteEachAddsDestinations | src/gmail_streamer/storage.py:12-13 | every path added is the destination of some attachment |
| Storage.WriteEachKeepsFailure | src/gmail_streamer/storage.py:12-13 | a failed write leaves the later attachments unwritten |
| Storage.StaysInside | src/gmail_streamer/storage.py:10-13 | a relative filename without ".." is written inside the attachment directory |
| Storage.AbsoluteFilenameIgnoresDirectory | src/gmail_streamer/storage.py:13 | an absolute filename is written at that path, whatever the directory |
| Storage.WriteEachStep | src/gmail_streamer/storage.py:12-13 | one iteration of the loop writes the next attachment into the tree left by the previous ones |
| Storage.WriteEachStop | src/gmail_streamer/storage.py:12-13 | once a write failed, the remaining attachments leave the result unchanged |
| Storage.WriteAttachments | src/gmail_streamer/storage.py:12-13 | the `for att` loop leaves the tree and outcome of `WriteEach` |
| Storage.SaveAttachments | src/gmail_streamer/storage.py:9-13 | `save_attachments` leaves the tree and outcome of `SaveAttachmentsEffect` |
| Config.NewProfileConfig | src/gmail_streamer/config.py:7-15 | a mode outside `full`/`attachments_only` raises `ValueError`; an omitted mode is `full`; filter and target are kept as given |
| Config.FromDocument | src/gmail_streamer/config.py:23-24 | a non-mapping, an unknown key or a missing required key raises `TypeError`; a well-formed mapping gives exactly what the constructor gives for its fields, so a bad `mode` raises `ValueError` naming that mode; `ValueError` arises only that way |
| Config.FromDocumentRoundTrip | src/gmail_streamer/config.py:9-11 | a configuration written as a document reads back as itself; without `mode` it reads back in mode `full` |
| Config.ResolvedTarget | src/gmail_streamer/config.py:25-27 | an absolute target is unchanged; a relative one becomes `profile_dir / target`, resolved; the result is always absolute |
| Config.ResolvedTargetIdempotent | src/gmail_streamer/config.py:25-27 | a target that was already resolved is kept as it is |
| Config.ResolvedTargetFollowsProfile | src/gmail_streamer/config.py:27 | a relative target depends only on where the profile directory resolves to |
| Config.ConfigOf | src/gmail_streamer/config.py:18-28 | on every path: a missing `config.yaml` raises `FileNotFoundError` before any parsing; a directory raises `IsADirectoryError` on open; a file gives the constructor's error, or its configuration with only the target replaced by the resolved one; a success has a valid mode and an absolute target |
| Config.LoadConfig | src/gmail_streamer/config.py:18-28 | `load_config` returns or raises exactly what `ConfigOf` gives for the disk's tree |
| ProfilePaths.DefaultProfilesDir | src/gmail_streamer/paths.py:3-4 | the default is `~/.gmail-streamer/profiles` |
| ProfilePaths.GetProfilesDir | src/gmail_streamer/paths.py:7-16 | a non-empty override wins and is returned resolved; `None` or an empty override gives the default |
| ProfilePaths.OverrideStable | src/gmail_streamer/paths.py:14-15 | the directory an override produced, passed back as the override, gives the same directory |
| ProfilePaths.ResolveProfile | src/gmail_streamer/paths.py:19-28 | a name that is an existing directory is returned resolved; any other name gives `profiles_dir / name` |
| ProfilePaths.ResolveProfileStable | src/gmail_streamer/paths.py:25-27 | a profile found as a directory is found again, unchanged, under its resolved path |
| ProfilePaths.ProfileNames | src/gmail_streamer/paths.py:36-37 | a name is collected iff it is a subdirectory holding `config.yaml` |
| ProfilePaths.ListProfiles | src/gmail_streamer/paths.py:31-38 | `[]` when the directory does not exist; otherwise sorted ascending, and every name is a subdirectory holding `config.yaml` |
| ProfilePaths.ListProfilesComplete | src/gmail_streamer/paths.py:35-38 | every such subdirectory is listed, and no name is listed twice |
| Cli.NewIds | src/gmail_streamer/cli.py:38 | no new id is downloaded already, every one is listed, and there are no more of them than listed ids |
| Cli.NewIdsExact | src/gmail_streamer/cli.py:38 | an id is new iff it is listed and not downloaded, and it is kept as often as the listing repeats it |
| Cli.NewIdsKeepOrder | src/gmail_streamer/cli.py:38 | the diff keeps the listing's order |
| Cli.NewIdsNothingDownloaded | src/gmail_streamer/cli.py:38 | with nothing downloaded, every listed id is new |
| Cli.NewIdsAfterDownload | src/gmail_streamer/cli.py:38 | once the new ids are downloaded, the same listing has nothing new |
| Cli.AttachmentSteps | src/gmail_streamer/cli.py:50-52 | the fetch comes first; it fails iff the fetch raised; a non-empty list is saved |
| Cli.ModeSteps | src/gmail_streamer/cli.py:47-57 | in `full` mode the raw fetch comes first, and a successful run saves the decoded raw message |
| Cli.ItemRun | src/gmail_streamer/cli.py:44-61 | each iteration fetches the metadata first; a successful one has a date and saves the metadata last |
| Cli.ModeStepsFacts | src/gmail_streamer/cli.py:47-59 | the mode steps concern the message, never touch its metadata, never touch the raw message outside `full` mode, and save only a non-empty fetched attachment list |
| Cli.ItemRunSteps | src/gmail_streamer/cli.py:41-61 | within one iteration every step concerns its id; the metadata is fetched only first and saved only last; the other facts of `ModeStepsFacts` hold |
| Cli.RunEachSnoc | src/gmail_streamer/cli.py:41 | one more id runs its iteration unless an earlier one raised |
| Cli.RunEachKeepsError | src/gmail_streamer/cli.py:41-61 | an exception ends the loop: later ids are not processed |
| Cli.Items | src/gmail_streamer/cli.py:41 | one entry per id, in order, holding that id's iteration |
| Cli.RunEachInOrder | src/gmail_streamer/cli.py:41 | a loop that ends without error is the iterations of the new ids, one each, in order |
| Cli.RunEachEachSucceeds | src/gmail_streamer/cli.py:41-61 | in a loop without error, every iteration succeeds |
| Cli.RunEachStepOrigin | src/gmail_streamer/cli.py:41-61 | every step of the loop belongs to the iteration of one of the ids |
| Cli.AttachmentsOnlyNeverRaw | src/gmail_streamer/cli.py:54-59 | in `attachments_only` mode no raw message is ever fetched or saved |
| Cli.AttachmentsSavedOnlyWhenPresent | src/gmail_streamer/cli.py:51-52 | in both modes attachments are saved only when the fetched list is non-empty, and what is saved is that list |
| Cli.RunEachFirstFailure | src/gmail_streamer/cli.py:41-61 | a loop that raised stopped at the first id whose iteration raised: the earlier iterations ran in full and in order, then the failing one up to its error |
| Cli.MetadataFirstAndLastUntilFailure | src/gmail_streamer/cli.py:41-61 | in a loop that raised, every id before the failing one had its metadata fetched first and saved last; the failing one fetched its metadata first and raised the loop's error |
| Cli.FullIterationSavesEml | src/gmail_streamer/cli.py:44-49 | in `full` mode an iteration without error saved the decoded raw message under its metadata date |
| Cli.FullModeSavesEmlUntilFailure | src/gmail_streamer/cli.py:41-61 | in `full` mode a loop that raised at some id had saved the decoded raw message of every id before it, under its metadata date |
| Cli.MetadataFirstAndLast | src/gmail_streamer/cli.py:41-61 | for every processed id the metadata is fetched first and saved last, and the run is the iterations in the order of the new ids |
| Cli.FullModeSavesEveryEml | src/gmail_streamer/cli.py:47-49 | in `full` mode the decoded raw message of every new id is saved, under its metadata date |
| Cli.ProcessAttachments | src/gmail_streamer/cli.py:50-52 | the attachment lines perform exactly `AttachmentSteps` |
| Cli.ProcessMode | src/gmail_streamer/cli.py:47-59 | the mode dispatch performs exactly `ModeSteps` |
| Cli.ProcessOne | src/gmail_streamer/cli.py:42-61 | the loop body performs exactly `ItemRun` for its id |
| Cli.RunAllStep | src/gmail_streamer/cli.py:41-61 | one more id appends its iteration's steps after a loop that has not failed |
| Cli.RunAllStop | src/gmail_streamer/cli.py:41-61 | a loop that failed at some id stays failed whatever ids follow |
| Cli.ProcessNewIds | src/gmail_streamer/cli.py:41-61 | the `for msg_id` loop performs exactly `RunAll` of the new ids |
| Cli.TargetRun | src/gmail_streamer/cli.py:26-61 | a failed `mkdir` of the target or a failed search ends the command with that error and no step; otherwise the run is `RunAll` over the listed ids not yet downloaded, searched from the scan's most recent date |
| Cli.SyncTarget | src/gmail_streamer/cli.py:26-61 | only the target's `mkdir` changes the tree; the steps and error are those of `TargetRun` |
| Cli.SyncRun | src/gmail_streamer/cli.py:19-61 | a missing profile directory raises before anything is loaded; a configuration that does not load ends the command with its error and no step; otherwise the command continues as `TargetRun` |
| Cli.SyncTree | src/gmail_streamer/cli.py:21-27 | of the changes this model tracks, which are those of the target's `mkdir`: the tree is unchanged when the profile is missing or its configuration does not load, and no existing entry changes |
| Cli.SyncSucceeds | src/gmail_streamer/cli.py:19-61 | with authentication and the saves taken to succeed, `main` ends without error iff the profile exists, the configuration loads, the target can be created, the search succeeds and every new id is processed without error |
| Cli.Sync | src/gmail_streamer/cli.py:19-61 | `main` leaves the tree of `SyncTree` and performs exactly the steps and error of `SyncRun` |

## Left out

- `auth.py`, the OAuth flow and the Google client construction: foreign I/O. The authenticated service is the `Mailbox` parameter, so authentication is taken to succeed. Its `FileNotFoundError` for missing credentials and its write of `token.json` into the profile directory are not modelled.
- `hatch_build.py`: packaging.
- `execute()` and `list_next`: the list requests are the sequence of answers they return.
  - A next request exists iff the page carries a non-empty `nextPageToken`.
  - `SearchMessages` requires the answers to contain one that ends the chain. An endless cursor chain is not modelled.
- `base64.urlsafe_b64decode`: a total `Decoder` parameter. Decoding errors are not modelled.
- `yaml.safe_load`: a parameter from the file's bytes to a `YamlDoc`. Only string values are modelled. A YAML value of another type (a number, a list) is not distinguished.
- JSON encoding of the state file: the file is a list of strings in `JsonStore`. Malformed JSON is not modelled.
- `Path.resolve()`: modelled as joining to the working directory and collapsing ".." lexically. Symbolic links are not modelled. A leading `//` is not treated specially.
- File permissions, disk-full and other I/O errors are not modelled. For `mkdir`, `write_bytes` and `open` in `storage.py` and `config.py`, the `FileExistsError`, `NotADirectoryError`, `FileNotFoundError` and `IsADirectoryError` a tree can cause are modelled.
- FileSystem.Disk.MakeDirs: a path is looked up at the location it resolves to lexically, ".." removing the component before it. The operating system walks ".." through the directories that actually exist. So `mkdir` of `d/x/../y` creates `d/y` but not `d/x`.
- FileSystem.Disk.WriteBytes: the same lexical lookup. So `missing/../f` is written as `f`, where the system raises `FileNotFoundError`.
- The lexical lookup of the two lines above also governs `Storage.SaveEml`, `Storage.SaveAttachments`, `Config.LoadConfig` and `ProfilePaths.ResolveProfile`. For paths without "..", it agrees with the operating system's walk. Attachment filenames come from the message and may contain "..": for those the two can differ.
- StateFile.State.Load: never fails. `JsonStore` holds documents, not a directory tree, so a state path that names a directory does not raise `IsADirectoryError` (state.py:13).
- StateFile.State.Save: never fails. A directory at the state path does not raise `IsADirectoryError`, and a missing parent directory does not raise `FileNotFoundError` (state.py:17).
- `click.echo` output and the option parsing of `main`: the profile name and the profile directory (default `./profiles`) are parameters of `Sync`.
- `Cli.Sync`: several collaborators `main` calls are not part of this model.
  - `fetch_message_metadata`, `scan_downloaded_metadata` and `save_metadata` are absent from the modelled files.
  - The metadata fetch and the scan are function parameters.
  - The search with `after_date` is a parameter. `gmail_client.search_messages` takes no such argument.
  - `save_eml` and `save_attachments` are called with a date argument that the modelled `storage.py` does not take.
  - So the saves are recorded as steps of the run, in order, and their effect on the tree is not part of the run. A save that raises is not modelled.
- Cli.SyncTree: the tree after `main` holds only the target's `mkdir`. The files the saves write into the target, which may overwrite earlier ones, and the `token.json` written by authentication are not part of it.
- Cli.SyncSucceeds: the iff takes authentication and every save to succeed. Either can raise in the program.
- `Cli.ModeSteps`: a mode other than `full` or `attachments_only` does nothing. `ProfileConfig` rejects such a mode before the loop is reached.
- The documentation of the project describes slug-named files and retries. Neither is present in the modelled code, so the model follows the code.
  - Resumption is present: `main` searches from the most recent date that `scan_downloaded_metadata` reports (cli.py:32-37). The scan's result is the `scan` parameter of `Sync`. The search is the `search` parameter, which takes that date.
