/** The record of downloaded message ids, kept in a JSON file holding a list of strings. */
module StateFile {
  import opened Seqs
  import opened Order
  import opened FileSystem

  /** The JSON files the program reads and writes, each holding a list of strings, by the
      location a path names once resolved against the working directory `cwd`. */
  class JsonStore {
    const cwd: Location
    var documents: map<Location, seq<string>>

    constructor (cwd: Location, documents: map<Location, seq<string>>)
      ensures this.cwd == cwd && this.documents == documents
    {
      this.cwd := cwd;
      this.documents := documents;
    }
  }

  /** The ids a state file lists, as a set; an absent file lists none. */
  function StoredIds(documents: map<Location, seq<string>>, path: Location): (ids: set<string>)
    ensures path !in documents ==> ids == {}
    ensures path in documents ==> forall i :: 0 <= i < |documents[path]| ==> documents[path][i] in ids
    ensures path in documents ==> forall x :: x in ids ==> x in documents[path]
  {
    if path in documents then Elements(documents[path]) else {}
  }

  class State {
    const path: Path
    var downloadedIds: set<string>

    /** `State(path)`: start with no ids, then load the file if it exists. */
    constructor (path: Path, store: JsonStore)
      ensures this.path == path
      ensures downloadedIds == StoredIds(store.documents, Resolve(store.cwd, path))
    {
      this.path := path;
      downloadedIds := {};
      new;
      Load(store);
    }

    /** `_load`: replace the ids by those of the file when the file exists; otherwise keep them. */
    method Load(store: JsonStore)
      modifies this`downloadedIds
      ensures Resolve(store.cwd, path) in store.documents ==>
        downloadedIds == StoredIds(store.documents, Resolve(store.cwd, path))
      ensures Resolve(store.cwd, path) !in store.documents ==> downloadedIds == old(downloadedIds)
    {
      var file := Resolve(store.cwd, path);
      if file in store.documents {
        downloadedIds := Elements(store.documents[file]);
      }
    }

    /** `save`: overwrite the file with the ids in ascending order, each once. */
    method Save(store: JsonStore)
      modifies store
      ensures store.documents == old(store.documents)[Resolve(store.cwd, path) := SortedNames(downloadedIds)]
      ensures StrictlyAscending(store.documents[Resolve(store.cwd, path)])
      ensures StoredIds(store.documents, Resolve(store.cwd, path)) == downloadedIds
    {
      store.documents := store.documents[Resolve(store.cwd, path) := SortedNames(downloadedIds)];
    }

    /** `is_downloaded`: a query that changes nothing. */
    method IsDownloaded(msgId: string) returns (b: bool)
      ensures b <==> msgId in downloadedIds
    {
      b := msgId in downloadedIds;
    }

    /** `mark_downloaded`: add one id; every other id keeps its membership, and marking an id
        that is already there changes nothing. */
    method MarkDownloaded(msgId: string)
      modifies this`downloadedIds
      ensures msgId in downloadedIds
      ensures forall x :: x != msgId ==> (x in downloadedIds <==> x in old(downloadedIds))
      ensures msgId in old(downloadedIds) ==> downloadedIds == old(downloadedIds)
    {
      downloadedIds := downloadedIds + {msgId};
    }
  }

  /** A state loaded from the file that another state saved holds exactly the saved ids. */
  method SaveThenReload(state: State, store: JsonStore) returns (reloaded: State)
    modifies store
    ensures reloaded.path == state.path
    ensures reloaded.downloadedIds == state.downloadedIds
  {
    state.Save(store);
    reloaded := new State(state.path, store);
  }
}
