/** The `logs/` directory: one folder per vehicle, one file per saved
    session, named after the second the session was saved. */
module LogStore {
  import opened Records
  import opened Timestamps
  import opened LexOrder
  import opened Options

  type Log = seq<Record>

  /** The files of one vehicle folder, by file name. */
  type Folder = map<string, Log>

  /** Vehicle id to folder; a vehicle without a key has no folder at all. */
  type Store = map<string, Folder>

  /** The folder `os.makedirs(log_folder, exist_ok=True)` leaves. */
  function FolderOf(store: Store, vehicle: string): Folder {
    if vehicle in store then store[vehicle] else map[]
  }

  /** The conditional save of the Stop button and of stream exhaustion:
      an empty buffer writes nothing; otherwise the buffer becomes the file
      `logs/<vehicle>/<stamp>_log.csv`, replacing a file of the same name. */
  function Persist(store: Store, vehicle: string, at: DateTime, buffer: Log): (after: Store)
    requires Valid(at)
    ensures buffer == [] ==> after == store
    ensures buffer != [] ==>
              vehicle in after && LogFileName(at) in after[vehicle] &&
              after[vehicle][LogFileName(at)] == buffer &&
              after[vehicle].Keys == FolderOf(store, vehicle).Keys + {LogFileName(at)} &&
              after.Keys == store.Keys + {vehicle}
    // every other file is kept as it was
    ensures forall v, f :: v in store && f in store[v] && !(buffer != [] && v == vehicle && f == LogFileName(at)) ==>
              v in after && f in after[v] && after[v][f] == store[v][f]
    // and nothing else appears
    ensures forall v, f :: v in after && f in after[v] ==>
              (v in store && f in store[v] && after[v][f] == store[v][f]) ||
              (buffer != [] && v == vehicle && f == LogFileName(at))
  {
    if buffer == [] then store
    else store[vehicle := FolderOf(store, vehicle)[LogFileName(at) := buffer]]
  }

  /** Two sessions saved within the same second share a file name, so the
      later save replaces the earlier session's log. */
  lemma SameSecondSavesCollide(store: Store, vehicle: string, at: DateTime, first: Log, second: Log)
    requires Valid(at) && first != [] && second != []
    ensures var after := Persist(Persist(store, vehicle, at, first), vehicle, at, second);
            after[vehicle][LogFileName(at)] == second &&
            after[vehicle].Keys == FolderOf(store, vehicle).Keys + {LogFileName(at)}
  {
  }

  /** `sorted(os.listdir(folder), reverse=True)[0]`: nothing when the folder
      is missing or empty, otherwise the greatest file name. */
  ghost function LatestFile(store: Store, vehicle: string): (latest: Option<string>)
    ensures latest.None? <==> vehicle !in store || store[vehicle] == map[]
    ensures latest.Some? ==>
              vehicle in store && latest.value in store[vehicle] &&
              forall f :: f in store[vehicle] ==> LessOrEqual(f, latest.value)
  {
    if vehicle !in store || store[vehicle] == map[] then None
    else
      assert store[vehicle].Keys != {} by {
        var f :| f in store[vehicle];
      }
      Some(Greatest(store[vehicle].Keys))
  }

  /** When every file of the folder comes from a session saved no later than
      `at`, the session saved at `at` is the latest file afterwards. */
  lemma MostRecentSessionIsLatest(store: Store, vehicle: string, at: DateTime, buffer: Log)
    requires Valid(at) && buffer != []
    requires forall f :: f in FolderOf(store, vehicle) ==>
               exists t :: Valid(t) && f == LogFileName(t) && !Earlier(at, t)
    ensures LatestFile(Persist(store, vehicle, at, buffer), vehicle) == Some(LogFileName(at))
  {
    var after := Persist(store, vehicle, at, buffer);
    var name := LogFileName(at);
    forall f | f in after[vehicle] ensures LessOrEqual(f, name) {
      if f != name {
        assert f in FolderOf(store, vehicle);
        var t :| Valid(t) && f == LogFileName(t) && !Earlier(at, t);
        assert t != at;
        LogNamesSortChronologically(t, at);
      }
    }
    var latest := LatestFile(after, vehicle).value;
    GreatestUnique(after[vehicle].Keys, latest, name);
  }
}
