/** What the pages share through the browser: `localStorage` as a map from key to
    saved entry list, the `window` broadcasts as a log, the requests sent to the
    server as a log, and the current location. */
module Browser {
  import opened Values
  import opened Docs

  /** A `localStorage` value: a parsed list of saved entries, or text that
      `JSON.parse` rejects. A missing key is a key absent from the map. */
  datatype Slot = Stored(entries: seq<Doc>) | Garbled

  /** `window.dispatchEvent`: `registered:event` with `detail.id`, or `events:updated`. */
  datatype Signal = RegisteredSignal(id: string) | EventsUpdated

  /** A request the page sends. */
  datatype Request = Post(path: string) | Delete(path: string) | Put(path: string)

  class Window {
    var storage: map<string, Slot>
    var signals: seq<Signal>
    var requests: seq<Request>
    var location: string

    constructor (storage: map<string, Slot>, location: string)
      ensures this.storage == storage && this.location == location
      ensures signals == [] && requests == []
    {
      this.storage := storage;
      this.location := location;
      signals := [];
      requests := [];
    }
  }

  const LocalPrefix := "localRegisteredEvents"
  const MyEventsPath := "/my-events"

  /** The per-user key of the local fallback list; "" stands for an unresolved user. */
  function LocalKey(userId: string): string {
    if userId != "" then LocalPrefix + ":" + userId else LocalPrefix + ":anon"
  }

  /** Two resolved users never share a list, except that a user whose id is the
      text "anon" shares the anonymous list. */
  lemma LocalKeyScoping(a: string, b: string)
    ensures LocalKey(a) == LocalKey(b) <==> a == b || ((a == "" || a == "anon") && (b == "" || b == "anon"))
  {
    var p := LocalPrefix + ":";
    if LocalKey(a) == LocalKey(b) {
      var sa := if a != "" then a else "anon";
      var sb := if b != "" then b else "anon";
      assert LocalKey(a) == p + sa && LocalKey(b) == p + sb;
      assert (p + sa)[|p|..] == sa;
      assert (p + sb)[|p|..] == sb;
    }
  }

  /** The list the pages read under `key`: a missing key or unparsable text reads as []. */
  function StoredEntries(storage: map<string, Slot>, key: string): seq<Doc> {
    if key in storage && storage[key].Stored? then storage[key].entries else []
  }

  /** The duplicate test of the local fallback: same non-empty `_id` or same non-empty title. */
  predicate Clash(e: Doc, snap: Doc) {
    (e.oid != "" && e.oid == snap.oid) || (e.title != "" && e.title == snap.title)
  }

  predicate AlreadyStored(list: seq<Doc>, snap: Doc) {
    exists i :: 0 <= i < |list| && Clash(list[i], snap)
  }

  /** No saved entry clashes with one saved before it. */
  predicate NoClashes(list: seq<Doc>) {
    forall i, j :: 0 <= i < j < |list| ==> !Clash(list[j], list[i])
  }

  /** The effect of the local fallback on the storage. */
  datatype Saved = Saved(storage: map<string, Slot>, appended: bool, failed: bool)

  /** Read the list under `key`, append `snap` unless a stored entry clashes with it,
      and write the list back only when it grew. Unparsable text makes the save fail. */
  function SaveLocally(storage: map<string, Slot>, key: string, snap: Doc): (r: Saved)
    ensures r.failed <==> key in storage && storage[key].Garbled?
    ensures r.failed ==> !r.appended && r.storage == storage
    ensures !r.failed ==> (r.appended <==> !AlreadyStored(StoredEntries(storage, key), snap))
    ensures r.appended ==> r.storage == storage[key := Stored(StoredEntries(storage, key) + [snap])]
    ensures !r.appended ==> r.storage == storage
  {
    if key in storage && storage[key].Garbled? then Saved(storage, false, true)
    else
      var list := StoredEntries(storage, key);
      if AlreadyStored(list, snap) then Saved(storage, false, false)
      else Saved(storage[key := Stored(list + [snap])], true, false)
  }

  /** Existing entries are never altered or reordered, and other keys are untouched. */
  lemma SaveLocallyAppendOnly(storage: map<string, Slot>, key: string, snap: Doc, other: string)
    requires other != key
    ensures var r := SaveLocally(storage, key, snap);
      && StoredEntries(storage, key) <= StoredEntries(r.storage, key)
      && |StoredEntries(r.storage, key)| <= |StoredEntries(storage, key)| + 1
      && (other in r.storage <==> other in storage)
      && (other in storage ==> r.storage[other] == storage[other])
  {
  }

  /** A snapshot with an `_id` or a title is found clashing after a successful save. */
  lemma SavedSnapshotIsFound(storage: map<string, Slot>, key: string, snap: Doc)
    requires snap.oid != "" || snap.title != ""
    ensures var r := SaveLocally(storage, key, snap);
      !r.failed ==> AlreadyStored(StoredEntries(r.storage, key), snap)
  {
    var r := SaveLocally(storage, key, snap);
    if r.appended {
      var list := StoredEntries(r.storage, key);
      assert list[|list| - 1] == snap;
    }
  }

  /** Saving the same snapshot twice stores it once. */
  lemma SaveLocallyIdempotent(storage: map<string, Slot>, key: string, snap: Doc)
    requires snap.oid != "" || snap.title != ""
    ensures var once := SaveLocally(storage, key, snap);
      SaveLocally(once.storage, key, snap) == Saved(once.storage, false, once.failed)
  {
    SavedSnapshotIsFound(storage, key, snap);
  }

  /** The fallback keeps a list free of clashes. */
  lemma SaveLocallyKeepsNoClashes(storage: map<string, Slot>, key: string, snap: Doc)
    requires NoClashes(StoredEntries(storage, key))
    ensures NoClashes(StoredEntries(SaveLocally(storage, key, snap).storage, key))
  {
    var r := SaveLocally(storage, key, snap);
    if r.appended {
      var old_ := StoredEntries(storage, key);
      var list := StoredEntries(r.storage, key);
      assert list == old_ + [snap];
      forall i, j | 0 <= i < j < |list|
        ensures !Clash(list[j], list[i])
      {
        if j == |old_| {
          assert list[j] == snap && list[i] == old_[i];
          assert !Clash(old_[i], snap);
        }
      }
    }
  }
}
