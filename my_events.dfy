/** The "my events" page (frontend/src/pages/MyEvents.jsx): the server's
    registered list followed by the local fallback list, merged through a
    JavaScript `Map` keyed by `_id || id || title`. */
module MyEvents {
  import opened Values
  import opened Docs
  import opened Browser

  const FetchFailedMessage := "Could not fetch your events from the server. Showing locally saved ones."

  /** `user._id || user.id`, or "" (null) when there is no user or the request failed. */
  function MeUserId(me: MeReply): string {
    if me.MeAnswered? && me.user.Some? then Or(me.user.value.oid, me.user.value.id) else ""
  }

  /** `ev._id || ev.id || ev.title`; "" means the entry has no key. */
  function EntryKey(e: Doc): string {
    Or(Or(e.oid, e.id), e.title)
  }

  predicate NoDuplicateKeys(keys: seq<string>) {
    forall i, j :: 0 <= i < j < |keys| ==> keys[i] != keys[j]
  }

  /** The `Map`'s key order: each key where it first occurs, entries without a key skipped. */
  function KeyOrder(s: seq<Doc>): (r: seq<string>)
    ensures |r| <= |s|
    ensures NoDuplicateKeys(r) && "" !in r
  {
    if s == [] then []
    else
      var o := KeyOrder(s[..|s| - 1]);
      var k := EntryKey(s[|s| - 1]);
      if k == "" || k in o then o else o + [k]
  }

  /** The keys are exactly the non-empty keys of the entries. */
  lemma {:induction false} KeyOrderMembers(s: seq<Doc>, k: string)
    ensures k in KeyOrder(s) <==> k != "" && exists i :: 0 <= i < |s| && EntryKey(s[i]) == k
  {
    if s != [] {
      var n := |s| - 1;
      var o := KeyOrder(s[..n]);
      var last := EntryKey(s[n]);
      assert KeyOrder(s) == if last == "" || last in o then o else o + [last];
      KeyOrderMembers(s[..n], k);
      if k in KeyOrder(s) {
        if k in o {
          var i :| 0 <= i < n && EntryKey(s[..n][i]) == k;
          assert EntryKey(s[i]) == k;
        } else {
          assert EntryKey(s[n]) == k;
        }
      }
      if k != "" && exists i :: 0 <= i < |s| && EntryKey(s[i]) == k {
        var i :| 0 <= i < |s| && EntryKey(s[i]) == k;
        if i < n {
          assert EntryKey(s[..n][i]) == k;
          assert k in o;
        } else {
          assert last == k;
        }
      }
    }
  }

  /** The position of the first entry carrying key `k`, or `|s|` when none does. */
  function FirstWithKey(s: seq<Doc>, k: string): (r: nat)
    ensures r <= |s|
    ensures r < |s| ==> EntryKey(s[r]) == k
    ensures forall j :: 0 <= j < r ==> EntryKey(s[j]) != k
  {
    if s == [] then 0
    else if EntryKey(s[0]) == k then 0
    else 1 + FirstWithKey(s[1..], k)
  }

  /** A key that occurs in a prefix first occurs where it first occurs in the prefix. */
  lemma FirstWithKeyInPrefix(s: seq<Doc>, n: nat, k: string)
    requires n <= |s| && FirstWithKey(s[..n], k) < n
    ensures FirstWithKey(s, k) == FirstWithKey(s[..n], k)
  {
    var f := FirstWithKey(s[..n], k);
    var g := FirstWithKey(s, k);
    assert EntryKey(s[f]) == k by {
      assert s[..n][f] == s[f];
    }
  }

  /** `Map` iteration order is insertion order: the keys come in the order in
      which each first occurs among the entries. */
  lemma {:induction false} KeyOrderFirstSeen(s: seq<Doc>)
    ensures forall i :: 0 <= i < |KeyOrder(s)| ==> FirstWithKey(s, KeyOrder(s)[i]) < |s|
    ensures forall i, j :: 0 <= i < j < |KeyOrder(s)| ==>
      FirstWithKey(s, KeyOrder(s)[i]) < FirstWithKey(s, KeyOrder(s)[j])
  {
    if s != [] {
      var n := |s| - 1;
      var o := KeyOrder(s[..n]);
      var last := EntryKey(s[n]);
      assert KeyOrder(s) == if last == "" || last in o then o else o + [last];
      KeyOrderFirstSeen(s[..n]);
      forall i | 0 <= i < |o| ensures FirstWithKey(s, o[i]) == FirstWithKey(s[..n], o[i]) {
        FirstWithKeyInPrefix(s, n, o[i]);
      }
      if last != "" && last !in o {
        KeyOrderMembers(s[..n], last);
        forall j | 0 <= j < n ensures EntryKey(s[j]) != last {
          assert s[..n][j] == s[j];
        }
        assert FirstWithKey(s, last) == n;
      }
    }
  }

  /** The `Map`'s values: for each key, the last entry carrying it. */
  function Latest(s: seq<Doc>): (m: map<string, Doc>)
    ensures forall k :: k in m <==> k in KeyOrder(s)
    ensures forall k :: k in m ==> EntryKey(m[k]) == k
  {
    if s == [] then map[]
    else
      var k := EntryKey(s[|s| - 1]);
      if k == "" then Latest(s[..|s| - 1]) else Latest(s[..|s| - 1])[k := s[|s| - 1]]
  }

  /** `Array.from(byId.values())` */
  function Merged(s: seq<Doc>): (r: seq<Doc>)
    ensures |r| == |KeyOrder(s)|
    ensures forall i :: 0 <= i < |r| ==> r[i] == Latest(s)[KeyOrder(s)[i]]
  {
    var order := KeyOrder(s);
    var m := Latest(s);
    seq(|order|, i requires 0 <= i < |order| => m[order[i]])
  }

  /** The `forEach` loop that fills the `Map`, then `Array.from(byId.values())`. */
  method MergeByKey(entries: seq<Doc>) returns (r: seq<Doc>)
    ensures r == Merged(entries)
  {
    var order: seq<string> := [];
    var byKey: map<string, Doc> := map[];
    var i := 0;
    while i < |entries|
      invariant 0 <= i <= |entries|
      invariant order == KeyOrder(entries[..i]) && byKey == Latest(entries[..i])
    {
      assert entries[..i + 1][..i] == entries[..i];
      var k := EntryKey(entries[i]);
      if k != "" {
        if k !in byKey {
          order := order + [k];
        }
        byKey := byKey[k := entries[i]];
      }
      i := i + 1;
    }
    assert entries[..|entries|] == entries;
    r := seq(|order|, n requires 0 <= n < |order| => byKey[order[n]]);
  }

  /** At most one entry per key, every merged entry has a key, and every keyed
      entry's key is represented. */
  lemma MergedKeysUnique(s: seq<Doc>)
    ensures forall i, j :: 0 <= i < j < |Merged(s)| ==> EntryKey(Merged(s)[i]) != EntryKey(Merged(s)[j])
    ensures forall i :: 0 <= i < |Merged(s)| ==> EntryKey(Merged(s)[i]) != ""
    ensures forall i :: 0 <= i < |s| && EntryKey(s[i]) != "" ==>
      exists j :: 0 <= j < |Merged(s)| && EntryKey(Merged(s)[j]) == EntryKey(s[i])
    ensures |Merged(s)| <= |s|
  {
    var r := Merged(s);
    var o := KeyOrder(s);
    assert forall i :: 0 <= i < |r| ==> EntryKey(r[i]) == o[i];
    forall i | 0 <= i < |s| && EntryKey(s[i]) != ""
      ensures exists j :: 0 <= j < |r| && EntryKey(r[j]) == EntryKey(s[i])
    {
      KeyOrderMembers(s, EntryKey(s[i]));
      var j :| 0 <= j < |o| && o[j] == EntryKey(s[i]);
      assert EntryKey(r[j]) == EntryKey(s[i]);
    }
  }

  /** The merged list keeps the order in which each key first occurs. */
  lemma MergedFirstSeenOrder(s: seq<Doc>)
    ensures forall i, j :: 0 <= i < j < |Merged(s)| ==>
      FirstWithKey(s, EntryKey(Merged(s)[i])) < FirstWithKey(s, EntryKey(Merged(s)[j]))
  {
    var r := Merged(s);
    assert forall i :: 0 <= i < |r| ==> EntryKey(r[i]) == KeyOrder(s)[i];
    KeyOrderFirstSeen(s);
  }

  /** The position of the last entry carrying key `k`, or -1. */
  function LastWithKey(s: seq<Doc>, k: string): (r: int)
    ensures -1 <= r < |s|
    ensures r >= 0 ==> EntryKey(s[r]) == k
    ensures forall j :: r < j < |s| ==> EntryKey(s[j]) != k
  {
    if s == [] then -1
    else if EntryKey(s[|s| - 1]) == k then |s| - 1
    else
      var r := LastWithKey(s[..|s| - 1], k);
      assert forall j :: r < j < |s| - 1 ==> EntryKey(s[j]) == EntryKey(s[..|s| - 1][j]);
      r
  }

  /** The entry kept for a key is its last occurrence. */
  lemma {:induction false} LatestIsLastOccurrence(s: seq<Doc>, k: string)
    requires k in Latest(s)
    ensures LastWithKey(s, k) >= 0 && Latest(s)[k] == s[LastWithKey(s, k)]
  {
    var n := |s| - 1;
    if EntryKey(s[n]) != k {
      LatestIsLastOccurrence(s[..n], k);
      assert s[..n][LastWithKey(s[..n], k)] == s[LastWithKey(s[..n], k)];
    }
  }

  /** Appending entries never moves a key already placed: first-occurrence order. */
  lemma {:induction false} KeyOrderPrefix(s: seq<Doc>, t: seq<Doc>)
    ensures KeyOrder(s) <= KeyOrder(s + t)
  {
    if t != [] {
      var n := |t| - 1;
      assert (s + t)[..|s + t| - 1] == s + t[..n];
      KeyOrderPrefix(s, t[..n]);
    } else {
      assert s + t == s;
    }
  }

  /** A key the second list carries takes its value from the second list; any
      other key keeps its value from the first. So local entries override server ones. */
  lemma {:induction false} LaterListOverrides(s: seq<Doc>, t: seq<Doc>, k: string)
    requires k in Latest(s + t)
    ensures k in Latest(t) ==> Latest(s + t)[k] == Latest(t)[k]
    ensures k !in Latest(t) ==> k in Latest(s) && Latest(s + t)[k] == Latest(s)[k]
  {
    if t == [] {
      assert s + t == s;
    } else {
      var n := |t| - 1;
      assert (s + t)[..|s + t| - 1] == s + t[..n];
      assert (s + t)[|s + t| - 1] == t[n];
      if EntryKey(t[n]) != k {
        LaterListOverrides(s, t[..n], k);
      }
    }
  }

  /** An event the server lists by `_id` and a title-only local entry with the same
      title have different keys, so both are shown. */
  lemma TitleOnlyEntryKeptApart()
    ensures |Merged([Entry("e1", "", "Hackfest"), Entry("", "", "Hackfest")])| == 2
  {
    var s := [Entry("e1", "", "Hackfest"), Entry("", "", "Hackfest")];
    assert s[..1] == [s[0]];
    assert KeyOrder(s[..1]) == ["e1"];
  }

  /** The same event saved locally under its `_id` is shown once, as the local copy. */
  lemma SameIdShownOnce(server: Doc, local: Doc)
    requires server.oid != "" && local.oid == server.oid
    ensures Merged([server, local]) == [local]
  {
    var s := [server, local];
    assert s[..1] == [server];
    assert KeyOrder(s[..1]) == [server.oid];
  }

  /** The page's state. */
  class MyEventsPage {
    const window: Window
    var mine: seq<Doc>
    var loading: bool
    /** The message shown; "" for none. */
    var error: string

    constructor (window: Window)
      ensures this.window == window && mine == [] && loading && error == ""
    {
      this.window := window;
      mine := [];
      loading := true;
      error := "";
    }

    /** `load`: `me` is the `/auth/me` answer, `reply` the `/events/mine` answer. */
    method Load(me: MeReply, reply: MineReply)
      modifies this
      ensures !loading
      ensures reply.MineOk? ==>
        mine == Merged(reply.entries + StoredEntries(window.storage, LocalKey(MeUserId(me)))) && error == ""
      ensures reply.MineFailed? ==>
        mine == StoredEntries(window.storage, LocalKey(MeUserId(me))) && error == FetchFailedMessage
    {
      loading := true;
      error := "";
      var local := StoredEntries(window.storage, LocalKey(MeUserId(me)));
      match reply {
        case MineOk(server) =>
          mine := MergeByKey(server + local);
        case MineFailed =>
          mine := local;
          error := FetchFailedMessage;
      }
      loading := false;
    }
  }
}
