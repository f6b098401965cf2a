/** The shared cache of merged views: at most four, least recently used out first, exact version or recomputed. */
module PhotoViewCache {
  import opened Wrappers
  import opened PhotoMerge

  datatype Key = Key(eventId: string, window: int)

  datatype Entry = Entry(version: int, photos: nat, merged: seq<Finish>, used: nat)

  const Capacity := 4

  /** A reader's coherent view of one event: its metadata version and the photos of that version. */
  datatype Snapshot = Snapshot(version: int, photos: seq<Photo>)

  datatype Cache = Cache(entries: map<Key, Entry>, clock: nat)

  /** The committed history: the photos of each event at each version. */
  type History = (string, int) -> seq<Photo>

  function Fresh(s: Snapshot, window: int, used: nat): Entry {
    Entry(s.version, |s.photos|, Merge(s.photos, window), used)
  }

  predicate Oldest(entries: map<Key, Entry>, k: Key) {
    k in entries && forall j :: j in entries ==> entries[k].used <= entries[j].used
  }

  predicate DistinctUses(entries: map<Key, Entry>) {
    forall j, k :: j in entries && k in entries && entries[j].used == entries[k].used ==> j == k
  }

  lemma {:induction false} OldestExists(entries: map<Key, Entry>) returns (k: Key)
    requires entries != map[]
    ensures Oldest(entries, k)
    decreases |entries|
  {
    var x :| x in entries;
    var rest := entries - {x};
    if rest == map[] {
      assert forall j :: j in entries ==> j == x by {
        forall j | j in entries ensures j == x { assert j != x ==> j in rest; }
      }
      k := x;
    } else {
      assert |rest| < |entries| by { assert rest.Keys == entries.Keys - {x}; }
      k := OldestExists(rest);
      if entries[x].used < entries[k].used {
        forall j | j in entries ensures entries[x].used <= entries[j].used {
          if j != x { assert j in rest; }
        }
        k := x;
      } else {
        forall j | j in entries ensures entries[k].used <= entries[j].used {
          if j != x { assert j in rest; }
        }
      }
    }
  }

  lemma {:induction false} OldestIsThere(entries: map<Key, Entry>)
    requires entries != map[]
    ensures exists k :: Oldest(entries, k)
  {
    var k := OldestExists(entries);
  }

  /** One load: a hit on the exact version only touches the entry, a miss replaces or adds one. */
  ghost function Load(c: Cache, key: Key, s: Snapshot): Cache {
    var clock := c.clock + 1;
    if key in c.entries && c.entries[key].version == s.version then
      Cache(c.entries[key := c.entries[key].(used := clock)], clock)
    else if key !in c.entries && |c.entries| >= Capacity then
      OldestIsThere(c.entries);
      var oldest :| Oldest(c.entries, oldest);
      Cache((c.entries - {oldest})[key := Fresh(s, key.window, clock)], clock)
    else Cache(c.entries[key := Fresh(s, key.window, clock)], clock)
  }

  /** The entry is what merging the photos of its version gives. */
  ghost predicate Right(k: Key, e: Entry, history: History) {
    e.photos == |history(k.eventId, e.version)| && e.merged == Merge(history(k.eventId, e.version), k.window)
  }

  ghost predicate ValidEntries(entries: map<Key, Entry>, clock: nat, history: History) {
    DistinctUses(entries) && forall k :: k in entries ==> entries[k].used <= clock && Right(k, entries[k], history)
  }

  /** Every entry is right for its version and stamped at its own time, and there are at most four. */
  ghost predicate Valid(c: Cache, history: History) {
    |c.entries| <= Capacity && ValidEntries(c.entries, c.clock, history)
  }

  lemma {:induction false} StampedIsValid(entries: map<Key, Entry>, clock: nat, key: Key, e: Entry, history: History)
    requires ValidEntries(entries, clock, history) && Right(key, e, history) && e.used == clock + 1
    ensures ValidEntries(entries[key := e], clock + 1, history)
    ensures forall k :: k in entries && k != key ==> entries[k].used < e.used
  {
  }

  lemma {:induction false} EvictedIsValid(entries: map<Key, Entry>, clock: nat, gone: Key, history: History)
    requires ValidEntries(entries, clock, history)
    ensures ValidEntries(entries - {gone}, clock, history)
  {
  }

  lemma {:induction false} FreshIsRight(key: Key, s: Snapshot, used: nat, history: History)
    requires s.photos == history(key.eventId, s.version)
    ensures Right(key, Fresh(s, key.window, used), history)
  {
  }

  lemma {:induction false} EvictedSize(entries: map<Key, Entry>, gone: Key, key: Key, e: Entry)
    requires gone in entries && key !in entries
    ensures |(entries - {gone})[key := e]| == |entries|
  {
    var after := (entries - {gone})[key := e];
    assert after.Keys == entries.Keys - {gone} + {key};
  }

  lemma {:induction false} UpdatedSize(entries: map<Key, Entry>, key: Key, e: Entry)
    ensures |entries[key := e]| == |entries| + if key in entries then 0 else 1
  {
    assert entries[key := e].Keys == entries.Keys + {key};
  }

  /**
   The answer to a load is the merge of the caller's own photos, whether it was cached or not; the cache stays
   within four entries, and the entry just used is the most recent one.
   */
  lemma {:induction false} LoadRefines(c: Cache, key: Key, s: Snapshot, history: History)
    requires Valid(c, history) && s.photos == history(key.eventId, s.version)
    ensures var d := Load(c, key, s);
            Valid(d, history) && key in d.entries && d.entries[key].version == s.version &&
            d.entries[key].photos == |s.photos| && d.entries[key].merged == Merge(s.photos, key.window) &&
            forall k :: k in d.entries && k != key ==> d.entries[k].used < d.entries[key].used
  {
    var d := Load(c, key, s);
    var e := d.entries[key];
    FreshIsRight(key, s, c.clock + 1, history);
    if key !in c.entries && |c.entries| >= Capacity {
      var gone :| gone in c.entries && d.entries == (c.entries - {gone})[key := e];
      EvictedSize(c.entries, gone, key, e);
      EvictedIsValid(c.entries, c.clock, gone, history);
      StampedIsValid(c.entries - {gone}, c.clock, key, e, history);
    } else {
      UpdatedSize(c.entries, key, e);
      StampedIsValid(c.entries, c.clock, key, e, history);
    }
  }

  /** Only the least recently used entry ever gives way, and only to a new key when the cache is full. */
  lemma {:induction false} EvictsTheOldest(c: Cache, key: Key, s: Snapshot, k: Key)
    requires k in c.entries && k !in Load(c, key, s).entries
    ensures key !in c.entries && |c.entries| >= Capacity && Oldest(c.entries, k)
  {
  }

  datatype Request = Request(key: Key, snapshot: Snapshot)

  ghost function LoadAll(c: Cache, requests: seq<Request>): Cache {
    if requests == [] then c
    else Load(LoadAll(c, requests[..|requests| - 1]), requests[|requests| - 1].key, requests[|requests| - 1].snapshot)
  }

  /** Over any sequence of loads, by readers of newer or older versions, of any events and windows. */
  lemma {:induction false} LoadsRefine(requests: seq<Request>, history: History)
    requires forall r :: r in requests ==> r.snapshot.photos == history(r.key.eventId, r.snapshot.version)
    ensures Valid(LoadAll(Cache(map[], 0), requests), history)
    ensures requests != [] ==>
              var r := requests[|requests| - 1]; var c := LoadAll(Cache(map[], 0), requests);
              r.key in c.entries && c.entries[r.key].merged == Merge(r.snapshot.photos, r.key.window)
  {
    if requests != [] {
      var last := requests[|requests| - 1];
      assert last in requests;
      LoadsRefine(requests[..|requests| - 1], history);
      LoadRefines(LoadAll(Cache(map[], 0), requests[..|requests| - 1]), last.key, last.snapshot, history);
    }
  }

  /** Whatever left the cache was its oldest entry, and left for a new key. */
  ghost predicate FairEviction(before: map<Key, Entry>, after: map<Key, Entry>, key: Key) {
    forall k :: k in before && k !in after ==> key !in before && Oldest(before, k)
  }

  /** Nothing but this key's entry changed. */
  ghost predicate OthersKept(before: map<Key, Entry>, after: map<Key, Entry>, key: Key) {
    forall k :: k in after && k != key ==> k in before && after[k] == before[k]
  }

  lemma {:induction false} FairAfterPut(before: map<Key, Entry>, after: map<Key, Entry>, key: Key, e: Entry)
    requires FairEviction(before, after, key) && OthersKept(before, after, key)
    ensures FairEviction(before, after[key := e], key) && OthersKept(before, after[key := e], key)
  {
  }

  class ViewCache {
    var entries: map<Key, Entry>
    var clock: nat

    function View(): Cache
      reads this
    {
      Cache(entries, clock)
    }

    constructor ()
      ensures View() == Cache(map[], 0)
    {
      entries, clock := map[], 0;
    }

    method EvictOldest()
      requires entries != map[] && DistinctUses(entries)
      modifies this`entries
      ensures exists k :: Oldest(old(entries), k) && entries == old(entries) - {k}
    {
      var todo := entries.Keys;
      var oldest :| oldest in todo;
      todo := todo - {oldest};
      while todo != {}
        invariant oldest in entries && todo <= entries.Keys
        invariant forall k :: k in entries && k !in todo ==> entries[oldest].used <= entries[k].used
        decreases |todo|
      {
        var candidate :| candidate in todo;
        if entries[candidate].used < entries[oldest].used {
          oldest := candidate;
        }
        todo := todo - {candidate};
      }
      assert Oldest(entries, oldest);
      entries := entries - {oldest};
    }

    /** The shared step of every view: the caller's own version, from the cache or merged now. */
    method LoadView(key: Key, s: Snapshot, ghost history: History) returns (entry: Entry)
      requires Valid(View(), history) && s.photos == history(key.eventId, s.version)
      modifies this
      ensures Valid(View(), history) && key in entries && entries[key] == entry
      ensures entry.photos == |s.photos| && entry.merged == Merge(s.photos, key.window)
      ensures |entries| <= Capacity && clock == old(clock) + 1 && entry.used == clock
      ensures FairEviction(old(entries), entries, key)
      ensures OthersKept(old(entries), entries, key)
    {
      if key in entries && entries[key].version == s.version {
        entry := entries[key].(used := clock + 1);
        StoreEntry(key, entry, history);
        return;
      }
      var merged := MergeFinishes(s.photos, key.window);
      entry := Entry(s.version, |s.photos|, merged, clock + 1);
      FreshIsRight(key, s, clock + 1, history);
      StoreEntry(key, entry, history);
    }

    /** Puts an entry in at the next tick, making room for a new key if the cache is full. */
    method StoreEntry(key: Key, entry: Entry, ghost history: History)
      requires Valid(View(), history) && Right(key, entry, history) && entry.used == clock + 1
      modifies this
      ensures Valid(View(), history) && key in entries && entries[key] == entry && clock == old(clock) + 1
      ensures FairEviction(old(entries), entries, key)
      ensures OthersKept(old(entries), entries, key)
    {
      ghost var before := entries;
      MakeRoom(key, history);
      ghost var room := entries;
      FairAfterPut(before, room, key, entry);
      UpdatedSize(room, key, entry);
      StampedIsValid(room, clock, key, entry, history);
      clock := clock + 1;
      entries := entries[key := entry];
    }

    method MakeRoom(key: Key, ghost history: History)
      requires Valid(View(), history)
      modifies this`entries
      ensures Valid(View(), history) && (key in entries || |entries| < Capacity)
      ensures OthersKept(old(entries), entries, key)
      ensures FairEviction(old(entries), entries, key)
      ensures key in old(entries) ==> key in entries
    {
      if key !in entries && |entries| >= Capacity {
        ghost var before := entries;
        EvictOldest();
        ghost var gone :| Oldest(before, gone) && entries == before - {gone};
        EvictedIsValid(before, clock, gone, history);
        assert entries.Keys == before.Keys - {gone};
      }
    }

    /** The first `limit` finishes of the caller's version, or all of them. */
    method Merged(key: Key, s: Snapshot, limit: int, ghost history: History) returns (finishes: seq<Finish>)
      requires Valid(View(), history) && s.photos == history(key.eventId, s.version)
      modifies this
      ensures Valid(View(), history)
      ensures var all := Merge(s.photos, key.window);
              finishes == if 0 < limit < |all| then all[..limit] else all
    {
      var entry := LoadView(key, s, history);
      var count := |entry.merged|;
      if limit > 0 && count > limit {
        count := limit;
      }
      return entry.merged[..count];
    }

    method Counts(eventId: string, s: Snapshot, ghost history: History) returns (photos: nat, finishes: nat)
      requires Valid(View(), history) && s.photos == history(eventId, s.version)
      modifies this
      ensures Valid(View(), history) && photos == |s.photos| && finishes == |Merge(s.photos, DefaultWindowMs)|
    {
      var entry := LoadView(Key(eventId, DefaultWindowMs), s, history);
      return entry.photos, |entry.merged|;
    }
  }
}
