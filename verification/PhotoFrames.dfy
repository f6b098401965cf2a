/**
 The frames of one camera track across polls: a frame is known by its key, keeps the time of its first ingest, and
 every time sits at the phone's own time plus the offset measured when the track was first stored.
 */
module PhotoFrames {
  import opened Wrappers

  datatype Frame = Frame(timeMs: int, url: string)

  /** What identifies a frame within its track, read off its address. */
  type KeyOf = string -> string

  // Merging two lists.

  function IndexOf(key: KeyOf, frames: seq<Frame>, k: string): (i: Option<nat>)
    ensures i.Some? ==> i.value < |frames| && key(frames[i.value].url) == k
    ensures i.None? ==> forall j :: 0 <= j < |frames| ==> key(frames[j].url) != k
  {
    if frames == [] then None
    else if key(frames[|frames| - 1].url) == k then Some(|frames| - 1)
    else IndexOf(key, frames[..|frames| - 1], k)
  }

  /** A known frame only gets its new address; a new one is added at its shifted time. */
  function AppendOne(key: KeyOf, frames: seq<Frame>, f: Frame, delta: int): seq<Frame> {
    var i := IndexOf(key, frames, key(f.url));
    if i.Some? then frames[i.value := Frame(frames[i.value].timeMs, f.url)] else frames + [Frame(f.timeMs + delta, f.url)]
  }

  /** Frames without an address are refused. */
  function AppendAll(key: KeyOf, frames: seq<Frame>, items: seq<Frame>, delta: int): Option<seq<Frame>> {
    if items == [] then Some(frames)
    else
      var front := AppendAll(key, frames, items[..|items| - 1], delta);
      if front.None? || items[|items| - 1].url == "" then None
      else Some(AppendOne(key, front.value, items[|items| - 1], delta))
  }

  function InsertFrame(f: Frame, sorted: seq<Frame>): seq<Frame> {
    if sorted == [] || sorted[|sorted| - 1].timeMs <= f.timeMs then sorted + [f]
    else InsertFrame(f, sorted[..|sorted| - 1]) + [sorted[|sorted| - 1]]
  }

  function SortFrames(frames: seq<Frame>): seq<Frame> {
    if frames == [] then [] else InsertFrame(frames[|frames| - 1], SortFrames(frames[..|frames| - 1]))
  }

  function MergeFrames(key: KeyOf, stored: seq<Frame>, incoming: seq<Frame>, delta: int): Option<seq<Frame>> {
    var existing := AppendAll(key, [], stored, 0);
    if existing.None? then None
    else
      var all := AppendAll(key, existing.value, incoming, delta);
      if all.None? then None else Some(SortFrames(all.value))
  }

  // A track across polls.

  /** What a phone reports about a track: its own times, and frames with their addresses. */
  datatype Report = Report(firstSeenMs: int, frames: seq<Frame>)

  datatype Track = Track(timeMs: int, frames: seq<Frame>)

  function Shifted(frames: seq<Frame>, offset: int): (r: seq<Frame>)
    ensures |r| == |frames| && forall i :: 0 <= i < |r| ==> r[i] == Frame(frames[i].timeMs + offset, frames[i].url)
  {
    seq(|frames|, i requires 0 <= i < |frames| => Frame(frames[i].timeMs + offset, frames[i].url))
  }

  /** The pulled track in the Desk's time, by the offset measured at this poll. */
  function ToStored(report: Report, offset: int): Track {
    Track(report.firstSeenMs + offset, Shifted(report.frames, offset))
  }

  /** What the pulled frames are merged into: nothing yet at the first poll, which fixes the track's time. */
  function Before(stored: Option<Track>, pulled: Track): Track {
    if stored.Some? then stored.value else Track(pulled.timeMs, [])
  }

  /** The stored track time is frozen; later frames are moved to the first poll's offset. */
  function Upsert(key: KeyOf, stored: Option<Track>, pulled: Track): Option<Track> {
    var before := Before(stored, pulled);
    var merged := MergeFrames(key, before.frames, pulled.frames, before.timeMs - pulled.timeMs);
    if merged.None? then None else Some(Track(before.timeMs, merged.value))
  }

  datatype Poll = Poll(report: Report, offset: int)

  /** A poll that cannot be stored changes nothing. */
  function Polled(key: KeyOf, stored: Option<Track>, poll: Poll): Option<Track> {
    var next := Upsert(key, stored, ToStored(poll.report, poll.offset));
    if next.Some? then next else stored
  }

  function PolledAll(key: KeyOf, polls: seq<Poll>): Option<Track> {
    if polls == [] then None else Polled(key, PolledAll(key, polls[..|polls| - 1]), polls[|polls| - 1])
  }

  // The frozen timeline.

  predicate UniqueKeys(key: KeyOf, frames: seq<Frame>) {
    forall i, j :: 0 <= i < j < |frames| ==> key(frames[i].url) != key(frames[j].url)
  }

  predicate InOrder(frames: seq<Frame>) {
    forall i, j :: 0 <= i < j < |frames| ==> frames[i].timeMs <= frames[j].timeMs
  }

  predicate Addressed(frames: seq<Frame>) {
    forall f :: f in frames ==> f.url != ""
  }

  function Keys(key: KeyOf, frames: seq<Frame>): set<string> {
    set f | f in frames :: key(f.url)
  }

  /** Every frame sits at the phone's time for its key, plus an offset. */
  predicate OnTimeline(key: KeyOf, frames: seq<Frame>, phone: map<string, int>, offset: int) {
    forall f :: f in frames ==> key(f.url) in phone && f.timeMs == phone[key(f.url)] + offset
  }

  lemma {:induction false} AppendOneKeeps(key: KeyOf, frames: seq<Frame>, f: Frame, delta: int, phone: map<string, int>, offset: int)
    requires UniqueKeys(key, frames) && OnTimeline(key, frames, phone, offset) && Addressed(frames) && f.url != ""
    requires key(f.url) in phone && f.timeMs + delta == phone[key(f.url)] + offset
    ensures var r := AppendOne(key, frames, f, delta);
            UniqueKeys(key, r) && OnTimeline(key, r, phone, offset) && Addressed(r) && Keys(key, r) == Keys(key, frames) + {key(f.url)}
  {
    var r := AppendOne(key, frames, f, delta);
    var i := IndexOf(key, frames, key(f.url));
    if i.Some? {
      assert frames[i.value] in frames;
      forall k | k in Keys(key, frames) ensures k in Keys(key, r) {
        var g :| g in frames && key(g.url) == k;
        var j :| 0 <= j < |frames| && frames[j] == g;
        assert key(r[j].url) == k && r[j] in r;
      }
      forall g | g in r ensures key(g.url) in Keys(key, frames) && g.url != "" && key(g.url) in phone && g.timeMs == phone[key(g.url)] + offset {
        var j :| 0 <= j < |r| && r[j] == g;
        assert frames[j] in frames;
      }
    } else {
      assert forall g :: g in r <==> g in frames || g == Frame(f.timeMs + delta, f.url);
    }
  }

  lemma {:induction false} AppendAllKeeps(key: KeyOf, frames: seq<Frame>, items: seq<Frame>, delta: int, phone: map<string, int>, offset: int)
    requires UniqueKeys(key, frames) && OnTimeline(key, frames, phone, offset) && Addressed(frames)
    requires OnTimeline(key, items, phone, offset - delta)
    ensures AppendAll(key, frames, items, delta).Some? <==> Addressed(items)
    ensures AppendAll(key, frames, items, delta).Some? ==>
              var r := AppendAll(key, frames, items, delta).value;
              UniqueKeys(key, r) && OnTimeline(key, r, phone, offset) && Addressed(r) &&
              Keys(key, r) == Keys(key, frames) + Keys(key, items)
  {
    if items != [] {
      var front, last := items[..|items| - 1], items[|items| - 1];
      assert forall f :: f in items <==> f in front || f == last;
      AppendAllKeeps(key, frames, front, delta, phone, offset);
      if AppendAll(key, frames, items, delta).Some? {
        AppendOneKeeps(key, AppendAll(key, frames, front, delta).value, last, delta, phone, offset);
        assert Keys(key, items) == Keys(key, front) + {key(last.url)};
      }
    }
  }

  // Sorting moves frames, nothing else.

  lemma {:induction false} AppendedLast(key: KeyOf, frames: seq<Frame>, last: Frame)
    requires InOrder(frames) && UniqueKeys(key, frames)
    requires forall g :: g in frames ==> g.timeMs <= last.timeMs && key(g.url) != key(last.url)
    ensures InOrder(frames + [last]) && UniqueKeys(key, frames + [last])
  {
    assert forall i :: 0 <= i < |frames| ==> frames[i] in frames;
  }

  lemma {:induction false} InsertKeeps(key: KeyOf, f: Frame, sorted: seq<Frame>)
    requires InOrder(sorted) && UniqueKeys(key, sorted) && key(f.url) !in Keys(key, sorted)
    ensures InOrder(InsertFrame(f, sorted)) && UniqueKeys(key, InsertFrame(f, sorted))
    ensures forall g :: g in InsertFrame(f, sorted) <==> g == f || g in sorted
  {
    if sorted == [] || sorted[|sorted| - 1].timeMs <= f.timeMs {
      AppendedLast(key, sorted, f);
    } else {
      var front, last := sorted[..|sorted| - 1], sorted[|sorted| - 1];
      assert sorted == front + [last];
      assert last in sorted;
      InsertKeeps(key, f, front);
      AppendedLast(key, InsertFrame(f, front), last);
    }
  }

  lemma {:induction false} SortKeeps(key: KeyOf, frames: seq<Frame>)
    requires UniqueKeys(key, frames)
    ensures InOrder(SortFrames(frames)) && UniqueKeys(key, SortFrames(frames))
    ensures forall g :: g in SortFrames(frames) <==> g in frames
  {
    if frames != [] {
      var front, last := frames[..|frames| - 1], frames[|frames| - 1];
      assert forall i :: 0 <= i < |front| ==> front[i] == frames[i];
      SortKeeps(key, front);
      assert forall g :: g in front ==> key(g.url) != key(last.url);
      InsertKeeps(key, last, SortFrames(front));
      assert forall g :: g in frames <==> g in front || g == last;
    }
  }

  lemma {:induction false} FrontInOrder(frames: seq<Frame>)
    requires InOrder(frames) && frames != []
    ensures var front, last := frames[..|frames| - 1], frames[|frames| - 1];
            InOrder(front) && front + [last] == frames && (front == [] || front[|front| - 1].timeMs <= last.timeMs)
  {
  }

  lemma {:induction false} SortOneMore(frames: seq<Frame>, last: Frame)
    requires SortFrames(frames) == frames && (frames == [] || frames[|frames| - 1].timeMs <= last.timeMs)
    ensures SortFrames(frames + [last]) == frames + [last]
  {
    assert (frames + [last])[..|frames|] == frames;
  }

  lemma {:induction false} OrderedStays(frames: seq<Frame>)
    requires InOrder(frames)
    ensures SortFrames(frames) == frames
  {
    if frames != [] {
      FrontInOrder(frames);
      OrderedStays(frames[..|frames| - 1]);
      SortOneMore(frames[..|frames| - 1], frames[|frames| - 1]);
    }
  }

  lemma {:induction false} SameKeys(key: KeyOf, a: seq<Frame>, b: seq<Frame>)
    requires forall g :: g in a <==> g in b
    ensures Keys(key, a) == Keys(key, b)
  {
  }

  /** A poll of frames that sit on the phone's timeline leaves the track on that timeline, with the new keys added. */
  lemma {:induction false} MergeKeepsTimeline(key: KeyOf, stored: seq<Frame>, incoming: seq<Frame>, delta: int, phone: map<string, int>, offset: int)
    requires UniqueKeys(key, stored) && OnTimeline(key, stored, phone, offset) && Addressed(stored)
    requires OnTimeline(key, incoming, phone, offset - delta)
    ensures MergeFrames(key, stored, incoming, delta).Some? <==> Addressed(incoming)
    ensures MergeFrames(key, stored, incoming, delta).Some? ==>
              var m := MergeFrames(key, stored, incoming, delta).value;
              UniqueKeys(key, m) && InOrder(m) && Addressed(m) && OnTimeline(key, m, phone, offset) &&
              Keys(key, m) == Keys(key, stored) + Keys(key, incoming)
  {
    assert OnTimeline(key, stored, phone, offset - 0);
    AppendAllKeeps(key, [], stored, 0, phone, offset);
    var existing := AppendAll(key, [], stored, 0).value;
    assert Keys(key, []) == {};
    AppendAllKeeps(key, existing, incoming, delta, phone, offset);
    if Addressed(incoming) {
      var all := AppendAll(key, existing, incoming, delta).value;
      SortKeeps(key, all);
      SameKeys(key, SortFrames(all), all);
    }
  }

  // Whole histories of polls.

  /** The phone's own clock never changes: one time per track and per key, whatever the addresses. */
  predicate Faithful(key: KeyOf, polls: seq<Poll>, firstSeenMs: int, phone: map<string, int>) {
    forall p :: p in polls ==> p.report.firstSeenMs == firstSeenMs && OnTimeline(key, p.report.frames, phone, 0)
  }

  /** The offset of the first poll that could be stored. */
  function FirstOffset(polls: seq<Poll>): Option<int> {
    if polls == [] then None
    else
      var front := FirstOffset(polls[..|polls| - 1]);
      if front.Some? then front
      else if Addressed(polls[|polls| - 1].report.frames) then Some(polls[|polls| - 1].offset) else None
  }

  /** The keys of all polls that could be stored. */
  function AllKeys(key: KeyOf, polls: seq<Poll>): set<string> {
    if polls == [] then {}
    else
      var last := polls[|polls| - 1].report.frames;
      AllKeys(key, polls[..|polls| - 1]) + if Addressed(last) then Keys(key, last) else {}
  }

  predicate OnTrack(key: KeyOf, t: Track, firstSeenMs: int, phone: map<string, int>, offset: int, keys: set<string>) {
    t.timeMs == firstSeenMs + offset && UniqueKeys(key, t.frames) && InOrder(t.frames) && Addressed(t.frames) &&
    OnTimeline(key, t.frames, phone, offset) && Keys(key, t.frames) == keys
  }

  lemma {:induction false} ShiftedHas(frames: seq<Frame>, offset: int, f: Frame)
    ensures f in Shifted(frames, offset) <==> Frame(f.timeMs - offset, f.url) in frames
  {
    var s := Shifted(frames, offset);
    if f in s {
      var i :| 0 <= i < |s| && s[i] == f;
      assert frames[i] == Frame(f.timeMs - offset, f.url);
    }
    if Frame(f.timeMs - offset, f.url) in frames {
      var i :| 0 <= i < |frames| && frames[i] == Frame(f.timeMs - offset, f.url);
      assert s[i] == f;
    }
  }

  lemma {:induction false} ShiftedKeys(key: KeyOf, frames: seq<Frame>, offset: int)
    ensures Keys(key, Shifted(frames, offset)) == Keys(key, frames)
  {
    var s := Shifted(frames, offset);
    forall k ensures k in Keys(key, s) <==> k in Keys(key, frames) {
      if k in Keys(key, s) {
        var f :| f in s && key(f.url) == k;
        ShiftedHas(frames, offset, f);
        assert key(Frame(f.timeMs - offset, f.url).url) == k;
      }
      if k in Keys(key, frames) {
        var f :| f in frames && key(f.url) == k;
        ShiftedHas(frames, offset, Frame(f.timeMs + offset, f.url));
        assert key(Frame(f.timeMs + offset, f.url).url) == k;
      }
    }
  }

  lemma {:induction false} ShiftedOnTimeline(key: KeyOf, frames: seq<Frame>, phone: map<string, int>, offset: int)
    requires OnTimeline(key, frames, phone, 0)
    ensures OnTimeline(key, Shifted(frames, offset), phone, offset)
    ensures Addressed(Shifted(frames, offset)) <==> Addressed(frames)
    ensures Keys(key, Shifted(frames, offset)) == Keys(key, frames)
  {
    var s := Shifted(frames, offset);
    ShiftedKeys(key, frames, offset);
    forall f | f in s ensures Frame(f.timeMs - offset, f.url) in frames {
      ShiftedHas(frames, offset, f);
    }
    forall f | f in frames ensures Frame(f.timeMs + offset, f.url) in s {
      ShiftedHas(frames, offset, Frame(f.timeMs + offset, f.url));
    }
  }

  lemma {:induction false} MergedOnTrack(key: KeyOf, before: Track, pulled: Track, firstSeenMs: int, phone: map<string, int>,
      offset: int, keys: set<string>)
    requires OnTrack(key, before, firstSeenMs, phone, offset, keys)
    requires OnTimeline(key, pulled.frames, phone, pulled.timeMs - firstSeenMs)
    ensures var m := MergeFrames(key, before.frames, pulled.frames, before.timeMs - pulled.timeMs);
            if Addressed(pulled.frames)
            then m.Some? && OnTrack(key, Track(before.timeMs, m.value), firstSeenMs, phone, offset, keys + Keys(key, pulled.frames))
            else m.None?
  {
    MergeKeepsTimeline(key, before.frames, pulled.frames, before.timeMs - pulled.timeMs, phone, offset);
  }

  lemma {:induction false} BeforeOnTrack(key: KeyOf, stored: Option<Track>, pulled: Track, firstSeenMs: int, phone: map<string, int>,
      offset: int, keys: set<string>)
    requires if stored.Some? then OnTrack(key, stored.value, firstSeenMs, phone, offset, keys)
             else pulled.timeMs == firstSeenMs + offset && keys == {}
    ensures OnTrack(key, Before(stored, pulled), firstSeenMs, phone, offset, keys)
  {
    assert Keys(key, []) == {};
  }

  lemma {:induction false} UpsertOnTrack(key: KeyOf, stored: Option<Track>, pulled: Track, firstSeenMs: int, phone: map<string, int>,
      offset: int, keys: set<string>)
    requires if stored.Some? then OnTrack(key, stored.value, firstSeenMs, phone, offset, keys)
             else pulled.timeMs == firstSeenMs + offset && keys == {}
    requires OnTimeline(key, pulled.frames, phone, pulled.timeMs - firstSeenMs)
    ensures var next := Upsert(key, stored, pulled);
            if Addressed(pulled.frames)
            then next.Some? && OnTrack(key, next.value, firstSeenMs, phone, offset, keys + Keys(key, pulled.frames))
            else next.None?
  {
    BeforeOnTrack(key, stored, pulled, firstSeenMs, phone, offset, keys);
    MergedOnTrack(key, Before(stored, pulled), pulled, firstSeenMs, phone, offset, keys);
  }

  lemma {:induction false} PollKeepsTrack(key: KeyOf, stored: Option<Track>, poll: Poll, firstSeenMs: int, phone: map<string, int>,
      offset: int, keys: set<string>)
    requires poll.report.firstSeenMs == firstSeenMs && OnTimeline(key, poll.report.frames, phone, 0)
    requires if stored.Some? then OnTrack(key, stored.value, firstSeenMs, phone, offset, keys) else offset == poll.offset && keys == {}
    ensures var next := Polled(key, stored, poll);
            if Addressed(poll.report.frames)
            then next.Some? && OnTrack(key, next.value, firstSeenMs, phone, offset, keys + Keys(key, poll.report.frames))
            else next == stored
  {
    ShiftedOnTimeline(key, poll.report.frames, phone, poll.offset);
    UpsertOnTrack(key, stored, ToStored(poll.report, poll.offset), firstSeenMs, phone, offset, keys);
  }

  /**
   The frozen timeline: after any polls, with any offsets, the track's time and every frame's time are the phone's own plus
   the offset of the first stored poll; each key has one frame, the frames are in order, and no key is ever lost.
   */
  lemma {:induction false} TimelineIsFrozen(key: KeyOf, polls: seq<Poll>, firstSeenMs: int, phone: map<string, int>)
    requires Faithful(key, polls, firstSeenMs, phone)
    ensures PolledAll(key, polls).Some? <==> FirstOffset(polls).Some?
    ensures PolledAll(key, polls).Some? ==>
              OnTrack(key, PolledAll(key, polls).value, firstSeenMs, phone, FirstOffset(polls).value, AllKeys(key, polls))
    ensures PolledAll(key, polls).None? ==> AllKeys(key, polls) == {}
  {
    if polls != [] {
      var front, last := polls[..|polls| - 1], polls[|polls| - 1];
      assert forall p :: p in front ==> p in polls;
      assert last in polls;
      TimelineIsFrozen(key, front, firstSeenMs, phone);
      var stored := PolledAll(key, front);
      var offset := if stored.Some? then FirstOffset(front).value else last.offset;
      PollKeepsTrack(key, stored, last, firstSeenMs, phone, offset, AllKeys(key, front));
    }
  }

  // The same poll again.

  /** The last address given for a key. */
  function LastUrl(key: KeyOf, items: seq<Frame>, k: string): Option<string> {
    if items == [] then None
    else if key(items[|items| - 1].url) == k then Some(items[|items| - 1].url)
    else LastUrl(key, items[..|items| - 1], k)
  }

  /** Frames named by these items carry their last addresses. */
  predicate Refreshed(key: KeyOf, frames: seq<Frame>, items: seq<Frame>) {
    forall g :: g in frames ==> LastUrl(key, items, key(g.url)).Some? ==> g.url == LastUrl(key, items, key(g.url)).value
  }

  lemma {:induction false} AppendRefreshes(key: KeyOf, frames: seq<Frame>, items: seq<Frame>, delta: int)
    requires UniqueKeys(key, frames) && AppendAll(key, frames, items, delta).Some?
    ensures UniqueKeys(key, AppendAll(key, frames, items, delta).value)
    ensures Refreshed(key, AppendAll(key, frames, items, delta).value, items)
  {
    if items != [] {
      var front, last := items[..|items| - 1], items[|items| - 1];
      AppendRefreshes(key, frames, front, delta);
      OneRefreshes(key, AppendAll(key, frames, front, delta).value, front, last, delta);
      assert items == front + [last];
    }
  }

  lemma {:induction false} OneRefreshes(key: KeyOf, frames: seq<Frame>, front: seq<Frame>, last: Frame, delta: int)
    requires UniqueKeys(key, frames) && Refreshed(key, frames, front)
    ensures UniqueKeys(key, AppendOne(key, frames, last, delta)) && Refreshed(key, AppendOne(key, frames, last, delta), front + [last])
  {
    var r, items := AppendOne(key, frames, last, delta), front + [last];
    assert items[..|items| - 1] == front;
    var i := IndexOf(key, frames, key(last.url));
    forall g | g in r ensures LastUrl(key, items, key(g.url)).Some? ==> g.url == LastUrl(key, items, key(g.url)).value {
      var j :| 0 <= j < |r| && r[j] == g;
      if j < |frames| {
        assert frames[j] in frames;
      }
    }
  }

  /** Items whose keys are all known change addresses only. */
  lemma {:induction false} KnownItems(key: KeyOf, frames: seq<Frame>, items: seq<Frame>, delta: int)
    requires UniqueKeys(key, frames) && Addressed(items) && Keys(key, items) <= Keys(key, frames)
    ensures AppendAll(key, frames, items, delta).Some?
    ensures var r := AppendAll(key, frames, items, delta).value;
            |r| == |frames| && forall i :: 0 <= i < |r| ==>
              var k := key(frames[i].url);
              r[i] == Frame(frames[i].timeMs, if LastUrl(key, items, k).Some? then LastUrl(key, items, k).value else frames[i].url) &&
              key(r[i].url) == k
  {
    if items != [] {
      var front, last := items[..|items| - 1], items[|items| - 1];
      assert forall f :: f in items <==> f in front || f == last;
      KnownItems(key, frames, front, delta);
      var before := AppendAll(key, frames, front, delta).value;
      assert key(last.url) in Keys(key, frames);
      var g :| g in frames && key(g.url) == key(last.url);
      var j :| 0 <= j < |frames| && frames[j] == g;
      assert key(before[j].url) == key(last.url);
    }
  }

  lemma {:induction false} FrontIsUnique(key: KeyOf, frames: seq<Frame>)
    requires UniqueKeys(key, frames) && Addressed(frames) && frames != []
    ensures var front, last := frames[..|frames| - 1], frames[|frames| - 1];
            UniqueKeys(key, front) && Addressed(front) && front + [last] == frames && last.url != "" &&
            forall i :: 0 <= i < |front| ==> key(front[i].url) != key(last.url)
  {
    var front := frames[..|frames| - 1];
    assert forall f :: f in front ==> f in frames;
  }

  lemma {:induction false} FreshIsAppended(key: KeyOf, frames: seq<Frame>, last: Frame)
    requires forall i :: 0 <= i < |frames| ==> key(frames[i].url) != key(last.url)
    ensures AppendOne(key, frames, last, 0) == frames + [last]
  {
  }

  lemma {:induction false} UniqueIsAppended(key: KeyOf, frames: seq<Frame>)
    requires UniqueKeys(key, frames) && Addressed(frames)
    ensures AppendAll(key, [], frames, 0) == Some(frames)
  {
    if frames != [] {
      FrontIsUnique(key, frames);
      UniqueIsAppended(key, frames[..|frames| - 1]);
      FreshIsAppended(key, frames[..|frames| - 1], frames[|frames| - 1]);
    }
  }

  lemma {:induction false} OneKeepsKeys(key: KeyOf, frames: seq<Frame>, f: Frame, delta: int)
    requires UniqueKeys(key, frames) && Addressed(frames) && f.url != ""
    ensures var r := AppendOne(key, frames, f, delta);
            UniqueKeys(key, r) && Addressed(r) && Keys(key, frames) <= Keys(key, r) && key(f.url) in Keys(key, r)
  {
    var r := AppendOne(key, frames, f, delta);
    var i := IndexOf(key, frames, key(f.url));
    var at := if i.Some? then i.value else |frames|;
    assert r[at] in r && key(r[at].url) == key(f.url);
    forall k | k in Keys(key, frames) ensures k in Keys(key, r) {
      var g :| g in frames && key(g.url) == k;
      var j :| 0 <= j < |frames| && frames[j] == g;
      assert key(r[j].url) == k && r[j] in r;
    }
    forall g | g in r ensures g.url != "" {
      var j :| 0 <= j < |r| && r[j] == g;
      assert j < |frames| ==> frames[j] in frames;
    }
  }

  /** Whatever the times, merging keeps one frame per key and loses no key. */
  lemma {:induction false} AppendKeepsKeys(key: KeyOf, frames: seq<Frame>, items: seq<Frame>, delta: int)
    requires UniqueKeys(key, frames) && Addressed(frames)
    ensures AppendAll(key, frames, items, delta).Some? <==> Addressed(items)
    ensures AppendAll(key, frames, items, delta).Some? ==>
              var r := AppendAll(key, frames, items, delta).value;
              UniqueKeys(key, r) && Addressed(r) && Keys(key, frames) <= Keys(key, r) && Keys(key, items) <= Keys(key, r)
  {
    if items != [] {
      var front, last := items[..|items| - 1], items[|items| - 1];
      assert forall f :: f in items <==> f in front || f == last;
      AppendKeepsKeys(key, frames, front, delta);
      if AppendAll(key, frames, items, delta).Some? {
        OneKeepsKeys(key, AppendAll(key, frames, front, delta).value, last, delta);
        assert Keys(key, items) == Keys(key, front) + {key(last.url)};
      }
    }
  }

  /** A track in order, with one frame per key, that already carries the items' addresses is left as it is by them. */
  lemma {:induction false} RefreshedStays(key: KeyOf, m: seq<Frame>, items: seq<Frame>, delta: int)
    requires UniqueKeys(key, m) && InOrder(m) && Addressed(m) && Addressed(items) && Keys(key, items) <= Keys(key, m)
    requires Refreshed(key, m, items)
    ensures MergeFrames(key, m, items, delta) == Some(m)
  {
    UniqueIsAppended(key, m);
    KnownItems(key, m, items, delta);
    var again := AppendAll(key, m, items, delta).value;
    forall i | 0 <= i < |m| ensures again[i] == m[i] {
      assert m[i] in m;
    }
    assert again == m;
    OrderedStays(m);
  }

  /** Merging the same poll once more changes nothing, whatever was stored and whatever times the poll gives. */
  lemma {:induction false} MergeTwiceIsOnce(key: KeyOf, stored: seq<Frame>, incoming: seq<Frame>, delta: int)
    ensures MergeFrames(key, stored, incoming, delta).Some? <==> Addressed(stored) && Addressed(incoming)
    ensures MergeFrames(key, stored, incoming, delta).Some? ==>
              var m := MergeFrames(key, stored, incoming, delta).value; MergeFrames(key, m, incoming, delta) == Some(m)
  {
    AppendKeepsKeys(key, [], stored, 0);
    if Addressed(stored) {
      var existing := AppendAll(key, [], stored, 0).value;
      AppendKeepsKeys(key, existing, incoming, delta);
      if Addressed(incoming) {
        var all := AppendAll(key, existing, incoming, delta).value;
        AppendRefreshes(key, existing, incoming, delta);
        SortKeeps(key, all);
        SameKeys(key, SortFrames(all), all);
        RefreshedStays(key, SortFrames(all), incoming, delta);
      }
    }
  }

  // The loops.

  method AppendFrames(key: KeyOf, frames: seq<Frame>, items: seq<Frame>, delta: int) returns (r: Option<seq<Frame>>)
    ensures r == AppendAll(key, frames, items, delta)
  {
    var out := frames;
    for i := 0 to |items|
      invariant AppendAll(key, frames, items[..i], delta) == Some(out)
    {
      assert items[..i + 1][..i] == items[..i];
      if items[i].url == "" {
        AppendStops(key, frames, items, delta, i + 1);
        return None;
      }
      var known := IndexOf(key, out, key(items[i].url));
      if known.Some? {
        out := out[known.value := Frame(out[known.value].timeMs, items[i].url)];
      } else {
        out := out + [Frame(items[i].timeMs + delta, items[i].url)];
      }
    }
    assert items[..|items|] == items;
    return Some(out);
  }

  lemma {:induction false} AppendStops(key: KeyOf, frames: seq<Frame>, items: seq<Frame>, delta: int, n: nat)
    requires n <= |items| && AppendAll(key, frames, items[..n], delta).None?
    ensures AppendAll(key, frames, items, delta).None?
  {
    if n < |items| {
      assert items[..|items| - 1][..n] == items[..n];
      AppendStops(key, frames, items[..|items| - 1], delta, n);
    } else {
      assert items[..n] == items;
    }
  }

  method MergePhotoFrames(key: KeyOf, stored: seq<Frame>, incoming: seq<Frame>, delta: int) returns (r: Option<seq<Frame>>)
    ensures r == MergeFrames(key, stored, incoming, delta)
  {
    var existing := AppendFrames(key, [], stored, 0);
    if existing.None? {
      return None;
    }
    var all := AppendFrames(key, existing.value, incoming, delta);
    if all.None? {
      return None;
    }
    return Some(SortFrames(all.value));
  }

  /** A stored photo: the event it was first pulled for, and its track. */
  datatype Held = Held(eventId: string, track: Track)

  /** A photo of another event is refused, and so is a poll that cannot be merged. */
  function Put(key: KeyOf, held: Option<Held>, eventId: string, poll: Poll): Option<Held> {
    if held.Some? && held.value.eventId != eventId then None
    else
      var known := if held.Some? then Some(held.value.track) else None;
      var next := Upsert(key, known, ToStored(poll.report, poll.offset));
      if next.None? then None else Some(Held(eventId, next.value))
  }

  class PhotoStore {
    var photos: map<string, Held>

    constructor ()
      ensures photos == map[]
    {
      photos := map[];
    }

    function Stored(id: string): Option<Held>
      reads this
    {
      if id in photos then Some(photos[id]) else None
    }

    method PullFrames(report: Report, offset: int) returns (pulled: Track)
      ensures pulled == ToStored(report, offset)
    {
      var frames: seq<Frame> := [];
      for i := 0 to |report.frames|
        invariant |frames| == i && forall j :: 0 <= j < i ==> frames[j] == Shifted(report.frames, offset)[j]
      {
        frames := frames + [Frame(report.frames[i].timeMs + offset, report.frames[i].url)];
      }
      return Track(report.firstSeenMs + offset, frames);
    }

    method MergeStored(key: KeyOf, known: Option<Track>, pulled: Track) returns (next: Option<Track>)
      ensures next == Upsert(key, known, pulled)
    {
      var before := Before(known, pulled);
      var merged := MergePhotoFrames(key, before.frames, pulled.frames, before.timeMs - pulled.timeMs);
      if merged.None? {
        return None;
      }
      return Some(Track(before.timeMs, merged.value));
    }

    /** Read, merge and write of one photo; a refusal changes nothing, and the other photos stay as they are. */
    method UpsertPhoto(key: KeyOf, eventId: string, id: string, poll: Poll) returns (ok: bool)
      modifies this
      ensures ok <==> Put(key, old(Stored(id)), eventId, poll).Some?
      ensures Stored(id) == if ok then Put(key, old(Stored(id)), eventId, poll) else old(Stored(id))
      ensures forall other :: other != id ==> Stored(other) == old(Stored(other))
    {
      var known: Option<Track> := None;
      if id in photos {
        if photos[id].eventId != eventId {
          return false;
        }
        known := Some(photos[id].track);
      }
      var pulled := PullFrames(poll.report, poll.offset);
      var next := MergeStored(key, known, pulled);
      if next.None? {
        return false;
      }
      photos := photos[id := Held(eventId, next.value)];
      return true;
    }
  }

  /** Within its event a stored photo's track is the one its polls make, and polls for another event leave it alone. */
  lemma {:induction false} PutPolls(key: KeyOf, held: Option<Held>, eventId: string, poll: Poll)
    ensures var put := Put(key, held, eventId, poll); var after := if put.Some? then put else held;
            if held.Some? && held.value.eventId != eventId then after == held
            else
              var track := Polled(key, if held.Some? then Some(held.value.track) else None, poll);
              after == if track.Some? then Some(Held(eventId, track.value)) else None
  {
  }
}
