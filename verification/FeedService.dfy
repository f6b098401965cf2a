/** Serving the Desk's feed to tablets page by page, and trimming it. */
module FeedService {
  import opened Wrappers
  import opened Operations
  import opened FeedLog
  import opened Tables
  import opened EventStore

  /** A page for a reader of this scope. */
  function ServePage(d: Desk, scopeId: string, cursor: int, limit: int): Result<Page, Failure> {
    if cursor < 0 || limit < 1 || limit > 100 then Err(FeedFailure(InvalidQuery))
    else if d.scope.scopeId != scopeId then Err(FeedScope)
    else
      var page := ReadPage(d.feed, cursor, limit);
      if page.Err? then Err(FeedFailure(page.error)) else Ok(page.value)
  }

  method PacketIssuanceFeedPage(store: Store, scopeId: string, cursor: int, limit: int) returns (reply: Result<Page, Failure>)
    ensures reply == ServePage(store.View(), scopeId, cursor, limit)
  {
    if cursor < 0 || limit < 1 || limit > 100 {
      return Err(FeedFailure(InvalidQuery));
    }
    if store.scope.scopeId != scopeId {
      return Err(FeedScope);
    }
    var head, floor := store.lastSequence, store.firstAvailable;
    if floor < 1 || floor > head + 1 {
      return Err(FeedFailure(InvalidBounds));
    }
    if cursor > head {
      return Err(FeedFailure(CursorAhead));
    }
    if cursor < floor - 1 {
      return Err(FeedFailure(CursorExpired));
    }
    var rows := store.ListPacketFeedRows(cursor, limit);
    var next, actions: seq<Entry> := cursor, [];
    for i := 0 to |rows|
      invariant next == cursor + i && actions == rows[..i]
      invariant forall j :: 0 <= j < i ==> rows[j].sequence == cursor + 1 + j
    {
      if rows[i].sequence != next + 1 {
        return Err(FeedFailure(SequenceGap));
      }
      next := rows[i].sequence;
      actions := actions + [rows[i]];
    }
    assert actions == rows;
    return Ok(Page(cursor, next, head, next < head, actions));
  }

  /** Archives one batch at most, and only when asked to execute. */
  method CompactPacketIssuanceFeed(store: Store, keep: int, execute: bool, now: int) returns (reply: Result<Retention, Failure>)
    modifies store
    ensures var c := Compact(old(store.View()).feed, keep, execute, now);
            store.View() == old(store.View()).(feed := c.feed) &&
            reply == if c.reply.Ok? then Ok(c.reply.value) else Err(FeedFailure(c.reply.error))
  {
    if keep < 1 || keep > 100000 || now <= 0 {
      return Err(FeedFailure(InvalidRetentionRequest));
    }
    var head, floor := store.lastSequence, store.firstAvailable;
    if floor < 1 || floor > head + 1 {
      return Err(FeedFailure(InvalidBounds));
    }
    var result := Retention(head, floor, 0, 0, 0, false);
    var lastArchivable := head - keep;
    if lastArchivable < floor {
      return Ok(result);
    }
    var candidate := lastArchivable - floor + 1;
    var processed := candidate;
    if processed > 100 {
      processed := 100;
    }
    result := result.(candidate := candidate, processed := processed, through := floor + processed - 1);
    if !execute {
      return Ok(result);
    }
    var saved := store.View();
    var archived := store.ArchivePacketFeedPrefix(result.through, now);
    if archived.Err? {
      store.Rollback(saved);
      return Err(archived.error);
    }
    return Ok(result.(firstAvailable := store.firstAvailable, executed := true));
  }
}
