/** End-to-end runs of the sync engine and the merge on small inputs: a
    comment created offline that the server later resolves, a pending edit
    that wins over an older server record, and the switch to local-only mode
    after repeated failures. */
module Scenarios {
  import opened Wrappers
  import opened Seqs
  import opened Comments
  import opened Digest
  import opened Merge
  import opened ServerApi
  import opened SyncEngine

  /** A pending edit newer than the server's record survives the merge
      exactly, and no conflict is recorded: conflicts are only recorded when
      the server's record is the newer one. */
  lemma PendingEditWinsOverOlderServer(server: Comment, edited: Comment)
    requires edited.id == server.id
    requires server.updatedAt == At(50) && edited.updatedAt == At(100)
    requires edited.slideId.Some? && !edited.createdAt.Missing?
    ensures Merged([server], [edited], map[edited.id := edited]) == MergeResult([edited], [], [])
  {
    var pending := map[edited.id := edited];
    var ids := Ids([server]);
    assert server.id in ids;
    assert [server][..0] == [] && [edited][..0] == [];
    assert Map([server], MergeWith(pending)) == [edited];
    assert ConflictsOf([server], pending) == [];
    assert Filter([edited], KeptBy(ids, pending)) == [];
    assert Filter([edited], GoneBy(ids, pending)) == [];
  }

  /** A server record whose `updatedAt` is present but does not parse keeps
      that string rather than falling back to a later `createdAt`; its time is
      NaN, so the server record is not newer, the pending snapshot is overlaid
      on it and no conflict is recorded. */
  lemma UnparseableServerTimeKeepsPending(server: Comment, edited: Comment)
    requires edited.id == server.id && edited.updatedAt == At(100)
    requires server.updatedAt == Invalid("n/a") && server.createdAt == At(200)
    ensures Stamp(server) == Invalid("n/a") && !ServerNewer(server, edited)
    ensures Merged([server], [edited], map[edited.id := edited]) == MergeResult([Overlay(server, edited)], [], [])
  {
    var pending := map[edited.id := edited];
    var ids := Ids([server]);
    assert server.id in ids;
    assert [server][..0] == [] && [edited][..0] == [];
    assert Map([server], MergeWith(pending)) == [Overlay(server, edited)];
    assert ConflictsOf([server], pending) == [];
    assert Filter([edited], KeptBy(ids, pending)) == [];
    assert Filter([edited], GoneBy(ids, pending)) == [];
  }

  /** Ten consecutive failed syncs with an optional backend: the engine is
      local-only, and a new comment is stored locally without any call to
      the backend. */
  method LocalOnlyAfterTenFailures(id: string, slideId: string, author: string, text: string, now: int)
    returns (localOnly: bool, stored: seq<Comment>, calls: seq<RemoteCall>)
    requires text != ""
    ensures localOnly && calls == []
    ensures stored == [Comment(id, "", author, text, 10.0, 20.0, Some(slideId), false, At(now), At(now))]
  {
    var e := new Engine(true, false, None, None, None);
    var _ := e.Load();
    var i := 0;
    while i < 10
      invariant 0 <= i <= 10
      invariant e.Valid() && e.hasRemote && !e.requireBackend && e.fallbackAfter == DefaultFallbackAfter
      invariant e.syncFailCount == i && e.comments == []
      invariant e.useLocalMode == (i >= 10)
    {
      var _ := e.LoadRemote(false);
      e.LoadRemoteCompleted(false, ListFailed);
      i := i + 1;
    }
    localOnly := e.useLocalMode;
    calls := e.CreateRoot(id, slideId, 10.0, 20.0, author, text, now);
    stored := e.comments;
  }

  /** A comment created while the server is empty is pending until the
      server lists it; when the server's copy is resolved and newer, the next
      sync takes the server's copy and clears the pending entry. */
  method CreateThenServerResolves(id: string, author: string, text: string)
    returns (created: seq<RemoteCall>, stored: seq<Comment>, pendingAfter: PendingMap)
    requires id != "" && text != ""
    ensures var c := Comment(id, "", author, text, 10.0, 20.0, Some("s1"), false, At(1000), At(1000));
      && created == [CreateCall(c, Some("s1"))]
      && stored == [c.(resolved := true, updatedAt := At(2000))]
      && pendingAfter == map[]
  {
    var c := Comment(id, "", author, text, 10.0, 20.0, Some("s1"), false, At(1000), At(1000));
    var e;
    e, created := CreateWhileServerEmpty(id, author, text);
    var started := e.PollTick(7000);
    assert started;
    SyncServerResolved(e, c);
    stored := e.comments;
    pendingAfter := e.pending;
  }

  /** The second half of the scenario: the poll started after the skip
      window finds the server's copy resolved at time 2000. */
  method SyncServerResolved(e: Engine, c: Comment)
    requires e.Valid() && e.hasRemote && !e.useLocalMode
    requires c.id != "" && !c.resolved && c.updatedAt == At(1000)
    requires e.comments == [c] && e.pending == map[c.id := c] && e.lastSyncHash == "" && e.skipPollUntil == 6000
    modifies e`comments, e`cache, e`pending, e`isSyncing, e`syncFailCount, e`useLocalMode, e`lastSyncHash, e`isInitialSync
    ensures e.comments == [c.(resolved := true, updatedAt := At(2000))] && e.pending == map[]
  {
    var s := c.(resolved := true, updatedAt := At(2000));
    ResolvedSyncOutcome(c);
    ghost var merged := Merged([s], e.comments, e.pending).merged;
    assert AfterMerge(e.comments, merged) == [s];
    assert e.pending - Ids([s]) == map[];
    e.LoadRemoteCompleted(false, Listed([s]));
  }

  /** What the merge-and-replace step of a sync makes of the scenario's
      data: the digest changes, the collection becomes the server's copy and
      the pending entry goes. */
  lemma ResolvedSyncOutcome(c: Comment)
    requires !c.resolved && c.updatedAt == At(1000)
    ensures var s := c.(resolved := true, updatedAt := At(2000));
      && ComputeCommentsHash([s]) != ""
      && AfterMerge([c], Merged([s], [c], map[c.id := c]).merged) == [s]
      && map[c.id := c] - Ids([s]) == map[]
  {
    var s := c.(resolved := true, updatedAt := At(2000));
    ResolvedDigestChanges(c, s);
    ServerResolvedMerge(c, s);
    SingleIdCleared(c, s);
  }

  lemma ResolvedDigestChanges(c: Comment, s: Comment)
    requires !c.resolved && s.resolved
    ensures ComputeCommentsHash([s]) != "" && ComputeCommentsHash([s]) != ComputeCommentsHash([c])
  {
    SingletonHash(s);
    SingletonHash(c);
    HashKeySeesResolved(s, c);
  }

  lemma SingleIdCleared(c: Comment, s: Comment)
    requires s.id == c.id
    ensures map[c.id := c] - Ids([s]) == map[]
  {
    assert Ids([s]) == {c.id} by {
      assert s in [s];
    }
    assert (map[c.id := c] - {c.id}).Keys == {};
  }

  /** The first half of the scenario: hydrate, a first sync that finds the
      server empty, then a new root comment at time 1000. */
  method CreateWhileServerEmpty(id: string, author: string, text: string)
    returns (e: Engine, created: seq<RemoteCall>)
    requires text != ""
    ensures fresh(e) && e.Valid() && e.hasRemote && !e.useLocalMode && !e.isSyncing
    ensures var c := Comment(id, "", author, text, 10.0, 20.0, Some("s1"), false, At(1000), At(1000));
      && created == [CreateCall(c, Some("s1"))]
      && e.comments == [c] && e.pending == map[id := c]
      && e.lastSyncHash == "" && e.skipPollUntil == 6000
  {
    e := new Engine(true, false, None, None, None);
    var _ := e.Load();
    EmptyHash();
    e.LoadRemoteCompleted(false, Listed([]));
    created := e.CreateRoot(id, "s1", 10.0, 20.0, author, text, 1000);
  }

  /** The merge step of the scenario above: the server's newer copy replaces
      the local one and a conflict is recorded, since the two differ. */
  lemma ServerResolvedMerge(c: Comment, s: Comment)
    requires s == c.(resolved := true, updatedAt := At(2000)) && c.updatedAt == At(1000) && !c.resolved
    ensures Merged([s], [c], map[c.id := c]) == MergeResult([s], [Conflict(c, s)], [])
  {
    var pending := map[c.id := c];
    var ids := Ids([s]);
    assert s.id in ids;
    assert [s][..0] == [] && [c][..0] == [];
    assert Stamp(s) == At(2000) && Stamp(c) == At(1000);
    assert ServerNewer(s, c) && CommentsAreDifferent(Some(c), Some(s));
    assert Map([s], MergeWith(pending)) == [s];
    assert ConflictFor(s, pending) == [Conflict(c, s)];
    assert ConflictsOf([s], pending) == ConflictsOf([], pending) + ConflictFor(s, pending);
    assert Filter([c], KeptBy(ids, pending)) == [];
    assert Filter([c], GoneBy(ids, pending)) == [];
  }
}
