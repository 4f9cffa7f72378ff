/** The offline-first sync engine of the comments layer: the comment
    collection, the pending-change map, the sync flags and counters, and the
    operations that change them. Each remote call is modelled as a value the
    operation returns; its completion is a separate event method. */
module SyncEngine {
  import opened Wrappers
  import opened Seqs
  import opened Comments
  import opened Digest
  import opened Merge
  import opened ServerApi
  import Helpers

  /** How long after a local write the poll stays off, in milliseconds. */
  const SkipPollWindow: int := 5000

  /** `fallbackAfter` when the configuration gives none (or zero). */
  const DefaultFallbackAfter: int := 10

  /** An `update` request body: the id and the changed fields. */
  datatype Patch = Patch(id: string, text: Option<string>, resolved: Option<bool>, x: Option<real>, y: Option<real>)

  /** A call issued to the backend adapter. */
  datatype RemoteCall =
    | CreateCall(comment: Comment, defaultSlideId: Option<string>)
    | UpdateCall(patch: Patch)
    | DeleteCall(id: string)

  /** The delete awaiting confirmation: the root and the reply ids seen when
      the delete button was pressed. */
  datatype DeleteRequest = DeleteRequest(commentId: string, replyIds: seq<string>)

  function DeleteCallFor(id: string): RemoteCall { DeleteCall(id) }

  /** A configured threshold with JavaScript's `setting || default`. */
  function OrDefault(setting: Option<int>, default: int): int
  {
    if setting.Some? && setting.value != 0 then setting.value else default
  }

  // ------------------------------------------------ pending clearing on sync

  /** The pending map after a successful sync: entries whose id is on the
      server or reported deleted are removed. */
  function ClearSynced(pending: PendingMap, serverIds: set<string>, deleted: seq<string>): PendingMap
  {
    map k | k in pending && k !in serverIds && k !in deleted :: pending[k]
  }

  /** The runtime's loop over `Object.keys(pendingChanges)`. */
  method ClearSyncedPending(pending: PendingMap, serverIds: set<string>, deleted: seq<string>)
    returns (next: PendingMap)
    ensures next == ClearSynced(pending, serverIds, deleted)
  {
    next := pending;
    var rest := pending.Keys;
    while rest != {}
      invariant rest <= pending.Keys
      invariant next == map k | k in pending && (k in rest || (k !in serverIds && k !in deleted)) :: pending[k]
      decreases rest
    {
      var id :| id in rest;
      if id in serverIds || id in deleted {
        next := next - {id};
      }
      rest := rest - {id};
    }
  }

  /** After a successful merge the pending map loses exactly the ids present
      on the server; every other entry is kept unchanged. The
      "deleted from server" test in the clearing loop never fires, because a
      reported deletion is by definition an id without a pending entry. */
  lemma SyncClearsServerIds(serverList: seq<Comment>, local: seq<Comment>, pending: PendingMap)
    requires PendingKeyed(pending)
    ensures ClearSynced(pending, Ids(serverList), Merged(serverList, local, pending).deletedFromServer)
            == pending - Ids(serverList)
  {
    var deleted := Merged(serverList, local, pending).deletedFromServer;
    forall k | k in pending && k !in Ids(serverList) ensures k !in deleted {
      DeletedFromServerExactly(serverList, local, pending, k);
    }
  }

  /** The collection after a merge: replaced only when the merged digest
      differs from the current one. */
  function AfterMerge(current: seq<Comment>, merged: seq<Comment>): seq<Comment>
  {
    if ComputeCommentsHash(merged) != ComputeCommentsHash(current) then merged else current
  }

  // -------------------------------------------------------- clipboard import

  /** An imported entry that is appended: present, with an id not already in
      the collection. */
  predicate Admitted(entry: Option<Comment>, existingIds: set<string>)
  {
    entry.Some? && entry.value.id != "" && entry.value.id !in existingIds
  }

  /** The imported comments that are appended, in clipboard order. The set
      of existing ids is taken once, before the loop. */
  function ImportNew(existingIds: set<string>, imported: seq<Option<Comment>>): seq<Comment>
  {
    if imported == [] then []
    else
      var last := imported[|imported| - 1];
      ImportNew(existingIds, imported[..|imported| - 1]) + (if Admitted(last, existingIds) then [last.value] else [])
  }

  /** The import loop: copy the collection and push every admitted entry. */
  method AppendImported(existing: seq<Comment>, imported: seq<Option<Comment>>) returns (next: seq<Comment>)
    ensures next == existing + ImportNew(Ids(existing), imported)
  {
    var existingIds := Ids(existing);
    next := existing;
    var i := 0;
    while i < |imported|
      invariant 0 <= i <= |imported|
      invariant next == existing + ImportNew(existingIds, imported[..i])
    {
      assert imported[..i + 1][..i] == imported[..i];
      var entry := imported[i];
      if entry.Some? && entry.value.id != "" && entry.value.id !in existingIds {
        next := next + [entry.value];
      }
      i := i + 1;
    }
    assert imported[..i] == imported;
  }

  /** An import appends exactly the entries whose id is new to the
      collection and never touches a comment already present. */
  lemma {:induction false} ImportAdmitsExactly(existingIds: set<string>, imported: seq<Option<Comment>>, c: Comment)
    ensures c in ImportNew(existingIds, imported) <==> Some(c) in imported && c.id != "" && c.id !in existingIds
  {
    if imported != [] {
      var init := imported[..|imported| - 1];
      ImportAdmitsExactly(existingIds, init, c);
      assert imported == init + [imported[|imported| - 1]];
    }
  }

  /** Ids are not de-duplicated within one import: the same new entry twice
      in the clipboard is appended twice. */
  lemma ImportKeepsDuplicatesWithinClipboard(c: Comment)
    requires c.id != ""
    ensures ImportNew({}, [Some(c), Some(c)]) == [c, c]
  {
    assert [Some(c), Some(c)][..1] == [Some(c)];
    assert [Some(c)][..0] == [];
    assert ImportNew({}, [Some(c)]) == [c];
  }

  // ------------------------------------------------------------------ engine

  class Engine {
    /** A backend adapter was configured and constructed. */
    const hasRemote: bool
    /** Writes are refused unless the backend is reachable. */
    const requireBackend: bool
    /** Consecutive failed syncs after which the engine goes local-only. */
    const fallbackAfter: int

    /** The `comments` signal. */
    var comments: seq<Comment>
    /** The `hydrated` signal. */
    var hydrated: bool
    /** The persisted comment collection (the local cache's main key). */
    var cache: seq<Comment>
    /** The persisted pending-change map (the local cache's pending key). */
    var pending: PendingMap
    var isSyncing: bool
    var syncFailCount: nat
    var useLocalMode: bool
    var skipPollUntil: int
    var lastSyncHash: string
    var isInitialSync: bool
    /** The `pendingDelete` signal: a delete awaiting confirmation. */
    var pendingDelete: Option<DeleteRequest>

    /** The engine's invariant: pending entries are stored under their own
        ids, the cache mirrors the collection once hydrated (the persisting
        effect), and without a backend the engine is local-only. */
    ghost predicate Valid()
      reads this`pending, this`hydrated, this`cache, this`comments, this`useLocalMode
    {
      && PendingKeyed(pending)
      && (hydrated ==> cache == comments)
      && (!hasRemote ==> useLocalMode)
    }

    /** `canSyncRemote`: syncing needs a backend and is off in local-only
        mode. */
    predicate CanSyncRemote()
      reads this`useLocalMode
      ensures CanSyncRemote() ==> hasRemote
      ensures useLocalMode ==> !CanSyncRemote()
    {
      hasRemote && !useLocalMode
    }

    /** `canWrite`: an optional backend never blocks a write; a required one
        blocks every write in local-only mode. */
    predicate CanWrite()
      reads this`useLocalMode
      ensures !requireBackend ==> CanWrite()
      ensures CanSyncRemote() ==> CanWrite()
      ensures requireBackend && useLocalMode ==> !CanWrite()
    {
      if requireBackend then CanSyncRemote() else true
    }

    /** With the engine invariant the two checks are fully determined by the
        mode: syncing is allowed exactly outside local-only mode, and writing
        exactly when the backend is optional or the engine is not local-only. */
    lemma AccessRules()
      requires Valid()
      ensures CanSyncRemote() <==> !useLocalMode
      ensures CanWrite() <==> !requireBackend || !useLocalMode
    {
    }

    /** The engine as `initComments` sets it up: the signals empty, the
        pending map read from the cache (empty when missing or malformed). */
    constructor (hasRemote: bool, requireBackend: bool, fallbackAfterSetting: Option<int>,
                 storedComments: Option<seq<Comment>>, storedPending: Option<PendingMap>)
      requires storedPending.Some? ==> PendingKeyed(storedPending.value)
      ensures Valid()
      ensures this.hasRemote == hasRemote && this.requireBackend == requireBackend
      ensures fallbackAfter == OrDefault(fallbackAfterSetting, DefaultFallbackAfter)
      ensures comments == [] && !hydrated && cache == storedComments.GetOr([])
      ensures pending == storedPending.GetOr(map[])
      ensures !isSyncing && syncFailCount == 0 && useLocalMode == !hasRemote
      ensures skipPollUntil == 0 && lastSyncHash == "" && isInitialSync && pendingDelete == None
    {
      this.hasRemote := hasRemote;
      this.requireBackend := requireBackend;
      fallbackAfter := OrDefault(fallbackAfterSetting, DefaultFallbackAfter);
      comments := [];
      hydrated := false;
      cache := storedComments.GetOr([]);
      pending := storedPending.GetOr(map[]);
      isSyncing := false;
      syncFailCount := 0;
      useLocalMode := !hasRemote;
      skipPollUntil := 0;
      lastSyncHash := "";
      isInitialSync := true;
      pendingDelete := None;
    }

    /** `setComments`, followed by the persisting effect once hydrated. */
    method SetComments(next: seq<Comment>)
      modifies this`comments, this`cache
      ensures comments == next
      ensures cache == if hydrated then next else old(cache)
    {
      comments := next;
      if hydrated {
        cache := next;
      }
    }

    /** `trackPendingChange`: the snapshot, stamped with the current time. */
    method TrackPendingChange(c: Comment, now: int)
      requires PendingKeyed(pending)
      modifies this`pending
      ensures PendingKeyed(pending)
      ensures pending == old(pending)[c.id := c.(updatedAt := At(now))]
    {
      pending := pending[c.id := c.(updatedAt := At(now))];
    }

    /** Issue a write's remote call when remote sync is possible, keeping the
        poll off for the skip window. */
    method Issue(call: RemoteCall, now: int) returns (calls: seq<RemoteCall>)
      modifies this`skipPollUntil
      ensures CanSyncRemote() ==> calls == [call] && skipPollUntil == now + SkipPollWindow
      ensures !CanSyncRemote() ==> calls == [] && skipPollUntil == old(skipPollUntil)
    {
      if CanSyncRemote() {
        skipPollUntil := now + SkipPollWindow;
        calls := [call];
      } else {
        calls := [];
      }
    }

    // ------------------------------------------------------------- sync

    /** `load`: hydrate from the cache, then start the first sync when a
        backend is usable. */
    method Load() returns (started: bool)
      requires Valid()
      modifies this`comments, this`hydrated, this`isSyncing
      ensures Valid()
      ensures hydrated && comments == cache
      ensures started == (CanSyncRemote() && !old(isSyncing))
      ensures isSyncing == (old(isSyncing) || started)
    {
      comments := cache;
      hydrated := true;
      if hasRemote && !useLocalMode {
        started := LoadRemote(false);
      } else {
        started := false;
      }
    }

    /** The synchronous part of `loadRemote`: the local-mode guard, the
        in-flight guard, then the request is in flight. */
    method LoadRemote(force: bool) returns (started: bool)
      modifies this`isSyncing
      ensures started == (CanSyncRemote() && (!old(isSyncing) || force))
      ensures isSyncing == (old(isSyncing) || started)
    {
      if !hasRemote || useLocalMode {
        return false;
      }
      if isSyncing && !force {
        return false;
      }
      isSyncing := true;
      started := true;
    }

    /** The poll timer's tick. */
    method PollTick(now: int) returns (started: bool)
      modifies this`isSyncing
      ensures started == (CanSyncRemote() && now >= skipPollUntil && !old(isSyncing))
      ensures isSyncing == (old(isSyncing) || started)
    {
      if !CanSyncRemote() {
        return false;
      }
      if now < skipPollUntil {
        return false;
      }
      started := LoadRemote(false);
    }

    /** The rest of `loadRemote`, run when `remote.list()` settles. */
    method LoadRemoteCompleted(force: bool, outcome: ListOutcome)
      requires Valid()
      modifies this`comments, this`cache, this`pending, this`isSyncing, this`syncFailCount,
               this`useLocalMode, this`lastSyncHash, this`isInitialSync
      ensures Valid()
      ensures !isSyncing
      ensures match outcome
        case ListFailed =>
          && comments == old(comments) && pending == old(pending)
          && syncFailCount == old(syncFailCount) + 1
          && useLocalMode == (old(useLocalMode) || (!requireBackend && syncFailCount >= fallbackAfter))
          && lastSyncHash == old(lastSyncHash) && isInitialSync == old(isInitialSync)
        case Listed(serverComments) =>
          && syncFailCount == 0 && useLocalMode == old(useLocalMode)
          && if ComputeCommentsHash(serverComments) == old(lastSyncHash) && !force then
               && comments == old(comments) && pending == old(pending)
               && lastSyncHash == old(lastSyncHash) && isInitialSync == old(isInitialSync)
             else
               && comments == AfterMerge(old(comments), Merged(serverComments, old(comments), old(pending)).merged)
               && pending == old(pending) - Ids(serverComments)
               && lastSyncHash == ComputeCommentsHash(serverComments) && !isInitialSync
    {
      match outcome {
        case ListFailed =>
          SyncFailed();
        case Listed(serverComments) =>
          SyncSucceeded(force, serverComments);
      }
      isSyncing := false;
    }

    /** The `catch` of `loadRemote`: one more consecutive failure, and the
        switch to local-only mode once the threshold is reached (unless the
        backend is required). */
    method SyncFailed()
      requires Valid()
      modifies this`syncFailCount, this`useLocalMode
      ensures Valid()
      ensures syncFailCount == old(syncFailCount) + 1
      ensures useLocalMode == (old(useLocalMode) || (!requireBackend && syncFailCount >= fallbackAfter))
    {
      syncFailCount := syncFailCount + 1;
      if !requireBackend && syncFailCount >= fallbackAfter && !useLocalMode {
        useLocalMode := true;
      }
    }

    /** The success path of `loadRemote`: an unchanged server digest skips
        the merge unless forced. */
    method SyncSucceeded(force: bool, serverComments: seq<Comment>)
      requires Valid()
      modifies this`comments, this`cache, this`pending, this`syncFailCount, this`lastSyncHash, this`isInitialSync
      ensures Valid()
      ensures syncFailCount == 0
      ensures if ComputeCommentsHash(serverComments) == old(lastSyncHash) && !force then
          && comments == old(comments) && pending == old(pending)
          && lastSyncHash == old(lastSyncHash) && isInitialSync == old(isInitialSync)
        else
          && comments == AfterMerge(old(comments), Merged(serverComments, old(comments), old(pending)).merged)
          && pending == old(pending) - Ids(serverComments)
          && lastSyncHash == ComputeCommentsHash(serverComments) && !isInitialSync
    {
      var newHash := ComputeCommentsHash(serverComments);
      if newHash == lastSyncHash && !force {
        syncFailCount := 0;
      } else {
        lastSyncHash := newHash;
        ApplyServerList(serverComments);
        syncFailCount := 0;
        isInitialSync := false;
      }
    }

    /** `setComments(merged)` only when the merged collection's digest
        differs from the current one's. */
    method AdoptMerged(merged: seq<Comment>)
      requires Valid()
      modifies this`comments, this`cache
      ensures Valid()
      ensures comments == AfterMerge(old(comments), merged)
    {
      if ComputeCommentsHash(merged) != ComputeCommentsHash(comments) {
        SetComments(merged);
      }
    }

    /** The merge step of a sync: merge, replace the collection when its
        digest changes, and drop the pending entries the server now has. */
    method ApplyServerList(serverComments: seq<Comment>)
      requires Valid()
      modifies this`comments, this`cache, this`pending
      ensures Valid()
      ensures comments == AfterMerge(old(comments), Merged(serverComments, old(comments), old(pending)).merged)
      ensures pending == old(pending) - Ids(serverComments)
    {
      var r := MergeServerComments(serverComments, comments, pending);
      AdoptMerged(r.merged);
      SyncClearsServerIds(serverComments, old(comments), old(pending));
      pending := ClearSyncedPending(pending, Ids(serverComments), r.deletedFromServer);
    }

    // ------------------------------------------------------------ writes

    /** The "Add Comment" button: a new root comment at a position on a
        slide, optimistic, pending until the backend confirms it. */
    method CreateRoot(id: string, slideId: string, x: real, y: real, author: string, text: string, now: int)
      returns (calls: seq<RemoteCall>)
      requires Valid()
      modifies this`comments, this`cache, this`pending, this`skipPollUntil
      ensures Valid()
      ensures var c := Comment(id, "", author, text, x, y, Some(slideId), false, At(now), At(now));
        if CanWrite() && text != "" then
          && comments == old(comments) + [c]
          && pending == old(pending)[id := c]
          && (CanSyncRemote() ==> calls == [CreateCall(c, Some(slideId))] && skipPollUntil == now + SkipPollWindow)
          && (!CanSyncRemote() ==> calls == [] && skipPollUntil == old(skipPollUntil))
        else
          comments == old(comments) && pending == old(pending) && skipPollUntil == old(skipPollUntil) && calls == []
    {
      if !CanWrite() || text == "" {
        return [];
      }
      var c := Comment(id, "", author, text, x, y, Some(slideId), false, At(now), At(now));
      SetComments(comments + [c]);
      TrackPendingChange(c, now);
      calls := Issue(CreateCall(c, Some(slideId)), now);
    }

    /** The "Reply" button with `createReply`: a reply inheriting its
        parent's slide and position. Without a user name the reply waits for
        the name prompt and nothing changes. */
    method CreateReply(parentId: string, id: string, author: string, text: string, now: int)
      returns (calls: seq<RemoteCall>)
      requires Valid()
      modifies this`comments, this`cache, this`pending, this`skipPollUntil
      ensures Valid()
      ensures var k := FindIndex(old(comments), parentId);
        if text != "" && CanWrite() && author != "" && k.Some? then
          var parent := old(comments)[k.value];
          var reply := Comment(id, parentId, author, text, parent.x, parent.y, parent.slideId, false, At(now), At(now));
          && comments == old(comments) + [reply]
          && pending == old(pending)[id := reply]
          && (CanSyncRemote() ==> calls == [CreateCall(reply, parent.slideId)] && skipPollUntil == now + SkipPollWindow)
          && (!CanSyncRemote() ==> calls == [] && skipPollUntil == old(skipPollUntil))
        else
          comments == old(comments) && pending == old(pending) && skipPollUntil == old(skipPollUntil) && calls == []
    {
      if text == "" || !CanWrite() || author == "" {
        return [];
      }
      var k := FindIndex(comments, parentId);
      if k.None? {
        return [];
      }
      var parent := comments[k.value];
      var reply := Comment(id, parentId, author, text, parent.x, parent.y, parent.slideId, false, At(now), At(now));
      SetComments(comments + [reply]);
      TrackPendingChange(reply, now);
      calls := Issue(CreateCall(reply, parent.slideId), now);
    }

    /** The "Resolve" button: the first comment with the id becomes resolved. */
    method Resolve(commentId: string, now: int) returns (calls: seq<RemoteCall>)
      requires Valid()
      modifies this`comments, this`cache, this`pending, this`skipPollUntil
      ensures Valid()
      ensures var k := FindIndex(old(comments), commentId);
        if CanWrite() && k.Some? then
          var r := old(comments)[k.value].(resolved := true, updatedAt := At(now));
          && comments == old(comments)[k.value := r]
          && pending == old(pending)[commentId := r]
          && (CanSyncRemote() ==> calls == [UpdateCall(Patch(commentId, Some(r.text), Some(true), None, None))]
                                  && skipPollUntil == now + SkipPollWindow)
          && (!CanSyncRemote() ==> calls == [] && skipPollUntil == old(skipPollUntil))
        else
          comments == old(comments) && pending == old(pending) && skipPollUntil == old(skipPollUntil) && calls == []
    {
      if !CanWrite() {
        return [];
      }
      var k := FindIndex(comments, commentId);
      if k.None? {
        return [];
      }
      var r := comments[k.value].(resolved := true, updatedAt := At(now));
      SetComments(comments[k.value := r]);
      TrackPendingChange(r, now);
      calls := Issue(UpdateCall(Patch(r.id, Some(r.text), Some(true), None, None)), now);
    }

    /** "Save edit": a new, different, non-empty text. */
    method Edit(commentId: string, newText: string, now: int) returns (calls: seq<RemoteCall>)
      requires Valid()
      modifies this`comments, this`cache, this`pending, this`skipPollUntil
      ensures Valid()
      ensures var k := FindIndex(old(comments), commentId);
        if k.Some? && newText != "" && newText != old(comments)[k.value].text && CanWrite() then
          var e := old(comments)[k.value].(text := newText, updatedAt := At(now));
          && comments == old(comments)[k.value := e]
          && pending == old(pending)[commentId := e]
          && (CanSyncRemote() ==> calls == [UpdateCall(Patch(commentId, Some(newText), None, None, None))]
                                  && skipPollUntil == now + SkipPollWindow)
          && (!CanSyncRemote() ==> calls == [] && skipPollUntil == old(skipPollUntil))
        else
          comments == old(comments) && pending == old(pending) && skipPollUntil == old(skipPollUntil) && calls == []
    {
      var k := FindIndex(comments, commentId);
      if k.None? {
        return [];
      }
      if newText == "" || newText == comments[k.value].text {
        return [];
      }
      if !CanWrite() {
        return [];
      }
      var e := comments[k.value].(text := newText, updatedAt := At(now));
      SetComments(comments[k.value := e]);
      TrackPendingChange(e, now);
      calls := Issue(UpdateCall(Patch(e.id, Some(newText), None, None, None)), now);
    }

    /** A finished marker drag: the position from the last mouse move,
        clamped to the slide, and the mouse-up's timestamp. The drag path
        does not consult `canWrite`. */
    method Move(commentId: string, px: real, py: real, now: int) returns (calls: seq<RemoteCall>)
      requires Valid()
      modifies this`comments, this`cache, this`pending, this`skipPollUntil
      ensures Valid()
      ensures var k := FindIndex(old(comments), commentId);
        if k.Some? then
          var m := old(comments)[k.value].(x := Helpers.Clamp(px, 0.0, 100.0), y := Helpers.Clamp(py, 0.0, 100.0),
                                           updatedAt := At(now));
          && 0.0 <= m.x <= 100.0 && 0.0 <= m.y <= 100.0
          && comments == old(comments)[k.value := m]
          && pending == old(pending)[commentId := m]
          && (CanSyncRemote() ==> calls == [UpdateCall(Patch(commentId, None, None, Some(m.x), Some(m.y)))]
                                  && skipPollUntil == now + SkipPollWindow)
          && (!CanSyncRemote() ==> calls == [] && skipPollUntil == old(skipPollUntil))
        else
          comments == old(comments) && pending == old(pending) && skipPollUntil == old(skipPollUntil) && calls == []
    {
      var k := FindIndex(comments, commentId);
      if k.None? {
        return [];
      }
      var m := comments[k.value].(x := Helpers.Clamp(px, 0.0, 100.0), y := Helpers.Clamp(py, 0.0, 100.0),
                                  updatedAt := At(now));
      SetComments(comments[k.value := m]);
      TrackPendingChange(m, now);
      calls := Issue(UpdateCall(Patch(m.id, None, None, Some(m.x), Some(m.y))), now);
    }

    /** The "Delete" button: the poll goes off for the skip window and the
        root with its current reply ids awaits confirmation. */
    method RequestDelete(commentId: string, now: int)
      modifies this`skipPollUntil, this`pendingDelete
      ensures CanWrite() ==>
        && skipPollUntil == now + SkipPollWindow
        && pendingDelete == Some(DeleteRequest(commentId, Map(RepliesFor(comments, commentId), CommentId)))
      ensures !CanWrite() ==> skipPollUntil == old(skipPollUntil) && pendingDelete == old(pendingDelete)
    {
      if !CanWrite() {
        return;
      }
      skipPollUntil := now + SkipPollWindow;
      pendingDelete := Some(DeleteRequest(commentId, Map(RepliesFor(comments, commentId), CommentId)));
    }

    /** The confirm button: `executeDelete` then `hideConfirmModal`. The
        collection loses the root and every comment whose parent is the root
        in one update; one delete call per id recorded in the request is
        issued. No pending entry is recorded for a delete. */
    method ExecuteDelete() returns (calls: seq<RemoteCall>)
      requires Valid()
      modifies this`comments, this`cache, this`pendingDelete
      ensures Valid()
      ensures pendingDelete == None
      ensures old(pendingDelete).None? ==> comments == old(comments) && calls == []
      ensures old(pendingDelete).Some? ==>
        var req := old(pendingDelete).value;
        && comments == CascadeDelete(old(comments), req.commentId)
        && calls == (if CanSyncRemote() then Map([req.commentId] + req.replyIds, DeleteCallFor) else [])
    {
      calls := [];
      if pendingDelete.Some? {
        var req := pendingDelete.value;
        SetComments(CascadeDelete(comments, req.commentId));
        if CanSyncRemote() {
          calls := Map([req.commentId] + req.replyIds, DeleteCallFor);
        }
      }
      pendingDelete := None;
    }

    /** The confirm modal's cancel and close buttons: `hideConfirmModal`
        drops the request; the collection, the pending map and the poll
        pause are left as they are. */
    method CancelDelete()
      modifies this`pendingDelete
      ensures pendingDelete == None
    {
      pendingDelete := None;
    }

    /** A create or update call succeeded: its pending entry is cleared. */
    method RemoteWriteSucceeded(id: string)
      requires Valid()
      modifies this`pending
      ensures Valid()
      ensures pending == old(pending) - {id}
    {
      if id in pending {
        pending := pending - {id};
      }
    }

    /** The local-mode "Import" button with the clipboard's parsed array. The
        button only exists once an optional backend has been given up. */
    method Import(imported: seq<Option<Comment>>)
      requires Valid() && hasRemote && !requireBackend && useLocalMode
      modifies this`comments, this`cache
      ensures Valid()
      ensures comments == old(comments) + ImportNew(Ids(old(comments)), imported)
    {
      var next := AppendImported(comments, imported);
      SetComments(next);
    }
  }
}
