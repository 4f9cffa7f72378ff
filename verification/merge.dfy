/** `mergeServerComments`: the three-way merge of the server snapshot, the
    local collection and the pending-change map, keyed by comment id. */
module Merge {
  import opened Wrappers
  import opened Seqs
  import opened Comments

  /** The pending-change map: comment id to the last locally committed
      snapshot of that comment. */
  type PendingMap = map<string, Comment>

  /** Every entry is stored under its own comment's id, as
      `trackPendingChange` stores it. */
  ghost predicate PendingKeyed(pending: PendingMap)
  {
    forall k :: k in pending ==> pending[k].id == k
  }

  /** A conflict: a pending snapshot that a newer, materially different
      server record overrode. */
  datatype Conflict = Conflict(local: Comment, server: Comment)

  datatype MergeResult = MergeResult(merged: seq<Comment>, conflicts: seq<Conflict>, deletedFromServer: seq<string>)

  /** `serverTime > pendingTime`, where an unparseable time is NaN and every
      comparison with NaN is false. */
  predicate ServerNewer(server: Comment, pending: Comment)
  {
    match (Stamp(server), Stamp(pending))
    case (At(st), At(pt)) => st > pt
    case _ => false
  }

  /** `{ ...server, ...pending }`. The pending map is read back from its JSON
      form, in which `undefined` fields are absent, so a field the snapshot
      lacks keeps the server's value and every other field (even an empty or
      unparseable time string) is the snapshot's. */
  function Overlay(server: Comment, pending: Comment): Comment
  {
    pending.(
      slideId := if pending.slideId.Some? then pending.slideId else server.slideId,
      createdAt := if pending.createdAt.Missing? then server.createdAt else pending.createdAt,
      updatedAt := if pending.updatedAt.Missing? then server.updatedAt else pending.updatedAt)
  }

  /** The merged record for one server record. (The source has a separate
      branch for a local copy that differs from the server record; it pushes
      the server record too.) */
  function MergeOne(server: Comment, pending: PendingMap): Comment
  {
    if server.id in pending then
      if ServerNewer(server, pending[server.id]) then server else Overlay(server, pending[server.id])
    else server
  }

  /** The conflict, if any, recorded for one server record. */
  function ConflictFor(server: Comment, pending: PendingMap): seq<Conflict>
  {
    if server.id in pending && ServerNewer(server, pending[server.id])
       && CommentsAreDifferent(Some(pending[server.id]), Some(server))
    then [Conflict(pending[server.id], server)]
    else []
  }

  function ConflictsOf(serverList: seq<Comment>, pending: PendingMap): seq<Conflict>
  {
    if serverList == [] then []
    else ConflictsOf(serverList[..|serverList| - 1], pending) + ConflictFor(serverList[|serverList| - 1], pending)
  }

  /** A local comment absent from the server that is kept: it has a pending entry. */
  predicate KeepLocal(c: Comment, serverIds: set<string>, pending: PendingMap)
  {
    c.id !in serverIds && c.id in pending
  }

  /** A local comment absent from the server without a pending entry: the
      server deleted it. */
  predicate DeletedLocal(c: Comment, serverIds: set<string>, pending: PendingMap)
  {
    c.id !in serverIds && c.id !in pending
  }

  function CommentId(c: Comment): string { c.id }

  function MergeWith(pending: PendingMap): Comment -> Comment
  {
    (s: Comment) => MergeOne(s, pending)
  }

  function KeptBy(serverIds: set<string>, pending: PendingMap): Comment -> bool
  {
    (c: Comment) => KeepLocal(c, serverIds, pending)
  }

  function GoneBy(serverIds: set<string>, pending: PendingMap): Comment -> bool
  {
    (c: Comment) => DeletedLocal(c, serverIds, pending)
  }

  /** The whole merge, as a function of its three inputs. */
  function Merged(serverList: seq<Comment>, local: seq<Comment>, pending: PendingMap): MergeResult
  {
    var serverIds := Ids(serverList);
    MergeResult(
      Map(serverList, MergeWith(pending))
        + Filter(local, KeptBy(serverIds, pending)),
      ConflictsOf(serverList, pending),
      Map(Filter(local, GoneBy(serverIds, pending)), CommentId))
  }

  /** `new Map(list.map(c => [c.id, c]))`: the last comment with an id wins. */
  function IndexById(cs: seq<Comment>): map<string, Comment>
  {
    if cs == [] then map[] else IndexById(cs[..|cs| - 1])[cs[|cs| - 1].id := cs[|cs| - 1]]
  }

  /** The runtime's merge: a loop over the server records, then a loop over
      the local records, pushing onto the result arrays. */
  method MergeServerComments(serverList: seq<Comment>, local: seq<Comment>, pending: PendingMap)
    returns (r: MergeResult)
    ensures r == Merged(serverList, local, pending)
  {
    var serverIds := Ids(serverList);
    var result, conflicts := MergeServerRecords(serverList, local, pending);
    var kept, deletedFromServer := SplitLocalOnly(local, serverIds, pending);
    r := MergeResult(result + kept, conflicts, deletedFromServer);
  }

  /** The first loop: one merged record per server record, and the conflicts. */
  method MergeServerRecords(serverList: seq<Comment>, local: seq<Comment>, pending: PendingMap)
    returns (result: seq<Comment>, conflicts: seq<Conflict>)
    ensures result == Map(serverList, MergeWith(pending))
    ensures conflicts == ConflictsOf(serverList, pending)
  {
    var localMap := IndexById(local);
    result, conflicts := [], [];
    var i := 0;
    while i < |serverList|
      invariant 0 <= i <= |serverList|
      invariant result == Map(serverList[..i], MergeWith(pending))
      invariant conflicts == ConflictsOf(serverList[..i], pending)
    {
      var serverComment := serverList[i];
      assert serverList[..i + 1][..i] == serverList[..i];
      if serverComment.id in pending {
        var p := pending[serverComment.id];
        if ServerNewer(serverComment, p) {
          if CommentsAreDifferent(Some(p), Some(serverComment)) {
            conflicts := conflicts + [Conflict(p, serverComment)];
          }
          result := result + [serverComment];
        } else {
          result := result + [Overlay(serverComment, p)];
        }
      } else if serverComment.id in localMap
                && CommentsAreDifferent(Some(localMap[serverComment.id]), Some(serverComment)) {
        result := result + [serverComment];
      } else {
        result := result + [serverComment];
      }
      i := i + 1;
    }
    assert serverList[..i] == serverList;
  }

  /** The second loop: local records absent from the server are kept when
      they have a pending entry and reported deleted otherwise. */
  method SplitLocalOnly(local: seq<Comment>, serverIds: set<string>, pending: PendingMap)
    returns (kept: seq<Comment>, deletedFromServer: seq<string>)
    ensures kept == Filter(local, KeptBy(serverIds, pending))
    ensures deletedFromServer == Map(Filter(local, GoneBy(serverIds, pending)), CommentId)
  {
    kept, deletedFromServer := [], [];
    var j := 0;
    while j < |local|
      invariant 0 <= j <= |local|
      invariant kept == Filter(local[..j], KeptBy(serverIds, pending))
      invariant deletedFromServer
                == Map(Filter(local[..j], GoneBy(serverIds, pending)), CommentId)
    {
      var localComment := local[j];
      SplitStep(local, j, serverIds, pending);
      if localComment.id !in serverIds {
        if localComment.id in pending {
          kept := kept + [localComment];
        } else {
          deletedFromServer := deletedFromServer + [localComment.id];
        }
      }
      j := j + 1;
    }
    assert local[..j] == local;
  }

  /** One step of the second loop, on both of its outputs. */
  lemma SplitStep(local: seq<Comment>, j: nat, serverIds: set<string>, pending: PendingMap)
    requires j < |local|
    ensures Filter(local[..j + 1], KeptBy(serverIds, pending))
            == Filter(local[..j], KeptBy(serverIds, pending))
               + (if KeepLocal(local[j], serverIds, pending) then [local[j]] else [])
    ensures Map(Filter(local[..j + 1], GoneBy(serverIds, pending)), CommentId)
            == Map(Filter(local[..j], GoneBy(serverIds, pending)), CommentId)
               + (if DeletedLocal(local[j], serverIds, pending) then [local[j].id] else [])
  {
    assert local[..j + 1][..j] == local[..j];
    var gone := Filter(local[..j], GoneBy(serverIds, pending));
    if DeletedLocal(local[j], serverIds, pending) {
      MapConcat(gone, [local[j]], CommentId);
      assert Map([local[j]], CommentId) == [local[j].id];
    } else {
      assert gone + [] == gone;
    }
  }

  // ----------------------------------------------------------------- lemmas

  /** The first |S| merged records correspond one to one, in order, to the
      server records. */
  lemma MergedAt(serverList: seq<Comment>, local: seq<Comment>, pending: PendingMap, i: nat)
    requires i < |serverList|
    ensures |Merged(serverList, local, pending).merged| >= |serverList|
    ensures Merged(serverList, local, pending).merged[i] == MergeOne(serverList[i], pending)
  {
    MapAt(serverList, MergeWith(pending), i);
  }

  /** Server wins: a server record without a pending entry is taken verbatim,
      whatever the local collection holds for that id. */
  lemma ServerWinsWithoutPending(serverList: seq<Comment>, local: seq<Comment>, pending: PendingMap, i: nat)
    requires i < |serverList| && serverList[i].id !in pending
    ensures Merged(serverList, local, pending).merged[i] == serverList[i]
    ensures forall other :: Merged(serverList, other, pending).merged[i] == serverList[i]
  {
    MergedAt(serverList, local, pending, i);
    forall other ensures Merged(serverList, other, pending).merged[i] == serverList[i] {
      MergedAt(serverList, other, pending, i);
    }
  }

  /** Every conflict is a pending snapshot overridden by a strictly newer,
      materially different server record, and every such pair is reported. */
  lemma {:induction false} ConflictMembership(serverList: seq<Comment>, pending: PendingMap, c: Conflict)
    ensures c in ConflictsOf(serverList, pending)
            <==> c.server in serverList && c.server.id in pending && c.local == pending[c.server.id]
                 && ServerNewer(c.server, c.local) && CommentsAreDifferent(Some(c.local), Some(c.server))
  {
    if serverList != [] {
      var init := serverList[..|serverList| - 1];
      ConflictMembership(init, pending, c);
      assert serverList == init + [serverList[|serverList| - 1]];
    }
  }

  /** Newer server record: the merged record is the server record, and a
      conflict is recorded exactly when it differs materially from the
      pending snapshot. */
  lemma ServerNewerWins(serverList: seq<Comment>, local: seq<Comment>, pending: PendingMap, i: nat)
    requires i < |serverList| && serverList[i].id in pending
    requires ServerNewer(serverList[i], pending[serverList[i].id])
    ensures Merged(serverList, local, pending).merged[i] == serverList[i]
    ensures Conflict(pending[serverList[i].id], serverList[i]) in Merged(serverList, local, pending).conflicts
            <==> CommentsAreDifferent(Some(pending[serverList[i].id]), Some(serverList[i]))
  {
    MergedAt(serverList, local, pending, i);
    ConflictMembership(serverList, pending, Conflict(pending[serverList[i].id], serverList[i]));
  }

  /** Pending wins: when the server record is not strictly newer than the
      pending snapshot (equal, older or unparseable), the merged record
      carries every field of the snapshot, the server's value surviving only
      where the snapshot lacks the field; no conflict is recorded for it. */
  lemma PendingWins(serverList: seq<Comment>, local: seq<Comment>, pending: PendingMap, i: nat)
    requires i < |serverList| && serverList[i].id in pending
    requires !ServerNewer(serverList[i], pending[serverList[i].id])
    ensures var m := Merged(serverList, local, pending).merged[i];
            var p := pending[serverList[i].id];
            && m.id == p.id && m.parentId == p.parentId && m.author == p.author
            && m.text == p.text && m.resolved == p.resolved && m.x == p.x && m.y == p.y
            && m.slideId == (if p.slideId.Some? then p.slideId else serverList[i].slideId)
            && m.createdAt == (if p.createdAt.Missing? then serverList[i].createdAt else p.createdAt)
            && m.updatedAt == (if p.updatedAt.Missing? then serverList[i].updatedAt else p.updatedAt)
    ensures forall c :: c in Merged(serverList, local, pending).conflicts ==> c.server != serverList[i]
  {
    MergedAt(serverList, local, pending, i);
    forall c | c in Merged(serverList, local, pending).conflicts
      ensures c.server != serverList[i]
    {
      ConflictMembership(serverList, pending, c);
    }
  }

  lemma IdsConcat(a: seq<Comment>, b: seq<Comment>)
    ensures Ids(a + b) == Ids(a) + Ids(b)
  {
    forall id | id in Ids(a + b) ensures id in Ids(a) + Ids(b) {
      var c :| c in a + b && c.id == id;
    }
    forall id | id in Ids(a) + Ids(b) ensures id in Ids(a + b) {
      if id in Ids(a) {
        var c :| c in a && c.id == id;
        assert c in a + b;
      } else {
        var c :| c in b && c.id == id;
        assert c in a + b;
      }
    }
  }

  /** Merging a server record keeps its id (the pending snapshot overlaid
      on it is stored under the same id). */
  lemma {:induction false} ServerPartIds(serverList: seq<Comment>, pending: PendingMap)
    requires PendingKeyed(pending)
    ensures Ids(Map(serverList, MergeWith(pending))) == Ids(serverList)
  {
    if serverList != [] {
      var init, last := serverList[..|serverList| - 1], serverList[|serverList| - 1];
      ServerPartIds(init, pending);
      IdsConcat(init, [last]);
      IdsConcat(Map(init, MergeWith(pending)), [MergeOne(last, pending)]);
      assert serverList == init + [last];
      assert Ids([last]) == {last.id};
      assert Ids([MergeOne(last, pending)]) == {MergeOne(last, pending).id};
    }
  }

  /** The merged collection holds exactly the server's ids and the local ids
      that still have a pending entry. In particular its ids are drawn from
      the server's and the local collection's ids. */
  lemma MergedIds(serverList: seq<Comment>, local: seq<Comment>, pending: PendingMap)
    requires PendingKeyed(pending)
    ensures Ids(Merged(serverList, local, pending).merged) == Ids(serverList) + (Ids(local) * pending.Keys)
    ensures Ids(Merged(serverList, local, pending).merged) <= Ids(serverList) + Ids(local)
  {
    var serverIds := Ids(serverList);
    var keep := KeptBy(serverIds, pending);
    var kept := Filter(local, keep);
    ServerPartIds(serverList, pending);
    IdsConcat(Map(serverList, MergeWith(pending)), kept);
    forall id | id in Ids(kept) ensures id in Ids(local) * pending.Keys {
      var c :| c in kept && c.id == id;
      FilterMembership(local, keep, c);
    }
    forall id | id in Ids(local) * pending.Keys && id !in serverIds ensures id in Ids(kept) {
      var c :| c in local && c.id == id;
      FilterMembership(local, keep, c);
    }
  }

  lemma MapIdsMembership(cs: seq<Comment>, id: string)
    ensures id in Map(cs, CommentId) <==> id in Ids(cs)
  {
    if id in Map(cs, CommentId) {
      var k :| 0 <= k < |Map(cs, CommentId)| && Map(cs, CommentId)[k] == id;
      MapAt(cs, CommentId, k);
      assert cs[k] in cs;
    }
    if id in Ids(cs) {
      var c :| c in cs && c.id == id;
      var k :| 0 <= k < |cs| && cs[k] == c;
      MapAt(cs, CommentId, k);
    }
  }

  /** Deletion inference: an id is reported deleted exactly when it is a
      local id, absent from the server, without a pending entry. A reported
      id therefore never appears in the merged collection. */
  lemma DeletedFromServerExactly(serverList: seq<Comment>, local: seq<Comment>, pending: PendingMap, id: string)
    requires PendingKeyed(pending)
    ensures id in Merged(serverList, local, pending).deletedFromServer
            <==> id in Ids(local) && id !in Ids(serverList) && id !in pending
    ensures id in Merged(serverList, local, pending).deletedFromServer
            ==> id !in Ids(Merged(serverList, local, pending).merged)
  {
    var serverIds := Ids(serverList);
    var gone := GoneBy(serverIds, pending);
    MapIdsMembership(Filter(local, gone), id);
    if id in Ids(Filter(local, gone)) {
      var c :| c in Filter(local, gone) && c.id == id;
      FilterMembership(local, gone, c);
    }
    if id in Ids(local) && id !in serverIds && id !in pending {
      var c :| c in local && c.id == id;
      FilterMembership(local, gone, c);
    }
    MergedIds(serverList, local, pending);
  }
}
