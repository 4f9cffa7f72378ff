# Slide comments runtime: reactive core and offline-first sync engine

This project is a Dafny model of the comment layer of `slides-runtime.js`, a
no-build slide-deck runtime. It has two parts.

- **The reactive core.** Signals hold subscriber sets. An effect rediscovers
  the signals it depends on every time it runs. `untrack` reads without
  subscribing. `batch` defers effects into a pending set, which is flushed
  once the outermost batch exits.
- **The offline-first sync engine.** Every write is applied to the comment
  collection first, recorded in a pending-change map, and sent to the
  backend as a call. A poll loop lists the server snapshot, skips it when
  its digest has not changed, and otherwise merges it with the local
  collection and the pending map:
  - the newer timestamp wins;
  - conflicts are only logged;
  - local comments missing from the server are deleted;
  - after repeated failures the engine drops to local-only mode.

Modules:

- `Comments` holds the comment record and the derived views: roots per slide,
  replies, badge counts and the cascade delete.
- `Digest` is `computeCommentsHash`.
- `Merge` is `mergeServerComments`, as a specification function and as the
  runtime's two loops.
- `ServerApi` holds `mapServerItemsToComments` and the response shapes that
  `list()` accepts.
- `Helpers` holds `clamp`, `escapeHtml` and `timeAgo`.
- `SyncEngine` is the engine. It is a class whose fields are the signals and
  `let` variables of `initComments`. Each remote call is a `RemoteCall`
  value returned by the write that issues it. Each completion is a separate
  event method.
- `Reactive` is the scheduler. It is a class over the module-level state:
  batch depth, pending computations and the current computation.
- `Scenarios` holds end-to-end runs on small inputs.
- `Seqs`, `Strings` and `Wrappers` are generic helpers.

Behaviour of `slides-runtime.js` worth knowing:

- **A conflict needs a strictly newer server record.** A conflict is logged
  only when the server record is strictly newer than the pending snapshot
  (slides-runtime.js:890-894). When the pending edit is newer, the merge keeps
  the pending fields and logs nothing, even when the two differ
  (slides-runtime.js:896-899, `Scenarios.PendingEditWinsOverOlderServer`).
- **An unparseable time never wins.** `updatedAt || createdAt` keeps a
  non-empty `updatedAt` even when it does not parse. Its time is NaN, so it
  never compares as newer and the pending snapshot wins
  (slides-runtime.js:887-890, `Scenarios.UnparseableServerTimeKeepsPending`).
- **Deletes leave no pending entry.** Only creates and updates call
  `trackPendingChange` (slides-runtime.js:1169, 1240, 1269, 1433, 1617).
  `executeDelete` does not (slides-runtime.js:1326-1348,
  `SyncEngine.Engine.ExecuteDelete`).
- **Clearing pending entries ignores timestamps.** After a sync that merged,
  the pending map loses every id the server lists, whatever the timestamps
  (slides-runtime.js:976-987).
- **The "deleted from server" test in the clearing loop never fires.** An id
  is only reported deleted when it has no pending entry
  (slides-runtime.js:912-923), so the second test at slides-runtime.js:982
  never removes anything (`SyncEngine.SyncClearsServerIds`).
- **Results after demotion are still merged.** The continuation of `list()`
  does not consult `useLocalMode` (slides-runtime.js:943-989). A list result
  that arrives after the switch to local-only mode is merged like any other.
- **The persisting effect writes on every change.** Once the engine is
  hydrated, it writes the collection to the cache each time the collection
  changes, with no debounce (slides-runtime.js:1738-1741,
  `SyncEngine.Engine.SetComments`).
- **Dragging skips the write check.** The mouse-up handler never consults
  `canWrite` (slides-runtime.js:1603-1637, `SyncEngine.Engine.Move`).

## Model

| member | source | states |
|---|---|---|
| Reactive.Runtime.constructor | slides-runtime.js:6-8 | No computation is current, the batch depth is zero, and nothing is pending or has run |
| Reactive.Runtime.CreateSignal | slides-runtime.js:42-44 | The signal is fresh, holds its initial value and has no subscribers; the reactive invariant is kept |
| Reactive.Runtime.Read | slides-runtime.js:46-52 | Returns the signal's value. Outside a computation nothing changes. Inside one, the computation joins the signal's subscriber set and the signal joins the computation's sources, on both sides |
| Reactive.Runtime.Untrack | slides-runtime.js:32-40 | Reads inside `untrack` record no subscription, and the current computation is restored |
| Reactive.Runtime.Unsubscribe | slides-runtime.js:65-66 | The computation leaves every subscriber set it was in and its source set becomes empty; every other subscription is unchanged |
| Reactive.Runtime.Rerun | slides-runtime.js:64-75 | A run of a computation already subscribed to exactly its tracked reads leaves every subscriber set and source set as it was, and is recorded |
| Reactive.RerunKeepsSubscribers | slides-runtime.js:65-71 | Unsubscribing a computation and subscribing it again to its current sources gives back the same subscriber map |
| Reactive.EffectRerunsOnEveryWrite | slides-runtime.js:54-79 | An effect reading a signal is the whole snapshot of both of two successive writes to it, so the second write runs it again |
| Reactive.Runtime.ReadTracked | slides-runtime.js:67-71 | With the computation current, its tracked reads subscribe it to exactly those signals, on both sides |
| Reactive.Runtime.Run | slides-runtime.js:64-75 | After `_run` the computation is subscribed to exactly the signals its body reads while tracking, other subscriptions are as before, the previous current computation is restored, and the run is recorded |
| Reactive.Runtime.CreateEffect | slides-runtime.js:62-79 | A fresh computation is created and run at once, even inside a batch, and ends subscribed to its tracked reads |
| Reactive.Runtime.Schedule | slides-runtime.js:10-16 | Inside a batch the computation joins the pending list at most once and nothing runs. Outside a batch it runs at once and ends subscribed to the same signals as before. At either depth no subscription changes and every computation stays subscribed to exactly its tracked reads |
| Reactive.Runtime.Write | slides-runtime.js:54-57 | The value is stored. Every computation in a snapshot of the subscriber set is scheduled once: run in order outside a batch, added to the pending set inside one. The subscriber and source maps afterwards are those before the write, so the next write reaches the same computations |
| Reactive.Runtime.ScheduleAll | slides-runtime.js:56 | The loop over the snapshot runs each listed computation in order, or adds each one to the pending set. It keeps the invariant and leaves the subscriber and source maps as they were |
| Reactive.Listing | slides-runtime.js:56 | `Array.from` of a set lists each element exactly once |
| Reactive.Runtime.BeginBatch | slides-runtime.js:19 | The batch depth goes up by one |
| Reactive.Runtime.EndBatch | slides-runtime.js:22-28 | Leaving the outermost level runs the pending computations once each, in scheduling order, and empties the pending set. Leaving an inner level changes nothing else. At either level the subscriber and source maps are as before |
| Reactive.Runtime.Batch | slides-runtime.js:18-30 | The depth is restored whether or not the function throws. The values are the function's writes, applied up to the first throw. Inside another batch nothing runs. At the outermost level every computation subscribed to a written signal runs exactly once after the writes. At every level the subscriber and source maps end as they began |
| Reactive.Runtime.RunSteps | slides-runtime.js:20-21 | The function body runs inside a batch: its writes are applied in order, each schedules into the pending set, and a throw stops the rest |
| Reactive.Runtime.RunNested | slides-runtime.js:18-30 | A nested `batch` inside a batch leaves its writes scheduled, not run, and a throw inside it propagates |
| Reactive.Trace | slides-runtime.js:20-21 | An empty function writes nothing. A function made only of writes does not throw and performs exactly its writes: the trace is the steps' (signal, value) pairs, in order |
| Reactive.TraceMentioned | slides-runtime.js:20-21 | Every write a batch function performs is to a signal it names |
| Reactive.Apply | slides-runtime.js:54-55 | Writes to existing signals create no new signal |
| Reactive.ApplyConcat | slides-runtime.js:54-55 | Applying two runs of writes one after the other equals applying them together |
| Reactive.ScheduledConcat | slides-runtime.js:56 | The computations scheduled by two runs of writes are the union of each run's |
| Reactive.UnsubscribedFrom | slides-runtime.js:65 | After a computation is removed, every signal still has an entry in the subscriber map |
| Reactive.SubscribedTo | slides-runtime.js:47-48 | After subscribing, every signal still has an entry in the subscriber map |
| Reactive.SubscribeKeepsLinked | slides-runtime.js:47-50 | Subscribing a computation that has no sources to some signals, on both sides, keeps subscriber sets and source sets in step |
| Reactive.NewComputationUnlinked | slides-runtime.js:62-65 | A new computation starts with no sources, and unsubscribing it changes nothing |
| Reactive.ResubscribeExactly | slides-runtime.js:64-75 | After a re-run, the computation subscribes to a signal exactly when its body reads that signal while tracking; other computations' subscriptions are untouched |
| Helpers.Clamp | slides-runtime.js:98-100 | The result lies in [lo, hi]. An input already in range is returned unchanged, and one outside it goes to the nearer bound. When lo > hi the result is lo, as `Math.max(lo, Math.min(hi, n))` gives |
| Helpers.EscapeHtmlConcat | slides-runtime.js:102-109 | The chain of five `replaceAll` calls distributes over concatenation |
| Helpers.EscapeHtmlPerChar | slides-runtime.js:102-109 | The chain equals escaping each character on its own, so no later replacement rewrites an ampersand an earlier one introduced |
| Helpers.EscapeHtmlRoundTrip | slides-runtime.js:102-109 | Decoding the escaped text gives back exactly the input, and the output contains no `<`, `>`, `"` or `'` |
| Helpers.AgeBuckets | slides-runtime.js:111-121 | "just now" exactly below 60 s; minutes below an hour, hours below a day, then days, each being the elapsed whole seconds floored to that unit |
| Helpers.MinutesThenHours | slides-runtime.js:115-117 | Flooring seconds to minutes, then minutes to hours, equals flooring seconds to hours |
| Helpers.HoursThenDays | slides-runtime.js:117-119 | Flooring to hours, then to days, equals flooring seconds to days |
| Strings.NatToString | slides-runtime.js:867 | The decimal rendering of a count is a non-empty string of digits |
| Strings.IntToString | slides-runtime.js:867 | A rendered timestamp is non-empty and starts with a minus exactly when it is negative |
| Strings.SortStrings | slides-runtime.js:868 | `.sort()` returns a permutation of its input |
| Strings.SortStringsSorted | slides-runtime.js:868 | `.sort()` returns its input in ascending code-unit order |
| Strings.SortStringsOrderIndependent | slides-runtime.js:866-868 | The sorted keys do not depend on the order of the input |
| Strings.LexLeTotal | slides-runtime.js:868 | The string order compares every pair |
| Strings.LexLeAntisymmetric | slides-runtime.js:868 | Two strings that each sort before or equal to the other are equal |
| Strings.LexLeTransitive | slides-runtime.js:868 | The string order is transitive |
| Strings.ReplaceAll | slides-runtime.js:104 | A string without the pattern character is returned unchanged |
| Strings.ReplaceAllConcat | slides-runtime.js:104-108 | `replaceAll` of a one-character pattern works piece by piece over a concatenation |
| Comments.DifferenceSymmetricAndReflexive | slides-runtime.js:172-178 | The test is symmetric, a missing side always differs, and a comment never differs from itself or from a copy that changes only fields the test ignores |
| Comments.FindIndex | slides-runtime.js:1258 | `find` returns the first comment with the id, or none when no comment has it |
| Comments.ViewsSelectExactly | slides-runtime.js:1037-1043 | The surface's roots and a comment's replies hold exactly the matching comments, each with its multiplicity |
| Comments.CountsAgree | slides-runtime.js:790-791 | The unresolved count never exceeds the root count. The root count is zero exactly when there is no root. The unresolved count is zero exactly when every root is resolved |
| Comments.CascadeDeleteExactly | slides-runtime.js:1334 | Deleting a root removes exactly the root and its direct replies, keeps every other comment with its multiplicity and order, and distributes over concatenation; the root's id is gone |
| Digest.CommentsHashOrderIndependent | slides-runtime.js:865-870 | The digest depends only on which comments the collection holds, not on their order |
| Digest.EmptyHash | slides-runtime.js:865-870 | An empty collection has the empty digest, which is the engine's initial last-seen digest |
| Digest.SingletonHash | slides-runtime.js:865-870 | A one-comment collection's digest is that comment's key |
| Digest.HashKeySeesResolved | slides-runtime.js:867 | Two comments whose resolved flags differ have different keys |
| Merge.MergeServerComments | slides-runtime.js:873-928 | The runtime's two loops compute exactly the merge specification: merged records, conflicts and deleted ids |
| Merge.MergeServerRecords | slides-runtime.js:881-907 | The server loop pushes one merged record per server record, in server order, and collects exactly the conflicts |
| Merge.SplitLocalOnly | slides-runtime.js:912-925 | The local loop keeps the local-only comments with a pending entry, and reports the ids of those without one, in local order |
| Merge.MergedAt | slides-runtime.js:881-907 | The first merged records correspond one to one, in order, to the server records |
| Merge.ServerWinsWithoutPending | slides-runtime.js:900-906 | Without a pending entry, the server record is taken verbatim whatever the local collection holds |
| Merge.ServerNewerWins | slides-runtime.js:887-895 | When the server record is strictly newer, it is taken. A conflict is recorded exactly when it differs materially from the pending snapshot. Both compared times must be parseable; a present but unparseable `updatedAt` is compared as it stands, with no fallback to `createdAt` |
| Merge.PendingWins | slides-runtime.js:896-899 | When the server record is not strictly newer, the snapshot's fields are kept over it. This covers equal or older times, a missing time on either side, and a present but unparseable time. The server's `slideId`, `createdAt` or `updatedAt` survives only where the snapshot lacks that field. No conflict is recorded |
| Merge.ConflictMembership | slides-runtime.js:887-895 | A pair is a conflict exactly when a pending snapshot is overridden by a strictly newer, materially different server record |
| Merge.ServerPartIds | slides-runtime.js:881-907 | Merging a server record keeps its id |
| Merge.MergedIds | slides-runtime.js:873-928 | The merged collection holds exactly the server's ids and the local ids that still have a pending entry |
| Merge.DeletedFromServerExactly | slides-runtime.js:912-924 | An id is reported deleted exactly when it is local, absent from the server and has no pending entry; a reported id is not in the merged collection |
| ServerApi.ResolveAuthor | slides-runtime.js:203-209 | A usable primary author name is kept. A missing, empty or placeholder one falls back to `CommentAuthor`, then `commentauthor`, then `author`, then the empty string. The placeholder survives only when a fallback field holds it |
| ServerApi.ResolveId | slides-runtime.js:211 | The id is never empty. It is missing exactly when `CommentId` is missing or empty and there is no `ID`. Which of the two it takes is left to the function's body |
| ServerApi.MapServerItemsKeepsIdentified | slides-runtime.js:200-224 | Exactly the records with a resolvable id survive, in order. Every result has a non-empty id, and an updated time whenever it has a created time |
| ServerApi.RemoteList | slides-runtime.js:227-233 | `list()` resolves exactly when the request succeeded and the body yields an array of records, and then yields the normalised records. Such a body is falsy (`null`, `false`, `0`, `""`, giving no records), an array with no `null` entry, or an object whose `value` is such an array. A scalar body, an object without a `value` array, and an array holding `null` reject |
| ServerApi.ListAcceptsBothShapes | slides-runtime.js:231 | A bare array and `{ value: array }` list the same comments. A falsy body lists none. A scalar body, an object without `value`, and an array with a `null` entry reject |
| SyncEngine.ClearSyncedPending | slides-runtime.js:974-989 | The clearing loop removes exactly the entries whose id the server lists or reports deleted |
| SyncEngine.SyncClearsServerIds | slides-runtime.js:974-985 | After a merge, clearing removes exactly the server's ids from the pending map; the deleted-from-server test never removes anything |
| SyncEngine.AppendImported | slides-runtime.js:828-834 | The import loop appends, in clipboard order, the entries that are present, have an id, and whose id was not in the collection |
| SyncEngine.ImportAdmitsExactly | slides-runtime.js:828-834 | A comment is appended exactly when the clipboard holds it with an id that is non-empty and new to the collection |
| SyncEngine.ImportKeepsDuplicatesWithinClipboard | slides-runtime.js:828-834 | Duplicates inside one clipboard are all appended, because the id set is taken once before the loop |
| SyncEngine.Engine.constructor | slides-runtime.js:703-747 | The initial engine state: empty collection, not hydrated, the cached pending map (empty when missing), local-only exactly without a backend, `fallbackAfter` defaulting to 10 when unset or zero, empty last digest |
| SyncEngine.Engine.SetComments | slides-runtime.js:1738-1741 | The collection is replaced, and the cache mirrors it once hydrated |
| SyncEngine.Engine.TrackPendingChange | slides-runtime.js:1019-1027 | The snapshot, stamped with the current time, is stored under its id, and the map stays keyed by id |
| SyncEngine.Engine.CanSyncRemote | slides-runtime.js:848-850 | Remote sync needs a backend and is off in local-only mode |
| SyncEngine.Engine.CanWrite | slides-runtime.js:852-855 | An optional backend never blocks a write. Remote sync being possible allows a write. A required backend blocks every write in local-only mode |
| SyncEngine.Engine.AccessRules | slides-runtime.js:848-855 | Under the engine invariant, remote sync is allowed exactly outside local-only mode. Writing is allowed exactly when the backend is optional or the engine is not local-only |
| SyncEngine.Engine.Issue | slides-runtime.js:1171-1173 | A remote call is issued, and the poll is paused for 5000 ms, exactly when remote sync is possible |
| SyncEngine.Engine.Load | slides-runtime.js:1693-1706 | The collection is hydrated from the cache, and the first sync starts exactly when a backend is usable and none is in flight |
| SyncEngine.Engine.LoadRemote | slides-runtime.js:930-935 | A sync starts exactly when remote sync is possible and either none is in flight or the call is forced; it is then in flight |
| SyncEngine.Engine.PollTick | slides-runtime.js:1799-1806 | A tick starts a sync exactly when remote sync is possible, the skip window has passed, and no sync is in flight |
| SyncEngine.Engine.LoadRemoteCompleted | slides-runtime.js:942-1015 | A failure counts one more failure and switches to local-only at the threshold unless the backend is required. An unchanged digest only resets the counter. Otherwise the merge result replaces a collection whose digest changed, the server's ids leave the pending map, and the digest is recorded. Sync is no longer in flight |
| SyncEngine.Engine.SyncFailed | slides-runtime.js:995-1012 | The failure counter goes up by one; local-only mode is entered once it reaches `fallbackAfter` with an optional backend, and is never left |
| SyncEngine.Engine.SyncSucceeded | slides-runtime.js:946-993 | With an unchanged digest and no force, only the counter is reset. Otherwise the engine records the new digest, adopts a merge result whose digest differs, clears the server's ids from the pending map, and ends the initial sync |
| SyncEngine.Engine.ApplyServerList | slides-runtime.js:954-989 | The collection becomes the merge result when their digests differ and is kept otherwise; the pending map loses exactly the server's ids |
| SyncEngine.Engine.CreateRoot | slides-runtime.js:1141-1183 | When writes are allowed and the text is non-empty, the new root is appended and recorded pending, and a create call is issued if remote sync is possible; otherwise nothing changes |
| SyncEngine.Engine.CreateReply | slides-runtime.js:1226-1254 | With text, write access, a user name and an existing parent, the reply inherits the parent's slide and position and is appended, recorded pending and sent; otherwise nothing changes |
| SyncEngine.Engine.Resolve | slides-runtime.js:1256-1282 | The first comment with the id becomes resolved with a new time, in place, is recorded pending, and an update carrying `resolved` and the text is sent; nothing changes without write access or such a comment |
| SyncEngine.Engine.Edit | slides-runtime.js:1419-1448 | A non-empty, different text replaces the comment's text in place with a new time, is recorded pending and sent; otherwise nothing changes |
| SyncEngine.Engine.Move | slides-runtime.js:1603-1637 | The dragged comment's position is clamped to 0..100 and stored in place with a new time, recorded pending and sent, without a write-access check |
| SyncEngine.Engine.RequestDelete | slides-runtime.js:1284-1300 | With write access the poll is paused and the root with its current reply ids awaits confirmation; otherwise nothing changes |
| SyncEngine.Engine.ExecuteDelete | slides-runtime.js:1326-1348 | The confirmed root and its direct replies leave the collection in one update. One delete call is issued per recorded id if remote sync is possible. The request is cleared and no pending entry is recorded |
| SyncEngine.Engine.CancelDelete | slides-runtime.js:1321-1324 | Cancelling or closing the confirmation drops the delete request and changes nothing else: the collection, the pending map and the poll pause stay as they were |
| SyncEngine.Engine.RemoteWriteSucceeded | slides-runtime.js:1029-1035 | A confirmed write's pending entry is cleared and nothing else is |
| SyncEngine.Engine.Import | slides-runtime.js:824-834 | After an optional backend has been given up for local-only mode, the admitted clipboard entries are appended to the collection |
| Scenarios.PendingEditWinsOverOlderServer | slides-runtime.js:885-899 | A pending edit at time 100 against a server record at time 50 survives the merge exactly, with no conflict and no deletion |
| Scenarios.UnparseableServerTimeKeepsPending | slides-runtime.js:887-899 | A server record whose `updatedAt` is "n/a" and whose `createdAt` is later than the pending edit is not newer: the snapshot is overlaid on it and no conflict is recorded |
| Scenarios.LocalOnlyAfterTenFailures | slides-runtime.js:995-1012 | After ten failed syncs with an optional backend, the engine is local-only, and a new comment is stored without any backend call |
| Scenarios.CreateWhileServerEmpty | slides-runtime.js:1141-1183 | A comment created after an empty first sync is appended, pending and sent, and the poll is paused until 6000 ms |
| Scenarios.CreateThenServerResolves | slides-runtime.js:946-989 | A created comment that the server later lists as resolved and newer is replaced by the server's copy, and its pending entry is cleared |
| Scenarios.SyncServerResolved | slides-runtime.js:946-989 | The poll that finds the resolved copy adopts it and empties the pending map |
| Scenarios.ServerResolvedMerge | slides-runtime.js:887-895 | The newer resolved server copy wins the merge and is recorded as a conflict with the pending snapshot |
| Scenarios.ResolvedSyncOutcome | slides-runtime.js:954-985 | In that scenario the digest changes, the collection becomes the server's copy, and the pending map empties |
| Scenarios.ResolvedDigestChanges | slides-runtime.js:865-870 | Resolving a comment changes the digest of a one-comment collection |

## Left out

- DOM rendering is not modelled: markers, panels, modals, the badge, the sync indicator, navigation, numbering, PDF gating and canvas control. The badge counts are modelled as the memo functions.
- HTTP requests are not modelled. A remote call is a `RemoteCall` value. A list response is a `ListResponse` value covering network failure, HTTP error, malformed JSON and the decoded body.
- The completions of delete calls and failed create or update calls only change the status display, so they are not modelled. A successful create or update is `RemoteWriteSucceeded`.
- The clock, `generateId` and random ids are parameters (`now`, `id`). The poll timer is the `PollTick` event.
- Floating point is not modelled: positions are `real`. `parseFloat` is taken as already applied: a NaN result is `None`. The pixel-to-percent arithmetic of a drag is not modelled; `Move` receives the percentages.
- A timestamp field is `Missing`, a present but unparseable string (`Invalid`, its raw text), or an integer time in milliseconds (`At`). ISO parsing and formatting are not modelled, and neither is `timeAgo` of a `null` timestamp, which reads as time zero. A JSON `null` time from the backend (`Created: null`) has no case of its own. In the source it is time zero (`new Date(null)`), not NaN, and the digest renders it as "null", not "undefined". Pending snapshots always carry a parsed `updatedAt`, so the merge outcome does not depend on it.
- The digest renders each comment's time as decimal milliseconds rather than the stored ISO string, and the text length in characters rather than UTF-16 code units. Two different ISO spellings of the same instant therefore give the same key in the model.
- `.sort()` compares UTF-16 code units; the model compares `char`s, which is the same order for characters in the Basic Multilingual Plane.
- Input `trim()` is taken as already applied: the text parameters are the trimmed texts.
- Resolve, edit and drag change the comment object in place, and that object is shared by the old and new arrays. The model replaces the comment value in a new sequence. During a drag, each mouse-move changes the position in place without notifying subscribers; only the final mouse-up is modelled.
- Edit: the model edits the first comment with the id, found when the edit is saved. The source edits the object found when the edit form opened, which differs only if the collection changed while the form was open.
- `createMemo` is left out, and so are effects whose bodies write signals. An effect's body is a fixed set of tracked and untracked reads. Every run of an effect therefore subscribes it to the same signals, so a re-run never changes the subscription maps; reads that depend on the values read are not modelled. The derived views are modelled as functions of the collection. In the source each memo is an effect that writes its own signal during a flush, and that write runs the memo's readers at once. The badge effect (slides-runtime.js:1717-1736) therefore runs once per memo it reads, not once per flush. `Batch`'s "exactly once" covers only computations subscribed to signals the batch function itself writes.
- ServerApi.Normalize: `resolved` is a `bool`, with a missing value read as `false`. `item.Resolved || false` keeps a truthy non-boolean such as `"Yes"` or `1` as it is. That value gives a different digest key and differs from `true` under `commentsAreDifferent`; the model cannot hold it.
- Subscriber sets are iterated in insertion order in the source. `Listing` allows any order, so `Write` states which computations run and that each runs once, not their order.
- A computation's `_sources` holds subscriber-set objects; the model holds signal ids.
- Exceptions thrown by effect bodies are not modelled; only the function passed to `batch` can throw.
- Failures to write to storage (quota errors) are not modelled. A cache blob that fails to parse is the constructor's `None` argument.
- The export button is not modelled. The import's clipboard parse is taken as done: a non-array parse does nothing, and array entries are `Option<Comment>`, so entries of any other shape are not modelled.
- These are left out: the name prompt's `pendingAction` replay, which reopens a panel and writes nothing; `expandToFullSentence` and `selectionToComment`; the `silent` flag; the `errorAfter` threshold and the UI flags it drives; the toggle button's disabled state; console logging of conflicts and deletions.

