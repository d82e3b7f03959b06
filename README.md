# NodeBB topic moderation tools, modelled in Dafny

This project models `Topics.tools` from NodeBB (`src/topics/tools.js`). That module carries out the
moderation actions on a discussion topic: delete and restore, purge, lock and unlock, pin and
unpin, reordering of a category's pinned topics, and moving a topic to another category.

The model has one store object, the class `TopicTools.Tools`. It holds:

- the topic records (`topics`: tid to `cid`, author `uid`, `deleted`, `locked`, `pinned`,
  `lastposttime`, `postcount`, `oldCid`);
- three sorted-set families, one set per category: `tids` (`cid:<c>:tids`), `posts`
  (`cid:<c>:tids:posts`) and `pinned` (`cid:<c>:tids:pinned`). A set maps tid to score;
- the per-category `topic_count` counters (`topicCount`);
- the log of fired hooks (`events`).

Each public operation is a method. It checks the same things as the source, in the same order.
It then updates the record, the sorted sets and the counters, appends the hook it fires, and
returns what the source passes to its callback:

- `Ok(payload)` for a success with a payload;
- `Done` for a callback called with no arguments;
- `Fail(error)` for an error.

The errors are `NoTopic`, `NoPrivileges`, `TopicAlreadyDeleted`, `TopicAlreadyRestored` and
`InvalidData`.

Every contract of a `Tools` method except `Purge`'s gives the whole new state on each branch. A failure
leaves the store `unchanged`. Membership exclusivity is the predicate `Placed(tid)`: the topic is
in its category's pinned set exactly when its `pinned` flag is set, in that category's `tids`
and `posts` sets exactly when it is not, and in no other category's sets. Pin, unpin and move
establish it for the topic they act on, provided that topic has no entries in another
category's sets beforehand (`NoStray`). Delete, restore, lock, unlock and the reordering of
pinned topics keep it for every topic. Pin, unpin and move keep it for every other topic.

Modules:

- `Store` (store.dfy): the record type, sorted-set families and counters. Also
  `db.sortedSetAdd`, `db.sortedSetRemove` and `incrementCategoryFieldBy` as pure functions.
- `PinOrder` (pin_order.dfy): `_.unique`, the single-category check of `orderPinnedTopics`, and
  the pure specification (`ApplyOrder`) of its series loop.
- `Placement` (placement.dfy): membership exclusivity over plain values, and how each index update
  affects it.
- `TopicTools` (tools.dfy): the privilege oracle, the result and hook types, and the class.
- `Scenarios` (scenarios.dfy): callers of one or two operations, using only the contracts, plus two concrete examples.

External collaborators become parameters:

- The privilege evaluator is a `Privileges` value: the sets of `(tid, uid)` pairs for which
  `canDelete` or `canPurge` answer yes, and of `(cid, uid)` pairs for `isAdminOrMod`.
- `Date.now()` is the parameter `now` of pin and move, the only operations that read the clock (src/topics/tools.js:186 and :280).
- `Topics.exists` and `getTopicField(s)` are reads of `topics`.
- `ResolvedCid` is the category a tid resolves to when its field is read, 0 (falsy) for a
  missing topic (src/topics/tools.js:121-126); `ResolveCids` maps it over an
  `orderPinnedTopics` request (:222-226). `ToggleLock`, `Lock`, `Unlock` and
  `OrderPinnedTopics` state their guards with them.
- `PostCountOrZero` is `topic.postcount || 0` (:287), the score `Move` gives an unpinned
  topic in the target's `tids:posts` set.

Three behaviours of the code worth noting:

- Unpin adds the topic to `cid:<c>:tids:posts` with `postcount` as read, with no default of 0.
  An absent field reaches the store as an undefined score, modelled as the `Score` value
  `None`. Only `move` applies `postcount || 0`.
- The delete guard compares `deleted` with 1 (`parseInt(deleted) === 1`). So restoring a topic
  whose `deleted` is any value other than 1 fails with `TopicAlreadyRestored`.
- `move` checks no privilege: its `uid` only reaches the `action:topic.move` hook. `tools.js`
  itself fires no hook for `purge`; hooks fired by the foreign purge cascade are not modelled.

## Model

| member | source | states |
|---|---|---|
| `Store.SortedSetAdd` | src/topics/tools.js:193-194 | the category's set gains `tid` with the given score (or its score is overwritten); every other category's set is unchanged |
| `Store.SortedSetRemove` | src/topics/tools.js:272-276 | the category's set loses `tid`; removing a non-member changes nothing; other categories unchanged |
| `Store.AddBackRestores` | src/topics/tools.js:186-194 | removing a member and adding it back with its old score gives the original set |
| `Store.IncrementBy` | src/topics/tools.js:300-306 | the category's counter (absent reads as 0) moves by `delta`; all other counters unchanged |
| `Store.Relocate` | src/topics/tools.js:272-291 | after remove-from-source then add-to-target, the tid is in the target set with the given score, gone from the source set when the categories differ, and every other category's set is unchanged |
| `Store.MoveCounts` | src/topics/tools.js:300-306 | the two increments of a move change every category's count by +1 if it is the target and −1 if it is the source, and leave all others |
| `Store.DetourRestores` | src/topics/tools.js:272-291 | moving a tid to another category and back leaves the source set as it was, with the tid carrying the score of the return trip |
| `Store.DetourCounts` | src/topics/tools.js:300-306 | moving to another category and back leaves both counters as they were |
| `PinOrder.Unique` | src/topics/tools.js:225-227 | `_.unique`: same elements as the input, no duplicates, the first element kept first |
| `PinOrder.SingleCid` | src/topics/tools.js:225-232 | accepts exactly when the list is nonempty, its first id is nonzero and every id equals it; the accepted category is that id |
| `PinOrder.MixedCategoriesRejected` | src/topics/tools.js:229-231 | two different resolved categories make the request invalid |
| `PinOrder.ApplyOrder` | src/topics/tools.js:240-253 | rewriting pin ranks never adds or drops a member of the pinned set |
| `PinOrder.ApplyOrderScore` | src/topics/tools.js:240-253 | after the rewrite, a member's score is the `order` of the last entry naming it, or its old score if no entry names it |
| `PinOrder.LastOrderAbsent` | src/topics/tools.js:245-250 | a tid named by no entry gets no rank from the request |
| `Placement.PinPlaces` | src/topics/tools.js:181-189 | pinning a topic with no stray entries leaves it pinned in its category and in no active set |
| `Placement.UnpinPlaces` | src/topics/tools.js:190-195 | unpinning a topic with no stray entries puts it in its category's active pair only, whatever the scores |
| `Placement.MovePinnedPlaces` | src/topics/tools.js:272-280 | moving a pinned topic puts it in the target's pinned set only |
| `Placement.MoveUnpinnedPlaces` | src/topics/tools.js:272-291 | moving an unpinned topic puts it in the target's active pair only |
| `Placement.OtherStaysPlaced` | src/topics/tools.js:181-196 | a topic's placement depends only on its record's `cid` and `pinned` and on its own memberships |
| `Placement.MoveKeepsOthers` | src/topics/tools.js:272-291 | removing a topic from its category's three sets and adding it to the target's (pinned set, or active pair) leaves every other topic's placement as it was |
| `Placement.AddKeepsOthers` | src/topics/tools.js:186 | adding `tid` changes no other topic's memberships |
| `Placement.RemoveKeepsOthers` | src/topics/tools.js:187-188 | removing `tid` changes no other topic's memberships |
| `TopicTools.Tools.ToggleDelete` | src/topics/tools.js:26-74 | missing topic fails with `NoTopic` before privileges are asked; then `NoPrivileges`; then already-deleted / already-restored guards on `deleted == 1`; every failure changes nothing; success sets `deleted` to 1/0, returns `{tid, cid, isDelete, uid}` with the `cid` read before, fires the delete/restore hook, leaves the sets and counters alone |
| `TopicTools.Tools.Delete` | src/topics/tools.js:18-20 | `NoTopic`, then `NoPrivileges`, then already-deleted when `deleted == 1`, each without change; otherwise `deleted` becomes 1, `{tid, cid, isDelete: true, uid}` is returned, the delete hook fires, every other record, the sets and the counters stay as they were, and membership exclusivity is kept for every topic |
| `TopicTools.Tools.Restore` | src/topics/tools.js:22-24 | `NoTopic`, then `NoPrivileges`, then already-restored when `deleted` is not 1, each without change; otherwise `deleted` becomes 0, `{tid, cid, isDelete: false, uid}` is returned, the restore hook fires, every other record, the sets and the counters stay as they were, and membership exclusivity is kept for every topic |
| `TopicTools.Tools.Purge` | src/topics/tools.js:76-104 | a missing topic is a silent success with no payload and no change; otherwise `NoPrivileges`, or the record is removed and `{tid, cid, uid}` returned with the `cid` read before removal |
| `TopicTools.Tools.ToggleLock` | src/topics/tools.js:114-150 | an unresolvable (absent or 0) `cid` fails with `NoTopic`, a non-moderator with `NoPrivileges`, both without change; otherwise `locked` becomes 1/0 whatever it was, and `{tid, isLocked, uid, cid}` is returned and fired |
| `TopicTools.Tools.Lock` | src/topics/tools.js:106-108 | an unresolvable `cid` fails with `NoTopic`, a non-moderator with `NoPrivileges`, both without change; otherwise `locked` becomes 1 whatever it was, `{tid, isLocked: true, uid, cid}` is returned and fired, and nothing else changes |
| `TopicTools.Tools.Unlock` | src/topics/tools.js:110-112 | the same guards and errors as lock, without change; otherwise `locked` becomes 0, `{tid, isLocked: false, uid, cid}` is returned and fired, and nothing else changes |
| `TopicTools.Tools.TogglePin` | src/topics/tools.js:160-213 | `NoTopic`, then `NoPrivileges` on the topic's own cid, without change; pin adds tid to the pinned set with score `now` and removes it from the active pair; unpin removes it from the pinned set and adds it to the active pair with `lastposttime` and `postcount` as read; `pinned` flag set, hook fired; membership exclusivity established for the topic and kept for all others |
| `TopicTools.Tools.Repin` | src/topics/tools.js:183-195 | pinning adds the tid to the category's pinned set scored `now` and removes it from its `tids` and `posts` sets; unpinning does the reverse with the given scores; records, counters and hooks untouched |
| `TopicTools.Tools.Pin` | src/topics/tools.js:152-154 | a missing topic fails with `NoTopic`, a non-moderator of its category with `NoPrivileges`, both without change; after pin the tid is in `cid:tids:pinned` with score `now` and absent from `cid:tids` and `cid:tids:posts`, `pinned == 1`, no other category's set changes, and membership exclusivity is kept for every other topic |
| `TopicTools.Tools.Unpin` | src/topics/tools.js:156-158 | a missing topic fails with `NoTopic`, a non-moderator of its category with `NoPrivileges`, both without change; after unpin the tid is out of the pinned set and in the active pair with the scores read before, `pinned == 0`, no other category's set changes, and membership exclusivity is kept for every other topic |
| `TopicTools.Tools.OrderPinnedTopics` | src/topics/tools.js:215-256 | `InvalidData` unless the resolved cids are one nonzero value, then `NoPrivileges`, both without change; on success only that category's pinned set changes, to `ApplyOrder` of the request, and no pinned set gains or loses members; membership exclusivity is kept for every topic |
| `TopicTools.Tools.Reindex` | src/topics/tools.js:272-291 | the tid leaves the source category's three sets; a pinned topic then enters the target's pinned set scored `now`, another the target's `tids` and `posts` sets with the given scores; records, counters and hooks untouched |
| `TopicTools.Tools.Move` | src/topics/tools.js:258-326 | missing topic fails with `NoTopic` and changes nothing; no privilege check; the tid is removed from all three source sets; a pinned topic then enters only the target's pinned set with score `now`, another enters the target's `tids` (score `lastposttime`) and `posts` (score `postcount`, 0 if absent); source counter −1 then target +1; `cid` becomes the target and `oldCid` the source; the move hook is appended last; when the categories differ the tid is in no source set afterwards; membership exclusivity holds afterwards for a topic with no stray entries, and is kept for every other topic |
| `Scenarios.PinThenUnpin` | src/topics/tools.js:160-213 | pin then unpin leaves the topic out of the pinned set and back in the active pair with its record's scores; an entry that carried those scores is restored exactly |
| `Scenarios.DeleteTwice` | src/topics/tools.js:47-48 | a second delete in immediate succession fails with already-deleted |
| `Scenarios.DeleteThenRestore` | src/topics/tools.js:26-74 | delete then restore leaves `deleted == 0` and the index sets and counters untouched |
| `Scenarios.PurgeTwice` | src/topics/tools.js:80-85 | the second purge returns `Done` and the records end as one purge leaves them; `tools.js` appends no hook for either purge; purging a missing topic twice changes nothing |
| `Scenarios.MoveThereAndBack` | src/topics/tools.js:258-326 | moving to another category and back restores both counters and the record's `cid`, puts an unpinned topic back into its active pair with its stored scores and a pinned one into its pinned set with the new rank |
| `Scenarios.MoveElsewhere` | src/topics/tools.js:272-306 | after a move to another category the tid is in no source set, in the target's pinned set scored `now` or its active pair with its `lastposttime`, every third category's sets are unchanged, and every category's counter moved by −1 at the source and +1 at the target |
| `Scenarios.PinUnpinExample` | src/topics/tools.js:160-213 | topic 7 of category 4 is pinned and then unpinned by a moderator of category 4, and both calls return their payloads |
| `Scenarios.PurgeMissingExample` | src/topics/tools.js:80-85 | purging a topic that does not exist returns `Done` |
| `Scenarios.LockTwice` | src/topics/tools.js:114-150 | locking twice succeeds twice with the same payload and leaves the record as one lock does |

## Left out

- The `async.waterfall` / `async.parallel` / `async.eachSeries` callback plumbing. Each operation is a straight-line method. The parallel sub-steps write distinct keys, except the two `topic_count` increments of a move within one category, and those commute; so running them in sequence gives the same final state.
- Concurrency between overlapping operations, and the weak consistency that comes with it (duplicate hooks, transient violations of membership exclusivity). It is not modelled.
- Failures of the store itself. Every `db` and record call succeeds here, so the source's partial states after a failed sub-step are not modelled (for example, indices already moved when a counter update fails).
- `plugins.fireHook`: only the hook's name and payload are appended to `events`. Plugin behaviour is not modelled.
- The delete and restore hooks also carry `title` and `mainPid`. The model's `Snapshot` keeps only `tid`, `cid`, author `uid` and `deleted`.
- `categories.moveRecentReplies` (line 298). It is a foreign call whose result is ignored, so it is not modelled.
- `Topics.delete` / `Topics.restore` are foreign. Only the `deleted` flag flip is modelled.
- TopicTools.Tools.Purge: promises only that the record is removed and that `tools.js` itself fires no hook. It says nothing about the sorted sets or counters, or about hooks fired inside `Topics.purgePostsAndTopic`, because what that foreign cascade does is not visible here.
- The privilege evaluator's policy. It is modelled as given sets of allowed pairs.
- `Date.now()` is the parameter `now`.
- `parseInt` coercion from the store's strings. Fields are integers. An absent `cid` is represented by 0, which is falsy as in the source. Non-numeric `cid` strings and a stored `"0"` are not modelled: `toggleLock` tests the raw field (src/topics/tools.js:125), where they would be truthy, and only `orderPinnedTopics` applies `parseInt` (:226), which makes them falsy. The set keys `cid:<c>:…` of pin and move are built from the raw field, so an absent `cid` would key `cid:undefined:…`; the model keys it as category 0. A missing topic resolves to category 0 in `orderPinnedTopics`; the accept/reject outcome is the same as the source's, since every falsy value rejects the request.
- `null` entries in the `orderPinnedTopics` request (`topic && topic.tid`) are not modelled. Each entry is a `(tid, order)` pair.
- The category counter invariant: the model does not prove that `topic_count` equals the number of topics in a category. It proves only that `move` changes the two counters by −1 and +1.
