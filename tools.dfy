/** The topic-moderation engine (`Topics.tools`): delete/restore, purge,
    lock/unlock, pin/unpin, reordering of pinned topics and moving a topic
    to another category, each as a method on one store object. */
module TopicTools {
  import opened Store
  import opened PinOrder
  import opened Placement

  /** The privilege evaluator, injected: the pairs for which it answers yes. */
  datatype Privileges = Privileges(
    canDelete: set<(int, int)>,    // (tid, uid)
    canPurge: set<(int, int)>,     // (tid, uid)
    adminOrMod: set<(int, int)>)   // (cid, uid)
  {
    predicate CanDelete(tid: int, uid: int) { (tid, uid) in canDelete }
    predicate CanPurge(tid: int, uid: int) { (tid, uid) in canPurge }
    predicate IsAdminOrMod(cid: int, uid: int) { (cid, uid) in adminOrMod }
  }

  datatype Error = NoTopic | NoPrivileges | TopicAlreadyDeleted | TopicAlreadyRestored | InvalidData

  /** The value an operation hands to its callback on success. */
  datatype Payload =
    | DeleteData(tid: int, cid: int, isDelete: bool, uid: int)
    | PurgeData(tid: int, cid: int, uid: int)
    | LockData(tid: int, isLocked: bool, uid: int, cid: int)
    | PinData(tid: int, isPinned: bool, uid: int, cid: int)

  /** The callback's arguments: a payload, nothing at all, or an error. */
  datatype Outcome = Ok(data: Payload) | Done | Fail(error: Error)

  /** The fields of a topic the delete and restore hooks receive. */
  datatype Snapshot = Snapshot(tid: int, cid: int, uid: int, deleted: int)

  /** Hooks fired, in order (`action:topic.*`). */
  datatype Event =
    | TopicDelete(topic: Snapshot)
    | TopicRestore(topic: Snapshot)
    | TopicLock(data: Payload)
    | TopicPin(data: Payload)
    | TopicMove(tid: int, fromCid: int, toCid: int, uid: int)

  /** The value `tid` resolves to when its category is read: 0 (falsy) for a
      missing topic. */
  function ResolvedCid(topics: map<int, Topic>, tid: int): int
  {
    if tid in topics then topics[tid].cid else 0
  }

  function ResolveCids(topics: map<int, Topic>, data: seq<PinEntry>): seq<int>
  {
    seq(|data|, i requires 0 <= i < |data| => ResolvedCid(topics, data[i].tid))
  }

  /** `topic.postcount || 0`. */
  function PostCountOrZero(t: Topic): int
  {
    if t.postcount.Some? then t.postcount.value else 0
  }

  class Tools {
    var topics: map<int, Topic>
    var tids: Family       // cid:<c>:tids, scored by lastposttime
    var posts: Family      // cid:<c>:tids:posts, scored by postcount
    var pinned: Family     // cid:<c>:tids:pinned, scored by pin rank
    var topicCount: Counters
    var events: seq<Event>

    constructor (topics: map<int, Topic>, tids: Family, posts: Family, pinned: Family, topicCount: Counters)
      ensures this.topics == topics && this.tids == tids && this.posts == posts
      ensures this.pinned == pinned && this.topicCount == topicCount && events == []
    {
      this.topics := topics;
      this.tids := tids;
      this.posts := posts;
      this.pinned := pinned;
      this.topicCount := topicCount;
      events := [];
    }

    /** Membership exclusivity for `tid` in the current state. */
    ghost predicate Placed(tid: int)
      reads this
    {
      PlacedIn(topics, tids, posts, pinned, tid)
    }

    ghost predicate NoStray(tid: int)
      reads this
    {
      NoStrayIn(topics, tids, posts, pinned, tid)
    }

    /** Shared by `delete` (isDelete) and `restore` (!isDelete). */
    method ToggleDelete(priv: Privileges, tid: int, uid: int, isDelete: bool) returns (r: Outcome)
      modifies this
      ensures tid !in old(topics) ==> r == Fail(NoTopic)
      ensures tid in old(topics) && !priv.CanDelete(tid, uid) ==> r == Fail(NoPrivileges)
      ensures tid in old(topics) && priv.CanDelete(tid, uid) && isDelete && old(topics)[tid].deleted == 1
              ==> r == Fail(TopicAlreadyDeleted)
      ensures tid in old(topics) && priv.CanDelete(tid, uid) && !isDelete && old(topics)[tid].deleted != 1
              ==> r == Fail(TopicAlreadyRestored)
      ensures r.Fail? ==> unchanged(this)
      ensures r.Ok? <==> tid in old(topics) && priv.CanDelete(tid, uid) && (old(topics)[tid].deleted == 1) != isDelete
      ensures r.Ok? ==>
        var t := old(topics)[tid];
        var flag := if isDelete then 1 else 0;
        var shot := Snapshot(tid, t.cid, t.uid, flag);
        && r == Ok(DeleteData(tid, t.cid, isDelete, uid))
        && topics == old(topics)[tid := t.(deleted := flag)]
        && events == old(events) + [if isDelete then TopicDelete(shot) else TopicRestore(shot)]
        && tids == old(tids) && posts == old(posts) && pinned == old(pinned)
        && topicCount == old(topicCount)
      ensures forall x :: old(Placed(x)) ==> Placed(x)
    {
      if tid !in topics {
        return Fail(NoTopic);
      }
      if !priv.CanDelete(tid, uid) {
        return Fail(NoPrivileges);
      }
      var t := topics[tid];
      if t.deleted == 1 && isDelete {
        return Fail(TopicAlreadyDeleted);
      } else if t.deleted != 1 && !isDelete {
        return Fail(TopicAlreadyRestored);
      }
      var flag := if isDelete then 1 else 0;
      topics := topics[tid := t.(deleted := flag)];
      var shot := Snapshot(tid, t.cid, t.uid, flag);
      events := events + [if isDelete then TopicDelete(shot) else TopicRestore(shot)];
      r := Ok(DeleteData(tid, t.cid, isDelete, uid));
    }

    method Delete(priv: Privileges, tid: int, uid: int) returns (r: Outcome)
      modifies this
      ensures tid !in old(topics) ==> r == Fail(NoTopic)
      ensures tid in old(topics) && !priv.CanDelete(tid, uid) ==> r == Fail(NoPrivileges)
      ensures tid in old(topics) && priv.CanDelete(tid, uid) && old(topics)[tid].deleted == 1
              ==> r == Fail(TopicAlreadyDeleted)
      ensures r.Fail? ==> unchanged(this)
      ensures r.Ok? <==> tid in old(topics) && priv.CanDelete(tid, uid) && old(topics)[tid].deleted != 1
      ensures r.Ok? ==>
        var t := old(topics)[tid];
        && r == Ok(DeleteData(tid, t.cid, true, uid))
        && topics == old(topics)[tid := t.(deleted := 1)]
        && events == old(events) + [TopicDelete(Snapshot(tid, t.cid, t.uid, 1))]
        && tids == old(tids) && posts == old(posts) && pinned == old(pinned)
        && topicCount == old(topicCount)
      ensures forall x :: old(Placed(x)) ==> Placed(x)
    {
      r := ToggleDelete(priv, tid, uid, true);
    }

    method Restore(priv: Privileges, tid: int, uid: int) returns (r: Outcome)
      modifies this
      ensures tid !in old(topics) ==> r == Fail(NoTopic)
      ensures tid in old(topics) && !priv.CanDelete(tid, uid) ==> r == Fail(NoPrivileges)
      ensures tid in old(topics) && priv.CanDelete(tid, uid) && old(topics)[tid].deleted != 1
              ==> r == Fail(TopicAlreadyRestored)
      ensures r.Fail? ==> unchanged(this)
      ensures r.Ok? <==> tid in old(topics) && priv.CanDelete(tid, uid) && old(topics)[tid].deleted == 1
      ensures r.Ok? ==>
        var t := old(topics)[tid];
        && r == Ok(DeleteData(tid, t.cid, false, uid))
        && topics == old(topics)[tid := t.(deleted := 0)]
        && events == old(events) + [TopicRestore(Snapshot(tid, t.cid, t.uid, 0))]
        && tids == old(tids) && posts == old(posts) && pinned == old(pinned)
        && topicCount == old(topicCount)
      ensures forall x :: old(Placed(x)) ==> Placed(x)
    {
      r := ToggleDelete(priv, tid, uid, false);
    }

    /** Purging a missing topic is a silent success. The cascade that removes
        the posts and the record is foreign; only the record's removal is
        claimed, nothing about the index sets or counters. `events` holds the
        hooks this module fires, and it fires none for a purge. */
    method Purge(priv: Privileges, tid: int, uid: int) returns (r: Outcome)
      modifies this
      ensures tid !in old(topics) ==> r == Done && unchanged(this)
      ensures tid in old(topics) && !priv.CanPurge(tid, uid) ==> r == Fail(NoPrivileges) && unchanged(this)
      ensures tid in old(topics) && priv.CanPurge(tid, uid) ==>
        && r == Ok(PurgeData(tid, old(topics)[tid].cid, uid))
        && topics == old(topics) - {tid}
        && events == old(events)
    {
      if tid !in topics {
        return Done;
      }
      if !priv.CanPurge(tid, uid) {
        return Fail(NoPrivileges);
      }
      var cid := topics[tid].cid;
      topics := topics - {tid};
      r := Ok(PurgeData(tid, cid, uid));
    }

    /** Shared by `lock` and `unlock`; no prior-state guard. */
    method ToggleLock(priv: Privileges, tid: int, uid: int, lock: bool) returns (r: Outcome)
      modifies this
      ensures ResolvedCid(old(topics), tid) == 0 ==> r == Fail(NoTopic) && unchanged(this)
      ensures var cid := ResolvedCid(old(topics), tid);
              cid != 0 && !priv.IsAdminOrMod(cid, uid) ==> r == Fail(NoPrivileges) && unchanged(this)
      ensures var cid := ResolvedCid(old(topics), tid);
              cid != 0 && priv.IsAdminOrMod(cid, uid) ==>
        var data := LockData(tid, lock, uid, cid);
        && r == Ok(data)
        && topics == old(topics)[tid := old(topics)[tid].(locked := if lock then 1 else 0)]
        && events == old(events) + [TopicLock(data)]
        && tids == old(tids) && posts == old(posts) && pinned == old(pinned)
        && topicCount == old(topicCount)
      ensures forall x :: old(Placed(x)) ==> Placed(x)
    {
      var cid := ResolvedCid(topics, tid);
      if cid == 0 {
        return Fail(NoTopic);
      }
      if !priv.IsAdminOrMod(cid, uid) {
        return Fail(NoPrivileges);
      }
      topics := topics[tid := topics[tid].(locked := if lock then 1 else 0)];
      var data := LockData(tid, lock, uid, cid);
      events := events + [TopicLock(data)];
      r := Ok(data);
    }

    method Lock(priv: Privileges, tid: int, uid: int) returns (r: Outcome)
      modifies this
      ensures ResolvedCid(old(topics), tid) == 0 ==> r == Fail(NoTopic) && unchanged(this)
      ensures var cid := ResolvedCid(old(topics), tid);
              cid != 0 && !priv.IsAdminOrMod(cid, uid) ==> r == Fail(NoPrivileges) && unchanged(this)
      ensures var cid := ResolvedCid(old(topics), tid);
              cid != 0 && priv.IsAdminOrMod(cid, uid) ==>
        var data := LockData(tid, true, uid, cid);
        && r == Ok(data)
        && topics == old(topics)[tid := old(topics)[tid].(locked := 1)]
        && events == old(events) + [TopicLock(data)]
        && tids == old(tids) && posts == old(posts) && pinned == old(pinned)
        && topicCount == old(topicCount)
      ensures forall x :: old(Placed(x)) ==> Placed(x)
    {
      r := ToggleLock(priv, tid, uid, true);
    }

    method Unlock(priv: Privileges, tid: int, uid: int) returns (r: Outcome)
      modifies this
      ensures ResolvedCid(old(topics), tid) == 0 ==> r == Fail(NoTopic) && unchanged(this)
      ensures var cid := ResolvedCid(old(topics), tid);
              cid != 0 && !priv.IsAdminOrMod(cid, uid) ==> r == Fail(NoPrivileges) && unchanged(this)
      ensures var cid := ResolvedCid(old(topics), tid);
              cid != 0 && priv.IsAdminOrMod(cid, uid) ==>
        var data := LockData(tid, false, uid, cid);
        && r == Ok(data)
        && topics == old(topics)[tid := old(topics)[tid].(locked := 0)]
        && events == old(events) + [TopicLock(data)]
        && tids == old(tids) && posts == old(posts) && pinned == old(pinned)
        && topicCount == old(topicCount)
      ensures forall x :: old(Placed(x)) ==> Placed(x)
    {
      r := ToggleLock(priv, tid, uid, false);
    }

    /** The index half of pin and unpin: the topic trades its place
        in `cid`'s active pair for one in its pinned set scored `now`, or
        the reverse with the given scores. */
    method Repin(tid: int, cid: int, pin: bool, now: int, lastposttime: Score, postcount: Score)
      modifies this
      ensures pin ==>
        && pinned == SortedSetAdd(old(pinned), cid, tid, Some(now))
        && tids == SortedSetRemove(old(tids), cid, tid)
        && posts == SortedSetRemove(old(posts), cid, tid)
      ensures !pin ==>
        && pinned == SortedSetRemove(old(pinned), cid, tid)
        && tids == SortedSetAdd(old(tids), cid, tid, lastposttime)
        && posts == SortedSetAdd(old(posts), cid, tid, postcount)
      ensures topics == old(topics) && topicCount == old(topicCount) && events == old(events)
    {
      if pin {
        pinned := SortedSetAdd(pinned, cid, tid, Some(now));
        tids := SortedSetRemove(tids, cid, tid);
        posts := SortedSetRemove(posts, cid, tid);
      } else {
        pinned := SortedSetRemove(pinned, cid, tid);
        tids := SortedSetAdd(tids, cid, tid, lastposttime);
        posts := SortedSetAdd(posts, cid, tid, postcount);
      }
    }

    /** Shared by `pin` and `unpin`. Pinning moves the topic from its
        category's active pair into the pinned set, scored `now`; unpinning
        moves it back, scored by `lastposttime` and `postcount` as read. */
    method TogglePin(priv: Privileges, tid: int, uid: int, pin: bool, now: int) returns (r: Outcome)
      modifies this
      ensures tid !in old(topics) ==> r == Fail(NoTopic) && unchanged(this)
      ensures tid in old(topics) && !priv.IsAdminOrMod(old(topics)[tid].cid, uid)
              ==> r == Fail(NoPrivileges) && unchanged(this)
      ensures tid in old(topics) && priv.IsAdminOrMod(old(topics)[tid].cid, uid) ==>
        var t := old(topics)[tid];
        var data := PinData(tid, pin, uid, t.cid);
        && r == Ok(data)
        && topics == old(topics)[tid := t.(pinned := if pin then 1 else 0)]
        && (pin ==>
              && pinned == SortedSetAdd(old(pinned), t.cid, tid, Some(now))
              && tids == SortedSetRemove(old(tids), t.cid, tid)
              && posts == SortedSetRemove(old(posts), t.cid, tid))
        && (!pin ==>
              && pinned == SortedSetRemove(old(pinned), t.cid, tid)
              && tids == SortedSetAdd(old(tids), t.cid, tid, t.lastposttime)
              && posts == SortedSetAdd(old(posts), t.cid, tid, t.postcount))
        && topicCount == old(topicCount)
        && events == old(events) + [TopicPin(data)]
      ensures r.Ok? && old(NoStray(tid)) ==> Placed(tid)
      ensures forall x :: x != tid && old(Placed(x)) ==> Placed(x)
    {
      if tid !in topics {
        return Fail(NoTopic);
      }
      var t := topics[tid];
      if !priv.IsAdminOrMod(t.cid, uid) {
        return Fail(NoPrivileges);
      }
      ghost var topics0, tids0, posts0, pinned0 := topics, tids, posts, pinned;
      topics := topics[tid := t.(pinned := if pin then 1 else 0)];
      Repin(tid, t.cid, pin, now, t.lastposttime, t.postcount);
      var data := PinData(tid, pin, uid, t.cid);
      events := events + [TopicPin(data)];
      r := Ok(data);
      if NoStrayIn(topics0, tids0, posts0, pinned0, tid) {
        if pin {
          PinPlaces(topics0, tids0, posts0, pinned0, tid, now);
        } else {
          UnpinPlaces(topics0, tids0, posts0, pinned0, tid, t.lastposttime, t.postcount);
        }
      }
      forall x | x != tid && PlacedIn(topics0, tids0, posts0, pinned0, x)
        ensures Placed(x)
      {
        if pin {
          AddKeepsOthers(pinned0, t.cid, tid, Some(now), x);
          RemoveKeepsOthers(tids0, t.cid, tid, x);
          RemoveKeepsOthers(posts0, t.cid, tid, x);
        } else {
          RemoveKeepsOthers(pinned0, t.cid, tid, x);
          AddKeepsOthers(tids0, t.cid, tid, t.lastposttime, x);
          AddKeepsOthers(posts0, t.cid, tid, t.postcount, x);
        }
        OtherStaysPlaced(topics0, tids0, posts0, pinned0, topics, tids, posts, pinned, x);
      }
    }

    method Pin(priv: Privileges, tid: int, uid: int, now: int) returns (r: Outcome)
      modifies this
      ensures tid !in old(topics) ==> r == Fail(NoTopic)
      ensures tid in old(topics) && !priv.IsAdminOrMod(old(topics)[tid].cid, uid) ==> r == Fail(NoPrivileges)
      ensures r.Ok? <==> tid in old(topics) && priv.IsAdminOrMod(old(topics)[tid].cid, uid)
      ensures !r.Ok? ==> unchanged(this)
      ensures r.Ok? ==>
        var t := old(topics)[tid];
        && r == Ok(PinData(tid, true, uid, t.cid))
        && topics == old(topics)[tid := t.(pinned := 1)]
        && Members(pinned, t.cid) == Members(old(pinned), t.cid)[tid := Some(now)]
        && Members(tids, t.cid) == Members(old(tids), t.cid) - {tid}
        && Members(posts, t.cid) == Members(old(posts), t.cid) - {tid}
        && (forall d :: d != t.cid ==>
              && Members(pinned, d) == Members(old(pinned), d)
              && Members(tids, d) == Members(old(tids), d)
              && Members(posts, d) == Members(old(posts), d))
        && topicCount == old(topicCount)
        && events == old(events) + [TopicPin(PinData(tid, true, uid, t.cid))]
      ensures r.Ok? && old(NoStray(tid)) ==> Placed(tid)
      ensures forall x :: x != tid && old(Placed(x)) ==> Placed(x)
    {
      r := TogglePin(priv, tid, uid, true, now);
    }

    method Unpin(priv: Privileges, tid: int, uid: int) returns (r: Outcome)
      modifies this
      ensures tid !in old(topics) ==> r == Fail(NoTopic)
      ensures tid in old(topics) && !priv.IsAdminOrMod(old(topics)[tid].cid, uid) ==> r == Fail(NoPrivileges)
      ensures r.Ok? <==> tid in old(topics) && priv.IsAdminOrMod(old(topics)[tid].cid, uid)
      ensures !r.Ok? ==> unchanged(this)
      ensures r.Ok? ==>
        var t := old(topics)[tid];
        && r == Ok(PinData(tid, false, uid, t.cid))
        && topics == old(topics)[tid := t.(pinned := 0)]
        && Members(pinned, t.cid) == Members(old(pinned), t.cid) - {tid}
        && Members(tids, t.cid) == Members(old(tids), t.cid)[tid := t.lastposttime]
        && Members(posts, t.cid) == Members(old(posts), t.cid)[tid := t.postcount]
        && (forall d :: d != t.cid ==>
              && Members(pinned, d) == Members(old(pinned), d)
              && Members(tids, d) == Members(old(tids), d)
              && Members(posts, d) == Members(old(posts), d))
        && topicCount == old(topicCount)
        && events == old(events) + [TopicPin(PinData(tid, false, uid, t.cid))]
      ensures r.Ok? && old(NoStray(tid)) ==> Placed(tid)
      ensures forall x :: x != tid && old(Placed(x)) ==> Placed(x)
    {
      // unpin reads no clock; the rank argument is unused on this branch
      r := TogglePin(priv, tid, uid, false, 0);
    }

    /** Rewrites the scores of the pinned topics named in `data`, in order,
        once their categories resolve to one nonzero id. */
    method OrderPinnedTopics(priv: Privileges, uid: int, data: seq<PinEntry>) returns (r: Outcome)
      modifies this
      ensures SingleCid(ResolveCids(old(topics), data)) == None ==> r == Fail(InvalidData) && unchanged(this)
      ensures var c := SingleCid(ResolveCids(old(topics), data));
              c.Some? && !priv.IsAdminOrMod(c.value, uid) ==> r == Fail(NoPrivileges) && unchanged(this)
      ensures var c := SingleCid(ResolveCids(old(topics), data));
              c.Some? && priv.IsAdminOrMod(c.value, uid) ==>
        && r == Done
        && pinned == (if c.value in old(pinned)
                      then old(pinned)[c.value := ApplyOrder(old(pinned)[c.value], data)]
                      else old(pinned))
        && topics == old(topics) && tids == old(tids) && posts == old(posts)
        && topicCount == old(topicCount) && events == old(events)
      ensures forall c :: Members(pinned, c).Keys == Members(old(pinned), c).Keys
      ensures forall x :: old(Placed(x)) ==> Placed(x)
    {
      var single := SingleCid(ResolveCids(topics, data));
      if single.None? {
        return Fail(InvalidData);
      }
      var cid := single.value;
      if !priv.IsAdminOrMod(cid, uid) {
        return Fail(NoPrivileges);
      }
      var i := 0;
      while i < |data|
        invariant 0 <= i <= |data|
        invariant pinned == if cid in old(pinned)
                            then old(pinned)[cid := ApplyOrder(old(pinned)[cid], data[..i])]
                            else old(pinned)
        invariant topics == old(topics) && tids == old(tids) && posts == old(posts)
        invariant topicCount == old(topicCount) && events == old(events)
      {
        var e := data[i];
        if e.tid in Members(pinned, cid) {
          pinned := SortedSetAdd(pinned, cid, e.tid, Some(e.order));
        }
        assert data[..i + 1][..i] == data[..i];
        i := i + 1;
      }
      assert data[..|data|] == data;
      r := Done;
    }

    /** The index half of a move: `tid` leaves the three sets of `src`, then
        enters `cid`'s pinned set scored `now` when `isPinned`, and otherwise
        `cid`'s active pair with the given scores. */
    method Reindex(tid: int, src: int, cid: int, isPinned: bool, lastposttime: Score, postcount: Score, now: int)
      modifies this
      ensures isPinned ==>
        && pinned == SortedSetAdd(SortedSetRemove(old(pinned), src, tid), cid, tid, Some(now))
        && tids == SortedSetRemove(old(tids), src, tid)
        && posts == SortedSetRemove(old(posts), src, tid)
      ensures !isPinned ==>
        && pinned == SortedSetRemove(old(pinned), src, tid)
        && tids == SortedSetAdd(SortedSetRemove(old(tids), src, tid), cid, tid, lastposttime)
        && posts == SortedSetAdd(SortedSetRemove(old(posts), src, tid), cid, tid, postcount)
      ensures topics == old(topics) && topicCount == old(topicCount) && events == old(events)
    {
      // sortedSetsRemove over the source category's three sets
      tids := SortedSetRemove(tids, src, tid);
      pinned := SortedSetRemove(pinned, src, tid);
      posts := SortedSetRemove(posts, src, tid);
      if isPinned {
        pinned := SortedSetAdd(pinned, cid, tid, Some(now));
      } else {
        tids := SortedSetAdd(tids, cid, tid, lastposttime);
        posts := SortedSetAdd(posts, cid, tid, postcount);
      }
    }

    /** Moves `tid` to category `cid`. No privilege is checked; `uid` only
        reaches the hook. A pinned topic is re-pinned in the target with
        rank `now`; any other is re-indexed by its stored scores. */
    method Move(tid: int, cid: int, uid: int, now: int) returns (r: Outcome)
      modifies this
      ensures tid !in old(topics) ==> r == Fail(NoTopic) && unchanged(this)
      ensures tid in old(topics) ==>
        var t := old(topics)[tid];
        var src := t.cid;
        && r == Done
        && (t.pinned != 0 ==>
              && pinned == SortedSetAdd(SortedSetRemove(old(pinned), src, tid), cid, tid, Some(now))
              && tids == SortedSetRemove(old(tids), src, tid)
              && posts == SortedSetRemove(old(posts), src, tid))
        && (t.pinned == 0 ==>
              && pinned == SortedSetRemove(old(pinned), src, tid)
              && tids == SortedSetAdd(SortedSetRemove(old(tids), src, tid), cid, tid, t.lastposttime)
              && posts == SortedSetAdd(SortedSetRemove(old(posts), src, tid), cid, tid, Some(PostCountOrZero(t))))
        && topicCount == IncrementBy(IncrementBy(old(topicCount), src, -1), cid, 1)
        && topics == old(topics)[tid := t.(cid := cid, oldCid := Some(src))]
        && events == old(events) + [TopicMove(tid, src, cid, uid)]
      ensures tid in old(topics) && old(topics)[tid].cid != cid ==>
        var src := old(topics)[tid].cid;
        tid !in Members(tids, src) && tid !in Members(posts, src) && tid !in Members(pinned, src)
      ensures tid in old(topics) && old(NoStray(tid)) ==> Placed(tid)
      ensures forall x :: x != tid && old(Placed(x)) ==> Placed(x)
    {
      if tid !in topics {
        return Fail(NoTopic);
      }
      var t := topics[tid];
      var src := t.cid;
      ghost var topics0, tids0, posts0, pinned0 := topics, tids, posts, pinned;
      Reindex(tid, src, cid, t.pinned != 0, t.lastposttime, Some(PostCountOrZero(t)), now);
      topicCount := IncrementBy(IncrementBy(topicCount, src, -1), cid, 1);
      topics := topics[tid := t.(cid := cid, oldCid := Some(src))];
      events := events + [TopicMove(tid, src, cid, uid)];
      if NoStrayIn(topics0, tids0, posts0, pinned0, tid) {
        if t.pinned != 0 {
          MovePinnedPlaces(topics0, tids0, posts0, pinned0, tid, cid, Some(now));
        } else {
          MoveUnpinnedPlaces(topics0, tids0, posts0, pinned0, tid, cid, t.lastposttime, Some(PostCountOrZero(t)));
        }
      }
      forall x | x != tid && PlacedIn(topics0, tids0, posts0, pinned0, x)
        ensures Placed(x)
      {
        MoveKeepsOthers(topics0, tids0, posts0, pinned0, tid, cid, Some(now), t.lastposttime, Some(PostCountOrZero(t)), x);
      }
      r := Done;
    }
  }
}
