/** Clients of the moderation engine: what follows for a caller from the
    methods' contracts alone when two operations run back to back. */
module Scenarios {
  import opened Store
  import opened TopicTools

  /** Pinning and then unpinning a topic puts it back into its category's
      active pair with the scores its record holds, and out of the pinned
      set; an entry that already carried those scores is restored as it was. */
  method PinThenUnpin(s: Tools, priv: Privileges, tid: int, uid: int, now: int)
    returns (r1: Outcome, r2: Outcome)
    requires tid in s.topics && priv.IsAdminOrMod(s.topics[tid].cid, uid)
    modifies s
    ensures r1.Ok? && r2.Ok?
    ensures var t := old(s.topics)[tid];
      && tid in s.topics && s.topics[tid] == t.(pinned := 0)
      && Members(s.pinned, t.cid) == Members(old(s.pinned), t.cid) - {tid}
      && Members(s.tids, t.cid) == Members(old(s.tids), t.cid)[tid := t.lastposttime]
      && Members(s.posts, t.cid) == Members(old(s.posts), t.cid)[tid := t.postcount]
    ensures var t := old(s.topics)[tid];
      tid in Members(old(s.tids), t.cid) && Members(old(s.tids), t.cid)[tid] == t.lastposttime
      ==> Members(s.tids, t.cid) == Members(old(s.tids), t.cid)
    ensures var t := old(s.topics)[tid];
      tid in Members(old(s.posts), t.cid) && Members(old(s.posts), t.cid)[tid] == t.postcount
      ==> Members(s.posts, t.cid) == Members(old(s.posts), t.cid)
    ensures old(s.NoStray(tid)) ==> s.Placed(tid)
  {
    ghost var t := s.topics[tid];
    ghost var tids0, posts0, pinned0 := Members(s.tids, t.cid), Members(s.posts, t.cid), Members(s.pinned, t.cid);
    r1 := s.Pin(priv, tid, uid, now);
    r2 := s.Unpin(priv, tid, uid);
    SetThenRemove(pinned0, tid, Some(now));
    RemoveThenSet(tids0, tid, t.lastposttime);
    RemoveThenSet(posts0, tid, t.postcount);
  }

  /** A second delete in immediate succession is rejected as already deleted. */
  method DeleteTwice(s: Tools, priv: Privileges, tid: int, uid: int) returns (r1: Outcome, r2: Outcome)
    requires tid in s.topics && priv.CanDelete(tid, uid)
    modifies s
    ensures r1.Ok? <==> old(s.topics)[tid].deleted != 1
    ensures r2 == Fail(TopicAlreadyDeleted)
  {
    r1 := s.Delete(priv, tid, uid);
    r2 := s.Delete(priv, tid, uid);
  }

  /** Delete then restore clears the flag and never touches the index sets. */
  method DeleteThenRestore(s: Tools, priv: Privileges, tid: int, uid: int) returns (r1: Outcome, r2: Outcome)
    requires tid in s.topics && priv.CanDelete(tid, uid) && s.topics[tid].deleted != 1
    modifies s
    ensures r1.Ok? && r2.Ok?
    ensures s.topics == old(s.topics)[tid := old(s.topics)[tid].(deleted := 0)]
    ensures s.tids == old(s.tids) && s.posts == old(s.posts) && s.pinned == old(s.pinned)
    ensures s.topicCount == old(s.topicCount)
  {
    r1 := s.ToggleDelete(priv, tid, uid, true);
    r2 := s.ToggleDelete(priv, tid, uid, false);
  }

  /** Locking twice succeeds twice and leaves the record as one lock does. */
  method LockTwice(s: Tools, priv: Privileges, tid: int, uid: int) returns (r1: Outcome, r2: Outcome)
    requires ResolvedCid(s.topics, tid) != 0 && priv.IsAdminOrMod(ResolvedCid(s.topics, tid), uid)
    modifies s
    ensures r1.Ok? && r2 == r1
    ensures s.topics == old(s.topics)[tid := old(s.topics)[tid].(locked := 1)]
    ensures s.events == old(s.events) + [TopicLock(r1.data), TopicLock(r1.data)]
  {
    r1 := s.ToggleLock(priv, tid, uid, true);
    r2 := s.ToggleLock(priv, tid, uid, true);
  }

  /** A second purge of the same topic is a silent success, whatever the
      first one returned: the records end as one purge leaves them, and no
      hook fires. Purging a missing topic twice changes nothing. */
  method PurgeTwice(s: Tools, priv: Privileges, tid: int, uid: int) returns (r1: Outcome, r2: Outcome)
    requires priv.CanPurge(tid, uid)
    modifies s
    ensures tid in old(s.topics) ==> r1 == Ok(PurgeData(tid, old(s.topics)[tid].cid, uid))
    ensures tid !in old(s.topics) ==> r1 == Done
    ensures r2 == Done && tid !in s.topics
    ensures s.topics == old(s.topics) - {tid}
    ensures s.events == old(s.events)
    ensures tid !in old(s.topics) ==> unchanged(s)
  {
    r1 := s.Purge(priv, tid, uid);
    r2 := s.Purge(priv, tid, uid);
  }

  /** Moving a topic to another category and back restores both
      categories' counters, brings the record's `cid` home, and puts an
      unpinned topic back into its active pair with its stored scores. */
  method MoveThereAndBack(s: Tools, tid: int, dst: int, uid: int, now1: int, now2: int)
    returns (r1: Outcome, r2: Outcome)
    requires tid in s.topics
    modifies s
    ensures r1 == Done && r2 == Done
    ensures tid in s.topics && s.topics[tid] == old(s.topics)[tid].(oldCid := Some(dst))
    ensures Count(s.topicCount, old(s.topics)[tid].cid) == Count(old(s.topicCount), old(s.topics)[tid].cid)
    ensures Count(s.topicCount, dst) == Count(old(s.topicCount), dst)
    ensures old(s.topics)[tid].pinned == 0 ==>
      Members(s.tids, old(s.topics)[tid].cid)
      == Members(old(s.tids), old(s.topics)[tid].cid)[tid := old(s.topics)[tid].lastposttime]
    ensures old(s.topics)[tid].pinned == 0 ==>
      Members(s.posts, old(s.topics)[tid].cid)
      == Members(old(s.posts), old(s.topics)[tid].cid)[tid := Some(PostCountOrZero(old(s.topics)[tid]))]
    ensures old(s.topics)[tid].pinned != 0 ==>
      Members(s.pinned, old(s.topics)[tid].cid) == Members(old(s.pinned), old(s.topics)[tid].cid)[tid := Some(now2)]
    ensures old(s.NoStray(tid)) ==> s.Placed(tid)
  {
    var t := s.topics[tid];
    var src := t.cid;
    ghost var tids0, posts0, pinned0, counts0 := s.tids, s.posts, s.pinned, s.topicCount;
    r1 := s.Move(tid, dst, uid, now1);
    r2 := s.Move(tid, src, uid, now2);
    DetourCounts(counts0, src, dst);
    if t.pinned == 0 {
      DetourRestores(tids0, src, dst, tid, t.lastposttime, t.lastposttime);
      DetourRestores(posts0, src, dst, tid, Some(PostCountOrZero(t)), Some(PostCountOrZero(t)));
    } else {
      DetourRestores(pinned0, src, dst, tid, Some(now1), Some(now2));
    }
  }

  /** After a move to another category a caller can rely on where the
      topic's index entries are and on every category's counter. */
  method MoveElsewhere(s: Tools, tid: int, dst: int, uid: int, now: int) returns (r: Outcome)
    requires tid in s.topics && s.topics[tid].cid != dst
    modifies s
    ensures r == Done && tid in s.topics && s.topics[tid].cid == dst
    ensures var src := old(s.topics)[tid].cid;
      && tid !in Members(s.tids, src) && tid !in Members(s.posts, src) && tid !in Members(s.pinned, src)
      && (old(s.topics)[tid].pinned != 0 ==> tid in Members(s.pinned, dst) && Members(s.pinned, dst)[tid] == Some(now))
      && (old(s.topics)[tid].pinned == 0 ==>
            && tid in Members(s.tids, dst) && Members(s.tids, dst)[tid] == old(s.topics)[tid].lastposttime
            && tid in Members(s.posts, dst))
      && (forall d :: d != src && d != dst ==>
            && Members(s.tids, d) == Members(old(s.tids), d)
            && Members(s.posts, d) == Members(old(s.posts), d)
            && Members(s.pinned, d) == Members(old(s.pinned), d))
    ensures forall d ::
              Count(s.topicCount, d)
              == Count(old(s.topicCount), d) - (if d == old(s.topics)[tid].cid then 1 else 0) + (if d == dst then 1 else 0)
  {
    var t := s.topics[tid];
    ghost var tids0, posts0, pinned0, counts0 := s.tids, s.posts, s.pinned, s.topicCount;
    r := s.Move(tid, dst, uid, now);
    MoveCounts(counts0, t.cid, dst);
    if t.pinned != 0 {
      Relocate(pinned0, t.cid, dst, tid, Some(now));
    } else {
      Relocate(tids0, t.cid, dst, tid, t.lastposttime);
      Relocate(posts0, t.cid, dst, tid, Some(PostCountOrZero(t)));
    }
  }

  /** Topic 7 of category 4 (lastposttime 1000, postcount 5, not pinned) is
      pinned and then unpinned by a moderator of category 4. */
  method PinUnpinExample(modUser: int, now: int) returns (r1: Outcome, r2: Outcome)
    ensures r1 == Ok(PinData(7, true, modUser, 4)) && r2 == Ok(PinData(7, false, modUser, 4))
  {
    var topic := Topic(4, 1, 0, 0, 0, Some(1000), Some(5), None);
    var s := new Tools(map[7 := topic], map[4 := map[7 := Some(1000)]], map[4 := map[7 := Some(5)]],
                       map[], map[4 := 1]);
    var priv := Privileges({}, {}, {(4, modUser)});
    r1 := s.Pin(priv, 7, modUser, now);
    assert 7 in Members(s.pinned, 4) && 7 !in Members(s.tids, 4) && 7 !in Members(s.posts, 4);
    assert s.events == [TopicPin(PinData(7, true, modUser, 4))];
    r2 := s.Unpin(priv, 7, modUser);
    assert Members(s.tids, 4)[7] == Some(1000) && Members(s.posts, 4)[7] == Some(5);
    assert 7 !in Members(s.pinned, 4);
  }

  /** Purging a topic that does not exist succeeds with no payload and
      changes nothing. */
  method PurgeMissingExample(admin: int) returns (r: Outcome)
    ensures r == Done
  {
    var s := new Tools(map[], map[], map[], map[], map[]);
    r := s.Purge(Privileges({}, {(999, admin)}, {}), 999, admin);
    assert s.topics == map[] && s.events == [];
  }
}
