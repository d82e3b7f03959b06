/** Membership exclusivity of a topic's index entries: a topic
    is in its own category's pinned set exactly when its `pinned` flag is
    set, in that category's active pair (`tids` and `tids:posts`) exactly
    when it is not, and in no set of any other category. The lemmas say how
    pin, unpin and move establish it and leave it alone for other topics. */
module Placement {
  import opened Store

  /** `tid` is a topic and sits in no index set of another category. */
  ghost predicate NoStrayIn(topics: map<int, Topic>, tids: Family, posts: Family, pinned: Family, tid: int)
  {
    tid in topics &&
    forall c :: c != topics[tid].cid ==>
      tid !in Members(tids, c) && tid !in Members(posts, c) && tid !in Members(pinned, c)
  }

  ghost predicate PlacedIn(topics: map<int, Topic>, tids: Family, posts: Family, pinned: Family, tid: int)
  {
    NoStrayIn(topics, tids, posts, pinned, tid) &&
    var t := topics[tid];
    (tid in Members(pinned, t.cid) <==> t.pinned != 0) &&
    (tid in Members(tids, t.cid) <==> t.pinned == 0) &&
    (tid in Members(posts, t.cid) <==> t.pinned == 0)
  }

  /** `x` is in the same sets of every category in both states. */
  ghost predicate SameMembership(a: Family, b: Family, x: int)
  {
    forall c :: x in Members(a, c) <==> x in Members(b, c)
  }

  /** Pinning a topic that has no stray entries places it. */
  lemma PinPlaces(topics: map<int, Topic>, tids: Family, posts: Family, pinned: Family, tid: int, now: int)
    requires NoStrayIn(topics, tids, posts, pinned, tid)
    ensures var t := topics[tid];
            PlacedIn(topics[tid := t.(pinned := 1)],
                     SortedSetRemove(tids, t.cid, tid), SortedSetRemove(posts, t.cid, tid),
                     SortedSetAdd(pinned, t.cid, tid, Some(now)), tid)
  {
  }

  /** Unpinning a topic that has no stray entries places it, whatever the scores. */
  lemma UnpinPlaces(topics: map<int, Topic>, tids: Family, posts: Family, pinned: Family, tid: int,
                    lastposttime: Score, postcount: Score)
    requires NoStrayIn(topics, tids, posts, pinned, tid)
    ensures var t := topics[tid];
            PlacedIn(topics[tid := t.(pinned := 0)],
                     SortedSetAdd(tids, t.cid, tid, lastposttime), SortedSetAdd(posts, t.cid, tid, postcount),
                     SortedSetRemove(pinned, t.cid, tid), tid)
  {
  }

  /** Moving a pinned topic with no stray entries to `cid` places it there. */
  lemma MovePinnedPlaces(topics: map<int, Topic>, tids: Family, posts: Family, pinned: Family, tid: int,
                         cid: int, pinScore: Score)
    requires NoStrayIn(topics, tids, posts, pinned, tid) && topics[tid].pinned != 0
    ensures var t := topics[tid];
            PlacedIn(topics[tid := t.(cid := cid, oldCid := Some(t.cid))],
                     SortedSetRemove(tids, t.cid, tid), SortedSetRemove(posts, t.cid, tid),
                     SortedSetAdd(SortedSetRemove(pinned, t.cid, tid), cid, tid, pinScore), tid)
  {
  }

  /** Moving an unpinned topic with no stray entries to `cid` places it there. */
  lemma MoveUnpinnedPlaces(topics: map<int, Topic>, tids: Family, posts: Family, pinned: Family, tid: int,
                           cid: int, lastposttime: Score, postcount: Score)
    requires NoStrayIn(topics, tids, posts, pinned, tid) && topics[tid].pinned == 0
    ensures var t := topics[tid];
            PlacedIn(topics[tid := t.(cid := cid, oldCid := Some(t.cid))],
                     SortedSetAdd(SortedSetRemove(tids, t.cid, tid), cid, tid, lastposttime),
                     SortedSetAdd(SortedSetRemove(posts, t.cid, tid), cid, tid, postcount),
                     SortedSetRemove(pinned, t.cid, tid), tid)
  {
  }

  /** Placement of `x` depends only on its record and its memberships. */
  lemma OtherStaysPlaced(topics: map<int, Topic>, tids: Family, posts: Family, pinned: Family,
                         topics': map<int, Topic>, tids': Family, posts': Family, pinned': Family, x: int)
    requires PlacedIn(topics, tids, posts, pinned, x)
    requires x in topics' && topics'[x].cid == topics[x].cid && topics'[x].pinned == topics[x].pinned
    requires SameMembership(tids, tids', x) && SameMembership(posts, posts', x)
    requires SameMembership(pinned, pinned', x)
    ensures PlacedIn(topics', tids', posts', pinned', x)
  {
  }

  /** Adding or removing `tid` leaves every other topic's memberships alone. */
  lemma AddKeepsOthers(f: Family, cid: int, tid: int, score: Score, x: int)
    requires x != tid
    ensures SameMembership(f, SortedSetAdd(f, cid, tid, score), x)
  {
  }

  lemma RemoveKeepsOthers(f: Family, cid: int, tid: int, x: int)
    requires x != tid
    ensures SameMembership(f, SortedSetRemove(f, cid, tid), x)
  {
  }

  /** Moving `tid` out of its category's sets and into `cid`'s leaves every
      other topic's placement alone. */
  lemma MoveKeepsOthers(topics: map<int, Topic>, tids: Family, posts: Family, pinned: Family, tid: int,
                        cid: int, pinScore: Score, lastposttime: Score, postcount: Score, x: int)
    requires tid in topics && x != tid && PlacedIn(topics, tids, posts, pinned, x)
    ensures var t := topics[tid];
            var topics' := topics[tid := t.(cid := cid, oldCid := Some(t.cid))];
            if t.pinned != 0 then
              PlacedIn(topics', SortedSetRemove(tids, t.cid, tid), SortedSetRemove(posts, t.cid, tid),
                       SortedSetAdd(SortedSetRemove(pinned, t.cid, tid), cid, tid, pinScore), x)
            else
              PlacedIn(topics', SortedSetAdd(SortedSetRemove(tids, t.cid, tid), cid, tid, lastposttime),
                       SortedSetAdd(SortedSetRemove(posts, t.cid, tid), cid, tid, postcount),
                       SortedSetRemove(pinned, t.cid, tid), x)
  {
    var t := topics[tid];
    var topics' := topics[tid := t.(cid := cid, oldCid := Some(t.cid))];
    var tids1, posts1, pinned1 := SortedSetRemove(tids, t.cid, tid), SortedSetRemove(posts, t.cid, tid),
                                  SortedSetRemove(pinned, t.cid, tid);
    RemoveKeepsOthers(tids, t.cid, tid, x);
    RemoveKeepsOthers(posts, t.cid, tid, x);
    RemoveKeepsOthers(pinned, t.cid, tid, x);
    if t.pinned != 0 {
      AddKeepsOthers(pinned1, cid, tid, pinScore, x);
      OtherStaysPlaced(topics, tids, posts, pinned,
                       topics', tids1, posts1, SortedSetAdd(pinned1, cid, tid, pinScore), x);
    } else {
      AddKeepsOthers(tids1, cid, tid, lastposttime, x);
      AddKeepsOthers(posts1, cid, tid, postcount, x);
      OtherStaysPlaced(topics, tids, posts, pinned,
                       topics', SortedSetAdd(tids1, cid, tid, lastposttime),
                       SortedSetAdd(posts1, cid, tid, postcount), pinned1, x);
    }
  }
}
