/** The abstract record and index store that the moderation engine drives:
    topic records, the per-category sorted sets `cid:<c>:tids`,
    `cid:<c>:tids:posts` and `cid:<c>:tids:pinned`, and the per-category
    `topic_count` counters. */
module Store {

  datatype Option<T> = None | Some(value: T)

  /** A sorted-set score. `None` is a score that was read from an absent
      topic field and handed to the store as it was. */
  type Score = Option<int>

  /** A topic record. A `cid` of 0 stands for an absent (falsy) category
      field; `deleted`, `locked` and `pinned` hold the stored integers. */
  datatype Topic = Topic(
    cid: int,
    uid: int,
    deleted: int,
    locked: int,
    pinned: int,
    lastposttime: Option<int>,
    postcount: Option<int>,
    oldCid: Option<int>)

  /** One family of sorted sets, one set per category id: tid |-> score.
      A category with no key holds the empty set. */
  type Family = map<int, map<int, Score>>

  /** The sorted set of category `cid` in family `f`. */
  function Members(f: Family, cid: int): map<int, Score>
  {
    if cid in f then f[cid] else map[]
  }

  /** `db.sortedSetAdd`: insert `tid` with `score`, or overwrite its score. */
  function SortedSetAdd(f: Family, cid: int, tid: int, score: Score): (r: Family)
    ensures Members(r, cid) == Members(f, cid)[tid := score]
    ensures forall c {:trigger Members(r, c)} :: c != cid ==> Members(r, c) == Members(f, c)
  {
    f[cid := Members(f, cid)[tid := score]]
  }

  /** `db.sortedSetRemove`: drop `tid`; removing a non-member is a no-op. */
  function SortedSetRemove(f: Family, cid: int, tid: int): (r: Family)
    ensures Members(r, cid) == Members(f, cid) - {tid}
    ensures tid !in Members(f, cid) ==> r == f
    ensures forall c {:trigger Members(r, c)} :: c != cid ==> Members(r, c) == Members(f, c)
  {
    if tid in Members(f, cid) then f[cid := f[cid] - {tid}] else f
  }

  /** Removing a member and adding it back with the score it had restores the set. */
  lemma AddBackRestores(f: Family, cid: int, tid: int)
    requires tid in Members(f, cid)
    ensures Members(SortedSetAdd(SortedSetRemove(f, cid, tid), cid, tid, Members(f, cid)[tid]), cid)
            == Members(f, cid)
  {
    var m := Members(f, cid);
    var back := Members(SortedSetAdd(SortedSetRemove(f, cid, tid), cid, tid, m[tid]), cid);
    assert back == (m - {tid})[tid := m[tid]];
    assert back.Keys == m.Keys;
  }

  /** Dropping a key and then setting it is the same as setting it. */
  lemma RemoveThenSet(m: map<int, Score>, tid: int, score: Score)
    ensures (m - {tid})[tid := score] == m[tid := score]
  {
    assert ((m - {tid})[tid := score]).Keys == (m[tid := score]).Keys;
  }

  /** Setting a key and then dropping it is the same as dropping it. */
  lemma SetThenRemove(m: map<int, Score>, tid: int, score: Score)
    ensures m[tid := score] - {tid} == m - {tid}
  {
    assert (m[tid := score] - {tid}).Keys == (m - {tid}).Keys;
  }

  /** Removing `tid` from `src`'s set and adding it to `dst`'s with `score`:
      it is in `dst`'s set with that score, gone from `src`'s when the two
      differ, and no other category's set changes. */
  lemma Relocate(f: Family, src: int, dst: int, tid: int, score: Score)
    ensures var r := SortedSetAdd(SortedSetRemove(f, src, tid), dst, tid, score);
            && tid in Members(r, dst) && Members(r, dst)[tid] == score
            && (src != dst ==> Members(r, src) == Members(f, src) - {tid})
            && (forall d :: d != src && d != dst ==> Members(r, d) == Members(f, d))
  {
  }

  /** Moving `tid` out of `src` into `dst` (score `s1`) and back into `src`
      (score `s2`) leaves `src`'s set as it was, with `tid` scored `s2`. */
  lemma DetourRestores(f: Family, src: int, dst: int, tid: int, s1: Score, s2: Score)
    ensures var there := SortedSetAdd(SortedSetRemove(f, src, tid), dst, tid, s1);
            var back := SortedSetAdd(SortedSetRemove(there, dst, tid), src, tid, s2);
            Members(back, src) == Members(f, src)[tid := s2]
  {
    var there := SortedSetAdd(SortedSetRemove(f, src, tid), dst, tid, s1);
    var away := SortedSetRemove(there, dst, tid);
    assert Members(away, src) == Members(f, src) - {tid};
    assert (Members(f, src) - {tid})[tid := s2] == Members(f, src)[tid := s2];
  }

  /** Per-category counters (`topic_count`); an absent field reads as 0. */
  type Counters = map<int, int>

  function Count(m: Counters, cid: int): int
  {
    if cid in m then m[cid] else 0
  }

  /** `incrementCategoryFieldBy(cid, 'topic_count', delta)`. */
  function IncrementBy(m: Counters, cid: int, delta: int): (r: Counters)
    ensures Count(r, cid) == Count(m, cid) + delta
    ensures forall c :: c != cid ==> Count(r, c) == Count(m, c)
  {
    m[cid := Count(m, cid) + delta]
  }

  /** A move out of `src` to `dst` and back leaves both counters as they were. */
  lemma DetourCounts(m: Counters, src: int, dst: int)
    ensures var there := IncrementBy(IncrementBy(m, src, -1), dst, 1);
            var back := IncrementBy(IncrementBy(there, dst, -1), src, 1);
            Count(back, src) == Count(m, src) && Count(back, dst) == Count(m, dst)
  {
  }

  /** A move from `src` to `dst` takes one from `src`'s count and adds one to
      `dst`'s; when the two are the same category its count is unchanged. */
  lemma MoveCounts(m: Counters, src: int, dst: int)
    ensures var r := IncrementBy(IncrementBy(m, src, -1), dst, 1);
            forall d :: Count(r, d) == Count(m, d) - (if d == src then 1 else 0) + (if d == dst then 1 else 0)
  {
  }
}
