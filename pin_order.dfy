/** The pure parts of `orderPinnedTopics`: the single-category check over the
    resolved category ids, and the score rewrite its series loop performs. */
module PinOrder {
  import opened Store

  /** One element of the request: a topic id and its new pin rank. */
  datatype PinEntry = PinEntry(tid: int, order: int)

  /** `_.unique`: the distinct values of `s`, each at its first occurrence. */
  function Unique(s: seq<int>): (r: seq<int>)
    ensures forall x :: x in r <==> x in s
    ensures forall i, j :: 0 <= i < j < |r| ==> r[i] != r[j]
    ensures |s| > 0 ==> |r| > 0 && r[0] == s[0]
    decreases |s|
  {
    if |s| == 0 then []
    else
      var u := Unique(s[..|s| - 1]);
      if s[|s| - 1] in u then u else u + [s[|s| - 1]]
  }

  /** The category the request names: the one value all resolved ids share,
      rejected when there is no value, more than one, or it is 0 (falsy). */
  function SingleCid(cids: seq<int>): (r: Option<int>)
    ensures r.Some? <==> |cids| > 0 && cids[0] != 0 && forall i :: 0 <= i < |cids| ==> cids[i] == cids[0]
    ensures r.Some? ==> r.value == cids[0]
  {
    var u := Unique(cids);
    assert |u| > 1 ==> u[1] in cids;
    if |u| > 1 || |u| == 0 || u[0] == 0 then None
    else
      assert forall i :: 0 <= i < |cids| ==> cids[i] in u;
      Some(u[0])
  }

  /** A request whose topics resolve to two different categories is rejected. */
  lemma MixedCategoriesRejected(cids: seq<int>, i: int, j: int)
    requires 0 <= i < |cids| && 0 <= j < |cids| && cids[i] != cids[j]
    ensures SingleCid(cids) == None
  {
  }

  /** The score rewrite of the series loop over `data`, applied to one pinned
      set: an entry whose tid is a member gets its `order` as score, any
      other entry is skipped. */
  function ApplyOrder(m: map<int, Score>, data: seq<PinEntry>): (r: map<int, Score>)
    ensures r.Keys == m.Keys
    decreases |data|
  {
    if |data| == 0 then m
    else
      var prev := ApplyOrder(m, data[..|data| - 1]);
      var e := data[|data| - 1];
      if e.tid in prev then prev[e.tid := Some(e.order)] else prev
  }

  /** The rank the last entry naming `tid` asks for, if any entry does. */
  function LastOrder(data: seq<PinEntry>, tid: int): Option<int>
    decreases |data|
  {
    if |data| == 0 then None
    else if data[|data| - 1].tid == tid then Some(data[|data| - 1].order)
    else LastOrder(data[..|data| - 1], tid)
  }

  /** After the rewrite a pinned topic's score is the rank of the last entry
      naming it, or its old score when no entry names it. */
  lemma {:induction false} ApplyOrderScore(m: map<int, Score>, data: seq<PinEntry>, tid: int)
    requires tid in m
    ensures ApplyOrder(m, data)[tid] == if LastOrder(data, tid).Some? then LastOrder(data, tid) else m[tid]
    decreases |data|
  {
    if |data| > 0 {
      ApplyOrderScore(m, data[..|data| - 1], tid);
    }
  }

  /** No entry names `tid`, so the rewrite leaves its score alone. */
  lemma {:induction false} LastOrderAbsent(data: seq<PinEntry>, tid: int)
    requires forall i :: 0 <= i < |data| ==> data[i].tid != tid
    ensures LastOrder(data, tid) == None
    decreases |data|
  {
    if |data| > 0 {
      LastOrderAbsent(data[..|data| - 1], tid);
    }
  }
}
