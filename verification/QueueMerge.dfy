/** What becomes of three queues that are walked one after the other while elements move
    between them: facts about sequences only. */
module QueueMerge {
  import opened Lists

  // A queue when the first i elements of queue q have been looked at. e: those that belong
  // to the queue; near: the queue is among those that q exchanges elements with; same: the
  // queue is q itself.
  function SoFar<T(==)>(queue: seq<T>, q: seq<T>, i: nat, e: set<T>, near: bool, same: bool): seq<T>
    requires i <= |q|
  {
    if !near then queue
    else if same then Filter(q[..i], e) + q[i..]
    else queue + Filter(q[..i], e)
  }

  // What walking the whole of q makes of a queue.
  function Walked<T(==)>(queue: seq<T>, q: seq<T>, e: set<T>, near: bool, same: bool): seq<T> {
    if !near then queue else if same then Filter(q, e) else queue + Filter(q, e)
  }

  lemma SoFarStart<T>(queue: seq<T>, q: seq<T>, e: set<T>, near: bool, same: bool)
    requires near && same ==> queue == q
    ensures SoFar(queue, q, 0, e, near, same) == queue
  {
    assert Filter(q[..0], e) == [];
  }

  lemma SoFarEnd<T>(queue: seq<T>, q: seq<T>, e: set<T>, near: bool, same: bool)
    ensures SoFar(queue, q, |q|, e, near, same) == Walked(queue, q, e, near, same)
  {
    assert q[..|q|] == q;
  }

  // One element is looked at: it leaves q for the tail of the queue it belongs to.
  lemma SoFarNext<T>(cur: seq<T>, next: seq<T>, queue: seq<T>, q: seq<T>, i: nat, e: set<T>, near: bool, same: bool,
                     moved: bool, here: bool)
    requires i < |q| && cur == SoFar(queue, q, i, e, near, same)
    requires next == if moved then Remove(cur, q[i]) + (if here then [q[i]] else []) else cur
    requires near && same ==> q[i] !in q[..i] && (moved <==> q[i] !in e) && (moved ==> !here)
    requires !(near && same) ==> Remove(cur, q[i]) == cur
    requires near && !same ==> (moved && here <==> q[i] in e)
    requires !near ==> !here
    ensures next == SoFar(queue, q, i + 1, e, near, same)
  {
    hide Filter, Remove;
    if near && same {
      OwnNext(q, i, e);
    } else {
      FilterNext(q, e, i);
      assert queue + Filter(q[..i], e) + [] == queue + Filter(q[..i], e);
      assert cur + [] == cur;
    }
  }

  // The queue walked itself keeps the element or loses it.
  lemma OwnNext<T>(q: seq<T>, i: nat, e: set<T>)
    requires i < |q| && q[i] !in q[..i]
    ensures var cur := Filter(q[..i], e) + q[i..];
      Filter(q[..i + 1], e) + q[i + 1..] == if q[i] in e then cur else Remove(cur, q[i])
    ensures var cur := Filter(q[..i], e) + q[i..];
      Remove(cur, q[i]) + [] == Remove(cur, q[i])
  {
    hide Filter, Remove;
    var f := Filter(q[..i], e);
    FilterNext(q, e, i);
    FilterMembers(q[..i], e);
    assert q[i..] == [q[i]] + q[i + 1..];
    assert f + q[i..] == f + [q[i]] + q[i + 1..];
    if q[i] !in e {
      RemoveMiddle(f, q[i], q[i + 1..]);
    }
  }

  // Queue b once the first k queues have been walked, one after the other. bs[b]: the
  // elements that belong to queue b.
  function Stage<T(==)>(qs: seq<seq<T>>, bs: seq<set<T>>, k: nat, b: nat): seq<T>
    requires k <= 3 && b < 3 && |qs| == |bs| == 3
  {
    if k == 0 then qs[b]
    else Walked(Stage(qs, bs, k - 1, b), Stage(qs, bs, k - 1, k - 1), bs[b], true, b == k - 1)
  }

  // Those of a queue that belong there, in order, and then those that come from the others,
  // in the order in which they are met.
  function Merged<T(==)>(qs: seq<seq<T>>, e: set<T>, b: nat): seq<T>
    requires |qs| == 3 && b < 3
  {
    Filter(qs[b], e)
    + (if b == 0 then Filter(qs[1], e) + Filter(qs[2], e)
       else if b == 1 then Filter(qs[0], e) + Filter(qs[2], e)
       else Filter(qs[0], e) + Filter(qs[1], e))
  }

  lemma {:induction false} FilterTwice<T>(s: seq<T>, d: set<T>, e: set<T>)
    ensures d == e ==> Filter(Filter(s, d), e) == Filter(s, d)
    ensures d !! e ==> Filter(Filter(s, d), e) == []
  {
    if s != [] {
      FilterTwice(s[1..], d, e);
      var f := Filter(s[1..], d);
      if s[0] in d {
        assert Filter(s, d) == [s[0]] + f && ([s[0]] + f)[1..] == f;
      } else {
        assert Filter(s, d) == f;
      }
    }
  }

  // Elements that have been moved are not moved again.
  lemma AllWalked<T>(qs: seq<seq<T>>, bs: seq<set<T>>, b: nat)
    requires b < 3 && |qs| == |bs| == 3 && bs[0] !! bs[1] !! bs[2]
    ensures Stage(qs, bs, 3, b) == Merged(qs, bs[b], b)
  {
    hide Filter, Merged;
    StageOne(qs, bs);
    StageTwo(qs, bs);
    StageThree(qs, bs);
    MergedIs(qs, bs, b);
  }

  lemma StageStep<T>(qs: seq<seq<T>>, bs: seq<set<T>>, k: nat, b: nat)
    requires |qs| == |bs| == 3 && k < 3 && b < 3
    ensures Stage(qs, bs, 0, b) == qs[b]
    ensures Stage(qs, bs, k + 1, b) ==
      if b == k then Filter(Stage(qs, bs, k, k), bs[b]) else Stage(qs, bs, k, b) + Filter(Stage(qs, bs, k, k), bs[b])
  {
  }

  lemma StageOne<T>(qs: seq<seq<T>>, bs: seq<set<T>>)
    requires |qs| == |bs| == 3
    ensures Stage(qs, bs, 1, 0) == Filter(qs[0], bs[0])
    ensures Stage(qs, bs, 1, 1) == qs[1] + Filter(qs[0], bs[1])
    ensures Stage(qs, bs, 1, 2) == qs[2] + Filter(qs[0], bs[2])
  {
    hide Filter, Stage;
    StageStep(qs, bs, 0, 0);
    StageStep(qs, bs, 0, 1);
    StageStep(qs, bs, 0, 2);
  }

  lemma StageTwo<T>(qs: seq<seq<T>>, bs: seq<set<T>>)
    requires |qs| == |bs| == 3 && bs[0] !! bs[1] !! bs[2]
    ensures Stage(qs, bs, 2, 0) == Filter(qs[0], bs[0]) + Filter(qs[1], bs[0])
    ensures Stage(qs, bs, 2, 1) == Filter(qs[1], bs[1]) + Filter(qs[0], bs[1])
    ensures Stage(qs, bs, 2, 2) == qs[2] + Filter(qs[0], bs[2]) + Filter(qs[1], bs[2])
  {
    hide Filter, Stage;
    StageOne(qs, bs);
    StageStep(qs, bs, 1, 0);
    StageStep(qs, bs, 1, 1);
    StageStep(qs, bs, 1, 2);
    Sifted(qs[1], qs[0], bs[1], bs[0]);
    Sifted(qs[1], qs[0], bs[1], bs[1]);
    Sifted(qs[1], qs[0], bs[1], bs[2]);
  }

  lemma StageThree<T>(qs: seq<seq<T>>, bs: seq<set<T>>)
    requires |qs| == |bs| == 3 && bs[0] !! bs[1] !! bs[2]
    ensures Stage(qs, bs, 3, 0) == Filter(qs[0], bs[0]) + Filter(qs[1], bs[0]) + Filter(qs[2], bs[0])
    ensures Stage(qs, bs, 3, 1) == Filter(qs[1], bs[1]) + Filter(qs[0], bs[1]) + Filter(qs[2], bs[1])
    ensures Stage(qs, bs, 3, 2) == Filter(qs[2], bs[2]) + Filter(qs[0], bs[2]) + Filter(qs[1], bs[2])
  {
    hide Filter, Stage;
    StageTwo(qs, bs);
    StageStep(qs, bs, 2, 0);
    StageStep(qs, bs, 2, 1);
    StageStep(qs, bs, 2, 2);
    SiftedTwo(qs[2], qs[0], qs[1], bs[2], bs[0]);
    SiftedTwo(qs[2], qs[0], qs[1], bs[2], bs[1]);
    SiftedTwo(qs[2], qs[0], qs[1], bs[2], bs[2]);
  }

  // A queue with arrivals of set d, as seen by set e.
  lemma Sifted<T>(s: seq<T>, a: seq<T>, d: set<T>, e: set<T>)
    ensures d == e ==> Filter(s + Filter(a, d), e) == Filter(s, e) + Filter(a, d)
    ensures d !! e ==> Filter(s + Filter(a, d), e) == Filter(s, e)
  {
    FilterAppend(s, Filter(a, d), e);
    FilterTwice(a, d, e);
  }

  lemma SiftedTwo<T>(s: seq<T>, a: seq<T>, b: seq<T>, d: set<T>, e: set<T>)
    ensures d == e ==> Filter(s + Filter(a, d) + Filter(b, d), e) == Filter(s, e) + Filter(a, d) + Filter(b, d)
    ensures d !! e ==> Filter(s + Filter(a, d) + Filter(b, d), e) == Filter(s, e)
  {
    hide Filter;
    Sifted(s + Filter(a, d), b, d, e);
    Sifted(s, a, d, e);
  }

  lemma MergedIs<T>(qs: seq<seq<T>>, bs: seq<set<T>>, b: nat)
    requires |qs| == |bs| == 3 && b < 3
    ensures b == 0 ==> Merged(qs, bs[b], b) == Filter(qs[0], bs[0]) + Filter(qs[1], bs[0]) + Filter(qs[2], bs[0])
    ensures b == 1 ==> Merged(qs, bs[b], b) == Filter(qs[1], bs[1]) + Filter(qs[0], bs[1]) + Filter(qs[2], bs[1])
    ensures b == 2 ==> Merged(qs, bs[b], b) == Filter(qs[2], bs[2]) + Filter(qs[0], bs[2]) + Filter(qs[1], bs[2])
  {
    hide Filter;
  }
}
