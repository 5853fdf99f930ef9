/**
 * `judgmentsByQid`: the judgments grouped into one list per qid, each list in input order.
 * The method is proved against `Buckets`, the map from every qid present to the in-order
 * subsequence of the judgments for it.
 */
module Grouping {
  import opened Ranklib

  /** The qids of the judgments. */
  function Qids(js: seq<Judgment>): set<nat>
  {
    set i | 0 <= i < |js| :: js[i].qid
  }

  /** The judgments for query `q`, in input order. */
  function Bucket(js: seq<Judgment>, q: nat): seq<Judgment>
  {
    if js == [] then []
    else Bucket(js[..|js| - 1], q) + if js[|js| - 1].qid == q then [js[|js| - 1]] else []
  }

  /** What `judgmentsByQid` returns for `js`. */
  function Buckets(js: seq<Judgment>): map<nat, seq<Judgment>>
  {
    map q | q in Qids(js) :: Bucket(js, q)
  }

  /** The positions in `js` of the judgments for query `q`, in increasing order. */
  function Positions(js: seq<Judgment>, q: nat): (idx: seq<nat>)
    ensures forall k :: 0 <= k < |idx| ==> idx[k] < |js| && js[idx[k]].qid == q
    ensures forall k, l :: 0 <= k < l < |idx| ==> idx[k] < idx[l]
    ensures forall i :: 0 <= i < |js| && js[i].qid == q ==> i in idx
  {
    if js == [] then []
    else
      var init := js[..|js| - 1];
      var p := Positions(init, q);
      assert forall k :: 0 <= k < |p| ==> js[p[k]] == init[p[k]];
      p + if js[|js| - 1].qid == q then [|js| - 1] else []
  }

  /**
   * A bucket is the subsequence of the judgments at the positions of its qid: it holds
   * every judgment for that qid, no other, in input order.
   */
  lemma {:induction false} BucketAtPositions(js: seq<Judgment>, q: nat)
    ensures |Bucket(js, q)| == |Positions(js, q)|
    ensures forall k :: 0 <= k < |Bucket(js, q)| ==> Bucket(js, q)[k] == js[Positions(js, q)[k]]
  {
    if js != [] {
      var init := js[..|js| - 1];
      BucketAtPositions(init, q);
      var p := Positions(init, q);
      assert forall k :: 0 <= k < |p| ==> js[p[k]] == init[p[k]];
    }
  }

  /** Every judgment in the bucket of `q` is for `q`, and every judgment for `q` is in it. */
  lemma {:induction false} BucketMembers(js: seq<Judgment>, q: nat)
    ensures forall x :: x in Bucket(js, q) <==> x in js && x.qid == q
  {
    if js != [] {
      var init := js[..|js| - 1];
      BucketMembers(init, q);
      assert js == init + [js[|js| - 1]];
    }
  }

  /** The sum of the lengths of the lists of a map. */
  ghost function SizeSum<V>(m: map<nat, seq<V>>): nat
    decreases |m|
  {
    if m == map[] then 0
    else
      var k :| k in m;
      |m[k]| + SizeSum(m - {k})
  }

  /** The sum can be taken out at any key. */
  lemma {:induction false} SizeSumAt<V>(m: map<nat, seq<V>>, k: nat)
    requires k in m
    ensures SizeSum(m) == |m[k]| + SizeSum(m - {k})
    decreases |m|
  {
    var k' :| k' in m && SizeSum(m) == |m[k']| + SizeSum(m - {k'});
    if k' != k {
      assert (m - {k'}) - {k} == (m - {k}) - {k'};
      SizeSumAt(m - {k'}, k);
      SizeSumAt(m - {k}, k');
    }
  }

  lemma SizeSumUpdate<V>(m: map<nat, seq<V>>, k: nat, v: seq<V>)
    ensures SizeSum(m[k := v]) == SizeSum(m) + |v| - if k in m then |m[k]| else 0
  {
    SizeSumAt(m[k := v], k);
    assert m[k := v] - {k} == m - {k};
    if k in m {
      SizeSumAt(m, k);
    } else {
      assert m - {k} == m;
    }
  }

  /** A qid no judgment has gets an empty bucket. */
  lemma {:induction false} BucketAbsent(js: seq<Judgment>, q: nat)
    requires q !in Qids(js)
    ensures Bucket(js, q) == []
  {
    if js != [] {
      var init := js[..|js| - 1];
      assert Qids(init) <= Qids(js) by {
        assert forall k :: 0 <= k < |init| ==> init[k] == js[k];
      }
      assert js[|js| - 1].qid in Qids(js);
      BucketAbsent(init, q);
    }
  }

  /** One more judgment goes to the end of the bucket of its qid, which it creates if need be. */
  lemma BucketsSnoc(js: seq<Judgment>, i: nat)
    requires i < |js|
    ensures Buckets(js[..i + 1]) == Buckets(js[..i])[js[i].qid :=
      if js[i].qid in Buckets(js[..i]) then Buckets(js[..i])[js[i].qid] + [js[i]] else [js[i]]]
  {
    assert js[..i + 1] == js[..i] + [js[i]];
    BucketsAppendOne(js[..i], js[i]);
    if js[i].qid !in Qids(js[..i]) {
      BucketAbsent(js[..i], js[i].qid);
      assert Bucket(js[..i], js[i].qid) + [js[i]] == [js[i]];
    } else {
      assert Buckets(js[..i])[js[i].qid] == Bucket(js[..i], js[i].qid);
    }
  }

  lemma BucketsAppendOne(pre: seq<Judgment>, x: Judgment)
    ensures Buckets(pre + [x]) == Buckets(pre)[x.qid := Bucket(pre, x.qid) + [x]]
  {
    QidsSnoc(pre, x);
    var target := Buckets(pre)[x.qid := Bucket(pre, x.qid) + [x]];
    forall q | q in Qids(pre + [x])
      ensures Buckets(pre + [x])[q] == target[q]
    {
      BucketSnoc(pre, x, q);
    }
  }

  lemma QidsSnoc(js: seq<Judgment>, x: Judgment)
    ensures Qids(js + [x]) == Qids(js) + {x.qid}
  {
    var post := js + [x];
    assert forall k :: 0 <= k < |js| ==> post[k] == js[k];
    assert post[|js|] == x;
  }

  lemma BucketSnoc(js: seq<Judgment>, x: Judgment, q: nat)
    ensures Bucket(js + [x], q) == Bucket(js, q) + if x.qid == q then [x] else []
  {
    assert (js + [x])[..|js|] == js;
  }

  /** The bucket lengths add up to the number of judgments: every judgment is in one bucket. */
  lemma {:induction false} BucketsSize(js: seq<Judgment>)
    ensures SizeSum(Buckets(js)) == |js|
    decreases |js|
  {
    if js == [] {
      assert Buckets(js) == map[];
    } else {
      var i := |js| - 1;
      assert js[..i + 1] == js;
      BucketsSize(js[..i]);
      BucketsSnoc(js, i);
      var m := Buckets(js[..i]);
      var q := js[i].qid;
      SizeSumUpdate(m, q, if q in m then m[q] + [js[i]] else [js[i]]);
    }
  }

  /**
   * `judgmentsByQid(judgments)`: appends each judgment to the list of its qid, starting the
   * list on the KeyError of the first one.
   */
  method JudgmentsByQid(judgments: seq<Judgment>) returns (rVal: map<nat, seq<Judgment>>)
    ensures rVal.Keys == Qids(judgments)
    ensures forall q :: q in rVal ==> rVal[q] == Bucket(judgments, q)
    ensures SizeSum(rVal) == |judgments|
  {
    rVal := map[];
    for i := 0 to |judgments|
      invariant rVal == Buckets(judgments[..i])
    {
      var judgment := judgments[i];
      if judgment.qid in rVal {
        rVal := rVal[judgment.qid := rVal[judgment.qid] + [judgment]];
      } else {
        rVal := rVal[judgment.qid := [judgment]];
      }
      BucketsSnoc(judgments, i);
    }
    assert judgments[..|judgments|] == judgments;
    BucketsSize(judgments);
  }

  /** qids 1, 2, 1, 3, 1: three buckets, the one for qid 1 holding the first, third and fifth. */
  lemma GroupingExample(js: seq<Judgment>)
    requires |js| == 5
    requires js[0].qid == 1 && js[1].qid == 2 && js[2].qid == 1 && js[3].qid == 3 && js[4].qid == 1
    ensures Qids(js) == {1, 2, 3}
    ensures Bucket(js, 1) == [js[0], js[2], js[4]]
    ensures Bucket(js, 2) == [js[1]] && Bucket(js, 3) == [js[3]]
  {
    BucketOfFive(js, 1);
    BucketOfFive(js, 2);
    BucketOfFive(js, 3);
    assert Qids(js) == {1, 2, 3} by {
      assert js[0].qid in Qids(js) && js[1].qid in Qids(js) && js[3].qid in Qids(js);
    }
  }

  function Single(x: Judgment, q: nat): seq<Judgment>
  {
    if x.qid == q then [x] else []
  }

  lemma BucketOfFive(js: seq<Judgment>, q: nat)
    requires |js| == 5
    ensures Bucket(js, q)
            == Single(js[0], q) + Single(js[1], q) + Single(js[2], q) + Single(js[3], q) + Single(js[4], q)
  {
    assert js == [js[0]] + [js[1]] + [js[2]] + [js[3]] + [js[4]];
    BucketSnoc([], js[0], q);
    assert [] + [js[0]] == [js[0]];
    BucketSnoc([js[0]], js[1], q);
    BucketSnoc([js[0]] + [js[1]], js[2], q);
    BucketSnoc([js[0]] + [js[1]] + [js[2]], js[3], q);
    BucketSnoc([js[0]] + [js[1]] + [js[2]] + [js[3]], js[4], q);
  }
}
