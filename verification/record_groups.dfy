/** List-view bucketing of the records page: every filtered record is
    pushed onto the bucket named by the labelOf of its date, buckets being
    created on first use, so that bucket order is first-seen order. */
module RecordGroups {
  import opened Types

  /** One entry of the page's label-to-records object. */
  datatype Bucket = Bucket(key: string, items: seq<Appointment>)

  function Labels(gs: seq<Bucket>): (ks: seq<string>)
    ensures |ks| == |gs|
    ensures forall i :: 0 <= i < |gs| ==> ks[i] == gs[i].key
  {
    seq(|gs|, i requires 0 <= i < |gs| => gs[i].key)
  }

  predicate Distinct(ks: seq<string>) {
    forall i, j :: 0 <= i < j < |ks| ==> ks[i] != ks[j]
  }

  /** Appends `a` to the bucket named `key`, creating that bucket at the
      end when there is none yet. */
  function Push(gs: seq<Bucket>, key: string, a: Appointment): (r: seq<Bucket>)
    ensures |r| == |gs| || |r| == |gs| + 1
  {
    if |gs| == 0 then [Bucket(key, [a])]
    else if gs[0].key == key then [Bucket(key, gs[0].items + [a])] + gs[1..]
    else [gs[0]] + Push(gs[1..], key, a)
  }

  lemma {:induction false} PushExisting(gs: seq<Bucket>, j: nat, key: string, a: Appointment)
    requires Distinct(Labels(gs))
    requires j < |gs| && gs[j].key == key
    ensures Push(gs, key, a) == gs[j := Bucket(key, gs[j].items + [a])]
  {
    if j > 0 {
      assert gs[0].key != key by {
        assert Labels(gs)[0] != Labels(gs)[j];
      }
      assert Distinct(Labels(gs[1..])) by {
        forall i, k | 0 <= i < k < |gs| - 1
          ensures Labels(gs[1..])[i] != Labels(gs[1..])[k]
        {
          assert Labels(gs)[i + 1] != Labels(gs)[k + 1];
        }
      }
      PushExisting(gs[1..], j - 1, key, a);
    }
  }

  lemma {:induction false} PushFresh(gs: seq<Bucket>, key: string, a: Appointment)
    requires key !in Labels(gs)
    ensures Push(gs, key, a) == gs + [Bucket(key, [a])]
  {
    if |gs| > 0 {
      assert Labels(gs)[0] == gs[0].key;
      assert key !in Labels(gs[1..]) by {
        forall i | 0 <= i < |gs| - 1
          ensures Labels(gs[1..])[i] != key
        {
          assert Labels(gs)[i + 1] == Labels(gs[1..])[i];
        }
      }
      PushFresh(gs[1..], key, a);
    }
  }

  /** The `forEach` that fills the buckets, starting from `gs`. */
  function Collect(gs: seq<Bucket>, appts: seq<Appointment>, labelOf: string -> string): seq<Bucket>
    decreases |appts|
  {
    if |appts| == 0 then gs
    else Collect(Push(gs, labelOf(appts[0].date), appts[0]), appts[1..], labelOf)
  }

  /** Labels of `p`, each once, in the order of the first record carrying it. */
  function FirstSeen(p: seq<Appointment>, labelOf: string -> string): seq<string>
  {
    if |p| == 0 then []
    else
      var ks := FirstSeen(p[..|p| - 1], labelOf);
      var k := labelOf(p[|p| - 1].date);
      if k in ks then ks else ks + [k]
  }

  /** The records of `p` whose date carries label `k`, in list order. */
  function WithLabel(p: seq<Appointment>, labelOf: string -> string, k: string): seq<Appointment>
  {
    if |p| == 0 then []
    else
      WithLabel(p[..|p| - 1], labelOf, k)
      + (if labelOf(p[|p| - 1].date) == k then [p[|p| - 1]] else [])
  }

  /** The bucketing a reader expects: one bucket per first-seen label,
      holding exactly the records with that labelOf. */
  function Expected(p: seq<Appointment>, labelOf: string -> string): seq<Bucket>
  {
    var ks := FirstSeen(p, labelOf);
    seq(|ks|, i requires 0 <= i < |ks| => Bucket(ks[i], WithLabel(p, labelOf, ks[i])))
  }

  lemma {:induction false} FirstSeenMembers(p: seq<Appointment>, labelOf: string -> string, k: string)
    ensures k in FirstSeen(p, labelOf) <==> exists n :: 0 <= n < |p| && labelOf(p[n].date) == k
  {
    if |p| > 0 {
      var q := p[..|p| - 1];
      FirstSeenMembers(q, labelOf, k);
      if exists n :: 0 <= n < |q| && labelOf(q[n].date) == k {
        var n :| 0 <= n < |q| && labelOf(q[n].date) == k;
        assert p[n] == q[n];
      }
      if exists n :: 0 <= n < |p| && labelOf(p[n].date) == k {
        var n :| 0 <= n < |p| && labelOf(p[n].date) == k;
        if n < |q| {
          assert q[n] == p[n];
        }
      }
    }
  }

  lemma {:induction false} FirstSeenDistinct(p: seq<Appointment>, labelOf: string -> string)
    ensures Distinct(FirstSeen(p, labelOf))
  {
    if |p| > 0 {
      FirstSeenDistinct(p[..|p| - 1], labelOf);
    }
  }

  lemma WithLabelAppend(p: seq<Appointment>, x: Appointment, labelOf: string -> string, k: string)
    ensures WithLabel(p + [x], labelOf, k) == WithLabel(p, labelOf, k) + (if labelOf(x.date) == k then [x] else [])
  {
    assert (p + [x])[..|p|] == p;
  }

  lemma FirstSeenAppend(p: seq<Appointment>, x: Appointment, labelOf: string -> string)
    ensures FirstSeen(p + [x], labelOf)
         == (if labelOf(x.date) in FirstSeen(p, labelOf) then FirstSeen(p, labelOf)
             else FirstSeen(p, labelOf) + [labelOf(x.date)])
  {
    assert (p + [x])[..|p|] == p;
  }

  lemma PushStepExisting(p: seq<Appointment>, x: Appointment, labelOf: string -> string, j: nat)
    requires j < |FirstSeen(p, labelOf)| && FirstSeen(p, labelOf)[j] == labelOf(x.date)
    ensures var gs := Expected(p, labelOf);
      gs[j := Bucket(labelOf(x.date), gs[j].items + [x])] == Expected(p + [x], labelOf)
  {
    var ks := FirstSeen(p, labelOf);
    FirstSeenAppend(p, x, labelOf);
    var gs := Expected(p, labelOf);
    var e := Expected(p + [x], labelOf);
    assert |e| == |ks|;
    forall i | 0 <= i < |ks|
      ensures e[i] == gs[j := Bucket(labelOf(x.date), gs[j].items + [x])][i]
    {
      WithLabelAppend(p, x, labelOf, ks[i]);
      FirstSeenDistinct(p, labelOf);
    }
  }

  lemma PushStepFresh(p: seq<Appointment>, x: Appointment, labelOf: string -> string)
    requires labelOf(x.date) !in FirstSeen(p, labelOf)
    ensures Expected(p, labelOf) + [Bucket(labelOf(x.date), [x])] == Expected(p + [x], labelOf)
  {
    var ks := FirstSeen(p, labelOf);
    var k := labelOf(x.date);
    FirstSeenAppend(p, x, labelOf);
    var e := Expected(p + [x], labelOf);
    assert WithLabel(p, labelOf, k) == [] by {
      WithLabelCounts(p, labelOf, k);
      FirstSeenMembers(p, labelOf, k);
    }
    forall i | 0 <= i < |ks| + 1
      ensures e[i] == (Expected(p, labelOf) + [Bucket(k, [x])])[i]
    {
      WithLabelAppend(p, x, labelOf, (ks + [k])[i]);
    }
  }

  /** One push keeps the buckets equal to the expected bucketing. */
  lemma PushStep(p: seq<Appointment>, x: Appointment, labelOf: string -> string)
    ensures Push(Expected(p, labelOf), labelOf(x.date), x) == Expected(p + [x], labelOf)
  {
    var ks := FirstSeen(p, labelOf);
    var k := labelOf(x.date);
    var gs := Expected(p, labelOf);
    FirstSeenDistinct(p, labelOf);
    assert Labels(gs) == ks;
    if k in ks {
      var j :| 0 <= j < |ks| && ks[j] == k;
      PushExisting(gs, j, k, x);
      PushStepExisting(p, x, labelOf, j);
    } else {
      PushFresh(gs, k, x);
      PushStepFresh(p, x, labelOf);
    }
  }

  lemma {:induction false} CollectStep(p: seq<Appointment>, q: seq<Appointment>, labelOf: string -> string)
    ensures Collect(Expected(p, labelOf), q, labelOf) == Expected(p + q, labelOf)
    decreases |q|
  {
    if |q| == 0 {
      assert p + q == p;
    } else {
      PushStep(p, q[0], labelOf);
      CollectStep(p + [q[0]], q[1..], labelOf);
      assert p + [q[0]] + q[1..] == p + q;
    }
  }

  /** `WithLabel` keeps exactly the records of label `k`, with their
      multiplicity. */
  lemma {:induction false} WithLabelCounts(p: seq<Appointment>, labelOf: string -> string, k: string)
    ensures forall a :: multiset(WithLabel(p, labelOf, k))[a]
                        == (if labelOf(a.date) == k then multiset(p)[a] else 0)
  {
    if |p| > 0 {
      var q := p[..|p| - 1];
      WithLabelCounts(q, labelOf, k);
      assert p == q + [p[|p| - 1]];
    }
  }

  /** Every record producing a later key comes after some record producing
      an earlier one. */
  ghost predicate KeysInFirstSeenOrder(p: seq<Appointment>, labelOf: string -> string) {
    var ks := FirstSeen(p, labelOf);
    forall i, j, n :: 0 <= i < j < |ks| && 0 <= n < |p| && labelOf(p[n].date) == ks[j] ==>
      exists m :: 0 <= m < n && labelOf(p[m].date) == ks[i]
  }

  /** Bucket keys follow the first record that produced them: every record
      producing a later key comes after some record producing an earlier one. */
  lemma {:induction false} FirstSeenOrder(p: seq<Appointment>, labelOf: string -> string)
    ensures var ks := FirstSeen(p, labelOf);
      forall i, j, n :: 0 <= i < j < |ks| && 0 <= n < |p| && labelOf(p[n].date) == ks[j] ==>
        exists m :: 0 <= m < n && labelOf(p[m].date) == ks[i]
  {
    if |p| > 0 {
      var q := p[..|p| - 1];
      var ks := FirstSeen(p, labelOf);
      FirstSeenOrder(q, labelOf);
      assert KeysInFirstSeenOrder(q, labelOf);
      forall i, j, n | 0 <= i < j < |ks| && 0 <= n < |p| && labelOf(p[n].date) == ks[j]
        ensures exists m :: 0 <= m < n && labelOf(p[m].date) == ks[i]
      {
        FirstSeenOrderStep(p, labelOf, i, j, n);
      }
    }
  }

  /** One step of `FirstSeenOrder`: the claim for `p` from the claim for
      all of `p` but its last record. */
  lemma FirstSeenOrderStep(p: seq<Appointment>, labelOf: string -> string, i: nat, j: nat, n: nat)
    requires |p| > 0 && KeysInFirstSeenOrder(p[..|p| - 1], labelOf)
    requires var ks := FirstSeen(p, labelOf);
      i < j < |ks| && n < |p| && labelOf(p[n].date) == ks[j]
    ensures exists m :: 0 <= m < n && labelOf(p[m].date) == FirstSeen(p, labelOf)[i]
  {
    var q := p[..|p| - 1];
    var ks' := FirstSeen(q, labelOf);
    var ks := FirstSeen(p, labelOf);
    var k := labelOf(p[|p| - 1].date);
    var m: nat;
    if n < |q| && j < |ks'| {
      // the claim for `q` applies unchanged
      assert ks[i] == ks'[i] && ks[j] == ks'[j];
      assert labelOf(q[n].date) == ks'[j];
      m :| 0 <= m < n && labelOf(q[m].date) == ks'[i];
    } else if n < |q| {
      // a fresh last label is carried by no earlier record
      assert ks == ks' + [k] && ks[j] == k;
      assert q[n] == p[n];
      FirstSeenMembers(q, labelOf, k);
      assert false;
    } else if k in ks' {
      // the last record repeats a label already carried by an earlier one
      assert ks == ks';
      FirstSeenMembers(q, labelOf, ks[j]);
      var n' :| 0 <= n' < |q| && labelOf(q[n'].date) == ks'[j];
      m :| 0 <= m < n' && labelOf(q[m].date) == ks'[i];
    } else {
      assert ks == ks' + [k] && i < |ks'| && ks[i] == ks'[i];
      FirstSeenMembers(q, labelOf, ks'[i]);
      m :| 0 <= m < |q| && labelOf(q[m].date) == ks'[i];
    }
    assert p[m] == q[m];
  }

  /** The page's list-view bucketing: a partition of `appts` by label, one
      bucket per labelOf, in first-seen order, each bucket in list order. */
  function Group(appts: seq<Appointment>, labelOf: string -> string): (r: seq<Bucket>)
    ensures Labels(r) == FirstSeen(appts, labelOf)
    ensures Distinct(Labels(r))
    ensures forall i :: 0 <= i < |r| ==> r[i].items == WithLabel(appts, labelOf, r[i].key)
  {
    CollectStep([], appts, labelOf);
    assert [] + appts == appts;
    FirstSeenDistinct(appts, labelOf);
    Collect([], appts, labelOf)
  }

  /** Every record lands in the one bucket named by its own date's label,
      and in no other. */
  lemma GroupPartition(appts: seq<Appointment>, labelOf: string -> string, a: Appointment)
    requires a in appts
    ensures labelOf(a.date) in Labels(Group(appts, labelOf))
    ensures forall i :: 0 <= i < |Group(appts, labelOf)| ==>
      (a in Group(appts, labelOf)[i].items <==> Group(appts, labelOf)[i].key == labelOf(a.date))
  {
    var r := Group(appts, labelOf);
    var n :| 0 <= n < |appts| && appts[n] == a;
    FirstSeenMembers(appts, labelOf, labelOf(a.date));
    forall i | 0 <= i < |r|
      ensures a in r[i].items <==> r[i].key == labelOf(a.date)
    {
      WithLabelCounts(appts, labelOf, r[i].key);
    }
  }
}
