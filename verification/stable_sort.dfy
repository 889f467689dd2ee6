/** The two record sorts of the records page, as the stable sort that
    `Array.prototype.sort` is required to be: the list view orders each
    bucket by date and then time, the calendar view orders by time. */
module StableSort {
  import opened Types
  import opened JsString

  /** The comparator passed to `sort`. */
  datatype Order = ByDateTime | ByTime

  /** The comparator does not put `b` strictly ahead of `a`. */
  predicate Before(o: Order, a: Appointment, b: Appointment) {
    match o
    case ByTime => StrLe(a.time, b.time)
    case ByDateTime =>
      || (a.date != b.date && StrLe(a.date, b.date))
      || (a.date == b.date && StrLe(a.time, b.time))
  }

  /** The comparator returns 0: the sort key of `a` and `b` is the same. */
  predicate SameKey(o: Order, a: Appointment, b: Appointment) {
    match o
    case ByTime => a.time == b.time
    case ByDateTime => a.date == b.date && a.time == b.time
  }

  lemma BeforeTotal(o: Order, a: Appointment, b: Appointment)
    ensures Before(o, a, b) || Before(o, b, a)
  {
    StrLeTotal(a.date, b.date);
    StrLeTotal(a.time, b.time);
  }

  lemma BeforeTransitive(o: Order, a: Appointment, b: Appointment, c: Appointment)
    requires Before(o, a, b) && Before(o, b, c)
    ensures Before(o, a, c)
  {
    match o
    case ByTime =>
      StrLeTransitive(a.time, b.time, c.time);
    case ByDateTime =>
      if a.date == b.date && b.date == c.date {
        StrLeTransitive(a.time, b.time, c.time);
      } else {
        StrLeReflexive(b.date);
        StrLeTransitive(a.date, b.date, c.date);
        if a.date == c.date {
          StrLeAntisymmetric(a.date, b.date);
        }
      }
  }

  /** Comparing both ways gives 0 exactly when the keys coincide. */
  lemma BeforeBothWays(o: Order, a: Appointment, b: Appointment)
    ensures Before(o, a, b) && Before(o, b, a) <==> SameKey(o, a, b)
  {
    StrLeReflexive(a.time);
    StrLeReflexive(a.date);
    if Before(o, a, b) && Before(o, b, a) {
      if o.ByTime? || a.date == b.date {
        StrLeAntisymmetric(a.time, b.time);
      } else {
        StrLeAntisymmetric(a.date, b.date);
      }
    }
  }

  predicate Sorted(o: Order, s: seq<Appointment>) {
    forall i, j :: 0 <= i < j < |s| ==> Before(o, s[i], s[j])
  }

  /** Inserts `x` ahead of the first element it may precede. */
  function Insert(o: Order, x: Appointment, s: seq<Appointment>): (r: seq<Appointment>)
    ensures multiset(r) == multiset(s) + multiset{x}
  {
    if |s| == 0 then [x]
    else if Before(o, x, s[0]) then [x] + s
    else
      assert s == [s[0]] + s[1..];
      [s[0]] + Insert(o, x, s[1..])
  }

  /** Inserting into an ordered sequence keeps it ordered. */
  lemma {:induction false} InsertSorted(o: Order, x: Appointment, s: seq<Appointment>)
    requires Sorted(o, s)
    ensures Sorted(o, Insert(o, x, s))
  {
    if |s| == 0 {
    } else if Before(o, x, s[0]) {
      PrependSorted(o, x, s);
    } else {
      assert Sorted(o, s[1..]);
      InsertSorted(o, x, s[1..]);
      BeforeTotal(o, x, s[0]);
      HeadBeforeInserted(o, x, s);
      PrependSorted(o, s[0], Insert(o, x, s[1..]));
    }
  }

  /** An element ahead of the first of an ordered sequence extends it. */
  lemma PrependSorted(o: Order, x: Appointment, s: seq<Appointment>)
    requires Sorted(o, s)
    requires |s| == 0 || Before(o, x, s[0])
    ensures Sorted(o, [x] + s)
  {
    var r := [x] + s;
    forall i, j | 0 <= i < j < |r|
      ensures Before(o, r[i], r[j])
    {
      if i == 0 && j > 1 {
        BeforeTransitive(o, x, s[0], s[j - 1]);
      } else if i > 0 {
        assert r[i] == s[i - 1] && r[j] == s[j - 1];
      }
    }
  }

  /** The head of an ordered sequence stays ahead of everything `x` is
      inserted among when it is ahead of `x` too. */
  lemma HeadBeforeInserted(o: Order, x: Appointment, s: seq<Appointment>)
    requires |s| > 0 && Sorted(o, s) && Before(o, s[0], x)
    ensures |Insert(o, x, s[1..])| == 0 || Before(o, s[0], Insert(o, x, s[1..])[0])
  {
    var rest := Insert(o, x, s[1..]);
    if |rest| > 0 {
      assert rest[0] in multiset(rest);
      if rest[0] != x {
        assert rest[0] in multiset(s[1..]);
        var n :| 0 <= n < |s[1..]| && s[1..][n] == rest[0];
        assert s[n + 1] == rest[0];
      }
    }
  }

  /** `sort` with the comparator of `o`: a sorted permutation of `s`. */
  function Sort(o: Order, s: seq<Appointment>): (r: seq<Appointment>)
    ensures multiset(r) == multiset(s)
    ensures Sorted(o, r)
  {
    if |s| == 0 then []
    else
      assert s == [s[0]] + s[1..];
      var t := Sort(o, s[1..]);
      InsertSorted(o, s[0], t);
      Insert(o, s[0], t)
  }

  /** `[a]` when `a` has the sort key of `k`, else nothing. */
  function ClassOf(o: Order, a: Appointment, k: Appointment): seq<Appointment> {
    if SameKey(o, a, k) then [a] else []
  }

  /** The records of `s` whose sort key equals that of `k`, in order. */
  function KeyClass(o: Order, s: seq<Appointment>, k: Appointment): seq<Appointment> {
    if |s| == 0 then [] else ClassOf(o, s[0], k) + KeyClass(o, s[1..], k)
  }

  lemma KeyClassCons(o: Order, h: Appointment, t: seq<Appointment>, k: Appointment)
    ensures KeyClass(o, [h] + t, k) == ClassOf(o, h, k) + KeyClass(o, t, k)
  {
    assert ([h] + t)[1..] == t;
  }

  /** Two records the comparator keeps apart never share a key class, so
      their contributions commute. */
  lemma ClassSwap(o: Order, x: Appointment, h: Appointment, k: Appointment, t: seq<Appointment>)
    requires !Before(o, x, h)
    ensures ClassOf(o, x, k) + (ClassOf(o, h, k) + t) == ClassOf(o, h, k) + (ClassOf(o, x, k) + t)
  {
    if SameKey(o, x, k) && SameKey(o, h, k) {
      BeforeBothWays(o, x, h);
    }
  }

  /** `x` lands ahead of every element with its own key. */
  lemma {:induction false} InsertKeyClass(o: Order, x: Appointment, s: seq<Appointment>, k: Appointment)
    ensures KeyClass(o, Insert(o, x, s), k) == ClassOf(o, x, k) + KeyClass(o, s, k)
  {
    if |s| == 0 {
      KeyClassCons(o, x, [], k);
    } else if Before(o, x, s[0]) {
      KeyClassCons(o, x, s, k);
    } else {
      var rest := Insert(o, x, s[1..]);
      assert Insert(o, x, s) == [s[0]] + rest;
      InsertKeyClass(o, x, s[1..], k);
      KeyClassCons(o, s[0], rest, k);
      assert KeyClass(o, s, k) == ClassOf(o, s[0], k) + KeyClass(o, s[1..], k);
      ClassSwap(o, x, s[0], k, KeyClass(o, s[1..], k));
    }
  }

  /** Records with equal keys keep their relative order. */
  lemma {:induction false} SortStable(o: Order, s: seq<Appointment>, k: Appointment)
    ensures KeyClass(o, Sort(o, s), k) == KeyClass(o, s, k)
  {
    if |s| > 0 {
      SortStable(o, s[1..], k);
      InsertKeyClass(o, s[0], Sort(o, s[1..]), k);
    }
  }

  /** Sorting an ordered sequence changes nothing. */
  lemma {:induction false} SortOfSorted(o: Order, s: seq<Appointment>)
    requires Sorted(o, s)
    ensures Sort(o, s) == s
  {
    if |s| > 0 {
      assert Sorted(o, s[1..]);
      SortOfSorted(o, s[1..]);
      assert s == [s[0]] + s[1..];
    }
  }

  /** Applying the comparator a second time gives the same order. */
  lemma SortIdempotent(o: Order, s: seq<Appointment>)
    ensures Sort(o, Sort(o, s)) == Sort(o, s)
  {
    SortOfSorted(o, Sort(o, s));
  }
}
