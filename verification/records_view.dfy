/** What the records page shows: the status/search/day filter over the
    held records, the per-status counts of the status selector, and the
    three views (buckets by date label, flat grid, one sorted day). */
module RecordsView {
  import opened Types
  import opened JsString
  import opened StableSort
  import opened RecordGroups

  /** The status selector: everything, or one status. */
  datatype FilterStatus = All | Only(status: Status)

  datatype ViewMode = List | Grid | Calendar

  /** The local calendar components of a `Date`
      (`getFullYear`, `getMonth`, `getDate`). */
  datatype Day = Day(year: int, month: int, date: int)

  /** The library calls the page makes, left uninterpreted:
      `lower` is `toLowerCase`, `parseDay` is `parseISO` followed by the
      calendar components (`None` for an invalid date, whose components
      are NaN and equal nothing), `dateLabel` is the date-label helper
      (today, tomorrow, this week, else month and year). */
  datatype Env = Env(
    lower: string -> string,
    parseDay: string -> Option<Day>,
    dateLabel: string -> string
  )

  /** The page's filter inputs. `selected` is the calendar's day. */
  datatype Criteria = Criteria(status: FilterStatus, term: string, mode: ViewMode, selected: Day)

  predicate StatusPasses(f: FilterStatus, a: Appointment) {
    !(f.Only? && a.status != f.status)
  }

  /** `field?.toLowerCase().includes(needle) || false`. */
  predicate OptionalMatches(field: Option<string>, needle: string, lower: string -> string) {
    field.Some? && Includes(lower(field.value), needle)
  }

  predicate TermPasses(term: string, a: Appointment, lower: string -> string) {
    var needle := lower(term);
    || term == []
    || Includes(lower(a.carInfo), needle)
    || OptionalMatches(a.clientName, needle, lower)
    || OptionalMatches(a.clientPhone, needle, lower)
    || Includes(lower(a.service), needle)
  }

  predicate DayPasses(mode: ViewMode, selected: Day, a: Appointment, parseDay: string -> Option<Day>) {
    mode != Calendar ||
      match parseDay(a.date)
      case None => false
      case Some(d) => d.date == selected.date && d.month == selected.month && d.year == selected.year
  }

  /** The predicate chain applied to each record. */
  predicate Keep(c: Criteria, env: Env, a: Appointment) {
    && StatusPasses(c.status, a)
    && TermPasses(c.term, a, env.lower)
    && DayPasses(c.mode, c.selected, a, env.parseDay)
  }

  /** `Array.prototype.filter` with the callback `keep`. */
  function Select(appts: seq<Appointment>, keep: Appointment -> bool): (r: seq<Appointment>)
    ensures |r| <= |appts|
    ensures forall i :: 0 <= i < |r| ==> keep(r[i])
  {
    if |appts| == 0 then []
    else (if keep(appts[0]) then [appts[0]] else []) + Select(appts[1..], keep)
  }

  lemma {:induction false} SelectCounts(appts: seq<Appointment>, keep: Appointment -> bool)
    ensures forall a :: multiset(Select(appts, keep))[a] == (if keep(a) then multiset(appts)[a] else 0)
  {
    if |appts| > 0 {
      SelectCounts(appts[1..], keep);
      assert appts == [appts[0]] + appts[1..];
    }
  }

  lemma SelectCons(h: Appointment, t: seq<Appointment>, keep: Appointment -> bool)
    ensures Select([h] + t, keep) == (if keep(h) then [h] else []) + Select(t, keep)
  {
    assert ([h] + t)[1..] == t;
  }

  lemma {:induction false} SelectAppend(xs: seq<Appointment>, ys: seq<Appointment>, keep: Appointment -> bool)
    ensures Select(xs + ys, keep) == Select(xs, keep) + Select(ys, keep)
  {
    if |xs| == 0 {
      assert xs + ys == ys;
    } else {
      var h := if keep(xs[0]) then [xs[0]] else [];
      SelectAppend(xs[1..], ys, keep);
      assert xs + ys == [xs[0]] + (xs[1..] + ys);
      SelectCons(xs[0], xs[1..] + ys, keep);
      assert Select(xs, keep) == h + Select(xs[1..], keep);
      assert h + (Select(xs[1..], keep) + Select(ys, keep)) == (h + Select(xs[1..], keep)) + Select(ys, keep);
    }
  }

  lemma {:induction false} SelectEvery(appts: seq<Appointment>, keep: Appointment -> bool)
    requires forall i :: 0 <= i < |appts| ==> keep(appts[i])
    ensures Select(appts, keep) == appts
  {
    if |appts| > 0 {
      SelectEvery(appts[1..], keep);
    }
  }

  lemma {:induction false} SelectPointwise(appts: seq<Appointment>, f: Appointment -> bool, g: Appointment -> bool)
    requires forall i :: 0 <= i < |appts| ==> f(appts[i]) == g(appts[i])
    ensures Select(appts, f) == Select(appts, g)
  {
    if |appts| > 0 {
      SelectPointwise(appts[1..], f, g);
    }
  }

  function KeepFn(c: Criteria, env: Env): Appointment -> bool {
    (a: Appointment) => Keep(c, env, a)
  }

  /** `appointments.filter(...)`: only records the chain keeps. */
  function Filter(appts: seq<Appointment>, c: Criteria, env: Env): (r: seq<Appointment>)
    ensures |r| <= |appts|
    ensures forall i :: 0 <= i < |r| ==> Keep(c, env, r[i])
  {
    Select(appts, KeepFn(c, env))
  }

  /** Every kept record survives as often as it occurs; every other
      record is dropped. */
  lemma FilterCounts(appts: seq<Appointment>, c: Criteria, env: Env)
    ensures forall a :: multiset(Filter(appts, c, env))[a]
                        == (if Keep(c, env, a) then multiset(appts)[a] else 0)
  {
    SelectCounts(appts, KeepFn(c, env));
  }

  /** Filtering keeps list order: it distributes over concatenation. */
  lemma FilterAppend(xs: seq<Appointment>, ys: seq<Appointment>, c: Criteria, env: Env)
    ensures Filter(xs + ys, c, env) == Filter(xs, c, env) + Filter(ys, c, env)
  {
    SelectAppend(xs, ys, KeepFn(c, env));
  }

  /** Filtering the filtered list changes nothing. */
  lemma FilterIdempotent(appts: seq<Appointment>, c: Criteria, env: Env)
    ensures Filter(Filter(appts, c, env), c, env) == Filter(appts, c, env)
  {
    SelectEvery(Filter(appts, c, env), KeepFn(c, env));
  }

  /** With status `all`, no search term and a non-calendar view, every
      record is shown in list order. */
  lemma FilterNothing(appts: seq<Appointment>, mode: ViewMode, selected: Day, env: Env)
    requires mode != Calendar
    ensures Filter(appts, Criteria(All, [], mode, selected), env) == appts
  {
    SelectEvery(appts, KeepFn(Criteria(All, [], mode, selected), env));
  }

  /** A search hit needs the lower-cased term inside one of the four
      fields; an empty term matches every record. */
  lemma SearchKeeps(c: Criteria, env: Env, a: Appointment)
    requires Keep(c, env, a) && c.term != []
    ensures var needle := env.lower(c.term);
      || (exists i :: OccursAt(env.lower(a.carInfo), needle, i))
      || (exists i :: OccursAt(env.lower(a.service), needle, i))
      || (a.clientName.Some? && exists i :: OccursAt(env.lower(a.clientName.value), needle, i))
      || (a.clientPhone.Some? && exists i :: OccursAt(env.lower(a.clientPhone.value), needle, i))
  {
  }

  /** Outside the calendar view the selected day and the choice between
      list and grid do not change the filtered records. */
  lemma FilterIgnoresDayOutsideCalendar(
    appts: seq<Appointment>, c: Criteria, mode: ViewMode, selected: Day, env: Env)
    requires c.mode != Calendar && mode != Calendar
    ensures Filter(appts, c, env) == Filter(appts, c.(mode := mode, selected := selected), env)
  {
    SelectPointwise(appts, KeepFn(c, env), KeepFn(c.(mode := mode, selected := selected), env));
  }

  /** Number of records with status `s`. */
  function Occurrences(appts: seq<Appointment>, s: Status): nat {
    if |appts| == 0 then 0
    else (if appts[0].status == s then 1 else 0) + Occurrences(appts[1..], s)
  }

  /** `statusCounts[s] || 0`. */
  function CountOf(counts: map<Status, nat>, s: Status): nat {
    if s in counts then counts[s] else 0
  }

  /** The `reduce` that fills `statusCounts`, continuing from `acc`. */
  function Tally(acc: map<Status, nat>, appts: seq<Appointment>): map<Status, nat>
    decreases |appts|
  {
    if |appts| == 0 then acc
    else
      var s := appts[0].status;
      Tally(acc[s := CountOf(acc, s) + 1], appts[1..])
  }

  lemma {:induction false} TallyCounts(acc: map<Status, nat>, appts: seq<Appointment>, s: Status)
    ensures CountOf(Tally(acc, appts), s) == CountOf(acc, s) + Occurrences(appts, s)
    ensures s in Tally(acc, appts) <==> s in acc || Occurrences(appts, s) > 0
    decreases |appts|
  {
    if |appts| > 0 {
      var t := appts[0].status;
      TallyCounts(acc[t := CountOf(acc, t) + 1], appts[1..], s);
    }
  }

  /** `statusCounts`: a key for each status that occurs, holding the
      number of records with that status. */
  function StatusCounts(appts: seq<Appointment>): (r: map<Status, nat>)
    ensures forall s :: CountOf(r, s) == Occurrences(appts, s)
    ensures forall s :: s in r <==> Occurrences(appts, s) > 0
  {
    forall s ensures CountOf(Tally(map[], appts), s) == Occurrences(appts, s)
      && (s in Tally(map[], appts) <==> Occurrences(appts, s) > 0)
    {
      TallyCounts(map[], appts, s);
    }
    Tally(map[], appts)
  }

  /** One entry of the status selector. */
  datatype FilterOption = FilterOption(value: FilterStatus, count: nat)

  /** `statusFilterOptions`: `all` with the collection length, then each
      status with its count. */
  function FilterOptions(appts: seq<Appointment>): (r: seq<FilterOption>)
    ensures |r| == 4
    ensures r[0] == FilterOption(All, |appts|)
    ensures r[1].value == Only(Scheduled) && r[2].value == Only(Completed) && r[3].value == Only(Cancelled)
    ensures forall i :: 1 <= i < 4 ==> r[i].count == Occurrences(appts, r[i].value.status)
  {
    var counts := StatusCounts(appts);
    [ FilterOption(All, |appts|),
      FilterOption(Only(Scheduled), CountOf(counts, Scheduled)),
      FilterOption(Only(Completed), CountOf(counts, Completed)),
      FilterOption(Only(Cancelled), CountOf(counts, Cancelled)) ]
  }

  /** Every record has exactly one of the three statuses, so the
      per-status counts add up to the `all` count. */
  lemma {:induction false} OccurrencesSum(appts: seq<Appointment>)
    ensures Occurrences(appts, Scheduled) + Occurrences(appts, Completed)
            + Occurrences(appts, Cancelled) == |appts|
  {
    if |appts| > 0 {
      OccurrencesSum(appts[1..]);
    }
  }

  lemma OptionCountsSum(appts: seq<Appointment>)
    ensures var r := FilterOptions(appts);
      r[1].count + r[2].count + r[3].count == r[0].count
  {
    OccurrencesSum(appts);
  }

  /** The count next to each selector entry is the number of records the
      status filter alone keeps for that entry. */
  lemma {:induction false} OptionCountIsFilterSize(
    appts: seq<Appointment>, i: nat, mode: ViewMode, selected: Day, env: Env)
    requires i < 4 && mode != Calendar
    ensures FilterOptions(appts)[i].count
         == |Filter(appts, Criteria(FilterOptions(appts)[i].value, [], mode, selected), env)|
  {
    var f := FilterOptions(appts)[i].value;
    if i == 0 {
      FilterNothing(appts, mode, selected, env);
    } else {
      StatusFilterSize(appts, f.status, mode, selected, env);
    }
  }

  lemma StatusFilterSize(
    appts: seq<Appointment>, s: Status, mode: ViewMode, selected: Day, env: Env)
    requires mode != Calendar
    ensures |Filter(appts, Criteria(Only(s), [], mode, selected), env)| == Occurrences(appts, s)
  {
    var f := KeepFn(Criteria(Only(s), [], mode, selected), env);
    SelectPointwise(appts, f, HasStatus(s));
    SelectSize(appts, s);
  }

  function HasStatus(s: Status): Appointment -> bool {
    (a: Appointment) => a.status == s
  }

  lemma {:induction false} SelectSize(appts: seq<Appointment>, s: Status)
    ensures |Select(appts, HasStatus(s))| == Occurrences(appts, s)
  {
    if |appts| > 0 {
      SelectSize(appts[1..], s);
    }
  }

  /** What the page renders below the filters. */
  datatype View =
    | ListView(buckets: seq<Bucket>)
    | GridView(items: seq<Appointment>)
    | CalendarView(items: seq<Appointment>)

  /** Records that all carry one label form a single bucket. */
  lemma {:induction false} SameLabelOneBucket(p: seq<Appointment>, labelOf: string -> string, k: string)
    requires |p| > 0
    requires forall i :: 0 <= i < |p| ==> labelOf(p[i].date) == k
    ensures Group(p, labelOf) == [Bucket(k, p)]
  {
    SameLabelBucketContents(p, labelOf, k);
    var g := Group(p, labelOf);
    assert Labels(g) == [k];
  }

  lemma {:induction false} SameLabelBucketContents(p: seq<Appointment>, labelOf: string -> string, k: string)
    requires |p| > 0
    requires forall i :: 0 <= i < |p| ==> labelOf(p[i].date) == k
    ensures FirstSeen(p, labelOf) == [k]
    ensures WithLabel(p, labelOf, k) == p
  {
    var q := p[..|p| - 1];
    if |q| == 0 {
      assert p == [p[0]];
    } else {
      SameLabelBucketContents(q, labelOf, k);
      assert p == q + [p[|p| - 1]];
    }
  }

  /** The list view's buckets with each bucket ordered by date, then time. */
  function SortBuckets(gs: seq<Bucket>): (r: seq<Bucket>)
    ensures |r| == |gs|
    ensures forall i :: 0 <= i < |r| ==>
      && r[i].key == gs[i].key
      && Sorted(ByDateTime, r[i].items)
      && multiset(r[i].items) == multiset(gs[i].items)
      && forall k :: KeyClass(ByDateTime, r[i].items, k) == KeyClass(ByDateTime, gs[i].items, k)
  {
    forall i, k | 0 <= i < |gs|
      ensures KeyClass(ByDateTime, Sort(ByDateTime, gs[i].items), k) == KeyClass(ByDateTime, gs[i].items, k)
    {
      SortStable(ByDateTime, gs[i].items, k);
    }
    seq(|gs|, i requires 0 <= i < |gs| => Bucket(gs[i].key, Sort(ByDateTime, gs[i].items)))
  }

  /** The list view: the filtered records bucketed by date label, each
      bucket sorted by date, then time. */
  function ListBuckets(filtered: seq<Appointment>, dateLabel: string -> string): seq<Bucket> {
    SortBuckets(Group(filtered, dateLabel))
  }

  /** The list view shows each first-seen label once, in first-seen order,
      over an ordered permutation of exactly the records with that label. */
  lemma ListViewShape(filtered: seq<Appointment>, dateLabel: string -> string)
    ensures var gs := ListBuckets(filtered, dateLabel);
      && Labels(gs) == FirstSeen(filtered, dateLabel)
      && Distinct(Labels(gs))
      && forall i :: 0 <= i < |gs| ==>
           && Sorted(ByDateTime, gs[i].items)
           && multiset(gs[i].items) == multiset(WithLabel(filtered, dateLabel, gs[i].key))
  {
    var g := Group(filtered, dateLabel);
    assert Labels(ListBuckets(filtered, dateLabel)) == Labels(g);
  }

  /** The records page body for the current filters and view mode. */
  function Render(appts: seq<Appointment>, c: Criteria, env: Env): (v: View)
    ensures c.mode == List ==> v == ListView(ListBuckets(Filter(appts, c, env), env.dateLabel))
    ensures c.mode == Grid ==> v == GridView(Filter(appts, c, env))
    ensures c.mode == Calendar ==>
      && v.CalendarView?
      && Sorted(ByTime, v.items)
      && multiset(v.items) == multiset(Filter(appts, c, env))
  {
    var filtered := Filter(appts, c, env);
    match c.mode
    case List => ListView(ListBuckets(filtered, env.dateLabel))
    case Grid => GridView(filtered)
    case Calendar => CalendarView(Sort(ByTime, filtered))
  }

  /** Within a bucket records with equal date and time keep list order,
      as in the calendar view records with equal time do. */
  lemma RenderStable(appts: seq<Appointment>, c: Criteria, env: Env, k: Appointment)
    ensures var v := Render(appts, c, env);
      var filtered := Filter(appts, c, env);
      && (v.CalendarView? ==> KeyClass(ByTime, v.items, k) == KeyClass(ByTime, filtered, k))
      && (v.ListView? ==> forall i :: 0 <= i < |v.buckets| ==>
            KeyClass(ByDateTime, v.buckets[i].items, k)
            == KeyClass(ByDateTime, WithLabel(filtered, env.dateLabel, v.buckets[i].key), k))
  {
    var v := Render(appts, c, env);
    var filtered := Filter(appts, c, env);
    if v.CalendarView? {
      SortStable(ByTime, filtered, k);
    }
    if v.ListView? {
      forall i | 0 <= i < |v.buckets|
        ensures KeyClass(ByDateTime, v.buckets[i].items, k)
             == KeyClass(ByDateTime, WithLabel(filtered, env.dateLabel, v.buckets[i].key), k)
      {
        SortStable(ByDateTime, WithLabel(filtered, env.dateLabel, v.buckets[i].key), k);
      }
    }
  }

  /** Two scheduled records on one day, listed 09:00 first: the list view
      shows one bucket with the 08:00 record ahead of the 09:00 one. */
  lemma SameDayBucketOrderedByTime(env: Env, selected: Day)
    ensures var toyota := Appointment("1", "2024-06-01", "09:00", "Toyota", "Wash", None, None, Scheduled, 0);
      var honda := Appointment("2", "2024-06-01", "08:00", "Honda", "Wax", None, None, Scheduled, 0);
      var v := Render([toyota, honda], Criteria(Only(Scheduled), [], List, selected), env);
      v.buckets == [Bucket(env.dateLabel("2024-06-01"), [honda, toyota])]
  {
    var toyota := Appointment("1", "2024-06-01", "09:00", "Toyota", "Wash", None, None, Scheduled, 0);
    var honda := Appointment("2", "2024-06-01", "08:00", "Honda", "Wax", None, None, Scheduled, 0);
    assert !StrLe(toyota.time, honda.time) by {
      assert toyota.time[1..] == "9:00" && honda.time[1..] == "8:00";
    }
    LaterFirstSameDay(toyota, honda, selected, env);
  }

  /** Two scheduled records of one date, the later one listed first, form
      one bucket with the earlier one first. */
  lemma LaterFirstSameDay(later: Appointment, earlier: Appointment, selected: Day, env: Env)
    requires later.date == earlier.date && later.status == Scheduled && earlier.status == Scheduled
    requires !StrLe(later.time, earlier.time)
    ensures Render([later, earlier], Criteria(Only(Scheduled), [], List, selected), env).buckets
         == [Bucket(env.dateLabel(later.date), [earlier, later])]
  {
    var c := Criteria(Only(Scheduled), [], List, selected);
    var appts := [later, earlier];
    var k := env.dateLabel(later.date);
    ScheduledUnsearched(appts, selected, env);
    OneLabelList(appts, env.dateLabel, k);
    LaterTimeSortsLast(later, earlier);
  }

  /** Records that all carry one label make a list view of one ordered bucket. */
  lemma OneLabelList(p: seq<Appointment>, labelOf: string -> string, k: string)
    requires |p| > 0
    requires forall i :: 0 <= i < |p| ==> labelOf(p[i].date) == k
    ensures ListBuckets(p, labelOf) == [Bucket(k, Sort(ByDateTime, p))]
  {
    SameLabelOneBucket(p, labelOf, k);
    SortOneBucket(p, k);
  }

  lemma SortOneBucket(p: seq<Appointment>, k: string)
    ensures SortBuckets([Bucket(k, p)]) == [Bucket(k, Sort(ByDateTime, p))]
  {
  }

  /** With no search term, the list view of scheduled records keeps every
      scheduled record. */
  lemma ScheduledUnsearched(appts: seq<Appointment>, selected: Day, env: Env)
    requires forall i :: 0 <= i < |appts| ==> appts[i].status == Scheduled
    ensures Filter(appts, Criteria(Only(Scheduled), [], List, selected), env) == appts
  {
    SelectEvery(appts, KeepFn(Criteria(Only(Scheduled), [], List, selected), env));
  }

  lemma LaterTimeSortsLast(later: Appointment, earlier: Appointment)
    requires later.date == earlier.date
    requires !StrLe(later.time, earlier.time)
    ensures Sort(ByDateTime, [later, earlier]) == [earlier, later]
  {
    assert [later, earlier][1..] == [earlier];
    assert Sort(ByDateTime, [earlier]) == [earlier];
  }
}
