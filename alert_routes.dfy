/**
 * `get_active_alerts` and `get_alert_summary` (app/routes/alerts.py) over the
 * merged records of `get_latest_water_levels`. Copying a record into the
 * response model is left out: an active alert is the merged record itself.
 */
module AlertRoutes {
  import opened Wrappers
  import opened Records
  import opened AlertCalc
  import opened DataService

  predicate IsActive(status: string) {
    status == "ALERT" || status == "MINOR" || status == "MAJOR"
  }

  /** `severity_order.get(status, 99)`. */
  function SeverityKey(status: string): nat {
    if status == "MAJOR" then 0
    else if status == "MINOR" then 1
    else if status == "ALERT" then 2
    else 99
  }

  function Key(w: WaterLevel): nat {
    SeverityKey(w.alertStatus)
  }

  /** The records whose status is ALERT, MINOR or MAJOR, in input order. */
  function ActiveOf(levels: seq<WaterLevel>): (active: seq<WaterLevel>)
    ensures |active| <= |levels|
  {
    if levels == [] then []
    else
      var n := |levels| - 1;
      ActiveOf(levels[..n]) + (if IsActive(levels[n].alertStatus) then [levels[n]] else [])
  }

  /** The elements of `xs` whose key is `k`, in input order. */
  function WithKey<T>(xs: seq<T>, key: T -> nat, k: nat): seq<T> {
    if xs == [] then []
    else
      var n := |xs| - 1;
      WithKey(xs[..n], key, k) + (if key(xs[n]) == k then [xs[n]] else [])
  }

  /** Every key is one of the values `severity_order.get` can return. */
  predicate IsSeverity(k: nat) {
    k == 0 || k == 1 || k == 2 || k == 99
  }

  ghost predicate SeverityKeys<T>(xs: seq<T>, key: T -> nat) {
    forall i :: 0 <= i < |xs| ==> IsSeverity(key(xs[i]))
  }

  /** The groups of keys 0, 1, 2 and 99 one after the other, each in input order. */
  function Grouped<T>(xs: seq<T>, key: T -> nat): seq<T> {
    WithKey(xs, key, 0) + WithKey(xs, key, 1) + WithKey(xs, key, 2) + WithKey(xs, key, 99)
  }

  /** What Python's stable `list.sort(key=...)` returns for the severity key. */
  function SortBySeverity(xs: seq<WaterLevel>): seq<WaterLevel> {
    Grouped(xs, Key)
  }

  predicate SortedBy<T>(xs: seq<T>, key: T -> nat) {
    forall i, j :: 0 <= i < j < |xs| ==> key(xs[i]) <= key(xs[j])
  }

  method ActiveAlerts(levels: seq<WaterLevel>) returns (alerts: seq<WaterLevel>)
    ensures alerts == SortBySeverity(ActiveOf(levels))
  {
    alerts := [];
    for i := 0 to |levels|
      invariant alerts == ActiveOf(levels[..i])
    {
      assert levels[..i + 1][..i] == levels[..i];
      var alertStatus := levels[i].alertStatus;
      if IsActive(alertStatus) {
        alerts := alerts + [levels[i]];
      }
    }
    assert levels[..|levels|] == levels;
    alerts := SortBySeverity(alerts);
  }

  /** The `GET /alerts` handler: the active alerts of the (possibly cached) water levels. */
  method GetActiveAlerts(svc: Service, up: Upstream, now: int) returns (alerts: seq<WaterLevel>, ghost file: Option<string>)
    requires svc.Valid()
    modifies svc
    ensures svc.Valid()
    ensures !IsLive(old(svc.cache), LevelsKey, now) ==> FileServed(old(svc.cache), up, now, file)
    ensures alerts == SortBySeverity(ActiveOf(LevelsFrom(old(svc.cache), up, now, file)))
    ensures svc.cache == AfterLevels(old(svc.cache), up, now, file)
  {
    var levels;
    levels, file := svc.LatestWaterLevels(up, now);
    alerts := ActiveAlerts(levels);
  }

  /**
   * The response holds exactly the ALERT, MINOR and MAJOR records, as many as
   * there are, MAJOR first, then MINOR, then ALERT, and records of equal
   * severity in feed order.
   */
  lemma ActiveAlertsContents(levels: seq<WaterLevel>)
    ensures var alerts := SortBySeverity(ActiveOf(levels));
      && multiset(alerts) == multiset(ActiveOf(levels))
      && |alerts| == |ActiveOf(levels)|
      && (forall x :: x in alerts <==> x in levels && IsActive(x.alertStatus))
      && SortedBy(alerts, Key)
      && (forall x :: x in alerts ==> (x.alertStatus == "MAJOR" <==> Key(x) == 0))
      && (forall k :: WithKey(alerts, Key, k) == WithKey(ActiveOf(levels), Key, k))
  {
    var active := ActiveOf(levels);
    assert SeverityKeys(active, Key);
    GroupedIsStableSort(active, Key);
    ActiveMembers(levels);
    var alerts := SortBySeverity(active);
    assert forall x :: x in alerts <==> x in multiset(alerts);
  }

  lemma {:induction false} ActiveMembers(levels: seq<WaterLevel>)
    ensures forall x :: x in ActiveOf(levels) <==> x in levels && IsActive(x.alertStatus)
  {
    if levels != [] {
      var n := |levels| - 1;
      ActiveMembers(levels[..n]);
      assert levels == levels[..n] + [levels[n]];
    }
  }

  lemma {:induction false} WithKeyConcat<T>(a: seq<T>, b: seq<T>, key: T -> nat, k: nat)
    ensures WithKey(a + b, key, k) == WithKey(a, key, k) + WithKey(b, key, k)
  {
    if b == [] {
      assert a + b == a;
    } else {
      var n := |b| - 1;
      assert (a + b)[..|a + b| - 1] == a + b[..n];
      WithKeyConcat(a, b[..n], key, k);
    }
  }

  lemma {:induction false} WithKeyHasKey<T>(xs: seq<T>, key: T -> nat, k: nat)
    ensures forall x :: x in WithKey(xs, key, k) ==> key(x) == k
  {
    if xs != [] {
      WithKeyHasKey(xs[..|xs| - 1], key, k);
    }
  }

  lemma {:induction false} WithKeyTwice<T>(xs: seq<T>, key: T -> nat, k: nat, k': nat)
    ensures WithKey(WithKey(xs, key, k), key, k') == if k == k' then WithKey(xs, key, k) else []
  {
    if xs != [] {
      var n := |xs| - 1;
      WithKeyTwice(xs[..n], key, k, k');
      WithKeyConcat(WithKey(xs[..n], key, k), if key(xs[n]) == k then [xs[n]] else [], key, k');
    }
  }

  lemma {:induction false} WithOtherKeyEmpty<T>(xs: seq<T>, key: T -> nat, k: nat)
    requires SeverityKeys(xs, key)
    requires !IsSeverity(k)
    ensures WithKey(xs, key, k) == []
  {
    if xs != [] {
      var n := |xs| - 1;
      SeverityKeysPrefix(xs, key, n);
      WithOtherKeyEmpty(xs[..n], key, k);
    }
  }

  /** `m` with one more `x` when `hit`. */
  function Add<T>(m: multiset<T>, x: T, hit: bool): multiset<T> {
    if hit then m + multiset{x} else m
  }

  lemma WithKeyLast<T>(xs: seq<T>, key: T -> nat, k: nat)
    requires xs != []
    ensures var n := |xs| - 1;
      multiset(WithKey(xs, key, k)) == Add(multiset(WithKey(xs[..n], key, k)), xs[n], key(xs[n]) == k)
  {
  }

  lemma GroupedMultiset<T>(xs: seq<T>, key: T -> nat)
    ensures multiset(Grouped(xs, key)) ==
      multiset(WithKey(xs, key, 0)) + multiset(WithKey(xs, key, 1))
      + multiset(WithKey(xs, key, 2)) + multiset(WithKey(xs, key, 99))
  {
  }

  /** Adding `x` to the one group its key selects adds it once to the union. */
  lemma AddOnce<T>(a0: multiset<T>, a1: multiset<T>, a2: multiset<T>, a99: multiset<T>, x: T, k: nat)
    requires IsSeverity(k)
    ensures Add(a0, x, k == 0) + Add(a1, x, k == 1) + Add(a2, x, k == 2) + Add(a99, x, k == 99)
         == a0 + a1 + a2 + a99 + multiset{x}
  {
  }

  lemma SeverityKeysPrefix<T>(xs: seq<T>, key: T -> nat, n: nat)
    requires SeverityKeys(xs, key) && n <= |xs|
    ensures SeverityKeys(xs[..n], key)
  {
    assert forall i :: 0 <= i < n ==> xs[..n][i] == xs[i];
  }

  /** Splitting into the four key groups loses and adds nothing. */
  lemma {:induction false} GroupsPartition<T>(xs: seq<T>, key: T -> nat)
    requires SeverityKeys(xs, key)
    ensures multiset(Grouped(xs, key)) == multiset(xs)
  {
    if xs != [] {
      var n := |xs| - 1;
      SeverityKeysPrefix(xs, key, n);
      GroupsPartition(xs[..n], key);
      GroupsStep(xs, key);
      MultisetLast(xs);
    }
  }

  lemma MultisetLast<T>(xs: seq<T>)
    requires xs != []
    ensures multiset(xs) == multiset(xs[..|xs| - 1]) + multiset{xs[|xs| - 1]}
  {
    assert xs == xs[..|xs| - 1] + [xs[|xs| - 1]];
  }

  lemma GroupsStep<T>(xs: seq<T>, key: T -> nat)
    requires xs != []
    requires IsSeverity(key(xs[|xs| - 1]))
    ensures var n := |xs| - 1;
      multiset(Grouped(xs, key)) == multiset(Grouped(xs[..n], key)) + multiset{xs[n]}
  {
    var n := |xs| - 1;
    var pre, x := xs[..n], xs[n];
    GroupedMultiset(xs, key);
    GroupedMultiset(pre, key);
    WithKeyLast(xs, key, 0);
    WithKeyLast(xs, key, 1);
    WithKeyLast(xs, key, 2);
    WithKeyLast(xs, key, 99);
    AddOnce(multiset(WithKey(pre, key, 0)), multiset(WithKey(pre, key, 1)),
            multiset(WithKey(pre, key, 2)), multiset(WithKey(pre, key, 99)), x, key(x));
  }

  /** Grouping sorts by key, is a permutation, and keeps each key's elements in input order. */
  lemma GroupedIsStableSort<T>(xs: seq<T>, key: T -> nat)
    requires SeverityKeys(xs, key)
    ensures var ys := Grouped(xs, key);
      && SortedBy(ys, key)
      && multiset(ys) == multiset(xs)
      && |ys| == |xs|
      && forall k :: WithKey(ys, key, k) == WithKey(xs, key, k)
  {
    GroupedSorted(xs, key);
    GroupsPartition(xs, key);
    var ys := Grouped(xs, key);
    assert |multiset(ys)| == |multiset(xs)|;
    forall k ensures WithKey(ys, key, k) == WithKey(xs, key, k) {
      GroupedKeepsGroup(xs, key, k);
    }
  }

  lemma GroupedSorted<T>(xs: seq<T>, key: T -> nat)
    ensures SortedBy(Grouped(xs, key), key)
  {
    var ys := Grouped(xs, key);
    var g0, g1, g2, g99 := WithKey(xs, key, 0), WithKey(xs, key, 1), WithKey(xs, key, 2), WithKey(xs, key, 99);
    WithKeyHasKey(xs, key, 0);
    WithKeyHasKey(xs, key, 1);
    WithKeyHasKey(xs, key, 2);
    WithKeyHasKey(xs, key, 99);
    forall i, j | 0 <= i < j < |ys| ensures key(ys[i]) <= key(ys[j]) {
      GroupOf(g0, g1, g2, g99, key, i);
      GroupOf(g0, g1, g2, g99, key, j);
    }
  }

  lemma GroupedKeepsGroup<T>(xs: seq<T>, key: T -> nat, k: nat)
    requires SeverityKeys(xs, key)
    ensures WithKey(Grouped(xs, key), key, k) == WithKey(xs, key, k)
  {
    if k == 0 {
      GroupedKeepsGroupAt(xs, key, 0);
    } else if k == 1 {
      GroupedKeepsGroupAt(xs, key, 1);
    } else if k == 2 {
      GroupedKeepsGroupAt(xs, key, 2);
    } else if k == 99 {
      GroupedKeepsGroupAt(xs, key, 99);
    } else {
      GroupedKeepsGroupAt(xs, key, k);
      WithOtherKeyEmpty(xs, key, k);
    }
  }

  /** Taking key `k` of the four groups leaves group `k`, or nothing when `k` is not a group's key. */
  lemma GroupedKeepsGroupAt<T>(xs: seq<T>, key: T -> nat, k: nat)
    ensures WithKey(Grouped(xs, key), key, k) ==
      if k == 0 || k == 1 || k == 2 || k == 99 then WithKey(xs, key, k) else []
  {
    var g0, g1, g2, g99 := WithKey(xs, key, 0), WithKey(xs, key, 1), WithKey(xs, key, 2), WithKey(xs, key, 99);
    GroupedWithKey(g0, g1, g2, g99, key, k);
    var h0, h1, h2, h99 := WithKey(g0, key, k), WithKey(g1, key, k), WithKey(g2, key, k), WithKey(g99, key, k);
    assert h0 == (if k == 0 then g0 else []) by { WithKeyTwice(xs, key, 0, k); }
    assert h1 == (if k == 1 then g1 else []) by { WithKeyTwice(xs, key, 1, k); }
    assert h2 == (if k == 2 then g2 else []) by { WithKeyTwice(xs, key, 2, k); }
    assert h99 == (if k == 99 then g99 else []) by { WithKeyTwice(xs, key, 99, k); }
  }

  lemma GroupedWithKey<T>(g0: seq<T>, g1: seq<T>, g2: seq<T>, g99: seq<T>, key: T -> nat, k: nat)
    ensures WithKey(g0 + g1 + g2 + g99, key, k) ==
      WithKey(g0, key, k) + WithKey(g1, key, k) + WithKey(g2, key, k) + WithKey(g99, key, k)
  {
    WithKeyConcat(g0 + g1 + g2, g99, key, k);
    WithKeyConcat(g0 + g1, g2, key, k);
    WithKeyConcat(g0, g1, key, k);
  }

  /** Position `i` of four concatenated groups falls in exactly one of them. */
  lemma GroupOf<T>(g0: seq<T>, g1: seq<T>, g2: seq<T>, g99: seq<T>, key: T -> nat, i: nat)
    requires (forall x :: x in g0 ==> key(x) == 0) && (forall x :: x in g1 ==> key(x) == 1)
    requires (forall x :: x in g2 ==> key(x) == 2) && (forall x :: x in g99 ==> key(x) == 99)
    requires i < |g0 + g1 + g2 + g99|
    ensures var ys := g0 + g1 + g2 + g99;
      && (i < |g0| ==> key(ys[i]) == 0)
      && (|g0| <= i < |g0| + |g1| ==> key(ys[i]) == 1)
      && (|g0| + |g1| <= i < |g0| + |g1| + |g2| ==> key(ys[i]) == 2)
      && (|g0| + |g1| + |g2| <= i ==> key(ys[i]) == 99)
  {
    var ys := g0 + g1 + g2 + g99;
    if i < |g0| {
      assert ys[i] == g0[i];
    } else if i < |g0| + |g1| {
      assert ys[i] == g1[i - |g0|];
    } else if i < |g0| + |g1| + |g2| {
      assert ys[i] == g2[i - |g0| - |g1|];
    } else {
      assert ys[i] == g99[i - |g0| - |g1| - |g2|];
    }
  }

  // ---------------------------------------------------------------------------
  // The summary

  datatype AlertSummary = AlertSummary(alertLevel: AlertLevel, count: nat, stations: seq<string>)

  /** The insertion order of the `counts` dict. */
  const SummaryOrder: seq<AlertLevel> := [MAJOR, MINOR, ALERT, NORMAL, NO_DATA]

  predicate IsKnown(status: string) {
    status in Statuses
  }

  /** Station names of the records with `status`, in input order. */
  function NamesWith(levels: seq<WaterLevel>, status: string): (names: seq<string>)
    ensures |names| <= |levels|
  {
    if levels == [] then []
    else
      var n := |levels| - 1;
      NamesWith(levels[..n], status) + (if levels[n].alertStatus == status then [levels[n].stationName] else [])
  }

  const Statuses: set<string> := {"MAJOR", "MINOR", "ALERT", "NORMAL", "NO_DATA"}

  /** The `counts` dict after the loop has seen `levels`. */
  function CountsOf(levels: seq<WaterLevel>): map<string, seq<string>> {
    map t | t in Statuses :: NamesWith(levels, t)
  }

  /** The final comprehension: one entry per non-empty bucket, in `order`. */
  function Summarize(order: seq<AlertLevel>, counts: map<string, seq<string>>): seq<AlertSummary>
    requires forall l :: l in order ==> l.Name() in counts
  {
    if order == [] then []
    else
      var stations := counts[order[0].Name()];
      (if |stations| > 0 then [AlertSummary(order[0], |stations|, stations)] else [])
      + Summarize(order[1..], counts)
  }

  function SummaryOf(levels: seq<WaterLevel>): seq<AlertSummary> {
    Summarize(SummaryOrder, CountsOf(levels))
  }

  method AlertSummaryOf(levels: seq<WaterLevel>) returns (summary: seq<AlertSummary>)
    ensures summary == SummaryOf(levels)
  {
    var counts: map<string, seq<string>> :=
      map["MAJOR" := [], "MINOR" := [], "ALERT" := [], "NORMAL" := [], "NO_DATA" := []];
    EmptyCounts();
    for i := 0 to |levels|
      invariant counts == CountsOf(levels[..i])
    {
      assert levels[..i + 1] == levels[..i] + [levels[i]];
      var alertStatus := levels[i].alertStatus;
      var stationName := levels[i].stationName;
      CountsStep(levels[..i], levels[i]);
      if alertStatus in counts {
        counts := counts[alertStatus := counts[alertStatus] + [stationName]];
      }
    }
    assert levels[..|levels|] == levels;
    summary := Summarize(SummaryOrder, counts);
  }

  /** The `GET /alerts/summary` handler. */
  method GetAlertSummary(svc: Service, up: Upstream, now: int) returns (summary: seq<AlertSummary>, ghost file: Option<string>)
    requires svc.Valid()
    modifies svc
    ensures svc.Valid()
    ensures !IsLive(old(svc.cache), LevelsKey, now) ==> FileServed(old(svc.cache), up, now, file)
    ensures summary == SummaryOf(LevelsFrom(old(svc.cache), up, now, file))
    ensures svc.cache == AfterLevels(old(svc.cache), up, now, file)
  {
    var levels;
    levels, file := svc.LatestWaterLevels(up, now);
    summary := AlertSummaryOf(levels);
  }

  /** The dict literal the loop starts from. */
  lemma EmptyCounts()
    ensures map["MAJOR" := [], "MINOR" := [], "ALERT" := [], "NORMAL" := [], "NO_DATA" := []] == CountsOf([])
  {
  }

  /** One iteration of the counting loop. */
  lemma CountsStep(xs: seq<WaterLevel>, x: WaterLevel)
    ensures var c := CountsOf(xs);
      CountsOf(xs + [x]) ==
        if x.alertStatus in c then c[x.alertStatus := c[x.alertStatus] + [x.stationName]] else c
  {
    var c, c' := CountsOf(xs), CountsOf(xs + [x]);
    var st := x.alertStatus;
    var d := if st in c then c[st := c[st] + [x.stationName]] else c;
    assert c'.Keys == d.Keys;
    forall t | t in d ensures c'[t] == d[t] {
      NamesWithStep(xs, x, t);
    }
  }

  lemma NamesWithStep(xs: seq<WaterLevel>, x: WaterLevel, t: string)
    ensures NamesWith(xs + [x], t) == NamesWith(xs, t) + if x.alertStatus == t then [x.stationName] else []
  {
    var ys := xs + [x];
    assert ys[..|ys| - 1] == xs;
  }

  /** Position of a level in `SummaryOrder`. */
  function Position(l: AlertLevel): nat {
    match l
    case MAJOR => 0
    case MINOR => 1
    case ALERT => 2
    case NORMAL => 3
    case NO_DATA => 4
  }

  /**
   * Every entry has a non-empty station list, its count is the list's length,
   * and the list holds the names of the records with that status in input
   * order; entries follow MAJOR, MINOR, ALERT, NORMAL, NO_DATA.
   */
  lemma SummaryShape(levels: seq<WaterLevel>)
    ensures var summary := SummaryOf(levels);
      && (forall e :: e in summary ==>
            e.count == |e.stations| > 0 && e.stations == NamesWith(levels, e.alertLevel.Name()))
      && (forall i, j :: 0 <= i < j < |summary| ==> Position(summary[i].alertLevel) < Position(summary[j].alertLevel))
      && (forall l :: l in LevelsOf(summary) <==> NamesWith(levels, l.Name()) != [])
  {
    var counts := CountsOf(levels);
    SummaryOrderFacts();
    CountsHoldNames(levels);
    SummarizeEntries(SummaryOrder, counts);
    SummarizeOrdered(SummaryOrder, counts, 0);
    SummarizeCovers(SummaryOrder, counts);
    var summary := Summarize(SummaryOrder, counts);
    assert SummaryOf(levels) == summary;
    forall l: AlertLevel ensures l in LevelsOf(summary) <==> NamesWith(levels, l.Name()) != [] {
      assert l in SummaryOrder && counts[l.Name()] == NamesWith(levels, l.Name());
    }
  }

  lemma SummaryOrderFacts()
    ensures forall l: AlertLevel :: l in SummaryOrder
    ensures forall i :: 0 <= i < |SummaryOrder| ==> Position(SummaryOrder[i]) == i
  {
    forall l: AlertLevel ensures l in SummaryOrder {
      assert SummaryOrder[Position(l)] == l;
    }
  }

  lemma CountsHoldNames(levels: seq<WaterLevel>)
    ensures forall l: AlertLevel :: l.Name() in CountsOf(levels) && CountsOf(levels)[l.Name()] == NamesWith(levels, l.Name())
  {
  }

  /** Each entry is a known level with its non-empty bucket and that bucket's size. */
  lemma {:induction false} SummarizeEntries(order: seq<AlertLevel>, counts: map<string, seq<string>>)
    requires forall l :: l in order ==> l.Name() in counts
    ensures var s := Summarize(order, counts);
      forall e :: e in s ==> e.alertLevel in order && e.count == |e.stations| > 0 && e.stations == counts[e.alertLevel.Name()]
  {
    if order != [] {
      SummarizeEntries(order[1..], counts);
    }
  }

  /** Entries follow the order of the levels, starting at position `p`. */
  lemma {:induction false} SummarizeOrdered(order: seq<AlertLevel>, counts: map<string, seq<string>>, p: nat)
    requires forall l :: l in order ==> l.Name() in counts
    requires forall i :: 0 <= i < |order| ==> Position(order[i]) == p + i
    ensures var s := Summarize(order, counts);
      && (forall i :: 0 <= i < |s| ==> p <= Position(s[i].alertLevel))
      && (forall i, j :: 0 <= i < j < |s| ==> Position(s[i].alertLevel) < Position(s[j].alertLevel))
  {
    if order != [] {
      SummarizeOrdered(order[1..], counts, p + 1);
      var rest := Summarize(order[1..], counts);
      assert forall i :: 0 <= i < |Summarize(order[1..], counts)| ==> p + 1 <= Position(Summarize(order[1..], counts)[i].alertLevel);
      var stations := counts[order[0].Name()];
      var head := if |stations| > 0 then [AlertSummary(order[0], |stations|, stations)] else [];
      var s := Summarize(order, counts);
      assert s == head + rest;
      assert Position(order[0]) == p;
      forall i | 0 <= i < |s|
        ensures i < |head| ==> Position(s[i].alertLevel) == p
        ensures i >= |head| ==> s[i] == rest[i - |head|] && p < Position(s[i].alertLevel)
      {
        if i < |head| {
          assert s[i] == head[0];
        } else {
          assert s[i] == rest[i - |head|];
        }
      }
    }
  }

  /** The levels of the entries, in order. */
  function LevelsOf(summary: seq<AlertSummary>): seq<AlertLevel> {
    if summary == [] then [] else [summary[0].alertLevel] + LevelsOf(summary[1..])
  }

  /** A level of `order` has an entry exactly when its bucket is non-empty. */
  lemma {:induction false} SummarizeCovers(order: seq<AlertLevel>, counts: map<string, seq<string>>)
    requires forall l :: l in order ==> l.Name() in counts
    ensures forall l :: l in LevelsOf(Summarize(order, counts)) <==> l in order && counts[l.Name()] != []
  {
    if order != [] {
      SummarizeCovers(order[1..], counts);
      var rest := Summarize(order[1..], counts);
      var stations := counts[order[0].Name()];
      var s := Summarize(order, counts);
      if |stations| > 0 {
        assert s[0].alertLevel == order[0] && s[1..] == rest;
        assert LevelsOf(s) == [order[0]] + LevelsOf(rest);
      } else {
        assert s == rest;
      }
      assert forall l :: l in order <==> l == order[0] || l in order[1..];
    }
  }

  /** The records whose status is one of the five known values. */
  function KnownOf(levels: seq<WaterLevel>): (known: seq<WaterLevel>) {
    if levels == [] then []
    else
      var n := |levels| - 1;
      KnownOf(levels[..n]) + (if IsKnown(levels[n].alertStatus) then [levels[n]] else [])
  }

  function TotalCount(summary: seq<AlertSummary>): nat {
    if summary == [] then 0 else summary[0].count + TotalCount(summary[1..])
  }

  /** Records with an unknown status are dropped: the counts add up to the number of known-status records. */
  lemma SummaryCountsKnownRecords(levels: seq<WaterLevel>)
    ensures TotalCount(SummaryOf(levels)) == |KnownOf(levels)|
  {
    calc {
      TotalCount(SummaryOf(levels));
      { TotalOfSummarize(levels); }
      |NamesWith(levels, "MAJOR")| + |NamesWith(levels, "MINOR")| + |NamesWith(levels, "ALERT")|
        + |NamesWith(levels, "NORMAL")| + |NamesWith(levels, "NO_DATA")|;
      { KnownSplits(levels); }
      |KnownOf(levels)|;
    }
  }

  lemma TotalOfSummarize(levels: seq<WaterLevel>)
    ensures TotalCount(SummaryOf(levels)) ==
      |NamesWith(levels, "MAJOR")| + |NamesWith(levels, "MINOR")| + |NamesWith(levels, "ALERT")|
        + |NamesWith(levels, "NORMAL")| + |NamesWith(levels, "NO_DATA")|
  {
    var c := CountsOf(levels);
    TotalOfSummarizeFrom(SummaryOrder, c);
    assert SummaryOrder[1..] == [MINOR, ALERT, NORMAL, NO_DATA];
    assert SummaryOrder[1..][1..] == [ALERT, NORMAL, NO_DATA];
    assert SummaryOrder[1..][1..][1..] == [NORMAL, NO_DATA];
    assert SummaryOrder[1..][1..][1..][1..] == [NO_DATA];
    assert BucketTotal([NO_DATA], c) == |c["NO_DATA"]|;
    assert BucketTotal([NORMAL, NO_DATA], c) == |c["NORMAL"]| + |c["NO_DATA"]|;
    assert BucketTotal([ALERT, NORMAL, NO_DATA], c) == |c["ALERT"]| + |c["NORMAL"]| + |c["NO_DATA"]|;
    assert BucketTotal(SummaryOrder[1..], c) == |c["MINOR"]| + |c["ALERT"]| + |c["NORMAL"]| + |c["NO_DATA"]|;
  }

  /** The total of a summary is the sum of its bucket sizes, counting empty buckets as 0. */
  function BucketTotal(order: seq<AlertLevel>, counts: map<string, seq<string>>): nat
    requires forall l :: l in order ==> l.Name() in counts
  {
    if order == [] then 0 else |counts[order[0].Name()]| + BucketTotal(order[1..], counts)
  }

  lemma {:induction false} TotalOfSummarizeFrom(order: seq<AlertLevel>, counts: map<string, seq<string>>)
    requires forall l :: l in order ==> l.Name() in counts
    ensures TotalCount(Summarize(order, counts)) == BucketTotal(order, counts)
  {
    if order != [] {
      TotalOfSummarizeFrom(order[1..], counts);
      var stations := counts[order[0].Name()];
      var head := if |stations| > 0 then [AlertSummary(order[0], |stations|, stations)] else [];
      TotalCountConcat(head, Summarize(order[1..], counts));
    }
  }

  lemma {:induction false} TotalCountConcat(a: seq<AlertSummary>, b: seq<AlertSummary>)
    ensures TotalCount(a + b) == TotalCount(a) + TotalCount(b)
  {
    if a != [] {
      assert (a + b)[1..] == a[1..] + b;
      TotalCountConcat(a[1..], b);
    } else {
      assert a + b == b;
    }
  }

  lemma {:induction false} KnownSplits(levels: seq<WaterLevel>)
    ensures |KnownOf(levels)| ==
      |NamesWith(levels, "MAJOR")| + |NamesWith(levels, "MINOR")| + |NamesWith(levels, "ALERT")|
        + |NamesWith(levels, "NORMAL")| + |NamesWith(levels, "NO_DATA")|
  {
    if levels != [] {
      KnownSplits(levels[..|levels| - 1]);
    }
  }
}
