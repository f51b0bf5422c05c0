/** The site-metrics reports: the main metrics bucketed per month, the
    sessions of each month split by traffic source into three channels, and
    the two joined on the Month-Year label into one latest-first table. */
module SiteMetrics {
  import opened Wrappers
  import opened Months
  import opened Tables

  /** A month bucket's main metrics. */
  datatype Metrics = Metrics(totalUsers: int, activeUsers: int, newUsers: int, returningUsers: int, events: int, sessions: int)

  /** A main-metrics response row of the all-domains report: month, user
      type and the four metric values in request order. */
  datatype UserTypeRow = UserTypeRow(month: Month, userType: string, users: int, activeUsers: int, events: int, sessions: int)

  /** A fresh bucket: every metric at 0. */
  const EmptyBucket := Metrics(0, 0, 0, 0, 0, 0)

  /** One row added to its bucket: metric 0 goes to New Users for type "new",
      to Returning Users for type "returning" and nowhere otherwise; the
      other three metrics are always added; Total Users is recomputed. */
  function AddUserTypeRow(b: Metrics, r: UserTypeRow): (b': Metrics)
    ensures b'.totalUsers == b'.newUsers + b'.returningUsers
    ensures b'.activeUsers == b.activeUsers + r.activeUsers
    ensures b'.events == b.events + r.events && b'.sessions == b.sessions + r.sessions
  {
    var nu := if r.userType == "new" then b.newUsers + r.users else b.newUsers;
    var ru := if r.userType == "returning" then b.returningUsers + r.users else b.returningUsers;
    Metrics(nu + ru, b.activeUsers + r.activeUsers, nu, ru, b.events + r.events, b.sessions + r.sessions)
  }

  /** `data_dict` of `process_main_metrics`: its keys in insertion order and
      its buckets. */
  datatype Buckets = Buckets(keys: seq<Month>, data: map<Month, Metrics>)

  function MainStep(s: Buckets, r: UserTypeRow): Buckets {
    var m := r.month;
    if m in s.data then Buckets(s.keys, s.data[m := AddUserTypeRow(s.data[m], r)])
    else Buckets(s.keys + [m], s.data[m := AddUserTypeRow(EmptyBucket, r)])
  }

  function MainBuckets(rows: seq<UserTypeRow>): Buckets {
    if |rows| == 0 then Buckets([], map[])
    else MainStep(MainBuckets(rows[..|rows| - 1]), rows[|rows| - 1])
  }

  /** Which metric of a row is summed. */
  datatype MetricKind = Users | ActiveUsers | Events | Sessions

  function MetricOf(r: UserTypeRow, k: MetricKind): int {
    match k
    case Users => r.users
    case ActiveUsers => r.activeUsers
    case Events => r.events
    case Sessions => r.sessions
  }

  /** The sum of metric k over the rows of month m, restricted to one user
      type when `only` names one. */
  function MetricSum(rows: seq<UserTypeRow>, m: Month, k: MetricKind, only: Option<string>): int {
    if |rows| == 0 then 0
    else
      var r := rows[|rows| - 1];
      MetricSum(rows[..|rows| - 1], m, k, only)
        + (if r.month == m && (only.None? || r.userType == only.value) then MetricOf(r, k) else 0)
  }

  lemma {:induction false} MetricSumUnseen(rows: seq<UserTypeRow>, m: Month, k: MetricKind, only: Option<string>)
    requires forall j :: 0 <= j < |rows| ==> rows[j].month != m
    ensures MetricSum(rows, m, k, only) == 0
  {
    if |rows| > 0 {
      MetricSumUnseen(rows[..|rows| - 1], m, k, only);
    }
  }

  /** A month has a bucket exactly when one of its rows arrives. */
  lemma {:induction false} MainBucketKeys(rows: seq<UserTypeRow>, m: Month)
    ensures m in MainBuckets(rows).data <==> exists j :: 0 <= j < |rows| && rows[j].month == m
  {
    if |rows| > 0 {
      var n := |rows| - 1;
      MainBucketKeys(rows[..n], m);
      if m in MainBuckets(rows[..n]).data {
        var j :| 0 <= j < n && rows[..n][j].month == m;
        assert rows[j].month == m;
      }
    }
  }

  /** Each bucket sums its month's rows: New Users over type "new", Returning
      Users over type "returning", the other metrics over every row; Total
      Users is New plus Returning, so rows of any other type count in
      active users, events and sessions but not in Total Users. */
  lemma {:induction false} MainBucketSums(rows: seq<UserTypeRow>, m: Month)
    requires m in MainBuckets(rows).data
    ensures var b := MainBuckets(rows).data[m];
            && b.newUsers == MetricSum(rows, m, Users, Some("new"))
            && b.returningUsers == MetricSum(rows, m, Users, Some("returning"))
            && b.totalUsers == b.newUsers + b.returningUsers
            && b.activeUsers == MetricSum(rows, m, ActiveUsers, None)
            && b.events == MetricSum(rows, m, Events, None)
            && b.sessions == MetricSum(rows, m, Sessions, None)
  {
    var n := |rows| - 1;
    var before := rows[..n];
    if m in MainBuckets(before).data {
      MainBucketSums(before, m);
    } else {
      MainBucketKeys(before, m);
      MetricSumUnseen(before, m, Users, Some("new"));
      MetricSumUnseen(before, m, Users, Some("returning"));
      MetricSumUnseen(before, m, ActiveUsers, None);
      MetricSumUnseen(before, m, Events, None);
      MetricSumUnseen(before, m, Sessions, None);
    }
  }

  /** A row of any other user type leaves Total Users where it was. */
  lemma OtherUserTypeNotCounted(rows: seq<UserTypeRow>, r: UserTypeRow)
    requires r.userType != "new" && r.userType != "returning"
    requires r.month in MainBuckets(rows).data
    ensures MainBuckets(rows + [r]).data[r.month].totalUsers == MainBuckets(rows).data[r.month].totalUsers
  {
    assert (rows + [r])[..|rows|] == rows;
  }

  /** The bucket keys are the months in the order their first row arrives. */
  lemma {:induction false} MainBucketOrder(rows: seq<UserTypeRow>)
    ensures Distinct(MainBuckets(rows).keys)
    ensures forall m :: m in MainBuckets(rows).keys <==> m in MainBuckets(rows).data
  {
    if |rows| > 0 {
      MainBucketOrder(rows[..|rows| - 1]);
    }
  }

  /** The bucketing loop of `process_main_metrics`. */
  method ProcessMainMetrics(rows: seq<UserTypeRow>) returns (keys: seq<Month>, data: map<Month, Metrics>)
    ensures Buckets(keys, data) == MainBuckets(rows)
  {
    keys, data := [], map[];
    var i := 0;
    while i < |rows|
      invariant 0 <= i <= |rows|
      invariant Buckets(keys, data) == MainBuckets(rows[..i])
    {
      assert rows[..i + 1][..i] == rows[..i];
      var r := rows[i];
      if r.month !in data {
        keys := keys + [r.month];
        data := data[r.month := EmptyBucket];
      }
      var b := data[r.month];
      var nu := b.newUsers;
      var ru := b.returningUsers;
      if r.userType == "new" {
        nu := nu + r.users;
      } else if r.userType == "returning" {
        ru := ru + r.users;
      }
      data := data[r.month := Metrics(nu + ru, b.activeUsers + r.activeUsers, nu, ru, b.events + r.events, b.sessions + r.sessions)];
      i := i + 1;
    }
    assert rows[..i] == rows;
  }

  /** The main table in dictionary order: one (month, bucket) per key. */
  function MainTable(b: Buckets): (t: seq<(Month, Metrics)>)
    requires forall m :: m in b.keys ==> m in b.data
    ensures |t| == |b.keys|
    ensures forall i :: 0 <= i < |t| ==> t[i] == (b.keys[i], b.data[b.keys[i]])
  {
    seq(|b.keys|, i requires 0 <= i < |b.keys| => (b.keys[i], b.data[b.keys[i]]))
  }

  /** A main-metrics response row of the overview report: Total, Active and
      New Users, events and sessions. */
  datatype UserTotalsRow = UserTotalsRow(month: Month, totalUsers: int, activeUsers: int, newUsers: int, events: int, sessions: int)

  /** `process_glygen_metrics` per row: Returning Users is Total Users minus
      New Users. */
  function OverviewMetrics(r: UserTotalsRow): (b: Metrics)
    ensures b.totalUsers == r.totalUsers && b.newUsers == r.newUsers
    ensures b.totalUsers == b.newUsers + b.returningUsers
  {
    Metrics(r.totalUsers, r.activeUsers, r.newUsers, r.totalUsers - r.newUsers, r.events, r.sessions)
  }

  /** The row-list loop of `process_glygen_metrics`: one row per response
      row, in response order. */
  method ProcessOverviewMetrics(rows: seq<UserTotalsRow>) returns (t: seq<(Month, Metrics)>)
    ensures |t| == |rows|
    ensures forall i :: 0 <= i < |rows| ==> t[i] == (rows[i].month, OverviewMetrics(rows[i]))
  {
    t := [];
    var i := 0;
    while i < |rows|
      invariant 0 <= i <= |rows|
      invariant |t| == i
      invariant forall j :: 0 <= j < i ==> t[j] == (rows[j].month, OverviewMetrics(rows[j]))
    {
      var r := rows[i];
      t := t + [(r.month, Metrics(r.totalUsers, r.activeUsers, r.newUsers, r.totalUsers - r.newUsers, r.events, r.sessions))];
      i := i + 1;
    }
  }

  /** Python's `str.lower()` on ASCII letters. */
  function LowerChar(c: char): char {
    if 'A' <= c <= 'Z' then (c as int + 32) as char else c
  }

  function Lower(s: string): (r: string)
    ensures |r| == |s|
    ensures forall i :: 0 <= i < |s| ==> r[i] == LowerChar(s[i])
  {
    seq(|s|, i requires 0 <= i < |s| => LowerChar(s[i]))
  }

  /** Lower-casing leaves no upper-case letter, changes nothing else, and
      so a second pass changes nothing. */
  lemma LowerNormalises(s: string)
    ensures forall i :: 0 <= i < |s| ==> !('A' <= Lower(s)[i] <= 'Z')
    ensures forall i :: 0 <= i < |s| && !('A' <= s[i] <= 'Z') ==> Lower(s)[i] == s[i]
    ensures Lower(Lower(s)) == Lower(s)
  {
  }

  /** The three traffic columns. */
  datatype Channel = OrganicSearch | Direct | Referral

  /** "google" in any case is Organic Search, "(direct)" in any case is
      Direct, and every other source is Referral. */
  function ChannelOf(source: string): Channel {
    var s := Lower(source);
    if s == "google" then OrganicSearch
    else if s == "(direct)" then Direct
    else Referral
  }

  /** Case does not matter: sources that agree up to ASCII case go to the
      same column. */
  lemma ChannelIgnoresCase(a: string, b: string)
    requires |a| == |b| && forall i :: 0 <= i < |a| ==> LowerChar(a[i]) == LowerChar(b[i])
    ensures ChannelOf(a) == ChannelOf(b)
  {
    assert Lower(a) == Lower(b);
  }

  /** For instance "Google" is Organic Search and "google.com" is Referral. */
  lemma ChannelExamples()
    ensures ChannelOf("Google") == OrganicSearch
    ensures ChannelOf("(DIRECT)") == Direct
    ensures ChannelOf("google.com") == Referral
  {
    assert Lower("Google") == "google";
    assert Lower("(DIRECT)") == "(direct)";
    assert |Lower("google.com")| != |"google"|;
  }

  /** A month's sessions per channel. */
  datatype Traffic = Traffic(organic: int, direct: int, referral: int)

  /** The sessions a month holds for one channel. */
  function SessionsOf(t: Traffic, ch: Channel): int {
    match ch
    case OrganicSearch => t.organic
    case Direct => t.direct
    case Referral => t.referral
  }

  /** Crediting a row: its channel gains exactly its sessions, every other
      channel keeps its count, so the three together gain the sessions. */
  function Credit(t: Traffic, ch: Channel, sessions: int): (t': Traffic)
    ensures forall c :: SessionsOf(t', c) == SessionsOf(t, c) + (if c == ch then sessions else 0)
    ensures t'.organic + t'.direct + t'.referral == t.organic + t.direct + t.referral + sessions
  {
    match ch
    case OrganicSearch => t.(organic := t.organic + sessions)
    case Direct => t.(direct := t.direct + sessions)
    case Referral => t.(referral := t.referral + sessions)
  }

  /** The traffic dictionary: its keys in insertion order and its rows. */
  datatype TrafficTable = TrafficTable(keys: seq<Month>, data: map<Month, Traffic>)

  function TrafficStep(s: TrafficTable, r: CategoryRow): TrafficTable {
    var m := r.month;
    var t := if m in s.data then s.data[m] else Traffic(0, 0, 0);
    TrafficTable(if m in s.data then s.keys else s.keys + [m], s.data[m := Credit(t, ChannelOf(r.category), r.value)])
  }

  /** Traffic rows are (month, source, sessions). */
  function TrafficSources(rows: seq<CategoryRow>): TrafficTable {
    if |rows| == 0 then TrafficTable([], map[])
    else TrafficStep(TrafficSources(rows[..|rows| - 1]), rows[|rows| - 1])
  }

  /** The sessions of month m whose source falls in channel ch. */
  function ChannelSessions(rows: seq<CategoryRow>, m: Month, ch: Channel): int {
    if |rows| == 0 then 0
    else
      var r := rows[|rows| - 1];
      ChannelSessions(rows[..|rows| - 1], m, ch) + (if r.month == m && ChannelOf(r.category) == ch then r.value else 0)
  }

  lemma {:induction false} ChannelSessionsUnseen(rows: seq<CategoryRow>, m: Month, ch: Channel)
    requires m !in MonthsOf(rows)
    ensures ChannelSessions(rows, m, ch) == 0
  {
    if |rows| > 0 {
      var n := |rows| - 1;
      assert MonthsOf(rows) == MonthsOf(rows[..n]) + [rows[n].month];
      ChannelSessionsUnseen(rows[..n], m, ch);
    }
  }

  /** A month has a traffic row exactly when one of its rows arrives, and the
      keys keep first-arrival order. */
  lemma {:induction false} TrafficKeys(rows: seq<CategoryRow>, m: Month)
    ensures m in TrafficSources(rows).data <==> m in MonthsOf(rows)
    ensures TrafficSources(rows).keys == MonthsSeen(rows)
  {
    if |rows| > 0 {
      var n := |rows| - 1;
      TrafficKeys(rows[..n], m);
      TrafficKeys(rows[..n], rows[n].month);
      DedupMembers(MonthsOf(rows[..n]), rows[n].month);
      MonthsOfPrefix(rows, n);
      assert MonthsOf(rows) == MonthsOf(rows[..n]) + [rows[n].month];
    }
  }

  /** Each channel column holds its own sessions of the month. */
  lemma {:induction false} TrafficChannels(rows: seq<CategoryRow>, m: Month)
    requires m in TrafficSources(rows).data
    ensures var t := TrafficSources(rows).data[m];
            && t.organic == ChannelSessions(rows, m, OrganicSearch)
            && t.direct == ChannelSessions(rows, m, Direct)
            && t.referral == ChannelSessions(rows, m, Referral)
  {
    var n := |rows| - 1;
    var before := rows[..n];
    if m in TrafficSources(before).data {
      TrafficChannels(before, m);
    } else {
      TrafficKeys(before, m);
      ChannelSessionsUnseen(before, m, OrganicSearch);
      ChannelSessionsUnseen(before, m, Direct);
      ChannelSessionsUnseen(before, m, Referral);
    }
  }

  /** Every row's sessions land in exactly one channel, so the three
      columns of a month add up to the month's sessions. */
  lemma {:induction false} TrafficSplit(rows: seq<CategoryRow>, m: Month)
    requires m in TrafficSources(rows).data
    ensures var t := TrafficSources(rows).data[m];
            t.organic + t.direct + t.referral == MonthTotal(rows, m)
  {
    var n := |rows| - 1;
    var before := rows[..n];
    if m in TrafficSources(before).data {
      TrafficSplit(before, m);
    } else {
      TrafficKeys(before, m);
      MonthTotalUnseen(before, m);
    }
  }

  /** The accumulation loop of `process_traffic_sources`. */
  method ProcessTrafficSources(rows: seq<CategoryRow>) returns (keys: seq<Month>, data: map<Month, Traffic>)
    ensures TrafficTable(keys, data) == TrafficSources(rows)
  {
    keys, data := [], map[];
    var i := 0;
    while i < |rows|
      invariant 0 <= i <= |rows|
      invariant TrafficTable(keys, data) == TrafficSources(rows[..i])
    {
      assert rows[..i + 1][..i] == rows[..i];
      var r := rows[i];
      if r.month !in data {
        keys := keys + [r.month];
        data := data[r.month := Traffic(0, 0, 0)];
      }
      var t := data[r.month];
      var source := Lower(r.category);
      if source == "google" {
        t := t.(organic := t.organic + r.value);
      } else if source == "(direct)" {
        t := t.(direct := t.direct + r.value);
      } else {
        t := t.(referral := t.referral + r.value);
      }
      data := data[r.month := t];
      i := i + 1;
    }
    assert rows[..i] == rows;
  }

  /** Where Returning Users sits: after New Users (all-domains report) or
      before it (overview report). */
  datatype UserOrder = NewThenReturning | ReturningThenNew

  /** The fixed column order of the combined table. */
  function MergedColumns(order: UserOrder): seq<string> {
    [MonthYearColumn, "Total Users", "Users/Active Users"]
      + (if order.NewThenReturning? then ["New Users", "Returning Users"] else ["Returning Users", "New Users"])
      + ["Hits/Events", "Sessions", "Organic Search", "Direct", "Referral"]
  }

  /** The value pandas selects for a column name; a traffic column of a
      month without traffic is NaN (None). */
  function ColumnValue(name: string, b: Metrics, t: Option<Traffic>): Option<int> {
    if name == "Total Users" then Some(b.totalUsers)
    else if name == "Users/Active Users" then Some(b.activeUsers)
    else if name == "New Users" then Some(b.newUsers)
    else if name == "Returning Users" then Some(b.returningUsers)
    else if name == "Hits/Events" then Some(b.events)
    else if name == "Sessions" then Some(b.sessions)
    else if t.None? then None
    else if name == "Organic Search" then Some(t.value.organic)
    else if name == "Direct" then Some(t.value.direct)
    else if name == "Referral" then Some(t.value.referral)
    else None
  }

  /** The values of one combined row, in column order after Month-Year. */
  function MergedValues(b: Metrics, t: Option<Traffic>, order: UserOrder): seq<Option<int>> {
    var users := if order.NewThenReturning? then [Some(b.newUsers), Some(b.returningUsers)]
                 else [Some(b.returningUsers), Some(b.newUsers)];
    var traffic := if t.Some? then [Some(t.value.organic), Some(t.value.direct), Some(t.value.referral)]
                   else [None, None, None];
    [Some(b.totalUsers), Some(b.activeUsers)] + users + [Some(b.events), Some(b.sessions)] + traffic
  }

  /** Where each metric sits in a combined row. */
  lemma MergedValuesShape(b: Metrics, t: Option<Traffic>, order: UserOrder)
    ensures var vs := MergedValues(b, t, order);
            && |vs| == 9
            && vs[0] == Some(b.totalUsers) && vs[1] == Some(b.activeUsers)
            && vs[2] == Some(if order.NewThenReturning? then b.newUsers else b.returningUsers)
            && vs[3] == Some(if order.NewThenReturning? then b.returningUsers else b.newUsers)
            && vs[4] == Some(b.events) && vs[5] == Some(b.sessions)
            && vs[6] == (if t.Some? then Some(t.value.organic) else None)
            && vs[7] == (if t.Some? then Some(t.value.direct) else None)
            && vs[8] == (if t.Some? then Some(t.value.referral) else None)
  {
  }

  /** The values sit under their own headers, in both column orders. */
  lemma MergedValuesUnderHeaders(b: Metrics, t: Option<Traffic>, order: UserOrder)
    ensures |MergedValues(b, t, order)| + 1 == |MergedColumns(order)| == 10
    ensures forall k :: 0 <= k < 9 ==> MergedValues(b, t, order)[k] == ColumnValue(MergedColumns(order)[k + 1], b, t)
  {
    var cols := MergedColumns(order);
    var vs := MergedValues(b, t, order);
    MergedValuesShape(b, t, order);
    if order.NewThenReturning? {
      assert cols[1..] == ["Total Users", "Users/Active Users", "New Users", "Returning Users", "Hits/Events", "Sessions", "Organic Search", "Direct", "Referral"];
    } else {
      assert cols[1..] == ["Total Users", "Users/Active Users", "Returning Users", "New Users", "Hits/Events", "Sessions", "Organic Search", "Direct", "Referral"];
    }
    forall k | 0 <= k < 9 ensures vs[k] == ColumnValue(cols[k + 1], b, t) {
      assert cols[k + 1] == cols[1..][k];
    }
  }

  /** `pd.merge(main, traffic, on='Month-Year', how='left')`: the main rows
      in their order, each with its month's traffic when there is one. */
  function LeftJoin(main: seq<(Month, Metrics)>, traffic: map<Month, Traffic>, order: UserOrder): (joined: seq<Row<seq<Option<int>>>>)
    ensures |joined| == |main|
    ensures forall i :: 0 <= i < |main| ==> joined[i].month == main[i].0
  {
    seq(|main|, i requires 0 <= i < |main| =>
      Row(main[i].0, MergedValues(main[i].1, if main[i].0 in traffic then Some(traffic[main[i].0]) else None, order)))
  }

  /** The combined table, latest month first. */
  function CombineDatasets(main: seq<(Month, Metrics)>, traffic: map<Month, Traffic>, order: UserOrder): Table<seq<Option<int>>> {
    Table(MergedColumns(order), SortLatestFirst(LeftJoin(main, traffic, order)))
  }

  /** The join keeps exactly the main rows, latest first: each combined row
      is a main row with its month's traffic, or with no traffic values when
      that month has none; traffic-only months do not appear. */
  lemma CombineKeepsMainRows(main: seq<(Month, Metrics)>, traffic: map<Month, Traffic>, order: UserOrder)
    ensures var rows := CombineDatasets(main, traffic, order).rows;
            && |rows| == |main|
            && LatestFirst(rows)
            && multiset(rows) == multiset(LeftJoin(main, traffic, order))
            && forall i :: 0 <= i < |rows| ==>
                 exists j :: 0 <= j < |main| && rows[i].month == main[j].0
                   && rows[i].values == MergedValues(main[j].1, if main[j].0 in traffic then Some(traffic[main[j].0]) else None, order)
  {
    var joined := LeftJoin(main, traffic, order);
    var rows := CombineDatasets(main, traffic, order).rows;
    forall i | 0 <= i < |rows|
      ensures exists j :: 0 <= j < |main| && rows[i].month == main[j].0
                && rows[i].values == MergedValues(main[j].1, if main[j].0 in traffic then Some(traffic[main[j].0]) else None, order)
    {
      assert rows[i] in multiset(joined);
    }
  }

  /** The main row a combined row comes from. */
  lemma CombinedRowOrigin(main: seq<(Month, Metrics)>, traffic: map<Month, Traffic>, order: UserOrder, i: nat) returns (j: nat)
    requires i < |CombineDatasets(main, traffic, order).rows|
    ensures j < |main|
    ensures CombineDatasets(main, traffic, order).rows[i]
            == Row(main[j].0, MergedValues(main[j].1, if main[j].0 in traffic then Some(traffic[main[j].0]) else None, order))
  {
    var rows := CombineDatasets(main, traffic, order).rows;
    CombineKeepsMainRows(main, traffic, order);
    j :| 0 <= j < |main| && rows[i].month == main[j].0
         && rows[i].values == MergedValues(main[j].1, if main[j].0 in traffic then Some(traffic[main[j].0]) else None, order);
  }

  /** The all-domains site-metrics table. */
  function AllDomainsMetricsTable(mainRows: seq<UserTypeRow>, trafficRows: seq<CategoryRow>): Table<seq<Option<int>>> {
    var b := MainBuckets(mainRows);
    MainBucketOrder(mainRows);
    CombineDatasets(MainTable(b), TrafficSources(trafficRows).data, NewThenReturning)
  }

  /** The overview site-metrics table. */
  function OverviewMetricsTable(mainRows: seq<UserTotalsRow>, trafficRows: seq<CategoryRow>): Table<seq<Option<int>>> {
    CombineDatasets(OverviewMain(mainRows), TrafficSources(trafficRows).data, ReturningThenNew)
  }

  /** The overview's main rows, one per response row and in its order. */
  function OverviewMain(mainRows: seq<UserTotalsRow>): (main: seq<(Month, Metrics)>)
    ensures |main| == |mainRows|
    ensures forall j :: 0 <= j < |mainRows| ==> main[j] == (mainRows[j].month, OverviewMetrics(mainRows[j]))
  {
    seq(|mainRows|, j requires 0 <= j < |mainRows| => (mainRows[j].month, OverviewMetrics(mainRows[j])))
  }

  /** In the all-domains table each row's Total Users is New plus Returning
      Users, and its traffic columns are present exactly when its month has
      traffic rows, adding up to that month's traffic sessions. */
  lemma AllDomainsMetricsRows(mainRows: seq<UserTypeRow>, trafficRows: seq<CategoryRow>, i: nat)
    requires i < |AllDomainsMetricsTable(mainRows, trafficRows).rows|
    ensures var vs := AllDomainsMetricsTable(mainRows, trafficRows).rows[i].values;
            && |vs| == 9
            && vs[0].Some? && vs[2].Some? && vs[3].Some?
            && vs[0].value == vs[2].value + vs[3].value
    ensures var row := AllDomainsMetricsTable(mainRows, trafficRows).rows[i];
            var vs := row.values;
            && (vs[6].None? <==> row.month !in MonthsOf(trafficRows))
            && (vs[6].Some? ==> vs[7].Some? && vs[8].Some? && vs[6].value + vs[7].value + vs[8].value == MonthTotal(trafficRows, row.month))
  {
    var b := MainBuckets(mainRows);
    MainBucketOrder(mainRows);
    var main := MainTable(b);
    var traffic := TrafficSources(trafficRows).data;
    assert AllDomainsMetricsTable(mainRows, trafficRows) == CombineDatasets(main, traffic, NewThenReturning);
    var j := CombinedRowOrigin(main, traffic, NewThenReturning, i);
    var m := main[j].0;
    assert m in b.data && main[j].1 == b.data[m];
    MainBucketSums(mainRows, m);
    JoinedTraffic(trafficRows, m, b.data[m], NewThenReturning);
    MergedValuesShape(b.data[m], if m in traffic then Some(traffic[m]) else None, NewThenReturning);
  }


  /** In the overview table each row comes from one response row: its Total
      Users and New Users are that row's, Returning Users (now before New
      Users) is their difference, and the traffic columns behave as in the
      all-domains table. */
  lemma OverviewMetricsRows(mainRows: seq<UserTotalsRow>, trafficRows: seq<CategoryRow>, i: nat)
    requires i < |OverviewMetricsTable(mainRows, trafficRows).rows|
    ensures var row := OverviewMetricsTable(mainRows, trafficRows).rows[i];
            var vs := row.values;
            && |vs| == 9
            && exists j :: 0 <= j < |mainRows| && row.month == mainRows[j].month
                           && vs[0] == Some(mainRows[j].totalUsers) && vs[3] == Some(mainRows[j].newUsers)
                           && vs[2] == Some(mainRows[j].totalUsers - mainRows[j].newUsers)
    ensures var row := OverviewMetricsTable(mainRows, trafficRows).rows[i];
            var vs := row.values;
            && (vs[6].None? <==> row.month !in MonthsOf(trafficRows))
            && (vs[6].Some? ==> vs[7].Some? && vs[8].Some? && vs[6].value + vs[7].value + vs[8].value == MonthTotal(trafficRows, row.month))
  {
    var main := OverviewMain(mainRows);
    var traffic := TrafficSources(trafficRows).data;
    assert OverviewMetricsTable(mainRows, trafficRows) == CombineDatasets(main, traffic, ReturningThenNew);
    var j := CombinedRowOrigin(main, traffic, ReturningThenNew, i);
    var m := mainRows[j].month;
    var b := OverviewMetrics(mainRows[j]);
    assert main[j] == (m, b);
    JoinedTraffic(trafficRows, m, b, ReturningThenNew);
    MergedValuesShape(b, if m in traffic then Some(traffic[m]) else None, ReturningThenNew);
  }

  /** The traffic values a merged row receives for its month: absent exactly
      when the month has no traffic rows, and otherwise adding up to the
      month's traffic sessions. */
  lemma JoinedTraffic(trafficRows: seq<CategoryRow>, m: Month, b: Metrics, order: UserOrder)
    ensures var traffic := TrafficSources(trafficRows).data;
            var vs := MergedValues(b, if m in traffic then Some(traffic[m]) else None, order);
            && |vs| == 9
            && (vs[6].None? <==> m !in MonthsOf(trafficRows))
            && (vs[6].Some? ==> vs[7].Some? && vs[8].Some? && vs[6].value + vs[7].value + vs[8].value == MonthTotal(trafficRows, m))
  {
    var traffic := TrafficSources(trafficRows).data;
    MergedValuesShape(b, if m in traffic then Some(traffic[m]) else None, order);
    TrafficKeys(trafficRows, m);
    if m in traffic {
      TrafficSplit(trafficRows, m);
    }
  }
}
