/** Model of components/Reports.tsx: the completed appointments of the
    chosen period and service, the per-service table, the revenue total,
    the per-day series behind the charts and the client rankings. */
module Reports {
  import opened Collections
  import opened Text
  import opened Helpers
  import opened Types

  datatype Period = Week | Month | All

  /** The period test. It depends on the clock and time zone, so the two
      date tests are parameters: inWeek(d) for new Date(d) >= weekAgo and
      inMonth(d) for "same month and year as now". */
  predicate InPeriod(period: Period, date: string, inWeek: string -> bool, inMonth: string -> bool)
  {
    match period
    case Week => inWeek(date)
    case Month => inMonth(date)
    case All => true
  }

  predicate ServiceMatches(serviceFilter: string, a: Appointment)
  {
    serviceFilter == "all" || a.serviceId == serviceFilter
  }

  function Kept(period: Period, serviceFilter: string, inWeek: string -> bool, inMonth: string -> bool): Appointment -> bool
  {
    (a: Appointment) => a.status == Completed && ServiceMatches(serviceFilter, a) && InPeriod(period, a.date, inWeek, inMonth)
  }

  /** filteredAppointments. */
  function FilteredAppointments(apts: seq<Appointment>, period: Period, serviceFilter: string,
                                inWeek: string -> bool, inMonth: string -> bool): (r: seq<Appointment>)
    ensures forall i :: 0 <= i < |r| ==> r[i].status == Completed && r[i] in apts
    ensures serviceFilter != "all" ==> forall i :: 0 <= i < |r| ==> r[i].serviceId == serviceFilter
    ensures forall i :: 0 <= i < |r| ==> InPeriod(period, r[i].date, inWeek, inMonth)
  {
    Filter(apts, Kept(period, serviceFilter, inWeek, inMonth))
  }

  /** For every period the filter is exact: a record is kept, as often as
      it is stored and in store order, exactly when it is completed, of the
      chosen service and within the period. */
  lemma FilteredAppointmentsExact(apts: seq<Appointment>, period: Period, serviceFilter: string,
                                  inWeek: string -> bool, inMonth: string -> bool, x: Appointment)
    ensures multiset(FilteredAppointments(apts, period, serviceFilter, inWeek, inMonth))[x] ==
            if x.status == Completed && ServiceMatches(serviceFilter, x) && InPeriod(period, x.date, inWeek, inMonth)
            then multiset(apts)[x] else 0
    ensures IsSubsequence(FilteredAppointments(apts, period, serviceFilter, inWeek, inMonth), apts)
  {
    FilterMultiplicity(apts, Kept(period, serviceFilter, inWeek, inMonth), x);
    FilterIsSubsequence(apts, Kept(period, serviceFilter, inWeek, inMonth));
  }

  function CompletedFor(serviceFilter: string): Appointment -> bool
  {
    (a: Appointment) => a.status == Completed && ServiceMatches(serviceFilter, a)
  }

  /** With period 'all' the filter keeps exactly the completed appointments
      of the chosen service, in order, whatever the clock says. */
  lemma FilteredAllPeriod(apts: seq<Appointment>, serviceFilter: string, inWeek: string -> bool, inMonth: string -> bool)
    ensures FilteredAppointments(apts, All, serviceFilter, inWeek, inMonth) == Filter(apts, CompletedFor(serviceFilter))
    ensures IsSubsequence(FilteredAppointments(apts, All, serviceFilter, inWeek, inMonth), apts)
  {
    FilterCongruent(apts, Kept(All, serviceFilter, inWeek, inMonth), CompletedFor(serviceFilter));
    FilterIsSubsequence(apts, Kept(All, serviceFilter, inWeek, inMonth));
  }

  /** totalRevenue: the service prices of the filtered appointments, 0 for
      an id that does not resolve. */
  function TotalRevenue(filtered: seq<Appointment>, services: seq<Service>): int
  {
    Revenue(filtered, services)
  }

  // ---------------------------------------------------------------------
  // serviceStats.

  datatype ServiceStat = ServiceStat(id: string, name: string, count: nat, revenue: int, color: string)

  function ServiceIdOf(a: Appointment): string
  {
    a.serviceId
  }

  function StatOf(filtered: seq<Appointment>, s: Service): ServiceStat
  {
    var count := |Group(filtered, ServiceIdOf, s.id)|;
    ServiceStat(s.id, s.name, count, count * s.price, s.color)
  }

  predicate HasCount(row: ServiceStat)
  {
    row.count > 0
  }

  /** b.revenue - a.revenue <= 0. */
  predicate ByRevenueDesc(a: ServiceStat, b: ServiceStat)
  {
    a.revenue >= b.revenue
  }

  /** One row per catalogue service, in catalogue order, before the filter. */
  function AllStats(filtered: seq<Appointment>, services: seq<Service>): (r: seq<ServiceStat>)
    ensures |r| == |services|
    ensures forall i :: 0 <= i < |services| ==> r[i] == StatOf(filtered, services[i])
  {
    seq(|services|, i requires 0 <= i < |services| => StatOf(filtered, services[i]))
  }

  function ServiceStats(filtered: seq<Appointment>, services: seq<Service>): seq<ServiceStat>
  {
    Sort(Filter(AllStats(filtered, services), HasCount), ByRevenueDesc)
  }

  /** The table lists exactly the catalogue services that occur in the
      filtered appointments, each with its count and count * price, by
      non-increasing revenue. */
  lemma ServiceStatsSpec(filtered: seq<Appointment>, services: seq<Service>)
    ensures var r := ServiceStats(filtered, services);
            SortedBy(r, ByRevenueDesc) &&
            (forall row :: row in r ==>
               row.count > 0 && exists i :: 0 <= i < |services| && row == StatOf(filtered, services[i])) &&
            (forall i :: 0 <= i < |services| && |Group(filtered, ServiceIdOf, services[i].id)| > 0 ==>
               StatOf(filtered, services[i]) in r)
  {
    var all := AllStats(filtered, services);
    SortSorted(Filter(all, HasCount), ByRevenueDesc);
    forall row ensures row in ServiceStats(filtered, services) <==> row in Filter(all, HasCount) {
      SortMembers(Filter(all, HasCount), ByRevenueDesc, row);
    }
    forall i | 0 <= i < |services| && |Group(filtered, ServiceIdOf, services[i].id)| > 0
      ensures StatOf(filtered, services[i]) in Filter(all, HasCount)
    {
      assert all[i] == StatOf(filtered, services[i]);
    }
  }

  /** A row is listed as often as catalogue entries yield it with a
      positive count, so a service stored twice gives two rows. */
  lemma ServiceStatsMultiplicity(filtered: seq<Appointment>, services: seq<Service>, row: ServiceStat)
    ensures multiset(ServiceStats(filtered, services))[row] ==
            if row.count > 0 then multiset(AllStats(filtered, services))[row] else 0
  {
    FilterMultiplicity(AllStats(filtered, services), HasCount, row);
  }

  /** The row's "ALTA DEMANDA" / "ESTÁVEL" tag. */
  function DemandBadge(count: int): (r: string)
    ensures r == "ALTA DEMANDA" || r == "ESTÁVEL"
    ensures r == "ALTA DEMANDA" <==> count > 5
  {
    if count > 5 then "ALTA DEMANDA" else "ESTÁVEL"
  }

  // ---------------------------------------------------------------------
  // timeSeriesData: one point per date of the filtered appointments.

  datatype Point = Point(date: string, revenue: int, count: nat)

  function DateOf(a: Appointment): string
  {
    a.date
  }

  function PointOf(filtered: seq<Appointment>, services: seq<Service>, date: string): Point
  {
    var g := Group(filtered, DateOf, date);
    Point(date, Revenue(g, services), |g|)
  }

  function PointsOf(filtered: seq<Appointment>, services: seq<Service>, dates: seq<string>): (r: seq<Point>)
    ensures |r| == |dates|
    ensures forall j :: 0 <= j < |r| ==> r[j] == PointOf(filtered, services, dates[j])
  {
    if dates == [] then []
    else
      var prefix := dates[..|dates| - 1];
      var init := PointsOf(filtered, services, prefix);
      var last := PointOf(filtered, services, dates[|dates| - 1]);
      var ps := init + [last];
      assert forall j :: 0 <= j < |init| ==> ps[j] == init[j] && prefix[j] == dates[j];
      assert ps[|init|] == last;
      ps
  }

  /** a.date.localeCompare(b.date) <= 0. */
  predicate ByDate(a: Point, b: Point)
  {
    LexLeq(a.date, b.date)
  }

  lemma ByDatePreorder()
    ensures TotalPreorder(ByDate)
  {
    forall a, b ensures ByDate(a, b) || ByDate(b, a) { LexLeqTotal(a.date, b.date); }
    forall a, b, c | ByDate(a, b) && ByDate(b, c) ensures ByDate(a, c) {
      LexLeqTransitive(a.date, b.date, c.date);
    }
  }

  /** The series: the map's values in key order, sorted by date. */
  function Series(filtered: seq<Appointment>, services: seq<Service>): seq<Point>
  {
    Sort(PointsOf(filtered, services, KeysOf(filtered, DateOf)), ByDate)
  }

  /** Every point in the map is its date's point over `prefix`. */
  ghost predicate PointsMatch(prefix: seq<Appointment>, services: seq<Service>, dataMap: map<string, Point>)
  {
    forall k :: k in dataMap ==> dataMap[k] == PointOf(prefix, services, k)
  }

  /** What the loop has built after the appointments in `prefix`: a point
      per date seen, keyed by date, and the dates in insertion order. */
  ghost predicate SeriesSoFar(prefix: seq<Appointment>, services: seq<Service>,
                              dataMap: map<string, Point>, order: seq<string>)
  {
    && order == KeysOf(prefix, DateOf)
    && (forall k :: k in dataMap <==> k in order)
    && PointsMatch(prefix, services, dataMap)
  }

  /** The first half of a step: the date gets a zero point if it is new. */
  function Opened(dataMap: map<string, Point>, date: string): map<string, Point>
  {
    if date in dataMap then dataMap else dataMap[date := Point(date, 0, 0)]
  }

  /** One forEach step keeps SeriesSoFar. */
  lemma SeriesStep(prefix: seq<Appointment>, x: Appointment, services: seq<Service>,
                   dataMap: map<string, Point>, order: seq<string>)
    requires SeriesSoFar(prefix, services, dataMap, order)
    ensures var m := Opened(dataMap, x.date);
            var o := if x.date in dataMap then order else order + [x.date];
            SeriesSoFar(prefix + [x], services, m[x.date := Bump(m[x.date], PriceOf(services, x.serviceId))], o)
  {
    var m := Opened(dataMap, x.date);
    var o := if x.date in dataMap then order else order + [x.date];
    var m' := m[x.date := Bump(m[x.date], PriceOf(services, x.serviceId))];
    assert o == KeysOf(prefix + [x], DateOf) by {
      SeriesStepOrder(prefix, x, dataMap, order);
    }
    assert forall k :: k in m' <==> k in o by {
      SeriesStepDomain(dataMap, order, x.date, Bump(m[x.date], PriceOf(services, x.serviceId)));
    }
    assert PointsMatch(prefix + [x], services, m') by {
      SeriesStepFirst(prefix, x, services, dataMap, order);
      SeriesStepValues(prefix, x, services, m);
    }
    SeriesSoFarIntro(prefix + [x], services, m', o);
  }

  lemma SeriesSoFarIntro(prefix: seq<Appointment>, services: seq<Service>,
                         dataMap: map<string, Point>, order: seq<string>)
    requires order == KeysOf(prefix, DateOf)
    requires forall k :: k in dataMap <==> k in order
    requires PointsMatch(prefix, services, dataMap)
    ensures SeriesSoFar(prefix, services, dataMap, order)
  {
  }

  /** After one step the map's keys are still exactly the ordered dates. */
  lemma SeriesStepDomain(dataMap: map<string, Point>, order: seq<string>, date: string, p: Point)
    requires forall k :: k in dataMap <==> k in order
    ensures var o := if date in dataMap then order else order + [date];
            forall k :: k in Opened(dataMap, date)[date := p] <==> k in o
  {
  }

  /** The date order after one step is the first-seen order of the longer prefix. */
  lemma SeriesStepOrder(prefix: seq<Appointment>, x: Appointment, dataMap: map<string, Point>, order: seq<string>)
    requires order == KeysOf(prefix, DateOf)
    requires forall k :: k in dataMap <==> k in order
    ensures (if x.date in dataMap then order else order + [x.date]) == KeysOf(prefix + [x], DateOf)
  {
    KeysOfSnoc(prefix, x, DateOf);
  }

  /** Creating the point for a new date puts it at its (empty) group's value. */
  lemma SeriesStepFirst(prefix: seq<Appointment>, x: Appointment, services: seq<Service>,
                        dataMap: map<string, Point>, order: seq<string>)
    requires order == KeysOf(prefix, DateOf)
    requires forall k :: k in dataMap <==> k in order
    requires PointsMatch(prefix, services, dataMap)
    ensures x.date in Opened(dataMap, x.date) && PointsMatch(prefix, services, Opened(dataMap, x.date))
  {
    if x.date !in dataMap {
      var m := dataMap[x.date := Point(x.date, 0, 0)];
      assert Group(prefix, DateOf, x.date) == [] by {
        GroupOfAbsentKey(prefix, DateOf, x.date);
      }
      assert PointOf(prefix, services, x.date) == Point(x.date, 0, 0);
      forall k | k in m
        ensures m[k] == PointOf(prefix, services, k)
      {
        if k != x.date {
          assert k in dataMap;
        }
      }
    }
  }

  lemma SeriesStepValues(prefix: seq<Appointment>, x: Appointment, services: seq<Service>, m: map<string, Point>)
    requires x.date in m && PointsMatch(prefix, services, m)
    ensures PointsMatch(prefix + [x], services, m[x.date := Bump(m[x.date], PriceOf(services, x.serviceId))])
  {
    forall k | k in m {
      PointSnoc(prefix, x, services, k);
    }
  }

  /** The forEach callback: add one appointment to its date's point,
      creating the point the first time the date is seen. */
  method Tally(dataMap: map<string, Point>, order: seq<string>, apt: Appointment, services: seq<Service>,
               ghost prefix: seq<Appointment>)
    returns (dataMap': map<string, Point>, order': seq<string>)
    requires SeriesSoFar(prefix, services, dataMap, order)
    ensures SeriesSoFar(prefix + [apt], services, dataMap', order')
  {
    SeriesStep(prefix, apt, services, dataMap, order);
    var rev := PriceOf(services, apt.serviceId);
    dataMap', order' := dataMap, order;
    if apt.date !in dataMap' {
      dataMap' := dataMap'[apt.date := Point(apt.date, 0, 0)];
      order' := order' + [apt.date];
    }
    dataMap' := dataMap'[apt.date := Bump(dataMap'[apt.date], rev)];
  }

  /** The forEach loop filling dataMap, then Object.values and the sort.
      The keys are date strings; any key order gives the same result once
      sorted by date, and insertion order is used here. */
  method TimeSeries(filtered: seq<Appointment>, services: seq<Service>) returns (r: seq<Point>)
    ensures r == Series(filtered, services)
  {
    var dataMap: map<string, Point> := map[];
    var order: seq<string> := [];
    var i := 0;
    while i < |filtered|
      invariant 0 <= i <= |filtered|
      invariant SeriesSoFar(filtered[..i], services, dataMap, order)
    {
      dataMap, order := Tally(dataMap, order, filtered[i], services, filtered[..i]);
      SeriesSoFarNext(filtered, i, services, dataMap, order);
      i := i + 1;
    }
    assert filtered[..i] == filtered;
    SeriesValues(filtered, services, dataMap, order);
    r := Sort(Values(dataMap, order), ByDate);
  }

  lemma SeriesSoFarNext(s: seq<Appointment>, i: int, services: seq<Service>,
                        dataMap: map<string, Point>, order: seq<string>)
    requires 0 <= i < |s| && SeriesSoFar(s[..i] + [s[i]], services, dataMap, order)
    ensures SeriesSoFar(s[..i + 1], services, dataMap, order)
  {
    PrefixSnoc(s, i);
  }

  /** Object.values: the map's values in key order. */
  function Values(dataMap: map<string, Point>, order: seq<string>): (r: seq<Point>)
    requires forall k :: k in order ==> k in dataMap
    ensures |r| == |order| && forall j :: 0 <= j < |order| ==> r[j] == dataMap[order[j]]
  {
    seq(|order|, j requires 0 <= j < |order| => dataMap[order[j]])
  }

  lemma SeriesValues(filtered: seq<Appointment>, services: seq<Service>,
                     dataMap: map<string, Point>, order: seq<string>)
    requires SeriesSoFar(filtered, services, dataMap, order)
    ensures (forall k :: k in order ==> k in dataMap) && Values(dataMap, order) == PointsOf(filtered, services, order)
  {
  }

  /** dataMap[apt.date].revenue += rev; dataMap[apt.date].count += 1. */
  function Bump(p: Point, rev: int): Point
  {
    p.(revenue := p.revenue + rev, count := p.count + 1)
  }

  /** Appending an appointment adds it to its date's point and leaves the
      other points as they were. */
  lemma PointSnoc(pre: seq<Appointment>, x: Appointment, services: seq<Service>, k: string)
    ensures PointOf(pre + [x], services, k) ==
              if k == x.date then Bump(PointOf(pre, services, k), PriceOf(services, x.serviceId))
              else PointOf(pre, services, k)
  {
    GroupSnoc(pre, x, DateOf, k);
    if k == x.date {
      var g := Group(pre, DateOf, k);
      assert Group(pre + [x], DateOf, k) == g + [x];
      RevenueConcat(g, [x], services);
      SumSingleton(x, PriceWeight(services));
      assert Revenue([x], services) == PriceOf(services, x.serviceId);
      assert Revenue(g + [x], services) == Revenue(g, services) + PriceOf(services, x.serviceId);
      assert PointOf(pre + [x], services, k) == Point(k, Revenue(g, services) + PriceOf(services, x.serviceId), |g| + 1);
    } else {
      assert Group(pre + [x], DateOf, k) == Group(pre, DateOf, k);
    }
  }

  function PointCount(p: Point): int
  {
    p.count
  }

  function PointRevenue(p: Point): int
  {
    p.revenue
  }

  lemma {:induction false} PointsTotals(filtered: seq<Appointment>, services: seq<Service>, dates: seq<string>)
    ensures Sum(PointsOf(filtered, services, dates), PointCount) == GroupTotals(filtered, DateOf, One, dates)
    ensures Sum(PointsOf(filtered, services, dates), PointRevenue) ==
            GroupTotals(filtered, DateOf, PriceWeight(services), dates)
  {
    if dates != [] {
      var d' := dates[..|dates| - 1];
      PointsTotals(filtered, services, d');
      SumOneIsLength(Group(filtered, DateOf, dates[|dates| - 1]));
      var ps := PointsOf(filtered, services, dates);
      assert ps[..|ps| - 1] == PointsOf(filtered, services, d');
    }
  }

  /** The chart loses nothing: its counts add up to the number of filtered
      appointments and its revenues to totalRevenue. */
  lemma SeriesTotals(filtered: seq<Appointment>, services: seq<Service>)
    ensures Sum(Series(filtered, services), PointCount) == |filtered|
    ensures Sum(Series(filtered, services), PointRevenue) == TotalRevenue(filtered, services)
  {
    var ks := KeysOf(filtered, DateOf);
    var ps := PointsOf(filtered, services, ks);
    SumPermutation(ps, Series(filtered, services), PointCount);
    SumPermutation(ps, Series(filtered, services), PointRevenue);
    PointsTotals(filtered, services, ks);
    GroupTotalsOfKeys(filtered, DateOf, One);
    GroupTotalsOfKeys(filtered, DateOf, PriceWeight(services));
    SumOneIsLength(filtered);
  }

  /** Every point of the series is the point of its own date, and that
      date occurs among the filtered appointments. */
  lemma SeriesPoints(filtered: seq<Appointment>, services: seq<Service>, j: int)
    requires 0 <= j < |Series(filtered, services)|
    ensures var p := Series(filtered, services)[j];
            p == PointOf(filtered, services, p.date) &&
            exists i :: 0 <= i < |filtered| && filtered[i].date == p.date
  {
    var ps := PointsOf(filtered, services, KeysOf(filtered, DateOf));
    var p := Series(filtered, services)[j];
    assert p in ps by {
      SortMembers(ps, ByDate, p);
    }
    PointsMember(filtered, services, p);
  }

  /** Each point built from the keys is its date's point, for a date that
      occurs. */
  lemma PointsMember(filtered: seq<Appointment>, services: seq<Service>, p: Point)
    requires p in PointsOf(filtered, services, KeysOf(filtered, DateOf))
    ensures p == PointOf(filtered, services, p.date)
    ensures exists i :: 0 <= i < |filtered| && filtered[i].date == p.date
  {
    var ks := KeysOf(filtered, DateOf);
    var ps := PointsOf(filtered, services, ks);
    var k :| 0 <= k < |ps| && ps[k] == p;
    assert p == PointOf(filtered, services, ks[k]);
    assert p.date == ks[k];
    var i :| 0 <= i < |filtered| && DateOf(filtered[i]) == ks[k];
  }

  /** Every date that occurs has a point. */
  lemma SeriesCovers(filtered: seq<Appointment>, services: seq<Service>, i: int)
    requires 0 <= i < |filtered|
    ensures exists j :: 0 <= j < |Series(filtered, services)| && Series(filtered, services)[j].date == filtered[i].date
  {
    var ks := KeysOf(filtered, DateOf);
    var ps := PointsOf(filtered, services, ks);
    var r := Series(filtered, services);
    var d := DateOf(filtered[i]);
    assert d in ks;
    var k :| 0 <= k < |ks| && ks[k] == d;
    var p := ps[k];
    assert p == PointOf(filtered, services, d);
    assert p.date == d;
    SortMembers(ps, ByDate, p);
    var j :| 0 <= j < |r| && r[j] == p;
    assert r[j].date == filtered[i].date;
  }

  lemma SeriesDistinct(filtered: seq<Appointment>, services: seq<Service>)
    ensures var r := Series(filtered, services);
            forall i, j :: 0 <= i < j < |r| ==> r[i].date != r[j].date
  {
    var ks := KeysOf(filtered, DateOf);
    var ps := PointsOf(filtered, services, ks);
    var r := Series(filtered, services);
    assert Distinct(ps) by {
      forall i, j | 0 <= i < j < |ps| ensures ps[i] != ps[j] {
        assert ps[i].date == ks[i] && ps[j].date == ks[j];
      }
    }
    PermutationDistinct(ps, r);
    forall i, j | 0 <= i < j < |r| ensures r[i].date != r[j].date {
      SeriesPoints(filtered, services, i);
      SeriesPoints(filtered, services, j);
    }
  }

  /** The points are in ascending date order. */
  lemma SeriesSorted(filtered: seq<Appointment>, services: seq<Service>)
    ensures SortedBy(Series(filtered, services), ByDate)
  {
    ByDatePreorder();
    SortSorted(PointsOf(filtered, services, KeysOf(filtered, DateOf)), ByDate);
  }

  // ---------------------------------------------------------------------
  // clientInsights: every client's completed visits, over all periods
  // and services.

  function ClientApts(apts: seq<Appointment>, clientId: string): seq<Appointment>
  {
    Filter(apts, (a: Appointment) => a.clientId == clientId && a.status == Completed)
  }

  /** Every count in the map is the size of its service id's group in `prefix`. */
  ghost predicate CountsMatch(prefix: seq<Appointment>, counts: map<string, nat>)
  {
    forall k :: k in counts ==> counts[k] == |Group(prefix, ServiceIdOf, k)|
  }

  /** What the reduce has accumulated after the visits in `prefix`. */
  ghost predicate CountsSoFar(prefix: seq<Appointment>, counts: map<string, nat>, order: seq<string>)
  {
    && order == KeysOf(prefix, ServiceIdOf)
    && (forall k :: k in counts <==> k in order)
    && CountsMatch(prefix, counts)
  }

  /** acc[apt.serviceId] = (acc[apt.serviceId] || 0) + 1. */
  function Counted(counts: map<string, nat>, id: string): map<string, nat>
  {
    counts[id := (if id in counts then counts[id] else 0) + 1]
  }

  /** One step of the reduce keeps CountsSoFar. */
  lemma CountStep(prefix: seq<Appointment>, x: Appointment, counts: map<string, nat>, order: seq<string>)
    requires CountsSoFar(prefix, counts, order)
    ensures CountsSoFar(prefix + [x], Counted(counts, x.serviceId),
                        if x.serviceId in counts then order else order + [x.serviceId])
  {
    var o := if x.serviceId in counts then order else order + [x.serviceId];
    var c := Counted(counts, x.serviceId);
    assert o == KeysOf(prefix + [x], ServiceIdOf) by {
      CountStepOrder(prefix, x, counts, order);
    }
    assert forall k :: k in c <==> k in o by {
      CountStepDomain(counts, order, x.serviceId);
    }
    assert CountsMatch(prefix + [x], c) by {
      CountStepFirst(prefix, x, counts, order);
      CountStepValues(prefix, x, counts);
    }
    CountsSoFarIntro(prefix + [x], c, o);
  }

  lemma CountsSoFarIntro(prefix: seq<Appointment>, counts: map<string, nat>, order: seq<string>)
    requires order == KeysOf(prefix, ServiceIdOf)
    requires forall k :: k in counts <==> k in order
    requires CountsMatch(prefix, counts)
    ensures CountsSoFar(prefix, counts, order)
  {
  }

  /** A service id not yet counted has no visits in the prefix. */
  lemma CountStepFirst(prefix: seq<Appointment>, x: Appointment, counts: map<string, nat>, order: seq<string>)
    requires order == KeysOf(prefix, ServiceIdOf)
    requires forall k :: k in counts <==> k in order
    ensures x.serviceId !in counts ==> Group(prefix, ServiceIdOf, x.serviceId) == []
  {
    if x.serviceId !in counts {
      GroupOfAbsentKey(prefix, ServiceIdOf, x.serviceId);
    }
  }

  lemma CountStepOrder(prefix: seq<Appointment>, x: Appointment, counts: map<string, nat>, order: seq<string>)
    requires order == KeysOf(prefix, ServiceIdOf)
    requires forall k :: k in counts <==> k in order
    ensures (if x.serviceId in counts then order else order + [x.serviceId]) == KeysOf(prefix + [x], ServiceIdOf)
  {
    KeysOfSnoc(prefix, x, ServiceIdOf);
  }

  lemma CountStepDomain(counts: map<string, nat>, order: seq<string>, id: string)
    requires forall k :: k in counts <==> k in order
    ensures var o := if id in counts then order else order + [id];
            forall k :: k in Counted(counts, id) <==> k in o
  {
  }

  lemma CountStepValues(prefix: seq<Appointment>, x: Appointment, counts: map<string, nat>)
    requires CountsMatch(prefix, counts)
    requires x.serviceId !in counts ==> Group(prefix, ServiceIdOf, x.serviceId) == []
    ensures CountsMatch(prefix + [x], Counted(counts, x.serviceId))
  {
    forall k {
      GroupSnoc(prefix, x, ServiceIdOf, k);
    }
  }

  lemma CountsSoFarNext(s: seq<Appointment>, i: int, counts: map<string, nat>, order: seq<string>)
    requires 0 <= i < |s| && CountsSoFar(s[..i] + [s[i]], counts, order)
    ensures CountsSoFar(s[..i + 1], counts, order)
  {
    PrefixSnoc(s, i);
  }

  /** The serviceCounts reduce: occurrences of each service id, and the
      ids in the order they were first written. */
  method ServiceCounts(clientApts: seq<Appointment>) returns (counts: map<string, nat>, order: seq<string>)
    ensures order == KeysOf(clientApts, ServiceIdOf)
    ensures forall k :: k in counts <==> k in order
    ensures forall k :: k in counts ==> counts[k] == |Group(clientApts, ServiceIdOf, k)|
  {
    counts, order := map[], [];
    var i := 0;
    while i < |clientApts|
      invariant 0 <= i <= |clientApts|
      invariant CountsSoFar(clientApts[..i], counts, order)
    {
      var apt := clientApts[i];
      CountStep(clientApts[..i], apt, counts, order);
      if apt.serviceId !in counts {
        order := order + [apt.serviceId];
      }
      counts := counts[apt.serviceId := (if apt.serviceId in counts then counts[apt.serviceId] else 0) + 1];
      CountsSoFarNext(clientApts, i, counts, order);
      i := i + 1;
    }
    assert clientApts[..i] == clientApts;
  }

  datatype Entry = Entry(key: string, count: nat)

  function EntriesOf(clientApts: seq<Appointment>, keys: seq<string>): (r: seq<Entry>)
    ensures |r| == |keys|
    ensures forall j :: 0 <= j < |r| ==> r[j] == Entry(keys[j], |Group(clientApts, ServiceIdOf, keys[j])|)
  {
    seq(|keys|, j requires 0 <= j < |keys| => Entry(keys[j], |Group(clientApts, ServiceIdOf, keys[j])|))
  }

  /** A key that is an array index: a canonical decimal below 2^32 - 1. */
  predicate IsArrayIndex(k: string)
  {
    k != [] && AllDigits(k) && (k[0] != '0' || |k| == 1) && DigitsValue(k) < 0xFFFF_FFFF
  }

  predicate NotArrayIndex(k: string)
  {
    !IsArrayIndex(k)
  }

  function IndexValue(k: string): nat
  {
    if AllDigits(k) then DigitsValue(k) else 0
  }

  predicate ByIndex(a: string, b: string)
  {
    IndexValue(a) <= IndexValue(b)
  }

  /** Object.entries order: array-index keys ascending, then the other keys
      in insertion order. */
  function EntriesOrder(keys: seq<string>): (r: seq<string>)
    ensures forall k :: k in r <==> k in keys
  {
    var r := Sort(Filter(keys, IsArrayIndex), ByIndex) + Filter(keys, NotArrayIndex);
    assert forall k :: k in Sort(Filter(keys, IsArrayIndex), ByIndex) <==> k in Filter(keys, IsArrayIndex) by {
      forall k { SortMembers(Filter(keys, IsArrayIndex), ByIndex, k); }
    }
    r
  }

  /** (b[1] as number) - (a[1] as number) <= 0. */
  predicate ByCountDesc(a: Entry, b: Entry)
  {
    a.count >= b.count
  }

  /** The entries, sorted by count, descending. */
  function RankedEntries(clientApts: seq<Appointment>): seq<Entry>
  {
    Sort(EntriesOf(clientApts, EntriesOrder(KeysOf(clientApts, ServiceIdOf))), ByCountDesc)
  }

  lemma EntriesMembers(clientApts: seq<Appointment>, keys: seq<string>, e: Entry)
    ensures e in EntriesOf(clientApts, keys) <==>
            e.key in keys && e.count == |Group(clientApts, ServiceIdOf, e.key)|
  {
    var es := EntriesOf(clientApts, keys);
    if e.key in keys && e.count == |Group(clientApts, ServiceIdOf, e.key)| {
      var m :| 0 <= m < |keys| && keys[m] == e.key;
      assert es[m] == e;
    }
  }

  /** A service id is a key of the visits iff some visit has it. */
  lemma VisitKeys(clientApts: seq<Appointment>, k: string)
    ensures k in KeysOf(clientApts, ServiceIdOf) <==>
            exists i :: 0 <= i < |clientApts| && clientApts[i].serviceId == k
  {
    if exists i :: 0 <= i < |clientApts| && clientApts[i].serviceId == k {
      var i :| 0 <= i < |clientApts| && clientApts[i].serviceId == k;
      assert ServiceIdOf(clientApts[i]) == k;
    }
  }

  /** The ranked entries are exactly one entry per visited service id,
      carrying the number of visits with that id. */
  lemma RankedEntriesMembers(clientApts: seq<Appointment>, e: Entry)
    ensures e in RankedEntries(clientApts) <==>
            e.count == |Group(clientApts, ServiceIdOf, e.key)| &&
            exists i :: 0 <= i < |clientApts| && clientApts[i].serviceId == e.key
  {
    var ks := KeysOf(clientApts, ServiceIdOf);
    SortMembers(EntriesOf(clientApts, EntriesOrder(ks)), ByCountDesc, e);
    EntriesMembers(clientApts, EntriesOrder(ks), e);
    VisitKeys(clientApts, e.key);
  }

  /** The favourite service id: the first entry after a stable sort by
      count, descending; none when the client has no visits. */
  function FavoriteServiceId(clientApts: seq<Appointment>): Option<string>
  {
    var es := RankedEntries(clientApts);
    if es == [] then None else Some(es[0].key)
  }

  /** The ranked entries are sorted by count, descending. */
  lemma RankedEntriesSorted(clientApts: seq<Appointment>)
    ensures SortedBy(RankedEntries(clientApts), ByCountDesc)
  {
    assert TotalPreorder(ByCountDesc);
    SortSorted(EntriesOf(clientApts, EntriesOrder(KeysOf(clientApts, ServiceIdOf))), ByCountDesc);
  }

  /** The first ranked entry has the largest count of all visited ids. */
  lemma RankedHeadIsMax(clientApts: seq<Appointment>, i: int)
    requires 0 <= i < |clientApts|
    ensures RankedEntries(clientApts) != []
    ensures |Group(clientApts, ServiceIdOf, clientApts[i].serviceId)| <= RankedEntries(clientApts)[0].count
  {
    var es := RankedEntries(clientApts);
    var e := Entry(clientApts[i].serviceId, |Group(clientApts, ServiceIdOf, clientApts[i].serviceId)|);
    RankedEntriesMembers(clientApts, e);
    RankedEntriesSorted(clientApts);
    SortedHead(es, ByCountDesc, e);
  }

  /** The favourite exists iff the client has a visit; it is the id of one
      of the visits, and no service id occurs more often among them. */
  lemma FavoriteIsMostFrequent(clientApts: seq<Appointment>)
    ensures FavoriteServiceId(clientApts).Some? <==> clientApts != []
    ensures FavoriteServiceId(clientApts).Some? ==>
            var k := FavoriteServiceId(clientApts).value;
            (exists i :: 0 <= i < |clientApts| && clientApts[i].serviceId == k) &&
            forall i :: 0 <= i < |clientApts| ==>
              |Group(clientApts, ServiceIdOf, clientApts[i].serviceId)| <= |Group(clientApts, ServiceIdOf, k)|
  {
    var es := RankedEntries(clientApts);
    if clientApts != [] {
      RankedHeadIsMax(clientApts, 0);
    }
    if es != [] {
      assert es[0] in es;
      RankedEntriesMembers(clientApts, es[0]);
      forall i | 0 <= i < |clientApts|
        ensures |Group(clientApts, ServiceIdOf, clientApts[i].serviceId)| <= es[0].count
      {
        RankedHeadIsMax(clientApts, i);
      }
    }
  }

  /** services.find(s => s.id === favoriteServiceId)?.name || 'Nenhum'. */
  function FavoriteService(clientApts: seq<Appointment>, services: seq<Service>): string
  {
    match FavoriteServiceId(clientApts)
    case None => "Nenhum"
    case Some(k) =>
      match FindService(services, k)
      case None => "Nenhum"
      case Some(s) => if s.name == "" then "Nenhum" else s.name
  }

  /** A client without visits has no favourite. */
  lemma FavoriteOfNoVisits(clientApts: seq<Appointment>, services: seq<Service>)
    requires clientApts == []
    ensures FavoriteService(clientApts, services) == "Nenhum"
  {
    assert FavoriteServiceId(clientApts).None? by { FavoriteIsMostFrequent(clientApts); }
  }

  /** A favourite id that resolves to a named service shows that name. */
  lemma FavoriteNameShown(clientApts: seq<Appointment>, services: seq<Service>)
    ensures var k := FavoriteServiceId(clientApts);
            k.Some? && FindService(services, k.value).Some? && FindService(services, k.value).value.name != "" ==>
              FavoriteService(clientApts, services) == FindService(services, k.value).value.name
  {
  }

  /** Whatever is shown is 'Nenhum' or the name of a catalogue service
      whose id is the most frequent among the client's visits. */
  lemma FavoriteServiceSpec(clientApts: seq<Appointment>, services: seq<Service>)
    ensures var f := FavoriteService(clientApts, services);
            f == "Nenhum" ||
            exists s :: s in services && s.name == f && FavoriteServiceId(clientApts) == Some(s.id) &&
              forall i :: 0 <= i < |clientApts| ==>
                |Group(clientApts, ServiceIdOf, clientApts[i].serviceId)| <= |Group(clientApts, ServiceIdOf, s.id)|
  {
    FavoriteIsMostFrequent(clientApts);
  }

  datatype Insight = Insight(id: string, name: string, frequency: nat, totalSpend: int, favoriteService: string)

  function InsightOf(apts: seq<Appointment>, services: seq<Service>, c: Client): Insight
  {
    var visits := ClientApts(apts, c.id);
    Insight(c.id, c.name, |visits|, Revenue(visits, services), FavoriteService(visits, services))
  }

  predicate HasVisits(row: Insight)
  {
    row.frequency > 0
  }

  /** clients.map(...): one insight row per client, in client order. */
  function AllInsights(clients: seq<Client>, apts: seq<Appointment>, services: seq<Service>): (r: seq<Insight>)
    ensures |r| == |clients|
    ensures forall i :: 0 <= i < |r| ==> r[i] == InsightOf(apts, services, clients[i])
  {
    seq(|clients|, i requires 0 <= i < |clients| => InsightOf(apts, services, clients[i]))
  }

  function ClientInsights(clients: seq<Client>, apts: seq<Appointment>, services: seq<Service>): seq<Insight>
  {
    Filter(AllInsights(clients, apts, services), HasVisits)
  }

  /** One row per client with a completed visit, in client order, carrying
      the visit count, the spend and the favourite of those visits. */
  lemma ClientInsightsSpec(clients: seq<Client>, apts: seq<Appointment>, services: seq<Service>)
    ensures var r := ClientInsights(clients, apts, services);
            (forall row :: row in r ==>
               row.frequency > 0 && exists i :: 0 <= i < |clients| && row == InsightOf(apts, services, clients[i])) &&
            (forall i :: 0 <= i < |clients| && |ClientApts(apts, clients[i].id)| > 0 ==>
               InsightOf(apts, services, clients[i]) in r)
  {
    var all := AllInsights(clients, apts, services);
    var r := Filter(all, HasVisits);
    forall row | row in r
      ensures row.frequency > 0 && exists i :: 0 <= i < |clients| && row == InsightOf(apts, services, clients[i])
    {
      var k :| 0 <= k < |r| && r[k] == row;
      assert row in all && HasVisits(row);
      var i :| 0 <= i < |all| && all[i] == row;
      assert row == InsightOf(apts, services, clients[i]);
    }
    forall i | 0 <= i < |clients| && |ClientApts(apts, clients[i].id)| > 0
      ensures InsightOf(apts, services, clients[i]) in r
    {
      assert all[i] == InsightOf(apts, services, clients[i]);
      assert HasVisits(all[i]);
    }
  }

  /** The rows keep client order, and each appears exactly as often as
      in the per-client rows, when it has a visit. */
  lemma ClientInsightsOrder(clients: seq<Client>, apts: seq<Appointment>, services: seq<Service>)
    ensures IsSubsequence(ClientInsights(clients, apts, services), AllInsights(clients, apts, services))
    ensures forall row :: multiset(ClientInsights(clients, apts, services))[row] ==
              if row.frequency > 0 then multiset(AllInsights(clients, apts, services))[row] else 0
  {
    var all := AllInsights(clients, apts, services);
    FilterIsSubsequence(all, HasVisits);
    forall row ensures multiset(Filter(all, HasVisits))[row] == if HasVisits(row) then multiset(all)[row] else 0 {
      FilterMultiplicity(all, HasVisits, row);
    }
  }

  predicate ByFrequencyDesc(a: Insight, b: Insight)
  {
    a.frequency >= b.frequency
  }

  predicate BySpendDesc(a: Insight, b: Insight)
  {
    a.totalSpend >= b.totalSpend
  }

  function TopByFrequency(insights: seq<Insight>): seq<Insight>
  {
    Take(Sort(insights, ByFrequencyDesc), 5)
  }

  function TopBySpend(insights: seq<Insight>): seq<Insight>
  {
    Take(Sort(insights, BySpendDesc), 5)
  }

  /** The two rankings: at most five insight rows each, by non-increasing
      key, and no row left out ranks above a row kept. */
  lemma TopListsSpec(insights: seq<Insight>)
    ensures var f := TopByFrequency(insights);
            |f| <= 5 && SortedBy(f, ByFrequencyDesc) && (forall x :: x in f ==> x in insights) &&
            forall x :: x in insights && x !in f ==> forall t :: t in f ==> t.frequency >= x.frequency
    ensures var s := TopBySpend(insights);
            |s| <= 5 && SortedBy(s, BySpendDesc) && (forall x :: x in s ==> x in insights) &&
            forall x :: x in insights && x !in s ==> forall t :: t in s ==> t.totalSpend >= x.totalSpend
  {
    assert TotalPreorder(ByFrequencyDesc);
    assert TotalPreorder(BySpendDesc);
    SortSorted(insights, ByFrequencyDesc);
    SortSorted(insights, BySpendDesc);
    SortedTake(Sort(insights, ByFrequencyDesc), ByFrequencyDesc, 5);
    SortedTake(Sort(insights, BySpendDesc), BySpendDesc, 5);
    forall x | x in TopByFrequency(insights) ensures x in insights {
      SortMembers(insights, ByFrequencyDesc, x);
    }
    forall x | x in TopBySpend(insights) ensures x in insights {
      SortMembers(insights, BySpendDesc, x);
    }
    forall x | x in insights && x !in TopByFrequency(insights)
      ensures forall t :: t in TopByFrequency(insights) ==> t.frequency >= x.frequency
    {
      TopCut(insights, ByFrequencyDesc, 5, x);
    }
    forall x | x in insights && x !in TopBySpend(insights)
      ensures forall t :: t in TopBySpend(insights) ==> t.totalSpend >= x.totalSpend
    {
      TopCut(insights, BySpendDesc, 5, x);
    }
  }

  /** Each ranking is the first min(5, n) rows of a permutation of the
      insights, so it repeats none and drops none of the top rows. */
  lemma TopListsSize(insights: seq<Insight>)
    ensures |TopByFrequency(insights)| == if |insights| < 5 then |insights| else 5
    ensures multiset(TopByFrequency(insights)) <= multiset(insights)
    ensures |TopBySpend(insights)| == if |insights| < 5 then |insights| else 5
    ensures multiset(TopBySpend(insights)) <= multiset(insights)
  {
    TakeSubMultiset(Sort(insights, ByFrequencyDesc), 5);
    TakeSubMultiset(Sort(insights, BySpendDesc), 5);
  }
}
