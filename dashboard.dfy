/** Model of components/Dashboard.tsx: the four stat cards and the list of
    today's scheduled appointments. The view has no state of its own;
    today's date is a parameter, standing for the UTC date of the clock. */
module Dashboard {
  import opened Collections
  import opened Helpers
  import opened Types
  import CalendarView
  import Reports

  /** date === today && status === 'scheduled'. */
  predicate DueToday(today: string, a: Appointment)
  {
    a.date == today && a.status == Scheduled
  }

  function Due(today: string): Appointment -> bool
  {
    (a: Appointment) => DueToday(today, a)
  }

  /** todayAppointments. */
  function TodayAppointments(apts: seq<Appointment>, today: string): seq<Appointment>
  {
    Filter(apts, Due(today))
  }

  /** Exactly the scheduled records of today, each as often as in the
      store, in store order: cancelled, completed and blocked entries of
      today are not listed. */
  lemma TodayAppointmentsSpec(apts: seq<Appointment>, today: string, x: Appointment)
    ensures multiset(TodayAppointments(apts, today))[x] ==
            if x.date == today && x.status == Scheduled then multiset(apts)[x] else 0
    ensures IsSubsequence(TodayAppointments(apts, today), apts)
  {
    FilterMultiplicity(apts, Due(today), x);
    FilterIsSubsequence(apts, Due(today));
  }

  /** The "Próximos Atendimentos" list: todayAppointments sorted by time. */
  function TodayList(apts: seq<Appointment>, today: string): seq<Appointment>
  {
    Sort(TodayAppointments(apts, today), CalendarView.ByTime)
  }

  /** The list is in non-decreasing time order and holds the same records
      as todayAppointments; for HH:MM times that is from earliest to latest. */
  lemma TodayListSpec(apts: seq<Appointment>, today: string, i: int, j: int)
    ensures SortedBy(TodayList(apts, today), CalendarView.ByTime)
    ensures multiset(TodayList(apts, today)) == multiset(TodayAppointments(apts, today))
    ensures var r := TodayList(apts, today);
            0 <= i < j < |r| && IsTimeString(r[i].time) && IsTimeString(r[j].time) ==>
              MinuteOfDay(r[i].time) <= MinuteOfDay(r[j].time)
  {
    CalendarView.ByTimePreorder();
    SortSorted(TodayAppointments(apts, today), CalendarView.ByTime);
    var r := TodayList(apts, today);
    if 0 <= i < j < |r| && IsTimeString(r[i].time) && IsTimeString(r[j].time) {
      TimeStringOrder(r[i].time, r[j].time);
    }
  }

  /** The placeholder replaces the list exactly when nothing is scheduled
      for today. */
  lemma EmptyListSpec(apts: seq<Appointment>, today: string)
    ensures |TodayAppointments(apts, today)| == 0 <==> forall i :: 0 <= i < |apts| ==> !DueToday(today, apts[i])
  {
    var r := TodayAppointments(apts, today);
    if |r| != 0 {
      assert r[0] in apts && DueToday(today, r[0]);
    }
  }

  function IsDone(a: Appointment): bool
  {
    a.status == Completed
  }

  /** totalRevenue: the price of every completed record, whatever its
      date, 0 for a service id that does not resolve. */
  function TotalRevenue(apts: seq<Appointment>, services: seq<Service>): int
  {
    Revenue(Filter(apts, IsDone), services)
  }

  /** Each new record adds its price when it is completed and nothing
      otherwise. */
  lemma TotalRevenueSnoc(apts: seq<Appointment>, services: seq<Service>, a: Appointment)
    ensures TotalRevenue(apts + [a], services) ==
            TotalRevenue(apts, services) + (if a.status == Completed then PriceOf(services, a.serviceId) else 0)
  {
    FilterSnoc(apts, a, IsDone);
    if a.status == Completed {
      RevenueConcat(Filter(apts, IsDone), [a], services);
      SumSingleton(a, PriceWeight(services));
    } else {
      assert Filter(apts + [a], IsDone) == Filter(apts, IsDone);
    }
  }

  /** The dashboard's "Receita Total" is the revenue the reports show for
      the period 'all' and every service. */
  lemma TotalRevenueMatchesReports(apts: seq<Appointment>, services: seq<Service>,
                                   inWeek: string -> bool, inMonth: string -> bool)
    ensures TotalRevenue(apts, services) ==
            Reports.TotalRevenue(Reports.FilteredAppointments(apts, Reports.All, "all", inWeek, inMonth), services)
  {
    Reports.FilteredAllPeriod(apts, "all", inWeek, inMonth);
    FilterCongruent(apts, Reports.CompletedFor("all"), IsDone);
  }

  /** The four cards: 'Hoje', 'Clientes', 'Serviços' and 'Receita Total'. */
  datatype Stats = Stats(today: nat, clients: nat, services: nat, revenue: int)

  function DashboardStats(apts: seq<Appointment>, clients: seq<Client>, services: seq<Service>, today: string): (r: Stats)
    ensures r.today == |TodayList(apts, today)|
    ensures r.clients == |clients| && r.services == |services|
    ensures r.revenue == TotalRevenue(apts, services)
  {
    Stats(|TodayAppointments(apts, today)|, |clients|, |services|, TotalRevenue(apts, services))
  }

  predicate ClientHasId(id: string, c: Client)
  {
    c.id == id
  }

  /** client?.name || 'Cliente Desconhecido'. */
  function ClientLabel(clients: seq<Client>, id: string): (r: string)
    ensures r != ""
    ensures (forall i :: 0 <= i < |clients| ==> clients[i].id != id) ==> r == "Cliente Desconhecido"
    ensures r != "Cliente Desconhecido" ==>
              exists i :: 0 <= i < |clients| && clients[i].id == id && clients[i].name == r &&
                          forall j :: 0 <= j < i ==> clients[j].id != id
    ensures forall i :: 0 <= i < |clients| && clients[i].id == id && clients[i].name != "" &&
                        (forall j :: 0 <= j < i ==> clients[j].id != id) ==>
              r == clients[i].name
  {
    match Find(clients, c => ClientHasId(id, c))
    case None => "Cliente Desconhecido"
    case Some(c) => if c.name == "" then "Cliente Desconhecido" else c.name
  }
}
