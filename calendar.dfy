/** Model of components/Calendar.tsx: the month grid, the day sidebar and
    the booking form. The appointment list is the App's; the view's own
    state is the displayed month, the selected date, the modal flag and the
    form draft. */
module CalendarView {
  import opened Collections
  import opened Text
  import opened Helpers
  import opened Types
  import opened AppState

  /** The form state, a Partial<Appointment>: status, notes and payment may
      be absent. */
  datatype Draft = Draft(
    clientId: string,
    serviceId: string,
    time: string,
    status: Option<Status>,
    notes: Option<string>,
    paymentMethod: Option<Payment>)

  const InitialDraft := Draft("", "", "09:00", Some(Scheduled), Some(""), Some(Pix))

  /** The draft after a successful submit; it sets no notes. */
  const ResetDraft := Draft("", "", "09:00", Some(Scheduled), None, Some(Pix))

  /** The only statuses the form's "Tipo" buttons set. */
  predicate FormStatus(d: Draft)
  {
    d.status == Some(Scheduled) || d.status == Some(Blocked)
  }

  /** The submit guard: an entry that is not a block needs a client. */
  predicate Rejected(d: Draft)
  {
    d.clientId == "" && d.status != Some(Blocked)
  }

  /** `s || fallback` on a string. */
  function OrElse(s: string, fallback: string): string
  {
    if s == "" then fallback else s
  }

  /** The record handleAddAppointment builds from the draft. */
  function BuildAppointment(d: Draft, date: string, id: string): (a: Appointment)
    ensures a.id == id && a.date == date && a.staffId.None?
    ensures a.clientId != "" && a.serviceId != "" && a.time != ""
    ensures d.clientId != "" ==> a.clientId == d.clientId
    ensures d.serviceId != "" ==> a.serviceId == d.serviceId
    ensures d.time != "" ==> a.time == d.time
    ensures d.status.Some? ==> a.status == d.status.value
    ensures a.notes == d.notes && a.paymentMethod == d.paymentMethod
  {
    Appointment(id, OrElse(d.clientId, "system-block"), OrElse(d.serviceId, "block"), None,
                date, OrElse(d.time, "09:00"), if d.status.Some? then d.status.value else Scheduled,
                d.notes, d.paymentMethod)
  }

  /** The appointment list after a submit. */
  function Added(apts: seq<Appointment>, d: Draft, date: string, id: string): seq<Appointment>
  {
    if Rejected(d) then apts else apts + [BuildAppointment(d, date, id)]
  }

  /** A rejected submit changes nothing; an accepted one appends exactly one
      record, dated on the selected day, and keeps every earlier record. */
  lemma AddedShape(apts: seq<Appointment>, d: Draft, date: string, id: string)
    ensures var r := Added(apts, d, date, id);
            (Rejected(d) ==> r == apts) &&
            (!Rejected(d) ==> |r| == |apts| + 1 && r[..|apts|] == apts && r[|apts|].date == date)
  {
    var r := Added(apts, d, date, id);
    if !Rejected(d) {
      assert r[..|apts|] == apts;
    }
  }

  /** Defaults: an empty client becomes 'system-block', an empty service
      'block', an empty time '09:00' and an absent status 'scheduled'. */
  lemma AddDefaults(d: Draft, date: string, id: string)
    ensures var a := BuildAppointment(d, date, id);
            (d.clientId == "" ==> a.clientId == "system-block") &&
            (d.serviceId == "" ==> a.serviceId == "block") &&
            (d.time == "" ==> a.time == "09:00") &&
            (d.status.None? ==> a.status == Scheduled)
  {
  }

  /** A record added from a form draft is scheduled or blocked, never
      completed or cancelled; a client-less one is a block. */
  lemma AddedStatus(apts: seq<Appointment>, d: Draft, date: string, id: string)
    requires FormStatus(d) && !Rejected(d)
    ensures var a := Added(apts, d, date, id)[|apts|];
            (a.status == Scheduled || a.status == Blocked) &&
            (a.clientId == "system-block" && d.clientId == "" ==> a.status == Blocked)
  {
  }

  /** cancelAppointment: a hard delete of every record with that id. */
  function Cancel(apts: seq<Appointment>, id: string): seq<Appointment>
  {
    Filter(apts, (a: Appointment) => a.id != id)
  }

  /** Cancel removes exactly the records with that id, each other record
      keeping its multiplicity and the survivors their order. */
  lemma CancelExact(apts: seq<Appointment>, id: string, x: Appointment)
    ensures multiset(Cancel(apts, id))[x] == if x.id == id then 0 else multiset(apts)[x]
    ensures IsSubsequence(Cancel(apts, id), apts)
  {
    FilterMultiplicity(apts, (a: Appointment) => a.id != id, x);
    FilterIsSubsequence(apts, (a: Appointment) => a.id != id);
  }

  lemma CancelAbsent(apts: seq<Appointment>, id: string)
    requires forall i :: 0 <= i < |apts| ==> apts[i].id != id
    ensures Cancel(apts, id) == apts
  {
    FilterAll(apts, (a: Appointment) => a.id != id);
  }

  lemma CancelTwice(apts: seq<Appointment>, id: string)
    ensures Cancel(Cancel(apts, id), id) == Cancel(apts, id)
  {
    FilterIdempotent(apts, (a: Appointment) => a.id != id);
  }

  /** completeAppointment: every record with that id becomes completed. */
  function Complete(apts: seq<Appointment>, id: string): (r: seq<Appointment>)
    ensures |r| == |apts|
  {
    seq(|apts|, i requires 0 <= i < |apts| => if apts[i].id == id then apts[i].(status := Completed) else apts[i])
  }

  /** Complete touches only the status, and only of the records with that
      id, whatever their prior status; it is idempotent. */
  lemma CompleteExact(apts: seq<Appointment>, id: string)
    ensures var r := Complete(apts, id);
            forall i :: 0 <= i < |apts| ==>
              r[i] == apts[i].(status := r[i].status) &&
              (r[i].status == Completed <==> apts[i].id == id || apts[i].status == Completed) &&
              (apts[i].id != id ==> r[i] == apts[i])
    ensures Complete(Complete(apts, id), id) == Complete(apts, id)
  {
  }

  lemma {:induction false} CancelAfterComplete(apts: seq<Appointment>, id: string)
    ensures Cancel(Complete(apts, id), id) == Cancel(apts, id)
  {
    if apts != [] {
      var s', x := apts[..|apts| - 1], apts[|apts| - 1];
      assert apts == s' + [x];
      assert Complete(apts, id) == Complete(s', id) + [Complete(apts, id)[|apts| - 1]];
      CancelAfterComplete(s', id);
      FilterSnoc(Complete(s', id), Complete(apts, id)[|apts| - 1], (a: Appointment) => a.id != id);
      FilterSnoc(s', x, (a: Appointment) => a.id != id);
    }
  }

  // ---------------------------------------------------------------------
  // Read-only views.

  function OnDate(date: string): Appointment -> bool
  {
    (a: Appointment) => a.date == date
  }

  /** a.time.localeCompare(b.time) <= 0. */
  function ByTime(a: Appointment, b: Appointment): bool
  {
    LexLeq(a.time, b.time)
  }

  lemma ByTimePreorder()
    ensures TotalPreorder(ByTime)
  {
    forall a, b ensures ByTime(a, b) || ByTime(b, a) { LexLeqTotal(a.time, b.time); }
    forall a, b, c | ByTime(a, b) && ByTime(b, c) ensures ByTime(a, c) {
      LexLeqTransitive(a.time, b.time, c.time);
    }
  }

  /** dayApts sorted by time: the sidebar list of the selected date. */
  function DayAppointments(apts: seq<Appointment>, date: string): seq<Appointment>
  {
    Sort(Filter(apts, OnDate(date)), ByTime)
  }

  /** The day list holds exactly the records of that date, each as often as
      in the store, in non-decreasing time order. */
  lemma DayAppointmentsSpec(apts: seq<Appointment>, date: string)
    ensures var r := DayAppointments(apts, date);
            SortedBy(r, ByTime) &&
            (forall x :: multiset(r)[x] == if x.date == date then multiset(apts)[x] else 0)
  {
    ByTimePreorder();
    SortSorted(Filter(apts, OnDate(date)), ByTime);
    forall x ensures multiset(DayAppointments(apts, date))[x] == if x.date == date then multiset(apts)[x] else 0 {
      FilterMultiplicity(apts, OnDate(date), x);
    }
  }

  /** For well-formed HH:MM times the list runs from earliest to latest. */
  lemma DayAppointmentsChronological(apts: seq<Appointment>, date: string, i: int, j: int)
    requires var r := DayAppointments(apts, date);
             0 <= i < j < |r| && IsTimeString(r[i].time) && IsTimeString(r[j].time)
    ensures var r := DayAppointments(apts, date);
            MinuteOfDay(r[i].time) <= MinuteOfDay(r[j].time)
  {
    DayAppointmentsSpec(apts, date);
    var r := DayAppointments(apts, date);
    TimeStringOrder(r[i].time, r[j].time);
  }

  /** The count badge of a day cell. */
  function BadgeCount(apts: seq<Appointment>, date: string): nat
  {
    |Filter(apts, OnDate(date))|
  }

  /** The entries previewed in a day cell: the first three of that date. */
  function Preview(apts: seq<Appointment>, date: string): (r: seq<Appointment>)
    ensures |r| == if BadgeCount(apts, date) < 3 then BadgeCount(apts, date) else 3
    ensures forall i :: 0 <= i < |r| ==> r[i] == Filter(apts, OnDate(date))[i] && r[i].date == date
  {
    Take(Filter(apts, OnDate(date)), 3)
  }

  /** The "+N mais" line, shown only when more than three entries exist. */
  function MoreCount(apts: seq<Appointment>, date: string): (r: Option<nat>)
    ensures r.Some? <==> BadgeCount(apts, date) > 3
    ensures r.Some? ==> r.value + |Preview(apts, date)| == BadgeCount(apts, date)
  {
    var n := BadgeCount(apts, date);
    if n > 3 then Some(n - 3) else None
  }

  /** The badge of the selected day counts the sidebar list, and the
      preview plus the hidden rest is the whole day. */
  lemma BadgeIsDayLength(apts: seq<Appointment>, date: string)
    ensures BadgeCount(apts, date) == |DayAppointments(apts, date)|
    ensures |Preview(apts, date)| + (if MoreCount(apts, date).Some? then MoreCount(apts, date).value else 0) ==
            BadgeCount(apts, date)
  {
  }

  /** new Date(year, month + delta): the month moved by delta, the year
      carrying over. */
  function ShiftMonth(year: int, month: int, delta: int): (r: (int, int))
    ensures 0 <= r.1 < 12
    ensures 12 * r.0 + r.1 == 12 * year + month + delta
  {
    (CarryYear(year, month + delta), CarryMonth(month + delta))
  }

  lemma ShiftBack(year: int, month: int)
    requires 0 <= month < 12
    ensures var (y, m) := ShiftMonth(year, month, 1); ShiftMonth(y, m, -1) == (year, month)
    ensures var (y, m) := ShiftMonth(year, month, -1); ShiftMonth(y, m, 1) == (year, month)
  {
    var next := ShiftMonth(year, month, 1);
    var back := ShiftMonth(next.0, next.1, -1);
    SameMonthIndex(back.0, back.1, year, month);
    var prev := ShiftMonth(year, month, -1);
    var forth := ShiftMonth(prev.0, prev.1, 1);
    SameMonthIndex(forth.0, forth.1, year, month);
  }

  /** A month index 12 * year + month names one (year, month) pair. */
  lemma SameMonthIndex(y1: int, m1: int, y2: int, m2: int)
    requires 0 <= m1 < 12 && 0 <= m2 < 12 && 12 * y1 + m1 == 12 * y2 + m2
    ensures y1 == y2 && m1 == m2
  {
  }

  /** One cell of the month grid. */
  datatype Cell = Blank(index: nat) | Day(day: nat, date: string)

  /** The cell of day d: the day number and its yyyy-mm-dd date. */
  function DayCell(year: int, month: int, d: int): Cell
    requires MinYear <= year <= MaxYear && 0 <= month < 12 && 1 <= d <= 31
  {
    Day(d, FormatDate(year, month + 1, d))
  }

  /** The day cells for month (0..11) of year: day i + 1 with its date. */
  function DayCells(year: int, month: int): (r: seq<Cell>)
    requires MinYear <= year <= MaxYear && 0 <= month < 12
    ensures |r| == GetDaysInMonth(year, month)
    ensures forall i :: 0 <= i < |r| ==> r[i] == Day(i + 1, FormatDate(year, month + 1, i + 1))
  {
    var n := GetDaysInMonth(year, month);
    seq(n, i requires 0 <= i < n => DayCell(year, month, i + 1))
  }

  /** The grid has seven columns headed Dom..Sáb: the cell of day d sits in
      the column of its weekday. */
  lemma CellColumnIsWeekday(year: int, month: int, d: int)
    requires 0 <= month < 12
    ensures (GetFirstDayOfMonth(year, month) + d - 1) % 7 == (DayNumber(year, month, d) + 6) % 7
  {
    assert CarryYear(year, month) == year && CarryMonth(month) == month;
    Mod7Add(DayNumber(year, month, 1) + 6, d - 1);
  }

  class Calendar {
    const salon: Salon
    var year: int
    var month: int
    var selectedDate: string
    var isModalOpen: bool
    var newApt: Draft

    ghost predicate Valid()
      reads this
    {
      0 <= month < 12 && FormStatus(newApt)
    }

    /** The view opens on today's month and date, with the modal closed. */
    constructor (salon: Salon, todayYear: int, todayMonth: int, today: string)
      requires 0 <= todayMonth < 12
      ensures Valid() && this.salon == salon
      ensures year == todayYear && month == todayMonth && selectedDate == today
      ensures !isModalOpen && newApt == InitialDraft
    {
      this.salon := salon;
      year := todayYear;
      month := todayMonth;
      selectedDate := today;
      isModalOpen := false;
      newApt := InitialDraft;
    }

    method PrevMonth()
      requires Valid()
      modifies this`year, this`month
      ensures Valid() && (year, month) == ShiftMonth(old(year), old(month), -1)
    {
      year, month := CarryYear(year, month - 1), CarryMonth(month - 1);
    }

    method NextMonth()
      requires Valid()
      modifies this`year, this`month
      ensures Valid() && (year, month) == ShiftMonth(old(year), old(month), 1)
    {
      year, month := CarryYear(year, month + 1), CarryMonth(month + 1);
    }

    /** The "Hoje" button. */
    method GoToToday(todayYear: int, todayMonth: int)
      requires Valid() && 0 <= todayMonth < 12
      modifies this`year, this`month
      ensures Valid() && year == todayYear && month == todayMonth
    {
      year, month := todayYear, todayMonth;
    }

    method SelectDate(date: string)
      modifies this`selectedDate
      ensures selectedDate == date
    {
      selectedDate := date;
    }

    method OpenModal()
      modifies this`isModalOpen
      ensures isModalOpen
    {
      isModalOpen := true;
    }

    method CloseModal()
      modifies this`isModalOpen
      ensures !isModalOpen
    {
      isModalOpen := false;
    }

    /** The "Agendamento" / "Bloqueio" buttons. */
    method ChooseKind(blocked: bool)
      requires Valid()
      modifies this`newApt
      ensures Valid() && newApt == old(newApt).(status := Some(if blocked then Blocked else Scheduled))
    {
      newApt := newApt.(status := Some(if blocked then Blocked else Scheduled));
    }

    /** The client select: every other field of the draft is kept. */
    method SetClient(clientId: string)
      requires Valid()
      modifies this`newApt
      ensures Valid() && newApt == old(newApt).(clientId := clientId)
    {
      newApt := newApt.(clientId := clientId);
    }

    /** The service select. */
    method SetService(serviceId: string)
      requires Valid()
      modifies this`newApt
      ensures Valid() && newApt == old(newApt).(serviceId := serviceId)
    {
      newApt := newApt.(serviceId := serviceId);
    }

    /** The payment buttons. */
    method SetPayment(payment: Payment)
      requires Valid()
      modifies this`newApt
      ensures Valid() && newApt == old(newApt).(paymentMethod := Some(payment))
    {
      newApt := newApt.(paymentMethod := Some(payment));
    }

    /** The time input. */
    method SetTime(time: string)
      requires Valid()
      modifies this`newApt
      ensures Valid() && newApt == old(newApt).(time := time)
    {
      newApt := newApt.(time := time);
    }

    /** The notes input: until it is typed in, notes stay absent after a
        reset. */
    method SetNotes(notes: string)
      requires Valid()
      modifies this`newApt
      ensures Valid() && newApt == old(newApt).(notes := Some(notes))
    {
      newApt := newApt.(notes := Some(notes));
    }

    /** handleAddAppointment, with freshId standing for the random id. */
    method AddAppointment(freshId: string)
      requires Valid()
      modifies salon`appointments, this`isModalOpen, this`newApt
      ensures Valid()
      ensures salon.appointments == Added(old(salon.appointments), old(newApt), selectedDate, freshId)
      ensures Rejected(old(newApt)) ==> isModalOpen == old(isModalOpen) && newApt == old(newApt)
      ensures !Rejected(old(newApt)) ==> !isModalOpen && newApt == ResetDraft
    {
      if Rejected(newApt) {
        return;
      }
      var appointment := BuildAppointment(newApt, selectedDate, freshId);
      salon.appointments := salon.appointments + [appointment];
      isModalOpen := false;
      newApt := ResetDraft;
    }

    method CancelAppointment(id: string)
      modifies salon`appointments
      ensures salon.appointments == Cancel(old(salon.appointments), id)
    {
      salon.appointments := Cancel(salon.appointments, id);
    }

    method CompleteAppointment(id: string)
      modifies salon`appointments
      ensures salon.appointments == Complete(old(salon.appointments), id)
    {
      salon.appointments := Complete(salon.appointments, id);
    }

    /** The month grid: the dayCells loop pushes one blank per weekday
        before the 1st, then come the days of the month. */
    method Cells() returns (cells: seq<Cell>)
      requires Valid() && MinYear <= year <= MaxYear
      ensures var first := GetFirstDayOfMonth(year, month);
              |cells| == first + GetDaysInMonth(year, month) &&
              (forall i :: 0 <= i < first ==> cells[i] == Blank(i)) &&
              cells[first..] == DayCells(year, month)
    {
      var firstDay := GetFirstDayOfMonth(year, month);
      cells := [];
      var i := 0;
      while i < firstDay
        invariant 0 <= i <= firstDay
        invariant |cells| == i
        invariant forall k :: 0 <= k < i ==> cells[k] == Blank(k)
      {
        cells := cells + [Blank(i)];
        i := i + 1;
      }
      cells := cells + DayCells(year, month);
    }
  }
}
