/** Model of components/StaffList.tsx: the staff roster with its search
    box, the per-member performance card, the service history modal and the
    "Novo Funcionário" form. The roster is the App's; the view's own state
    is the search term, the two modal flags and the form. */
module StaffList {
  import opened Collections
  import opened Text
  import opened Helpers
  import opened Types
  import opened AppState
  import CalendarView

  /** The newStaff form: a Staff record without id and createdAt. */
  datatype StaffForm = StaffForm(
    name: string,
    role: string,
    phone: string,
    email: string,
    color: string,
    photo: string)

  /** The form as first shown and as reset after a successful add. */
  const EmptyStaffForm := StaffForm("", "", "", "", COLORS[0], "")

  // ---------------------------------------------------------------------
  // Search.

  /** A member matches when the lower-cased name or role contains the
      lower-cased term. */
  predicate MatchesTerm(term: string, s: Staff)
  {
    Includes(Lower(s.name), Lower(term)) || Includes(Lower(s.role), Lower(term))
  }

  function Matches(term: string): Staff -> bool
  {
    (s: Staff) => MatchesTerm(term, s)
  }

  /** filteredStaff. */
  function FilteredStaff(staff: seq<Staff>, term: string): seq<Staff>
  {
    Filter(staff, Matches(term))
  }

  /** The list shows exactly the matching members, each as often as in the
      roster, in roster order. */
  lemma FilteredStaffSpec(staff: seq<Staff>, term: string, x: Staff)
    ensures multiset(FilteredStaff(staff, term))[x] == if MatchesTerm(term, x) then multiset(staff)[x] else 0
    ensures IsSubsequence(FilteredStaff(staff, term), staff)
  {
    FilterMultiplicity(staff, Matches(term), x);
    FilterIsSubsequence(staff, Matches(term));
  }

  /** An empty search box shows the whole roster. */
  lemma EmptySearchShowsAll(staff: seq<Staff>)
    ensures FilteredStaff(staff, "") == staff
  {
    assert Lower("") == "";
    forall x | x in staff ensures Matches("")(x) {
      IncludesEmpty(Lower(x.name));
    }
    FilterAll(staff, Matches(""));
  }

  lemma LowerIdempotent(s: string)
    ensures Lower(Lower(s)) == Lower(s)
  {
  }

  /** The search ignores the case of the term: typing it lower-cased
      selects the same members. */
  lemma SearchIgnoresTermCase(staff: seq<Staff>, term: string)
    ensures FilteredStaff(staff, Lower(term)) == FilteredStaff(staff, term)
  {
    LowerIdempotent(term);
    FilterCongruent(staff, Matches(Lower(term)), Matches(term));
  }

  // ---------------------------------------------------------------------
  // The performance card of one member.

  /** a.staffId === id && a.status === 'completed'. */
  predicate CompletedBy(id: string, a: Appointment)
  {
    a.staffId == Some(id) && a.status == Completed
  }

  function By(id: string): Appointment -> bool
  {
    (a: Appointment) => CompletedBy(id, a)
  }

  /** memberApts: the completed services the member performed. */
  function MemberAppointments(apts: seq<Appointment>, id: string): seq<Appointment>
  {
    Filter(apts, By(id))
  }

  /** The card's revenue: the price of each of those services, 0 for a
      service id that does not resolve. */
  function MemberRevenue(apts: seq<Appointment>, services: seq<Service>, id: string): int
  {
    Revenue(MemberAppointments(apts, id), services)
  }

  /** The card counts exactly the member's completed records, in store
      order. */
  lemma MemberAppointmentsSpec(apts: seq<Appointment>, id: string, x: Appointment)
    ensures multiset(MemberAppointments(apts, id))[x] == if CompletedBy(id, x) then multiset(apts)[x] else 0
    ensures IsSubsequence(MemberAppointments(apts, id), apts)
  {
    FilterMultiplicity(apts, By(id), x);
    FilterIsSubsequence(apts, By(id));
  }

  /** A new record adds its price to the member's revenue exactly when the
      member completed it. */
  lemma MemberRevenueSnoc(apts: seq<Appointment>, services: seq<Service>, id: string, a: Appointment)
    ensures MemberRevenue(apts + [a], services, id) ==
            MemberRevenue(apts, services, id) + (if CompletedBy(id, a) then PriceOf(services, a.serviceId) else 0)
  {
    FilterSnoc(apts, a, By(id));
    if CompletedBy(id, a) {
      RevenueConcat(MemberAppointments(apts, id), [a], services);
      SumSingleton(a, PriceWeight(services));
    } else {
      assert MemberAppointments(apts + [a], id) == MemberAppointments(apts, id);
    }
  }

  /** Scheduled, cancelled and blocked records and other members' records
      add nothing: revenue only grows from this member's completions. */
  lemma {:induction false} MemberRevenueOfOthers(apts: seq<Appointment>, services: seq<Service>, id: string)
    requires forall i :: 0 <= i < |apts| ==> !CompletedBy(id, apts[i])
    ensures MemberRevenue(apts, services, id) == 0
  {
    if apts != [] {
      var s', x := apts[..|apts| - 1], apts[|apts| - 1];
      assert apts == s' + [x];
      MemberRevenueOfOthers(s', services, id);
      MemberRevenueSnoc(s', services, id, x);
    }
  }

  /** The booking form never sets a staff member, so a booking made in
      the calendar adds nothing to any member's card, even once it is
      completed. */
  lemma CalendarBookingsHaveNoStaff(apts: seq<Appointment>, services: seq<Service>, d: CalendarView.Draft,
                                    date: string, freshId: string, id: string)
    ensures MemberRevenue(CalendarView.Added(apts, d, date, freshId), services, id) == MemberRevenue(apts, services, id)
    ensures !CompletedBy(id, CalendarView.BuildAppointment(d, date, freshId).(status := Completed))
  {
    if !CalendarView.Rejected(d) {
      MemberRevenueSnoc(apts, services, id, CalendarView.BuildAppointment(d, date, freshId));
    }
  }

  // ---------------------------------------------------------------------
  // The history modal.

  /** The history comparator at most 0: later dates first, and on one date
      later times first. */
  function NewestFirst(a: Appointment, b: Appointment): bool
  {
    if a.date != b.date then LexLeq(b.date, a.date) else LexLeq(b.time, a.time)
  }

  lemma NewestFirstPreorder()
    ensures TotalPreorder(NewestFirst)
  {
    forall a, b ensures NewestFirst(a, b) || NewestFirst(b, a) {
      LexLeqTotal(a.date, b.date);
      LexLeqTotal(a.time, b.time);
    }
    forall a, b, c | NewestFirst(a, b) && NewestFirst(b, c) ensures NewestFirst(a, c) {
      NewestFirstTransitive(a, b, c);
    }
  }

  lemma NewestFirstTransitive(a: Appointment, b: Appointment, c: Appointment)
    requires NewestFirst(a, b) && NewestFirst(b, c)
    ensures NewestFirst(a, c)
  {
    if a.date == b.date && b.date == c.date {
      LexLeqTransitive(c.time, b.time, a.time);
    } else if a.date != b.date && b.date != c.date {
      LexLeqTransitive(c.date, b.date, a.date);
      if a.date == c.date {
        LexLeqAntisymmetric(a.date, b.date);
      }
    }
  }

  /** staffHistory: nothing when no member is selected, otherwise the
      member's completed records, newest first. */
  function StaffHistory(apts: seq<Appointment>, selected: Option<Staff>): seq<Appointment>
  {
    match selected
    case None => []
    case Some(m) => Sort(MemberAppointments(apts, m.id), NewestFirst)
  }

  /** The history is ordered newest first and holds exactly the member's
      completed records. */
  lemma StaffHistorySpec(apts: seq<Appointment>, m: Staff, x: Appointment)
    ensures var r := StaffHistory(apts, Some(m));
            SortedBy(r, NewestFirst) &&
            multiset(r)[x] == if CompletedBy(m.id, x) then multiset(apts)[x] else 0
    ensures StaffHistory(apts, None) == []
  {
    NewestFirstPreorder();
    SortSorted(MemberAppointments(apts, m.id), NewestFirst);
    FilterMultiplicity(apts, By(m.id), x);
  }

  /** For well-formed dates the history runs from the latest day to the
      earliest, and within a day from the latest time to the earliest. */
  lemma HistoryChronological(apts: seq<Appointment>, m: Staff, i: int, j: int)
    requires var r := StaffHistory(apts, Some(m));
             0 <= i < j < |r| && IsCalendarDate(r[i].date) && IsCalendarDate(r[j].date)
    ensures var r := StaffHistory(apts, Some(m));
            Ordinal(r[j].date) <= Ordinal(r[i].date) &&
            (r[i].date == r[j].date && IsTimeString(r[i].time) && IsTimeString(r[j].time) ==>
               MinuteOfDay(r[j].time) <= MinuteOfDay(r[i].time))
  {
    var r := StaffHistory(apts, Some(m));
    StaffHistorySpec(apts, m, r[i]);
    assert NewestFirst(r[i], r[j]);
    if r[i].date == r[j].date {
      if IsTimeString(r[i].time) && IsTimeString(r[j].time) {
        TimeStringOrder(r[j].time, r[i].time);
      }
    } else {
      DateStringOrder(r[j].date, r[i].date);
    }
  }

  /** The "Total Produzido" line equals the card's revenue, and the modal
      lists as many services as the card counts. */
  lemma HistoryTotalIsRevenue(apts: seq<Appointment>, services: seq<Service>, m: Staff)
    ensures Revenue(StaffHistory(apts, Some(m)), services) == MemberRevenue(apts, services, m.id)
    ensures |StaffHistory(apts, Some(m))| == |MemberAppointments(apts, m.id)|
  {
    SumPermutation(StaffHistory(apts, Some(m)), MemberAppointments(apts, m.id), PriceWeight(services));
  }

  // ---------------------------------------------------------------------
  // Roster updates.

  /** The guard of handleAddStaff: both name and role are required. */
  predicate AddRejected(f: StaffForm)
  {
    f.name == "" || f.role == ""
  }

  /** The roster after a submit; id and createdAt stand for the random id
      and the current ISO timestamp. */
  function StaffAdded(staff: seq<Staff>, f: StaffForm, id: string, createdAt: string): seq<Staff>
  {
    if AddRejected(f) then staff
    else staff + [Staff(id, f.name, f.role, f.phone, f.email, f.color, f.photo, createdAt)]
  }

  /** A rejected submit changes nothing; an accepted one keeps the roster
      and appends one member carrying the form's fields, the given id and
      timestamp, with a non-empty name and role. */
  lemma StaffAddedShape(staff: seq<Staff>, f: StaffForm, id: string, createdAt: string)
    ensures var r := StaffAdded(staff, f, id, createdAt);
            (AddRejected(f) ==> r == staff) &&
            (!AddRejected(f) ==>
               |r| == |staff| + 1 && r[..|staff|] == staff &&
               r[|staff|].id == id && r[|staff|].createdAt == createdAt &&
               r[|staff|].name != "" && r[|staff|].role != "" &&
               StaffForm(r[|staff|].name, r[|staff|].role, r[|staff|].phone, r[|staff|].email,
                         r[|staff|].color, r[|staff|].photo) == f)
  {
    var r := StaffAdded(staff, f, id, createdAt);
    if !AddRejected(f) {
      assert r[..|staff|] == staff;
    }
  }

  /** removeStaff once confirmed: every member with that id leaves. */
  function WithoutStaff(staff: seq<Staff>, id: string): seq<Staff>
  {
    Filter(staff, (s: Staff) => s.id != id)
  }

  /** Exactly the members with that id leave; the others keep their
      multiplicity and their order. */
  lemma WithoutStaffExact(staff: seq<Staff>, id: string, x: Staff)
    ensures multiset(WithoutStaff(staff, id))[x] == if x.id == id then 0 else multiset(staff)[x]
    ensures IsSubsequence(WithoutStaff(staff, id), staff)
  {
    FilterMultiplicity(staff, (s: Staff) => s.id != id, x);
    FilterIsSubsequence(staff, (s: Staff) => s.id != id);
  }

  lemma WithoutStaffAbsent(staff: seq<Staff>, id: string)
    requires forall i :: 0 <= i < |staff| ==> staff[i].id != id
    ensures WithoutStaff(staff, id) == staff
  {
    FilterAll(staff, (s: Staff) => s.id != id);
  }

  lemma WithoutStaffTwice(staff: seq<Staff>, id: string)
    ensures WithoutStaff(WithoutStaff(staff, id), id) == WithoutStaff(staff, id)
  {
    FilterIdempotent(staff, (s: Staff) => s.id != id);
  }

  /** Removing a member that was just added restores the roster, when the
      fresh id was not in use. */
  lemma RemoveUndoesAdd(staff: seq<Staff>, f: StaffForm, id: string, createdAt: string)
    requires forall i :: 0 <= i < |staff| ==> staff[i].id != id
    ensures WithoutStaff(StaffAdded(staff, f, id, createdAt), id) == staff
  {
    WithoutStaffAbsent(staff, id);
    if !AddRejected(f) {
      FilterSnoc(staff, Staff(id, f.name, f.role, f.phone, f.email, f.color, f.photo, createdAt),
                 (s: Staff) => s.id != id);
    }
  }

  class StaffView {
    const salon: Salon
    var searchTerm: string
    var isAdding: bool
    var historyStaff: Option<Staff>
    var newStaff: StaffForm

    constructor (salon: Salon)
      ensures this.salon == salon
      ensures searchTerm == "" && !isAdding && historyStaff.None? && newStaff == EmptyStaffForm
    {
      this.salon := salon;
      searchTerm := "";
      isAdding := false;
      historyStaff := None;
      newStaff := EmptyStaffForm;
    }

    method SetSearchTerm(term: string)
      modifies this`searchTerm
      ensures searchTerm == term
    {
      searchTerm := term;
    }

    /** The "Novo Funcionário" button. */
    method OpenAdd()
      modifies this`isAdding
      ensures isAdding
    {
      isAdding := true;
    }

    /** The close button of the form. */
    method CloseAdd()
      modifies this`isAdding
      ensures !isAdding
    {
      isAdding := false;
    }

    /** The name, role, phone and email inputs. */
    method EditForm(name: string, role: string, phone: string, email: string)
      modifies this`newStaff
      ensures newStaff == old(newStaff).(name := name, role := role, phone := phone, email := email)
    {
      newStaff := newStaff.(name := name, role := role, phone := phone, email := email);
    }

    /** A colour swatch: one of the first five palette entries. */
    method ChooseColor(i: nat)
      requires i < 5
      modifies this`newStaff
      ensures newStaff == old(newStaff).(color := COLORS[i])
      ensures newStaff.color in StaffColorChoices()
    {
      var choices := StaffColorChoices();
      newStaff := newStaff.(color := choices[i]);
    }

    /** The photo picker, once the file has been read as a data URL. */
    method SetPhoto(dataUrl: string)
      modifies this`newStaff
      ensures newStaff == old(newStaff).(photo := dataUrl)
    {
      newStaff := newStaff.(photo := dataUrl);
    }

    /** The "Histórico" button of a card. */
    method ShowHistory(member: Staff)
      modifies this`historyStaff
      ensures historyStaff == Some(member)
    {
      historyStaff := Some(member);
    }

    method CloseHistory()
      modifies this`historyStaff
      ensures historyStaff.None?
    {
      historyStaff := None;
    }

    /** handleAddStaff. */
    method AddStaff(freshId: string, createdAt: string)
      modifies salon`staff, this`isAdding, this`newStaff
      ensures salon.staff == StaffAdded(old(salon.staff), old(newStaff), freshId, createdAt)
      ensures AddRejected(old(newStaff)) ==> isAdding == old(isAdding) && newStaff == old(newStaff)
      ensures !AddRejected(old(newStaff)) ==> !isAdding && newStaff == EmptyStaffForm
    {
      if newStaff.name == "" || newStaff.role == "" {
        return;
      }
      var f := newStaff;
      var member := Staff(freshId, f.name, f.role, f.phone, f.email, f.color, f.photo, createdAt);
      salon.staff := salon.staff + [member];
      isAdding := false;
      newStaff := EmptyStaffForm;
    }

    /** removeStaff: confirmed stands for the answer to the confirm()
        dialog. The appointments, and so every member's history, are left
        as they are. */
    method RemoveStaff(id: string, confirmed: bool)
      modifies salon`staff
      ensures salon.staff == if confirmed then WithoutStaff(old(salon.staff), id) else old(salon.staff)
    {
      if confirmed {
        salon.staff := WithoutStaff(salon.staff, id);
      }
    }
  }
}
