/** The records of types.ts, with two fields the components read but the
    interfaces omit: Appointment.staffId (StaffList.tsx) and User.address
    (Settings.tsx), and the Staff record as StaffList.tsx builds it. Prices
    are whole numbers (cents, say) instead of JavaScript numbers. */
module Types {
  import opened Collections

  datatype Status = Scheduled | Cancelled | Completed | Blocked

  /** 'Dinheiro' | 'Cartão' | 'Pix'. */
  datatype Payment = Dinheiro | Cartao | Pix

  datatype Appointment = Appointment(
    id: string,
    clientId: string,
    serviceId: string,
    staffId: Option<string>,
    date: string,
    time: string,
    status: Status,
    notes: Option<string>,
    paymentMethod: Option<Payment>)

  datatype Client = Client(id: string, name: string, phone: string, email: string, createdAt: string)

  datatype Service = Service(id: string, name: string, duration: int, price: int, color: string)

  datatype Staff = Staff(
    id: string,
    name: string,
    role: string,
    phone: string,
    email: string,
    color: string,
    photo: string,
    createdAt: string)

  datatype User = User(
    id: string,
    name: string,
    email: string,
    salonName: string,
    password: Option<string>,
    address: Option<string>)

  predicate IsCompleted(a: Appointment)
  {
    a.status == Completed
  }

  predicate ServiceHasId(id: string, s: Service)
  {
    s.id == id
  }

  /** services.find(s => s.id === id): the first service with that id. */
  function FindService(services: seq<Service>, id: string): (r: Option<Service>)
    ensures r.None? <==> forall i :: 0 <= i < |services| ==> services[i].id != id
    ensures r.Some? ==> r.value in services && r.value.id == id
    ensures r.Some? ==> exists i :: 0 <= i < |services| && services[i] == r.value &&
                                    forall j :: 0 <= j < i ==> services[j].id != id
  {
    Find(services, s => ServiceHasId(id, s))
  }

  /** service?.price || 0: the price of the first service with that id, 0
      when the id does not resolve. */
  function PriceOf(services: seq<Service>, id: string): (r: int)
    ensures (forall i :: 0 <= i < |services| ==> services[i].id != id) ==> r == 0
    ensures r != 0 ==> exists i :: 0 <= i < |services| && services[i].id == id && services[i].price == r
    ensures forall i :: 0 <= i < |services| && services[i].id == id && (forall j :: 0 <= j < i ==> services[j].id != id) ==>
              r == services[i].price
  {
    match FindService(services, id)
    case None => 0
    case Some(s) => s.price
  }

  /** The revenue weight of one appointment: its service's price. */
  function PriceWeight(services: seq<Service>): Appointment -> int
  {
    (a: Appointment) => PriceOf(services, a.serviceId)
  }

  /** reduce((acc, apt) => acc + (service?.price || 0), 0). */
  function Revenue(apts: seq<Appointment>, services: seq<Service>): int
  {
    Sum(apts, PriceWeight(services))
  }

  /** Revenue adds up over a split of the list. */
  lemma RevenueConcat(a: seq<Appointment>, b: seq<Appointment>, services: seq<Service>)
    ensures Revenue(a + b, services) == Revenue(a, services) + Revenue(b, services)
  {
    SumConcat(a, b, PriceWeight(services));
  }

  /** With no negative prices, revenue is never negative. */
  lemma {:induction false} RevenueNonNegative(apts: seq<Appointment>, services: seq<Service>)
    requires forall i :: 0 <= i < |services| ==> services[i].price >= 0
    ensures Revenue(apts, services) >= 0
  {
    if apts != [] {
      RevenueNonNegative(apts[..|apts| - 1], services);
      assert PriceWeight(services)(apts[|apts| - 1]) >= 0;
    }
  }
}
