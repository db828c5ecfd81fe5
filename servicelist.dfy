/** Model of components/ServiceList.tsx: the service catalogue and the
    "Novo Serviço" form. The catalogue is the App's; the view's own state
    is the modal flag and the form. */
module ServiceList {
  import opened Collections
  import opened Helpers
  import opened Types
  import opened AppState

  /** The newService form; duration and price are the values Number()
      produced from the inputs. */
  datatype ServiceForm = ServiceForm(name: string, duration: int, price: int, color: string)

  /** The form as first shown and as reset after a submit: one hour, free,
      the first palette colour. */
  const InitialServiceForm := ServiceForm("", 60, 0, COLORS[0])

  /** handleAddService: the form's record appended, with no check of its
      fields; id stands for the random id. */
  function ServiceAdded(services: seq<Service>, f: ServiceForm, id: string): seq<Service>
  {
    services + [Service(id, f.name, f.duration, f.price, f.color)]
  }

  /** The catalogue keeps its entries and gains one carrying the form's
      fields; with an unused id, that service is what price lookups for the
      id find. */
  lemma ServiceAddedSpec(services: seq<Service>, f: ServiceForm, id: string)
    ensures var r := ServiceAdded(services, f, id);
            |r| == |services| + 1 && r[..|services|] == services &&
            r[|services|] == Service(id, f.name, f.duration, f.price, f.color)
    ensures (forall i :: 0 <= i < |services| ==> services[i].id != id) ==>
            FindService(ServiceAdded(services, f, id), id) == Some(Service(id, f.name, f.duration, f.price, f.color)) &&
            PriceOf(ServiceAdded(services, f, id), id) == f.price
  {
    var r := ServiceAdded(services, f, id);
    assert r[..|services|] == services;
    FindSnoc(services, Service(id, f.name, f.duration, f.price, f.color), s => ServiceHasId(id, s));
  }

  /** Adding a service leaves the price of every id already in use. */
  lemma ServiceAddedKeepsPrices(services: seq<Service>, f: ServiceForm, id: string, k: string)
    requires exists i :: 0 <= i < |services| && services[i].id == k
    ensures PriceOf(ServiceAdded(services, f, id), k) == PriceOf(services, k)
  {
    FindSnoc(services, Service(id, f.name, f.duration, f.price, f.color), s => ServiceHasId(k, s));
  }

  /** removeService: every service with that id leaves, without asking. */
  function WithoutService(services: seq<Service>, id: string): seq<Service>
  {
    Filter(services, (s: Service) => s.id != id)
  }

  lemma WithoutServiceExact(services: seq<Service>, id: string, x: Service)
    ensures multiset(WithoutService(services, id))[x] == if x.id == id then 0 else multiset(services)[x]
    ensures IsSubsequence(WithoutService(services, id), services)
  {
    FilterMultiplicity(services, (s: Service) => s.id != id, x);
    FilterIsSubsequence(services, (s: Service) => s.id != id);
  }

  lemma WithoutServiceAbsent(services: seq<Service>, id: string)
    requires forall i :: 0 <= i < |services| ==> services[i].id != id
    ensures WithoutService(services, id) == services
  {
    FilterAll(services, (s: Service) => s.id != id);
  }

  lemma WithoutServiceTwice(services: seq<Service>, id: string)
    ensures WithoutService(WithoutService(services, id), id) == WithoutService(services, id)
  {
    FilterIdempotent(services, (s: Service) => s.id != id);
  }

  /** After a removal the id prices at 0, and every other id keeps its
      price. */
  lemma WithoutServicePrices(services: seq<Service>, id: string, k: string)
    ensures PriceOf(WithoutService(services, id), id) == 0
    ensures k != id ==> PriceOf(WithoutService(services, id), k) == PriceOf(services, k)
  {
    if k != id {
      FindFilter(services, (s: Service) => s.id != id, s => ServiceHasId(k, s));
    }
  }

  function NotFor(id: string): Appointment -> bool
  {
    (a: Appointment) => a.serviceId != id
  }

  /** The appointments booked for a removed service stay in the store but
      no longer add to revenue: the revenue over the reduced catalogue is
      the revenue of the other records over the full one. */
  lemma {:induction false} RevenueAfterRemoval(apts: seq<Appointment>, services: seq<Service>, id: string)
    ensures Revenue(apts, WithoutService(services, id)) ==
            Revenue(Filter(apts, NotFor(id)), services)
  {
    if apts != [] {
      var s', x := apts[..|apts| - 1], apts[|apts| - 1];
      assert apts == s' + [x];
      RevenueAfterRemoval(s', services, id);
      WithoutServicePrices(services, id, x.serviceId);
      FilterSnoc(s', x, NotFor(id));
      var kept := Filter(s', NotFor(id));
      RevenueConcat(s', [x], WithoutService(services, id));
      SumSingleton(x, PriceWeight(WithoutService(services, id)));
      assert PriceWeight(WithoutService(services, id))(x) == PriceOf(WithoutService(services, id), x.serviceId);
      if x.serviceId != id {
        RevenueConcat(kept, [x], services);
        SumSingleton(x, PriceWeight(services));
      } else {
        assert Filter(apts, NotFor(id)) == kept;
      }
    }
  }

  class ServiceView {
    const salon: Salon
    var isAdding: bool
    var newService: ServiceForm

    constructor (salon: Salon)
      ensures this.salon == salon && !isAdding && newService == InitialServiceForm
    {
      this.salon := salon;
      isAdding := false;
      newService := InitialServiceForm;
    }

    /** The "Novo Serviço" button. */
    method OpenAdd()
      modifies this`isAdding
      ensures isAdding
    {
      isAdding := true;
    }

    method CloseAdd()
      modifies this`isAdding
      ensures !isAdding
    {
      isAdding := false;
    }

    /** The name, duration and price inputs. */
    method EditForm(name: string, duration: int, price: int)
      modifies this`newService
      ensures newService == old(newService).(name := name, duration := duration, price := price)
    {
      newService := newService.(name := name, duration := duration, price := price);
    }

    /** A colour swatch: any palette entry. */
    method ChooseColor(i: nat)
      requires i < |COLORS|
      modifies this`newService
      ensures newService == old(newService).(color := COLORS[i])
    {
      newService := newService.(color := COLORS[i]);
    }

    /** handleAddService. */
    method AddService(freshId: string)
      modifies salon`services, this`isAdding, this`newService
      ensures salon.services == ServiceAdded(old(salon.services), old(newService), freshId)
      ensures !isAdding && newService == InitialServiceForm
    {
      var f := newService;
      salon.services := salon.services + [Service(freshId, f.name, f.duration, f.price, f.color)];
      isAdding := false;
      newService := InitialServiceForm;
    }

    /** removeService. */
    method RemoveService(id: string)
      modifies salon`services
      ensures salon.services == WithoutService(old(salon.services), id)
    {
      salon.services := WithoutService(salon.services, id);
    }
  }
}
