/** Model of components/ClientList.tsx: the client table with its search
    box and the "Novo Cliente" form. The client list is the App's; the
    view's own state is the search term, the modal flag and the form. */
module ClientList {
  import opened Collections
  import opened Text
  import opened Types
  import opened AppState

  /** The newClient form: a Client record without id and createdAt. */
  datatype ClientForm = ClientForm(name: string, phone: string, email: string)

  const EmptyClientForm := ClientForm("", "", "")

  // ---------------------------------------------------------------------
  // Search.

  /** A client matches when the lower-cased name contains the lower-cased
      term, or the phone contains the term as typed. */
  predicate MatchesTerm(term: string, c: Client)
  {
    Includes(Lower(c.name), Lower(term)) || Includes(c.phone, term)
  }

  function Matches(term: string): Client -> bool
  {
    (c: Client) => MatchesTerm(term, c)
  }

  /** filteredClients. */
  function FilteredClients(clients: seq<Client>, term: string): seq<Client>
  {
    Filter(clients, Matches(term))
  }

  /** The table shows exactly the matching clients, each as often as in the
      list, in list order. */
  lemma FilteredClientsSpec(clients: seq<Client>, term: string, x: Client)
    ensures multiset(FilteredClients(clients, term))[x] == if MatchesTerm(term, x) then multiset(clients)[x] else 0
    ensures IsSubsequence(FilteredClients(clients, term), clients)
  {
    FilterMultiplicity(clients, Matches(term), x);
    FilterIsSubsequence(clients, Matches(term));
  }

  /** An empty search box shows every client. */
  lemma EmptySearchShowsAll(clients: seq<Client>)
    ensures FilteredClients(clients, "") == clients
  {
    assert Lower("") == "";
    forall x | x in clients ensures Matches("")(x) {
      IncludesEmpty(Lower(x.name));
    }
    FilterAll(clients, Matches(""));
  }

  /** A client is found by any piece of the stored phone string. */
  lemma FoundByPhone(clients: seq<Client>, k: int, i: nat, j: nat)
    requires 0 <= k < |clients| && i <= j <= |clients[k].phone|
    ensures clients[k] in FilteredClients(clients, clients[k].phone[i..j])
  {
    var c := clients[k];
    assert OccursAt(c.phone, c.phone[i..j], i);
  }

  /** The "Nenhum cliente encontrado" row is shown exactly when no client
      matches. */
  predicate ShowsEmptyMessage(clients: seq<Client>, term: string)
  {
    |FilteredClients(clients, term)| == 0
  }

  lemma EmptyMessageSpec(clients: seq<Client>, term: string)
    ensures ShowsEmptyMessage(clients, term) <==> forall i :: 0 <= i < |clients| ==> !MatchesTerm(term, clients[i])
  {
    var r := FilteredClients(clients, term);
    if |r| != 0 {
      assert r[0] in clients && Matches(term)(r[0]);
    }
  }

  // ---------------------------------------------------------------------
  // The "Total Atendimentos" column.

  predicate OfClient(id: string, a: Appointment)
  {
    a.clientId == id
  }

  function For(id: string): Appointment -> bool
  {
    (a: Appointment) => OfClient(id, a)
  }

  /** clientApts.length: records of that client in any status. */
  function VisitCount(apts: seq<Appointment>, id: string): nat
  {
    |Filter(apts, For(id))|
  }

  /** The count is the number of records naming the client, whatever their
      status. */
  lemma {:induction false} VisitCountSpec(apts: seq<Appointment>, id: string)
    ensures VisitCount(apts, id) == Sum(apts, (a: Appointment) => if a.clientId == id then 1 else 0)
  {
    if apts != [] {
      var s', x := apts[..|apts| - 1], apts[|apts| - 1];
      assert apts == s' + [x];
      VisitCountSpec(s', id);
      FilterSnoc(s', x, For(id));
    }
  }

  /** Booking one more record for the client raises the count by one, for
      any status; a record of another client leaves it. */
  lemma VisitCountSnoc(apts: seq<Appointment>, id: string, a: Appointment)
    ensures VisitCount(apts + [a], id) == VisitCount(apts, id) + (if a.clientId == id then 1 else 0)
  {
    FilterSnoc(apts, a, For(id));
  }

  /** The count is zero exactly when no record names the client. */
  lemma NoVisitsSpec(apts: seq<Appointment>, id: string)
    ensures VisitCount(apts, id) == 0 <==> forall i :: 0 <= i < |apts| ==> apts[i].clientId != id
  {
    var v := Filter(apts, For(id));
    if |v| != 0 {
      assert v[0] in apts && v[0].clientId == id;
    }
  }

  // ---------------------------------------------------------------------
  // Updates of the client list.

  /** The guard of handleAddClient: a name is required. */
  predicate AddRejected(f: ClientForm)
  {
    f.name == ""
  }

  /** The client list after a submit; id and createdAt stand for the random
      id and the current ISO timestamp. */
  function ClientAdded(clients: seq<Client>, f: ClientForm, id: string, createdAt: string): seq<Client>
  {
    if AddRejected(f) then clients else clients + [Client(id, f.name, f.phone, f.email, createdAt)]
  }

  /** A rejected submit changes nothing; an accepted one keeps the list and
      appends one client carrying the form's fields, with a non-empty name. */
  lemma ClientAddedShape(clients: seq<Client>, f: ClientForm, id: string, createdAt: string)
    ensures var r := ClientAdded(clients, f, id, createdAt);
            (AddRejected(f) ==> r == clients) &&
            (!AddRejected(f) ==>
               |r| == |clients| + 1 && r[..|clients|] == clients &&
               r[|clients|].id == id && r[|clients|].createdAt == createdAt && r[|clients|].name != "" &&
               ClientForm(r[|clients|].name, r[|clients|].phone, r[|clients|].email) == f)
  {
    var r := ClientAdded(clients, f, id, createdAt);
    if !AddRejected(f) {
      assert r[..|clients|] == clients;
    }
  }

  /** A newly added client is found by a search for its full phone, and
      has no visits until something is booked. */
  lemma NewClientIsListed(clients: seq<Client>, apts: seq<Appointment>, f: ClientForm, id: string, createdAt: string)
    requires !AddRejected(f) && forall i :: 0 <= i < |apts| ==> apts[i].clientId != id
    ensures var r := ClientAdded(clients, f, id, createdAt);
            r[|clients|] in FilteredClients(r, f.phone) && VisitCount(apts, id) == 0
  {
    var r := ClientAdded(clients, f, id, createdAt);
    FoundByPhone(r, |clients|, 0, |f.phone|);
    assert f.phone[0..|f.phone|] == f.phone;
    NoVisitsSpec(apts, id);
  }

  /** removeClient once confirmed: every client with that id leaves. */
  function WithoutClient(clients: seq<Client>, id: string): seq<Client>
  {
    Filter(clients, (c: Client) => c.id != id)
  }

  lemma WithoutClientExact(clients: seq<Client>, id: string, x: Client)
    ensures multiset(WithoutClient(clients, id))[x] == if x.id == id then 0 else multiset(clients)[x]
    ensures IsSubsequence(WithoutClient(clients, id), clients)
  {
    FilterMultiplicity(clients, (c: Client) => c.id != id, x);
    FilterIsSubsequence(clients, (c: Client) => c.id != id);
  }

  lemma WithoutClientAbsent(clients: seq<Client>, id: string)
    requires forall i :: 0 <= i < |clients| ==> clients[i].id != id
    ensures WithoutClient(clients, id) == clients
  {
    FilterAll(clients, (c: Client) => c.id != id);
  }

  lemma WithoutClientTwice(clients: seq<Client>, id: string)
    ensures WithoutClient(WithoutClient(clients, id), id) == WithoutClient(clients, id)
  {
    FilterIdempotent(clients, (c: Client) => c.id != id);
  }

  class ClientView {
    const salon: Salon
    var searchTerm: string
    var isAdding: bool
    var newClient: ClientForm

    constructor (salon: Salon)
      ensures this.salon == salon
      ensures searchTerm == "" && !isAdding && newClient == EmptyClientForm
    {
      this.salon := salon;
      searchTerm := "";
      isAdding := false;
      newClient := EmptyClientForm;
    }

    method SetSearchTerm(term: string)
      modifies this`searchTerm
      ensures searchTerm == term
    {
      searchTerm := term;
    }

    /** The "Novo Cliente" button. */
    method OpenAdd()
      modifies this`isAdding
      ensures isAdding
    {
      isAdding := true;
    }

    method CloseAdd()
      modifies this`isAdding
      ensures !isAdding
    {
      isAdding := false;
    }

    /** The name, phone and email inputs. */
    method EditForm(name: string, phone: string, email: string)
      modifies this`newClient
      ensures newClient == ClientForm(name, phone, email)
    {
      newClient := ClientForm(name, phone, email);
    }

    /** handleAddClient. */
    method AddClient(freshId: string, createdAt: string)
      modifies salon`clients, this`isAdding, this`newClient
      ensures salon.clients == ClientAdded(old(salon.clients), old(newClient), freshId, createdAt)
      ensures AddRejected(old(newClient)) ==> isAdding == old(isAdding) && newClient == old(newClient)
      ensures !AddRejected(old(newClient)) ==> !isAdding && newClient == EmptyClientForm
    {
      if newClient.name == "" {
        return;
      }
      var client := Client(freshId, newClient.name, newClient.phone, newClient.email, createdAt);
      salon.clients := salon.clients + [client];
      isAdding := false;
      newClient := EmptyClientForm;
    }

    /** removeClient: confirmed stands for the answer to the confirm()
        dialog. The client's appointments stay in the store. */
    method RemoveClient(id: string, confirmed: bool)
      modifies salon`clients
      ensures salon.clients == if confirmed then WithoutClient(old(salon.clients), id) else old(salon.clients)
    {
      if confirmed {
        salon.clients := WithoutClient(salon.clients, id);
      }
    }
  }
}
