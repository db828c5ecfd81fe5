/** The state App.tsx keeps and hands to the views: the signed-in user and
    the lists of clients, staff, services and appointments. Each view's
    handlers replace one of them. */
module AppState {
  import opened Collections
  import opened Types

  /** The catalogue used when nothing is stored. */
  const INITIAL_SERVICES: seq<Service> := [
    Service("1", "Corte Feminino", 60, 80, "bg-rose-100 text-rose-700 border-rose-200"),
    Service("2", "Escova", 30, 50, "bg-sky-100 text-sky-700 border-sky-200"),
    Service("3", "Coloração", 120, 150, "bg-violet-100 text-violet-700 border-violet-200"),
    Service("4", "Manicure", 45, 35, "bg-emerald-100 text-emerald-700 border-emerald-200")
  ]

  /** The stored services, or the initial catalogue when none are stored. */
  function LoadedServices(stored: seq<Service>): (r: seq<Service>)
    ensures |r| > 0
    ensures |stored| > 0 ==> r == stored
    ensures |stored| == 0 ==> r == INITIAL_SERVICES
    ensures |stored| == 0 ==> |r| == 4 && forall i :: 0 <= i < 4 ==> r[i].price > 0
  {
    if |stored| > 0 then stored else INITIAL_SERVICES
  }

  class Salon {
    var clients: seq<Client>
    var staff: seq<Staff>
    var services: seq<Service>
    var appointments: seq<Appointment>

    /** The effect that runs when a user is signed in: each list is set
        from storage, the services falling back to INITIAL_SERVICES. */
    constructor Load(storedClients: seq<Client>, storedStaff: seq<Staff>,
                     storedServices: seq<Service>, storedAppointments: seq<Appointment>)
      ensures clients == storedClients && staff == storedStaff
      ensures services == LoadedServices(storedServices) && |services| > 0
      ensures appointments == storedAppointments
    {
      clients := storedClients;
      staff := storedStaff;
      services := LoadedServices(storedServices);
      appointments := storedAppointments;
    }
  }

  /** The signed-in account (currentUser), restored from the stored
      session on start. */
  class Session {
    var currentUser: Option<User>

    constructor (stored: Option<User>)
      ensures currentUser == stored
    {
      currentUser := stored;
    }

    /** The onLogin callback handed to the sign-in screen. */
    method SignIn(user: User)
      modifies this
      ensures currentUser == Some(user)
    {
      currentUser := Some(user);
    }

    /** handleLogout: confirmed stands for the answer to the confirm()
        dialog. */
    method SignOut(confirmed: bool)
      modifies this
      ensures currentUser == if confirmed then None else old(currentUser)
    {
      if confirmed {
        currentUser := None;
      }
    }
  }
}
