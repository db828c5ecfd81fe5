# Salon manager — a verified model of the views' logic

The application is a single-page salon manager. It lets a salon owner sign up and sign in, keep lists of clients, staff and the service catalogue, book appointments on a month calendar, mark them completed or delete them, and read reports and a dashboard built from the completed appointments.

This project models that logic in Dafny. It covers:
- the calendar and date helpers;
- the filters, sums, groupings and stable sorts behind every table and chart;
- the add and remove handlers of each list;
- the account registry and the three-mode sign-in screen;
- the profile form.

It proves properties of each of these.

Layout, one module per source file:

- `Collections` holds the JavaScript array methods used everywhere: filter, find, reduce, slice, a stable sort with a comparator, and group-by in first-seen key order.
- `Text` holds `localeCompare` (taken as code-unit order), ASCII `toLowerCase` and `includes`.
- `Helpers` is `utils/helpers.ts`.
- `Types` is `types.ts`, plus the price lookup every view repeats.
- `AppState` holds what `App.tsx` keeps: the signed-in `Session` and the `Salon` lists.
- One module per component.

The source's form decides the model's form:
- Components whose handlers replace state become classes. Their fields are the component's `useState` variables.
- Each class reaches the App's lists through a `const salon: Salon` or a `const session: Session`.
- The `modifies` frames say which list a handler may replace. In particular, removing a client or a staff member leaves the appointments alone.
- Each method's `ensures` ties the new state to a specification function.
- The properties are lemmas about those functions.
- The two loops of the reports (the `forEach` filling the per-day map, and the `reduce` counting services) are methods with loop invariants, proved equal to their specification functions.

## Model

| member | source | states |
|---|---|---|
| AppState.LoadedServices | App.tsx:28-33 | the catalogue is never empty: the stored services when there are any, otherwise exactly INITIAL_SERVICES, four services all with positive prices |
| AppState.Salon.Load | App.tsx:47-55 | each list is loaded from storage, with the services falling back to the initial catalogue |
| AppState.Session.constructor | App.tsx:39 | on start the current user is the stored session, if any |
| AppState.Session.SignIn | App.tsx:77 | signing in makes the account the current user |
| AppState.Session.SignOut | App.tsx:68-74 | a confirmed sign-out clears the current user; a declined one changes nothing |
| Types.FindService | components/Reports.tsx:126 | the lookup fails exactly when no service has the id; otherwise it yields the first catalogue service with that id |
| Types.PriceOf | components/Dashboard.tsx:21-22 | an id that does not resolve prices at 0; otherwise the price is that of the first service with the id |
| Types.RevenueConcat | components/Reports.tsx:125-128 | the price reduce adds up over a split of the list |
| Types.RevenueNonNegative | components/Reports.tsx:125-128 | with no negative prices, revenue is never negative |
| Helpers.GetDaysInMonth | utils/helpers.ts:9-11 | 29 exactly for February of a leap year, 28 for other Februaries, 30 for April, June, September and November, otherwise 31; months outside 0..11 carry into the year |
| Helpers.GetFirstDayOfMonth | utils/helpers.ts:13-15 | the weekday of the 1st is in 0..6 |
| Helpers.NextMonthFirstDay | utils/helpers.ts:9-15 | the next month starts on (first weekday + days in month) mod 7 |
| Helpers.FirstDayAnchor | utils/helpers.ts:13-15 | 1 January 2024 is day 1, a Monday ("Seg"), fixing the numbering |
| Helpers.LeapDivisors | utils/helpers.ts:9-11 | every multiple of 400 is a multiple of 100, and every multiple of 100 is a multiple of 4 |
| Helpers.FieldOrderIsChronological | utils/helpers.ts:17-19 | on valid days, (year, month, day) order is day-number order |
| Helpers.Pad | utils/helpers.ts:17-19 | zero-padding gives exactly w digits spelling n |
| Helpers.DigitsOrder | utils/helpers.ts:17-19 | on equal-width digit strings, code-unit order is numeric order |
| Helpers.YearString | utils/helpers.ts:17-19 | years 0..9999 print as four digits spelling the year; other years take a sign and six digits |
| Helpers.FormatDate | utils/helpers.ts:17-19 | for years 0..9999 the result is a YYYY-MM-DD string whose fields read back as the year, month and day |
| Helpers.FormatDateOfFields | utils/helpers.ts:17-19 | every calendar-date string is what formatDate writes for its own fields |
| Helpers.DateStringOrder | utils/helpers.ts:17-19 | comparing date strings as the sorts do is comparing the days they name |
| Helpers.FormatDateOrder | utils/helpers.ts:17-19 | formatDate's outputs sort in date order |
| Helpers.TimeStringOrder | components/Calendar.tsx:157 | comparing HH:MM strings as the sorts do is comparing minutes of the day |
| Helpers.CleanPhone | utils/helpers.ts:22 | only digits remain |
| Helpers.CleanPhoneConcat | utils/helpers.ts:22 | the cleaning works piece by piece |
| Helpers.CleanPhoneChar | utils/helpers.ts:22 | a digit is kept and any other character dropped |
| Helpers.CleanPhoneOfDigits | utils/helpers.ts:22 | a digit string is left as it is |
| Helpers.CleanPhoneIdempotent | utils/helpers.ts:22 | cleaning twice is cleaning once |
| Helpers.GenerateWhatsAppLink | utils/helpers.ts:21-24 | the link starts with https://wa.me/55 |
| Helpers.LinkMessage | utils/helpers.ts:21-24 | after the prefix and the phone digits the link holds "?text=" and then exactly the encoded message |
| Helpers.LinkRoundTrip | utils/helpers.ts:21-24 | a link opens a chat with exactly the digits of the phone it was built from, whatever the message |
| Helpers.StaffColorChoices | components/StaffList.tsx:320 | the staff form offers the first five of the six palette colours, never the last |
| CalendarView.BuildAppointment | components/Calendar.tsx:52-61 | the record has the fresh id, the selected date and no staff member; its client, service and time are never empty, and each takes the form's value when that is set |
| CalendarView.AddedShape | components/Calendar.tsx:48-66 | a rejected submit leaves the list; an accepted one appends exactly one record on the selected date and keeps the rest |
| CalendarView.AddDefaults | components/Calendar.tsx:54-58 | an empty client becomes 'system-block', an empty service 'block', an empty time '09:00' and a missing status 'scheduled' |
| CalendarView.AddedStatus | components/Calendar.tsx:50-58 | a record added from the form is scheduled or blocked; a client-less one is a block |
| CalendarView.CancelExact | components/Calendar.tsx:68-70 | cancelling removes exactly the records with that id; the others keep their multiplicity and order |
| CalendarView.CancelAbsent | components/Calendar.tsx:68-70 | cancelling an unknown id changes nothing |
| CalendarView.CancelTwice | components/Calendar.tsx:68-70 | cancelling twice is cancelling once |
| CalendarView.Complete | components/Calendar.tsx:72-74 | completing keeps the length |
| CalendarView.CompleteExact | components/Calendar.tsx:72-74 | only the status of the records with that id changes, to completed; completing twice is completing once |
| CalendarView.CancelAfterComplete | components/Calendar.tsx:68-74 | cancelling after completing is the same as cancelling |
| CalendarView.ByTimePreorder | components/Calendar.tsx:157 | the time comparator is total and transitive |
| CalendarView.DayAppointmentsSpec | components/Calendar.tsx:76 | the sidebar holds exactly the records of the selected date, each as often as stored, in non-decreasing time order |
| CalendarView.DayAppointmentsChronological | components/Calendar.tsx:157 | for HH:MM times the sidebar runs from earliest to latest |
| CalendarView.Preview | components/Calendar.tsx:127 | a day cell previews the first three records of that date, or fewer when the day has fewer |
| CalendarView.MoreCount | components/Calendar.tsx:132 | the "+N mais" line appears exactly when a day has more than three records, and N is the rest |
| CalendarView.BadgeIsDayLength | components/Calendar.tsx:104 | the day's count equals the sidebar's length and the preview plus the rest |
| CalendarView.ShiftMonth | components/Calendar.tsx:40-41 | the month stays in 0..11 and the month index moves by exactly delta |
| CalendarView.ShiftBack | components/Calendar.tsx:40-41 | previous after next, and next after previous, return to the same month |
| CalendarView.DayCells | components/Calendar.tsx:99-101 | one cell per day of the month, each with its day number and date string |
| CalendarView.CellColumnIsWeekday | components/Calendar.tsx:43-46 | after the blanks, each day sits in the column of its weekday |
| CalendarView.Calendar.constructor | components/Calendar.tsx:16-28 | the view opens on today's month and date, modal closed, with the initial draft |
| CalendarView.Calendar.PrevMonth | components/Calendar.tsx:40 | the displayed month moves back by one |
| CalendarView.Calendar.NextMonth | components/Calendar.tsx:41 | the displayed month moves forward by one |
| CalendarView.Calendar.GoToToday | components/Calendar.tsx:86 | the "Hoje" button shows today's month and leaves the selected date |
| CalendarView.Calendar.SelectDate | components/Calendar.tsx:109 | clicking a day selects its date |
| CalendarView.Calendar.OpenModal | components/Calendar.tsx:148 | the booking modal opens |
| CalendarView.Calendar.CloseModal | components/Calendar.tsx:240 | the booking modal closes |
| CalendarView.Calendar.ChooseKind | components/Calendar.tsx:252-259 | the kind buttons set the draft's status to scheduled or blocked and nothing else |
| CalendarView.Calendar.SetClient | components/Calendar.tsx:275 | the client select sets the client and keeps every other field of the draft |
| CalendarView.Calendar.SetService | components/Calendar.tsx:288 | the service select sets the service and keeps every other field |
| CalendarView.Calendar.SetPayment | components/Calendar.tsx:306 | a payment button sets the payment method and keeps every other field |
| CalendarView.Calendar.SetTime | components/Calendar.tsx:325 | the time input sets the time and keeps every other field |
| CalendarView.Calendar.SetNotes | components/Calendar.tsx:335 | the notes input sets the notes and keeps every other field, so notes stay absent after a reset until typed |
| CalendarView.Calendar.AddAppointment | components/Calendar.tsx:48-66 | the list becomes Added of the old list; an accepted submit closes the modal and resets the draft, a rejected one changes nothing |
| CalendarView.Calendar.CancelAppointment | components/Calendar.tsx:68-70 | the list becomes Cancel of the old list |
| CalendarView.Calendar.CompleteAppointment | components/Calendar.tsx:72-74 | the list becomes Complete of the old list |
| CalendarView.Calendar.Cells | components/Calendar.tsx:43-46 | the grid is firstDay blanks followed by the day cells |
| Reports.FilteredAppointments | components/Reports.tsx:36-53 | only completed records pass, of the chosen service when one is chosen, dated within the period |
| Reports.FilteredAppointmentsExact | components/Reports.tsx:36-53 | for every period a record is kept, as often as stored and in order, exactly when it is completed, of the chosen service and within the period |
| Reports.FilteredAllPeriod | components/Reports.tsx:36-53 | with period 'all' the filter keeps exactly the completed records of the chosen service, in order |
| Reports.ServiceStatsSpec | components/Reports.tsx:56-67 | the table lists exactly the catalogue services that occur, each with its count and count times price, by non-increasing revenue |
| Reports.ServiceStatsMultiplicity | components/Reports.tsx:56-67 | each row appears as many times as catalogue entries yield it with a positive count, so a service stored twice gives two rows |
| Reports.DemandBadge | components/Reports.tsx:364-365 | 'ALTA DEMANDA' exactly when the count exceeds 5, otherwise 'ESTÁVEL' |
| Reports.TimeSeries | components/Reports.tsx:103-122 | the forEach loop and the sort compute exactly the series |
| Reports.SeriesSorted | components/Reports.tsx:121 | the points are in ascending date order |
| Reports.SeriesDistinct | components/Reports.tsx:104-118 | no date has two points |
| Reports.SeriesCovers | components/Reports.tsx:106-116 | every date that occurs has a point |
| Reports.SeriesPoints | components/Reports.tsx:106-118 | every point is its date's count and revenue, for a date that occurs |
| Reports.SeriesTotals | components/Reports.tsx:117-128 | the chart's counts add up to the number of filtered records, and its revenues to totalRevenue |
| Reports.PointSnoc | components/Reports.tsx:117-118 | one more record adds its price and one visit to its own date's point only |
| Reports.ServiceCounts | components/Reports.tsx:78-81 | the reduce counts each service id's visits, with keys in first-seen order |
| Reports.EntriesOrder | components/Reports.tsx:84 | Object.entries lists the same keys |
| Reports.RankedEntriesMembers | components/Reports.tsx:84 | the ranked entries are one per visited service id, with its visit count |
| Reports.RankedEntriesSorted | components/Reports.tsx:84 | the entries are sorted by count, descending |
| Reports.FavoriteIsMostFrequent | components/Reports.tsx:84 | a favourite exists exactly when the client has a visit; it occurs among the visits and no service id occurs more often |
| Reports.FavoriteOfNoVisits | components/Reports.tsx:84-85 | a client without visits shows 'Nenhum' |
| Reports.FavoriteNameShown | components/Reports.tsx:85 | a most-frequent id that resolves to a service with a non-empty name shows that name |
| Reports.FavoriteServiceSpec | components/Reports.tsx:85 | whatever is shown is 'Nenhum' or the name of a catalogue service whose id is the most frequent |
| Reports.ClientInsightsSpec | components/Reports.tsx:70-94 | exactly the insight rows of the clients with a completed visit, whatever the period or service chosen, each with its visit count, spend and favourite |
| Reports.ClientInsightsOrder | components/Reports.tsx:70-94 | the rows keep client order, and each row appears exactly as often as the rows built for every client, when it has a completed visit; this order breaks the ties of both rankings |
| Reports.TopListsSpec | components/Reports.tsx:96-99 | each ranking keeps at most five rows of the insights, in non-increasing order, and no row left out ranks above a row kept |
| Reports.TopListsSize | components/Reports.tsx:96-99 | each ranking holds exactly min(5, n) of the n insight rows, none more often than among the insights |
| StaffList.FilteredStaffSpec | components/StaffList.tsx:22-25 | the list shows exactly the members whose lower-cased name or role contains the lower-cased term, in roster order |
| StaffList.EmptySearchShowsAll | components/StaffList.tsx:22-25 | an empty search shows the whole roster |
| StaffList.SearchIgnoresTermCase | components/StaffList.tsx:22-25 | a lower-cased term selects the same members |
| StaffList.MemberAppointmentsSpec | components/StaffList.tsx:90 | a card counts exactly the member's completed records |
| StaffList.MemberRevenueSnoc | components/StaffList.tsx:91-94 | a new record adds its price to a member's revenue exactly when the member completed it |
| StaffList.MemberRevenueOfOthers | components/StaffList.tsx:90-94 | records the member did not complete add nothing |
| StaffList.CalendarBookingsHaveNoStaff | components/StaffList.tsx:90-94 | bookings from the calendar form carry no staff member, so they never add to a card |
| StaffList.NewestFirstPreorder | components/StaffList.tsx:60-63 | the history comparator is total and transitive |
| StaffList.NewestFirstTransitive | components/StaffList.tsx:60-63 | the history comparator is transitive |
| StaffList.StaffHistorySpec | components/StaffList.tsx:57-64 | the history holds exactly the member's completed records, newest first, and is empty when no member is selected |
| StaffList.HistoryChronological | components/StaffList.tsx:60-63 | for valid dates the history runs from the latest day to the earliest, and within a day from the latest time |
| StaffList.HistoryTotalIsRevenue | components/StaffList.tsx:233 | the "Total Produzido" line equals the card's revenue, and the history is as long as the card's count |
| StaffList.StaffAddedShape | components/StaffList.tsx:38-49 | a submit without name or role changes nothing; otherwise one member with the form's fields, the id and the timestamp is appended |
| StaffList.WithoutStaffExact | components/StaffList.tsx:51-55 | exactly the members with that id leave; the others keep their multiplicity and order |
| StaffList.WithoutStaffAbsent | components/StaffList.tsx:51-55 | removing an unknown id changes nothing |
| StaffList.WithoutStaffTwice | components/StaffList.tsx:51-55 | removing twice is removing once |
| StaffList.RemoveUndoesAdd | components/StaffList.tsx:38-55 | removing a just-added member with a fresh id restores the roster |
| StaffList.StaffView.constructor | components/StaffList.tsx:16-19 | the view opens with an empty search, closed modals and the empty form |
| StaffList.StaffView.SetSearchTerm | components/StaffList.tsx:76 | the search term is set |
| StaffList.StaffView.OpenAdd | components/StaffList.tsx:80 | the add form opens |
| StaffList.StaffView.CloseAdd | components/StaffList.tsx:251 | the add form closes |
| StaffList.StaffView.EditForm | components/StaffList.tsx:292-337 | the inputs set name, role, phone and email, keeping colour and photo |
| StaffList.StaffView.ChooseColor | components/StaffList.tsx:320-324 | a swatch sets one of the five offered colours |
| StaffList.StaffView.SetPhoto | components/StaffList.tsx:32 | the photo becomes the data URL read from the file |
| StaffList.StaffView.ShowHistory | components/StaffList.tsx:153 | the history modal opens for that member |
| StaffList.StaffView.CloseHistory | components/StaffList.tsx:188 | the history modal closes |
| StaffList.StaffView.AddStaff | components/StaffList.tsx:38-49 | the roster becomes StaffAdded of the old one; an accepted submit closes the form and resets it |
| StaffList.StaffView.RemoveStaff | components/StaffList.tsx:51-55 | a confirmed removal filters the roster; the appointments are untouched |
| ClientList.FilteredClientsSpec | components/ClientList.tsx:18-21 | the table shows exactly the clients whose lower-cased name contains the lower-cased term or whose phone contains the term, in list order |
| ClientList.EmptySearchShowsAll | components/ClientList.tsx:18-21 | an empty search shows every client |
| ClientList.FoundByPhone | components/ClientList.tsx:20 | any piece of a stored phone finds its client |
| ClientList.EmptyMessageSpec | components/ClientList.tsx:121 | the "no client" row appears exactly when no client matches |
| ClientList.VisitCountSpec | components/ClientList.tsx:77 | the visit column counts the records naming the client, in any status |
| ClientList.VisitCountSnoc | components/ClientList.tsx:77 | one more record of the client raises the count by one, whatever its status |
| ClientList.NoVisitsSpec | components/ClientList.tsx:77 | the count is zero exactly when no record names the client |
| ClientList.ClientAddedShape | components/ClientList.tsx:23-34 | a submit without a name changes nothing; otherwise one client with the form's fields is appended |
| ClientList.NewClientIsListed | components/ClientList.tsx:18-34 | a new client is found by its phone and starts with no visits |
| ClientList.WithoutClientExact | components/ClientList.tsx:36-40 | exactly the clients with that id leave; the others keep their multiplicity and order |
| ClientList.WithoutClientAbsent | components/ClientList.tsx:36-40 | removing an unknown id changes nothing |
| ClientList.WithoutClientTwice | components/ClientList.tsx:36-40 | removing twice is removing once |
| ClientList.ClientView.constructor | components/ClientList.tsx:14-16 | the view opens with an empty search, a closed modal and an empty form |
| ClientList.ClientView.SetSearchTerm | components/ClientList.tsx:52 | the search term is set |
| ClientList.ClientView.OpenAdd | components/ClientList.tsx:56 | the add form opens |
| ClientList.ClientView.CloseAdd | components/ClientList.tsx:138 | the add form closes |
| ClientList.ClientView.EditForm | components/ClientList.tsx:151-171 | the inputs set name, phone and email |
| ClientList.ClientView.AddClient | components/ClientList.tsx:23-34 | the list becomes ClientAdded of the old one; an accepted submit closes and resets the form |
| ClientList.ClientView.RemoveClient | components/ClientList.tsx:36-40 | a confirmed removal filters the list; the appointments are untouched |
| ServiceList.ServiceAddedSpec | components/ServiceList.tsx:21-33 | the catalogue gains one service with the form's fields; with an unused id, lookups for it find that service and its price |
| ServiceList.ServiceAddedKeepsPrices | components/ServiceList.tsx:21-33 | adding a service leaves the price of every id in use |
| ServiceList.WithoutServiceExact | components/ServiceList.tsx:35-37 | exactly the services with that id leave; the others keep their multiplicity and order |
| ServiceList.WithoutServiceAbsent | components/ServiceList.tsx:35-37 | removing an unknown id changes nothing |
| ServiceList.WithoutServiceTwice | components/ServiceList.tsx:35-37 | removing twice is removing once |
| ServiceList.WithoutServicePrices | components/ServiceList.tsx:35-37 | after a removal the id prices at 0, and every other id keeps its price |
| ServiceList.RevenueAfterRemoval | components/ServiceList.tsx:35-37 | records of a removed service stay but add nothing to revenue |
| ServiceList.ServiceView.constructor | components/ServiceList.tsx:13-19 | the view opens with a closed modal and a new-service form of 60 minutes, price 0, the first colour |
| ServiceList.ServiceView.OpenAdd | components/ServiceList.tsx:47 | the add form opens |
| ServiceList.ServiceView.CloseAdd | components/ServiceList.tsx:92 | the add form closes |
| ServiceList.ServiceView.EditForm | components/ServiceList.tsx:103-124 | the inputs set name, duration and price, keeping the colour |
| ServiceList.ServiceView.ChooseColor | components/ServiceList.tsx:131-135 | a swatch sets any palette colour |
| ServiceList.ServiceView.AddService | components/ServiceList.tsx:21-33 | the catalogue becomes ServiceAdded of the old one, unchecked; the modal closes and the form resets |
| ServiceList.ServiceView.RemoveService | components/ServiceList.tsx:35-37 | the catalogue is filtered, without confirmation |
| Dashboard.TodayAppointmentsSpec | components/Dashboard.tsx:16 | today's list holds exactly the scheduled records dated today, in store order |
| Dashboard.TodayListSpec | components/Dashboard.tsx:61 | the list is sorted by time and holds the same records; for HH:MM times it runs from earliest to latest |
| Dashboard.EmptyListSpec | components/Dashboard.tsx:60 | the placeholder shows exactly when nothing is scheduled today |
| Dashboard.TotalRevenueSnoc | components/Dashboard.tsx:18-23 | each completed record adds its service's price, whatever its date, and other records add nothing |
| Dashboard.TotalRevenueMatchesReports | components/Dashboard.tsx:18-23 | the dashboard revenue equals the reports' revenue for period 'all' and every service |
| Dashboard.DashboardStats | components/Dashboard.tsx:25-30 | 'Hoje' is the length of today's list, 'Clientes' the number of clients, 'Serviços' the number of services, and the revenue card the total |
| Dashboard.ClientLabel | components/Dashboard.tsx:62-72 | never empty; 'Cliente Desconhecido' when no client has the id or the first client with it has an empty name; otherwise the name of the first client with that id |
| Auth.LoginMatch | components/Auth.tsx:25-26 | sign-in finds an account exactly when one has that email and password, and yields the first such account |
| Auth.SignedUpShape | components/Auth.tsx:39-53 | a taken email leaves the registry alone; otherwise exactly one account with the form's fields and no address is appended |
| Auth.SignupKeepsEmailsDistinct | components/Auth.tsx:39-53 | sign-up keeps emails pairwise distinct and registers the email |
| Auth.SignupThenLogin | components/Auth.tsx:21-56 | after a successful sign-up, signing in with the same email and password yields the new account |
| Auth.LoginWithDistinctEmails | components/Auth.tsx:26 | with distinct emails, sign-in succeeds exactly when the one account with that email stores that password |
| Auth.AuthView.constructor | components/Auth.tsx:13-19 | the screen opens in sign-in mode with empty fields and messages |
| Auth.AuthView.EditCredentials | components/Auth.tsx:187-208 | the email and password inputs set their fields |
| Auth.AuthView.EditProfile | components/Auth.tsx:156-170 | the name and salon-name inputs set their fields |
| Auth.AuthView.HandleLogin | components/Auth.tsx:21-33 | the error is cleared, then set to the login message exactly when no account matches; the match is returned |
| Auth.AuthView.HandleSignup | components/Auth.tsx:35-56 | a taken email sets the error and changes nothing else; otherwise the account is appended, the success message set and the mode becomes sign-in |
| Auth.AuthView.HandleForgot | components/Auth.tsx:58-71 | a registered email gets the recovery message, an unknown one the error; the registry is never written |
| Auth.AuthView.Submit | components/Auth.tsx:143 | the form dispatches to the handler of the current mode and has exactly its effect: sign-in clears the error and sets the login message iff nothing matches; sign-up over a taken email sets only the error, otherwise registers, shows the success message and returns to sign-in; recovery shows the sent message for a registered email, otherwise the error |
| Auth.AuthView.GoToSignup | components/Auth.tsx:229 | switches to sign-up and clears both messages |
| Auth.AuthView.GoToLogin | components/Auth.tsx:234 | switches to sign-in and clears both messages |
| Auth.AuthView.GoToForgot | components/Auth.tsx:197 | switches to recovery and clears both messages |
| Auth.AuthView.BackToLogin | components/Auth.tsx:121 | the back arrow switches to sign-in and leaves the messages |
| Settings.InitialForm | components/Settings.tsx:12-17 | each field starts from the user, or '' with no user or no address |
| Settings.Merged | components/Settings.tsx:24-27 | the saved account keeps its id and password and takes the four form values |
| Settings.SaveThenReopen | components/Settings.tsx:12-29 | reopening the settings shows exactly what was saved |
| Settings.SaveUnedited | components/Settings.tsx:12-29 | saving the form as opened changes nothing except a missing address becoming '' |
| Settings.MergedIdempotent | components/Settings.tsx:24-27 | saving the same form twice is saving once |
| Settings.SettingsView.constructor | components/Settings.tsx:12-18 | the form starts from the current user, unsaved |
| Settings.SettingsView.EditForm | components/Settings.tsx:65-107 | the inputs set the four form fields |
| Settings.SettingsView.HandleSubmit | components/Settings.tsx:20-32 | without a user nothing changes; otherwise the current user becomes the merged account and the saved flag is set |

## Left out

- Rendering, styling, icons, charts and navigation (`activeView`, the sidebar, dark mode) are not modelled. Nor is currency formatting (`formatCurrency`, `Intl.NumberFormat`), which only formats values the model computes.
- Storage is not modelled. The JSON round trips through `localStorage` and `services/db.ts` are left out. The stored lists come in as parameters of `Salon.Load`, and the account registry is a field of `Auth.AuthView`.
- Settings do not update the registry. The profile save replaces the current user only, as the source does. The stored accounts keep the old profile, and the model does not connect the two.
- Clock and time zone are parameters:
  - "today" (a UTC date in `Dashboard.tsx:15`, a local month in `Calendar.tsx:16`);
  - the week and month tests of the reports (`Reports.tsx:42-50`);
  - the `toISOString` UTC shift inside `formatDate`. `FormatDate` writes the local fields directly.
- Random ids are parameters (`freshId`), as are `new Date().toISOString()` timestamps (`createdAt`).
- Browser dialogs and timers:
  - `confirm()` is a boolean parameter.
  - The `setTimeout` resets (`Auth.tsx:67`, `Settings.tsx:31`) are left out.
  - The browser's `required`-field validation is left out. The handlers are modelled as written, and they check only what the handler code checks.
- FileReader: `SetPhoto` receives the data URL the reader would produce.
- Text rendering is left out: `encodeURIComponent` (a parameter of `GenerateWhatsAppLink`), the staff initials, the chart label (`toLocaleDateString`) and the month names.
- Numbers are whole: prices and durations are integers, and `Number()` parsing is taken as done.
- Reports.FilteredAppointments: the period tests are parameters. The `new Date(a.date)` parsing behind them is not modelled.
- StaffList.FilteredStaffSpec: lower-casing is ASCII only, so accented capitals are not folded as `toLowerCase` folds them. The same holds for `ClientList.FilteredClientsSpec`.
- Text.LexLeq: `localeCompare` is taken as code-unit order. It agrees with locale order on the zero-padded digit strings the views sort, not on arbitrary text.
- CalendarView.Calendar.Cells requires a year within the range `FormatDate` handles.
- Helpers.GetDaysInMonth: the `Date` quirk that maps years 0..99 to 1900..1999 is not modelled.
- Helpers.GetFirstDayOfMonth: the same quirk is not modelled for the weekday of the 1st, so a year in 0..99 gets its own weekday, not that of 1900..1999.
- CalendarView.ShiftMonth: the same quirk is not modelled for the previous and next month buttons, whose `new Date(year, month ± 1)` lands in 1900..1999 when the year is in 0..99.
- The order of `Object.values` over the per-day map is modelled as insertion order. Date keys are never array indices, so that is what JavaScript yields.
- Object.entries for the favourite-service tie-break follows JavaScript's rule: array-index keys first, ascending, then insertion order.
- The service and stat types come from `types.ts`. `Staff`, `Appointment.staffId` and `User.address` are not in `types.ts`, so they are taken from how the components read them.
