/** The top-level view state of src/App.tsx: whether the booking modal is
    open, the id of the service chosen on a services card, and whether the
    one-page booking form replaces the home page. */
module App {
  import opened Wrappers
  import Catalog

  datatype AppState = AppState(
    isBookingModalOpen: bool,
    selectedServiceId: string,
    showBookingPage: bool)

  /** The state when the app mounts: home page, modal closed, nothing
      selected. */
  const Initial: AppState := AppState(false, "", false)

  /** `handleBookService(id)`: remembers the id and shows the booking page;
      the modal flag is untouched. */
  function HandleBookService(s: AppState, id: string): (r: AppState)
    ensures r.selectedServiceId == id && r.showBookingPage
    ensures r.isBookingModalOpen == s.isBookingModalOpen
  {
    s.(selectedServiceId := id, showBookingPage := true)
  }

  /** `handleCloseBookingModal`: closes the modal and forgets the
      selection; the page flag is untouched. */
  function HandleCloseBookingModal(s: AppState): (r: AppState)
    ensures !r.isBookingModalOpen && r.selectedServiceId == ""
    ensures r.showBookingPage == s.showBookingPage
  {
    s.(isBookingModalOpen := false, selectedServiceId := "")
  }

  /** `handleBackToHome`: hides the booking page and forgets the
      selection; the modal flag is untouched. */
  function HandleBackToHome(s: AppState): (r: AppState)
    ensures !r.showBookingPage && r.selectedServiceId == ""
    ensures r.isBookingModalOpen == s.isBookingModalOpen
  {
    s.(showBookingPage := false, selectedServiceId := "")
  }

  /** `selectedService`: nothing for the empty id, otherwise the catalog
      entry with that id, if there is one. */
  function SelectedService(s: AppState): (r: Option<Catalog.Service>)
    ensures s.selectedServiceId == "" ==> r.None?
    ensures r.Some? ==> r.value in Catalog.Services && r.value.id == s.selectedServiceId
    ensures r.None? ==> s.selectedServiceId == "" || s.selectedServiceId !in Catalog.Ids(Catalog.Services)
  {
    if s.selectedServiceId == "" then None
    else Catalog.Find(Catalog.Services, s.selectedServiceId)
  }

  /** What the app renders: the booking page, or the home page with the
      modal (open or not) and the service handed to it. */
  datatype View = BookingPage | Home(modalOpen: bool, modalService: Option<Catalog.Service>)

  /** The page-selection rule: the booking page wins whenever its flag is
      set. */
  function Render(s: AppState): (v: View)
    ensures s.showBookingPage <==> v == BookingPage
    ensures v.Home? ==> v.modalOpen == s.isBookingModalOpen && v.modalService == SelectedService(s)
  {
    if s.showBookingPage then BookingPage else Home(s.isBookingModalOpen, SelectedService(s))
  }

  /** The callbacks the rendered children can invoke. */
  datatype Event =
    | BookService(id: string) // a services card's Get Started button
    | CloseModal              // the modal's close controls
    | BackToHome              // the booking page's back buttons

  /** What a callback does, or None when the child that calls it is not on
      screen: the services cards and the modal live on the home page (the
      modal renders nothing while closed), the back buttons on the booking
      page. */
  function Next(s: AppState, e: Event): (r: Option<AppState>)
    ensures e.BookService? ==>
      (r.Some? <==> !s.showBookingPage && e.id in Catalog.CardIds)
      && (r.Some? ==> r.value == HandleBookService(s, e.id))
    ensures e == CloseModal ==>
      (r.Some? <==> !s.showBookingPage && s.isBookingModalOpen)
      && (r.Some? ==> r.value == HandleCloseBookingModal(s))
    ensures e == BackToHome ==>
      (r.Some? <==> s.showBookingPage) && (r.Some? ==> r.value == HandleBackToHome(s))
    ensures r.Some? ==> r.value.isBookingModalOpen ==> s.isBookingModalOpen
  {
    match e
    case BookService(id) =>
      if !s.showBookingPage && id in Catalog.CardIds then Some(HandleBookService(s, id)) else None
    case CloseModal =>
      if !s.showBookingPage && s.isBookingModalOpen then Some(HandleCloseBookingModal(s)) else None
    case BackToHome =>
      if s.showBookingPage then Some(HandleBackToHome(s)) else None
  }

  /** Plays a sequence of callbacks; one whose child is not on screen does
      nothing. */
  function Run(s: AppState, es: seq<Event>): AppState
    decreases |es|
  {
    if |es| == 0 then s else Run(Next(s, es[0]).GetOr(s), es[1..])
  }

  /** What holds in every reachable state: the modal is closed, and the
      selection is empty or a card's id, and only set while the booking
      page shows. */
  predicate Inv(s: AppState) {
    && !s.isBookingModalOpen
    && (s.selectedServiceId == "" || s.selectedServiceId in Catalog.CardIds)
    && (s.selectedServiceId != "" ==> s.showBookingPage)
  }

  /** Every callback keeps the invariant. */
  lemma NextInv(s: AppState, e: Event)
    requires Inv(s)
    requires Next(s, e).Some?
    ensures Inv(Next(s, e).value)
  {
  }

  /** Every sequence of callbacks from the initial state keeps the
      invariant: no handler ever opens the modal. */
  lemma {:induction false} RunInv(s: AppState, es: seq<Event>)
    requires Inv(s)
    ensures Inv(Run(s, es))
    decreases |es|
  {
    if |es| > 0 {
      if Next(s, es[0]).Some? { NextInv(s, es[0]); }
      RunInv(Next(s, es[0]).GetOr(s), es[1..]);
    }
  }

  /** In every reachable state the lookup finds nothing, because no card id
      names a catalog entry; and the home page never shows the modal. */
  lemma NothingSelected(es: seq<Event>)
    ensures SelectedService(Run(Initial, es)).None?
    ensures Render(Run(Initial, es)) == BookingPage
         || Render(Run(Initial, es)) == Home(false, None)
  {
    RunInv(Initial, es);
    var s := Run(Initial, es);
    if s.selectedServiceId != "" {
      Catalog.CardsOutsideCatalog(s.selectedServiceId);
    }
  }
}
