/** The booking modal of src/components/BookingModal.tsx: a four-step wizard
    (1 select a service, 2 pick a date and a time, 3 enter contact details,
    4 confirmation) over a seven-field draft. Every control of the modal is
    an `Event`; `Next` says which controls exist and are enabled in a state
    and what clicking them does. */
module BookingModal {
  import opened Wrappers
  import opened Drafts
  import Catalog

  /** The value of the `step` state variable. */
  type StepNo = n: int | 1 <= n <= 4 witness 1

  datatype Wizard = Wizard(step: StepNo, draft: Draft)

  /** The time-slot buttons of step 2. */
  const TimeSlots: seq<string> := [
    "09:00", "10:00", "11:00", "12:00", "13:00", "14:00", "15:00", "16:00", "17:00"
  ]

  /** The controls of the modal. */
  datatype Event =
    | ChooseService(id: string)        // a service card of step 1
    | ChooseTime(slot: string)         // a time-slot button of step 2
    | Edit(field: Field, value: string) // a named input or textarea
    | Continue                         // the Continue button of step 1 or 2
    | Back                             // the Back button of step 2 or 3
    | Submit                           // submitting the step-3 form
    | Close                            // backdrop, X button or step-4 Close

  /** The state when the component mounts with an optional pre-selected
      service: step 1, the service's id in the draft, everything else
      empty. */
  function Mount(selected: Option<Catalog.Service>): (w: Wizard)
    ensures w.step == 1
    ensures w.draft.service == (if selected.Some? then selected.value.id else "")
    ensures forall f :: f != ServiceId ==> Get(w.draft, f) == ""
  {
    Wizard(1, Set(Empty, ServiceId, if selected.Some? then selected.value.id else ""))
  }

  /** `handleInputChange`, and the card and slot click handlers that do the
      same spread for `service` and `time`: exactly one field changes and
      the step stays. */
  function HandleInputChange(w: Wizard, f: Field, v: string): (r: Wizard)
    ensures r.step == w.step
    ensures Get(r.draft, f) == v
    ensures forall g :: g != f ==> Get(r.draft, g) == Get(w.draft, g)
  {
    Wizard(w.step, Set(w.draft, f, v))
  }

  /** `handleSubmit`: moves to the confirmation step and keeps the draft. */
  function HandleSubmit(w: Wizard): (r: Wizard)
    ensures r.step == 4 && r.draft == w.draft
  {
    Wizard(4, w.draft)
  }

  /** `resetAndClose`: back to step 1 with every field empty, the service
      included, whatever the state was. */
  function ResetAndClose(w: Wizard): (r: Wizard)
    ensures r.step == 1
    ensures forall f :: Get(r.draft, f) == ""
    ensures r == Mount(None)
  {
    Wizard(1, Empty)
  }

  /** `selectedServiceData`: the catalog entry whose id is the draft's
      service, if any. */
  function SummaryService(w: Wizard): (r: Option<Catalog.Service>)
    ensures r.Some? ==> r.value in Catalog.Services && r.value.id == w.draft.service
    ensures r.None? <==> w.draft.service !in Catalog.Ids(Catalog.Services)
  {
    Catalog.Find(Catalog.Services, w.draft.service)
  }

  /** The inputs rendered on each step: the date input on step 2; name,
      email, phone and the project textarea on step 3. */
  predicate Editable(step: StepNo, f: Field) {
    || (step == 2 && f == Date)
    || (step == 3 && f in {Name, Email, Phone, Message})
  }

  /** What a control does in state `w`, or None when the control is not on
      screen or is disabled. */
  function Next(w: Wizard, e: Event): (r: Option<Wizard>)
    // Close works on every step and always resets.
    ensures e == Close ==> r == Some(ResetAndClose(w))
    // Step 1 to 2 needs a service, and nothing else.
    ensures e == Continue && w.step == 1 ==>
      (r.Some? <==> w.draft.service != "") && (r.Some? ==> r.value == Wizard(2, w.draft))
    // Step 2 to 3 needs a date and a time; the date is not compared to today.
    ensures e == Continue && w.step == 2 ==>
      (r.Some? <==> w.draft.date != "" && w.draft.time != "") && (r.Some? ==> r.value == Wizard(3, w.draft))
    ensures e == Continue && w.step >= 3 ==> r.None?
    // Back goes one step back from 2 or 3 and erases nothing.
    ensures e == Back ==>
      (r.Some? <==> w.step == 2 || w.step == 3) && (r.Some? ==> r.value == Wizard(w.step - 1, w.draft))
    // Submit goes from 3 to 4 once name and email (the `required` inputs)
    // are filled; phone may stay empty.
    ensures e == Submit ==>
      (r.Some? <==> w.step == 3 && w.draft.name != "" && w.draft.email != "")
      && (r.Some? ==> r.value == Wizard(4, w.draft))
    // Cards, slots and inputs change exactly their own field.
    ensures e.ChooseService? ==>
      (r.Some? <==> w.step == 1 && e.id in Catalog.Ids(Catalog.Services))
      && (r.Some? ==> r.value.step == 1 && r.value.draft == Set(w.draft, ServiceId, e.id))
    ensures e.ChooseTime? ==>
      (r.Some? <==> w.step == 2 && e.slot in TimeSlots)
      && (r.Some? ==> r.value.step == 2 && r.value.draft == Set(w.draft, Time, e.slot))
    ensures e.Edit? ==>
      (r.Some? <==> Editable(w.step, e.field))
      && (r.Some? ==> r.value.step == w.step && r.value.draft == Set(w.draft, e.field, e.value))
  {
    var d := w.draft;
    match e
    case Close => Some(ResetAndClose(w))
    case ChooseService(id) =>
      if w.step == 1 && id in Catalog.Ids(Catalog.Services) then Some(HandleInputChange(w, ServiceId, id)) else None
    case ChooseTime(slot) =>
      if w.step == 2 && slot in TimeSlots then Some(HandleInputChange(w, Time, slot)) else None
    case Edit(f, v) =>
      if Editable(w.step, f) then Some(HandleInputChange(w, f, v)) else None
    case Continue =>
      if w.step == 1 && d.service != "" then Some(Wizard(2, d))
      else if w.step == 2 && d.date != "" && d.time != "" then Some(Wizard(3, d))
      else None
    case Back =>
      if w.step == 2 then Some(Wizard(1, d))
      else if w.step == 3 then Some(Wizard(2, d))
      else None
    case Submit =>
      if w.step == 3 && d.name != "" && d.email != "" then Some(HandleSubmit(w)) else None
  }

  /** Plays a sequence of clicks; a click on a control that is absent or
      disabled does nothing. */
  function Run(w: Wizard, es: seq<Event>): Wizard
    decreases |es|
  {
    if |es| == 0 then w else Run(Next(w, es[0]).GetOr(w), es[1..])
  }

  /** What holds in every state the modal can reach: the service is empty
      or a catalog id, the time is empty or a slot, and each step past the
      first has the fields its guard checked. */
  predicate Inv(w: Wizard) {
    && (w.draft.service == "" || w.draft.service in Catalog.Ids(Catalog.Services))
    && (w.draft.time == "" || w.draft.time in TimeSlots)
    && (w.step >= 2 ==> w.draft.service != "")
    && (w.step >= 3 ==> w.draft.date != "" && w.draft.time != "")
    && (w.step == 4 ==> w.draft.name != "" && w.draft.email != "")
  }

  /** Mounting with nothing or with a catalog entry starts in the
      invariant. */
  lemma MountInv(selected: Option<Catalog.Service>)
    requires selected.Some? ==> selected.value in Catalog.Services
    ensures Inv(Mount(selected))
  {
    if selected.Some? {
      var k :| 0 <= k < |Catalog.Services| && Catalog.Services[k] == selected.value;
      assert Catalog.Ids(Catalog.Services)[k] == selected.value.id;
    }
  }

  /** Every control keeps the invariant. */
  lemma NextInv(w: Wizard, e: Event)
    requires Inv(w)
    requires Next(w, e).Some?
    ensures Inv(Next(w, e).value)
  {
  }

  /** Every sequence of clicks keeps the invariant. */
  lemma {:induction false} RunInv(w: Wizard, es: seq<Event>)
    requires Inv(w)
    ensures Inv(Run(w, es))
    decreases |es|
  {
    if |es| > 0 {
      var w' := Next(w, es[0]).GetOr(w);
      if Next(w, es[0]).Some? { NextInv(w, es[0]); }
      RunInv(w', es[1..]);
    }
  }

  /** From step 2 on, and so on the confirmation step, the summary always
      finds the chosen service in the catalog. */
  lemma SummaryDefined(w: Wizard)
    requires Inv(w)
    requires w.step >= 2
    ensures SummaryService(w).Some?
    ensures SummaryService(w).value.id == w.draft.service
  {
  }

  /** Going back and then forward again returns to the very same state:
      navigation loses no data. */
  lemma BackThenContinue(w: Wizard)
    requires Inv(w)
    requires w.step == 2 || w.step == 3
    ensures Next(w, Back).Some?
    ensures Next(Next(w, Back).value, Continue) == Some(w)
  {
  }

  /** The walk-through of a booking: a service, a date and a time, the
      contact details, then submit; the confirmation shows the service's
      title and duration. */
  lemma Walkthrough()
    ensures var w := Run(Mount(None), [
      ChooseService("web-dev"), Continue,
      Edit(Date, "2025-06-01"), ChooseTime("10:00"), Continue,
      Edit(Name, "Asha"), Edit(Email, "asha@example.com"), Submit]);
      && w.step == 4
      && w.draft.phone == ""
      && SummaryService(w) == Some(Catalog.Services[0])
  {
    var w0 := Mount(None);
    assert Catalog.Ids(Catalog.Services)[0] == "web-dev";
    var w1 := Next(w0, ChooseService("web-dev")).value;
    var w2 := Next(w1, Continue).value;
    var w3 := Next(w2, Edit(Date, "2025-06-01")).value;
    assert TimeSlots[1] == "10:00";
    var w4 := Next(w3, ChooseTime("10:00")).value;
    var w5 := Next(w4, Continue).value;
    var w6 := Next(w5, Edit(Name, "Asha")).value;
    var w7 := Next(w6, Edit(Email, "asha@example.com")).value;
    var w8 := Next(w7, Submit).value;
    assert w8 == Wizard(4, Draft("web-dev", "2025-06-01", "10:00", "Asha", "asha@example.com", "", ""));
    Catalog.ServicesDistinct();
    Catalog.FindUnique(Catalog.Services, 0);
  }
}
