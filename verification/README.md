# Ink Spire Support site: booking, contact and performance logic in Dafny

A model of the logic inside the Ink Spire Support marketing site, a React
front end. The site has five pieces of logic, and each is written here as
pure functions over immutable records:

- **Booking modal** (`BookingModal`): a four-step wizard over a seven-field
  draft. The steps are select a service; pick a date and a time; enter
  contact details; confirmation.
- **One-page booking form** (`BookingPage`): a completeness check and a
  WhatsApp card template. On submit it opens a `wa.me` deep link, then
  shows its success view.
- **Contact form** (`Contact`): three message templates, a `mailto:` link
  and a `wa.me` link, and a reset after submit.
- **Performance heuristics** (`Performance`): device classification, the
  priority table of animation settings, the CSS class list, and the
  one-flag throttle for scroll handlers.
- **Top-level view state** (`App`): three state variables, three handlers,
  the catalog lookup and the page-selection rule.

Shared modules:

- `Drafts`: the seven-field record both booking flows keep.
- `Catalog`: the service catalog, its first-match lookup, and the ids the
  services cards emit.
- `Template`: fills a template literal (`Fill`) and reads one back
  (`Read`).
- `Text`: character search, `join` and `split`.
- `Uri`: what the model assumes about `encodeURIComponent`.
- `Wrappers`: the `Option` type.

## How browser behaviour is modelled

- **Controls.** Each clickable or typeable control is an `Event`. A
  component's `Next` function returns `None` when the control is not on
  screen or is disabled. `Run` plays a sequence of events.
- **Reachable states.** `App`, `BookingModal` and `BookingPage` each have an
  invariant `Inv` that holds in every reachable state. A lemma proves that
  every event sequence keeps it. `Contact` keeps name and email single-line
  over any session (`Contact.RunSends`).
- **Encoding.** `encodeURIComponent` and `decodeURIComponent` are function
  parameters `enc` and `dec`. Two facts are assumed about them:
  - the encoder emits only unreserved characters and `%` escapes, so never
    `&` (`Uri.IsComponentEncoder`);
  - the decoder undoes the encoder (`Uri.Inverts`).

  The URL properties are stated as round trips. The receiver strips the
  fixed prefix, decodes and reads the template. For the contact links it
  gets back exactly the submitted name, email and message. For the booking
  link it gets back the six fields and the message slot. The slot is the
  message, or `No additional message provided` when the message is empty.
  So an empty message and that literal text cannot be told apart
  (`BookingPage.PlaceholderAmbiguous`).
- **Single-line inputs.** A single-line `<input>` never holds a line break,
  because the browser strips them. So the events for those fields carry
  only values without line breaks. This is what makes the templates
  readable back.

The code's guards are weaker than a reader may expect:

- The modal's Continue guards test only that the fields are non-empty. They
  do not compare the date with today and do not check the service against
  the catalog. The invariant still shows the service is always a catalog id.
- The modal always starts at step 1, even when a service is supplied.
- Submitting the modal needs only name and email, the two `required`
  inputs. Phone may stay empty.

`detectDeviceType` checks gaming before mobile and tablet.
`Performance.ClassificationOrderIrrelevant` proves that this gives the same
class as the alternative order: mobile, tablet, gaming, desktop
(`Performance.ClassifyMobileFirst`).

Two facts about the code as written are proved:

- Nothing ever sets `isBookingModalOpen`, so the modal is never shown.
- The services cards emit ids (`branding`, `it-solutions`, ...) that are not
  in the App catalog (`web-dev`, `ui-ux`, ...). So `selectedService` is
  empty in every reachable state.

## Model

| member | source | states |
|---|---|---|
| Catalog.Find | src/components/BookingModal.tsx:116 | The result is the first catalog entry whose id equals the key, or None exactly when no entry has that id |
| Catalog.FindUnique | src/components/BookingModal.tsx:31-80 | When ids are pairwise distinct, looking up any entry's id returns that very entry |
| Catalog.ServicesDistinct | src/App.tsx:23-72 | The six catalog ids are pairwise distinct |
| Catalog.FindListed | src/App.tsx:95 | Looking up an id that the catalog lists always finds an entry with that id |
| Catalog.CardsOutsideCatalog | src/components/Services.tsx:29-78 | No id emitted by a services card is found in the catalog |
| Drafts.Set | src/components/Booking.tsx:44-46 | The object-spread update gives the named field the new value and leaves the other six unchanged |
| Drafts.SetUndo | src/components/BookingModal.tsx:86-91 | Writing back a field's old value undoes an update; a later write to the same field overrides an earlier one |
| Drafts.SetCommute | src/components/BookingModal.tsx:86-91 | Updates to two different fields commute |
| BookingModal.Mount | src/components/BookingModal.tsx:20-29 | The initial state is step 1; the service is the supplied service's id or empty; the other six fields are empty |
| BookingModal.HandleInputChange | src/components/BookingModal.tsx:86-91 | The step stays the same, the named field takes the value, and every other field is unchanged |
| BookingModal.HandleSubmit | src/components/BookingModal.tsx:93-98 | Submit moves to step 4 and keeps the draft unchanged |
| BookingModal.ResetAndClose | src/components/BookingModal.tsx:100-112 | From any state, the result is step 1 with all seven fields empty, the service included; this equals a mount with no service |
| BookingModal.SummaryService | src/components/BookingModal.tsx:116 | The summary service is a catalog entry with the draft's service id, and it is None exactly when that id is not a catalog id |
| BookingModal.Next | src/components/BookingModal.tsx:155-400 | Close always resets. Continue from step 1 works iff a service is set. Continue from step 2 works iff date and time are set, with no date comparison. Back works only from steps 2 and 3 and keeps the draft. Submit works only on step 3 with name and email set. Cards, slots and inputs change exactly their own field, and only on their own step |
| BookingModal.MountInv | src/components/BookingModal.tsx:20-29 | Mounting with no service or with a catalog entry satisfies the reachable-state invariant |
| BookingModal.NextInv | src/components/BookingModal.tsx:160-352 | Every control preserves the invariant. The service is empty or a catalog id, and the time is empty or a slot. Each step past the first has the fields its guard checked |
| BookingModal.RunInv | src/components/BookingModal.tsx:155-400 | Every sequence of clicks preserves the invariant |
| BookingModal.SummaryDefined | src/components/BookingModal.tsx:371-390 | From step 2 on, and so on the confirmation screen, the summary always finds the chosen service |
| BookingModal.BackThenContinue | src/components/BookingModal.tsx:250-264 | In a reachable state on step 2 or 3, Back followed by Continue returns to the identical state, so no data is lost |
| BookingModal.Walkthrough | src/components/BookingModal.tsx:155-400 | Choosing web-dev, a date and a slot, then name and email, and submitting reaches step 4 with phone empty and the Web Development entry in the summary |
| BookingPage.IsFormValid | src/components/Booking.tsx:94 | The form is valid iff every field except the additional message is non-empty |
| BookingPage.MessageIrrelevant | src/components/Booking.tsx:94 | Editing the additional message never changes validity |
| BookingPage.HandleInputChange | src/components/Booking.tsx:44-46 | Only the named field changes; the submitted flag is kept |
| BookingPage.WhatsAppMessage | src/components/Booking.tsx:52-85 | The card opens with the banner. When the six one-line fields have no line breaks, reading the card gives back name, email, phone, service, date, time and the message slot |
| BookingPage.MessageSlot | src/components/Booking.tsx:72-73 | The message slot is never empty, and a non-empty message appears verbatim |
| BookingPage.MessageOrder | src/components/Booking.tsx:63-73 | Name, email, phone, service, date, time and the message slot, named by field, each occur in the card at their offsets. Each ends before the next begins |
| BookingPage.WhatsAppUrl | src/components/Booking.tsx:87-88 | The URL starts with `https://wa.me/+255738644881?text=`, and what follows the prefix is the encoded card |
| BookingPage.UrlRoundTrip | src/components/Booking.tsx:52-88 | Decoding the link and reading the card gives back the six fields in order. The slot holds the message, or `No additional message provided` when the message is empty |
| BookingPage.PlaceholderAmbiguous | src/components/Booking.tsx:72-73 | An empty message and a message that is literally the placeholder render the same card |
| BookingPage.HandleSubmit | src/components/Booking.tsx:48-92 | Submit opens exactly one URL, the card link of the current form, sets the submitted flag, and keeps the form |
| BookingPage.Next | src/components/Booking.tsx:161-307 | After submission no control works. Submit works iff the form is valid, and then it is `HandleSubmit`: it opens the card link and sets the submitted flag. Only Submit opens a URL. Buttons can enter only their listed service or slot, and single-line inputs cannot enter line breaks |
| BookingPage.LabelsSingleLine | src/components/Booking.tsx:13-25 | No service or time-slot label contains a line break |
| BookingPage.NextInv | src/components/Booking.tsx:216-260 | Every control preserves the invariant. The service is empty or a listed name, and the time is empty or a listed slot. The single-line fields have no line breaks. Submitted implies valid |
| BookingPage.RunDispatch | src/components/Booking.tsx:42-96 | Any session opens at most one URL. From an unsent page, the success view is reached iff a URL was opened. Once submitted, the page never changes and the flag never goes back to false. The opened URL carries the form shown on the success view |
| BookingPage.SubmitSends | src/components/Booking.tsx:87-91 | On an unsent page with a complete form, Create Booking opens exactly the card link of the form and shows the success view with the form kept |
| BookingPage.DispatchReadsBack | src/components/Booking.tsx:87-91 | From a fresh page, the success view shows iff exactly one link was opened. That link reads back to the six fields and the message slot of the booking on the success view |
| Contact.HandleChange | src/components/Contact.tsx:40-45 | Exactly the named field changes |
| Contact.Subject | src/components/Contact.tsx:15 | Any decoder that undoes the encoder reads the name back from the encoded subject, whatever the name holds |
| Contact.Body | src/components/Contact.tsx:16-18 | When name and email are single-line, any decoder that undoes the encoder reads name, email and message back from the encoded body |
| Contact.Greeting | src/components/Contact.tsx:21-23 | When name and email are single-line, any decoder that undoes the encoder reads name, email and message back from the encoded greeting |
| Contact.MailtoUrl | src/components/Contact.tsx:26 | The email link starts with `mailto:info@inkspire.co.tz?subject=` |
| Contact.WhatsAppUrl | src/components/Contact.tsx:27 | The WhatsApp link starts with `https://wa.me/255738644881?text=` (no `+`), and what follows is the encoded greeting |
| Contact.MailtoRoundTrip | src/components/Contact.tsx:15-26 | Splitting the email link at its `&`, decoding, and reading the subject and body templates gives back name, email and message |
| Contact.WhatsAppRoundTrip | src/components/Contact.tsx:21-27 | Decoding the WhatsApp link and reading the greeting template gives back name, email and message |
| Contact.HandleSubmit | src/components/Contact.tsx:11-38 | Submit opens the email link and then the WhatsApp link, and leaves an all-empty form |
| Contact.SubmitCarriesForm | src/components/Contact.tsx:15-34 | Both opened links read back to the values before the reset, while the remaining form is empty |
| Contact.Next | src/components/Contact.tsx:139-195 | Submit works iff all three `required` fields are filled, and then it is `HandleSubmit`. An edit changes one field and opens nothing |
| Contact.NextSingleLine | src/components/Contact.tsx:143-170 | Every control keeps name and email free of line breaks |
| Contact.RunSends | src/components/Contact.tsx:11-45 | Over any session, name and email stay single-line. The opened URLs come in pairs: twice as many URLs as submits the browser accepted (`Contact.Accepted`). Each pair is an email link and a WhatsApp link that read back to the same form with all three fields filled |
| Performance.DetectDeviceType | src/hooks/usePerformance.ts:42-57 | Gaming iff neither flag is set and the viewport is at least 1920x1080. Mobile iff the mobile flag is set and width is at most 768. Tablet iff not mobile and (the tablet flag is set or 768 < width <= 1024) |
| Performance.ClassificationOrderIrrelevant | src/hooks/usePerformance.ts:49-56 | Checking gaming first, as the code does, gives the same class as checking mobile, tablet, then gaming |
| Performance.GetOptimizedSettings | src/hooks/usePerformance.ts:60-85 | High refresh iff the rate is at least 90. Scrolling is `auto` iff the rate is high. The duration is in {80, 150, 200, 300}. It is 300 iff the rate is below 90, 150 iff mobile at 120 or more, and 80 iff gaming at 240 or more |
| Performance.DurationNonIncreasing | src/hooks/usePerformance.ts:63-78 | For a fixed device class, a higher refresh rate never gives a longer animation |
| Performance.DefaultConsistent | src/hooks/usePerformance.ts:12-18 | The default metrics {60, desktop, false, smooth, 300} are what the settings table gives for a 60 Hz desktop |
| Performance.Initialize | src/hooks/usePerformance.ts:88-112 | Failed detection keeps the defaults. Otherwise the metrics carry the measured rate and detected class, and their settings agree with the table |
| Performance.ClassList | src/hooks/usePerformance.ts:153-162 | The list starts with `performance-optimized`, and the optional classes follow in a fixed order. Each optional class is present iff its condition holds. Mobile and gaming never appear together |
| Performance.PerformanceClass | src/hooks/usePerformance.ts:153-162 | The class string starts with `performance-optimized`, and splitting it at spaces gives back the class names |
| Performance.UltraImpliesHigh | src/hooks/usePerformance.ts:156-159 | For consistent metrics, `ultra-high-refresh` never appears without `high-refresh-rate` |
| Performance.NewThrottle | src/hooks/usePerformance.ts:131-132 | A new handler is not ticking and has nothing pending |
| Performance.OnScroll | src/hooks/usePerformance.ts:134-142 | While ticking, an event is dropped. Otherwise exactly one callback is scheduled for it and ticking is set |
| Performance.OnFrame | src/hooks/usePerformance.ts:136-139 | A frame runs the pending callback with its event and clears ticking |
| Performance.ThrottleBound | src/hooks/usePerformance.ts:131-143 | Over any input sequence, at most one callback is pending. The wrapped handler runs at most once per frame and never more often than events arrived |
| App.HandleBookService | src/App.tsx:79-82 | The selected id becomes the given id and the booking page is shown; the modal flag is untouched |
| App.HandleCloseBookingModal | src/App.tsx:84-87 | The modal is closed and the selection cleared; the page flag is untouched |
| App.HandleBackToHome | src/App.tsx:89-92 | The booking page is hidden and the selection cleared; the modal flag is untouched |
| App.SelectedService | src/App.tsx:95 | None for the empty id. Otherwise a catalog entry with that id, and None only when the catalog lacks it |
| App.Render | src/App.tsx:98-116 | The booking page is rendered iff its flag is set, whatever the other state. Otherwise the home page gets the modal flag and the selected service |
| App.Next | src/App.tsx:98-114 | A card callback works only on the home page, with a card id. Close works only while the modal is open. Back works only on the booking page. No callback opens the modal |
| App.NextInv | src/App.tsx:79-92 | Every callback preserves the invariant. The modal is closed, and the selection is empty or a card id and set only while the booking page shows |
| App.RunInv | src/App.tsx:75-92 | Every sequence of callbacks preserves the invariant, so `isBookingModalOpen` is false in every reachable state |
| App.NothingSelected | src/App.tsx:75-100 | In every reachable state, `selectedService` is None and the home page shows the modal closed |

## Left out

- `encodeURIComponent` / `decodeURIComponent` internals: UTF-16 to UTF-8 conversion and percent escapes (ECMA-262 section 19.2.6; section 2.1 of RFC 3986). They are parameters. The model assumes only the two facts in `Uri`.
- `detectRefreshRate`: it counts animation frames over one second using floating-point timestamps. The measured rate is an integer input. A failed measurement is `None` in `Performance.Initialize`.
- The user-agent regular expressions: `isMobile` and `isTablet` are boolean inputs.
- Browser side effects: `window.open` is the list of URLs an outcome carries. Not modelled: `alert`, `console.log` and `console.warn`, the CSS variables published with `setProperty`, `smoothScrollTo`/`scrollIntoView`, and `applyHardwareAcceleration`.
- Host form validation: the `type="email"` format check and the date input's `min` of today. The `required` attributes are modelled as the submit guards of `BookingModal.Next` and `Contact.Next`, because the browser enforces them.
- The contact section's clickable Phone and Email info items (src/components/Contact.tsx:89 and :97) open the fixed links `https://wa.me/255738644881` and `mailto:info@inkspire.co.tz`, with no form data. They are not events of `Contact`, so the sessions of `Contact.RunSends` do not include them.
- Strings are sequences of Unicode scalar values, while JavaScript strings are UTF-16 code units. So a form value holding a lone surrogate cannot be represented. On such a value `encodeURIComponent` throws a `URIError`, and `handleSubmit` stops before `window.open`, before the contact form's reset and before `setIsSubmitted`. That error path is not modelled: `Uri.Inverts` treats the encoder as total.
- BookingPage.Next: assumes single-line inputs strip line breaks. That is the browser's value sanitization, not code in the site.
- Contact.Next: assumes the same about single-line inputs.
- The booking page's lifetime in `App`: React mounts a fresh page each time `showBookingPage` turns on. `App` does not hold the page's state, and `BookingPage` models one mount.
- The modal's `isOpen` prop: it only decides whether the modal renders. `App.Render` models that. The wizard's state is kept while the modal is hidden.
- Performance.OnFrame: assumes the wrapped callback returns normally. If it throws, `ticking` stays set and later events are dropped; that case is not modelled.
- Markup, styling, icons, static copy, `Header.tsx`, `Hero.tsx`, `Footer.tsx`, `Portfolio.tsx`, and the markup and scroll helper of `Services.tsx`. Only the card ids of `Services.tsx` are used.
