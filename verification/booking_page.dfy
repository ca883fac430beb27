/** The one-page booking form of src/components/Booking.tsx: seven fields,
    a completeness check that enables the submit button, and on submit a
    WhatsApp deep link carrying the booking rendered into a fixed card
    layout, after which the page shows its success view for good. */
module BookingPage {
  import opened Wrappers
  import opened Text
  import opened Drafts
  import Template
  import Uri

  /** The service buttons. */
  const ServiceNames: seq<string> := [
    "Business Consulting", "Digital Marketing", "Web Development",
    "Brand Strategy", "Financial Planning", "Market Research"
  ]

  /** The time-slot buttons. */
  const TimeSlots: seq<string> := [
    "09:00 AM", "10:00 AM", "11:00 AM", "12:00 PM",
    "01:00 PM", "02:00 PM", "03:00 PM", "04:00 PM"
  ]

  /** What the message shows in place of an empty additional message. */
  const Placeholder: string := "No additional message provided"

  /** The fixed text of the WhatsApp card around its seven slots: name,
      email, phone, service, date, time, additional message. */
  const CardText: seq<string> := [
    "╔═══════════════════════════════╗\n"
      + "║  🚀 INK SPIRE SUPPORT         ║\n"
      + "║  \"Inspiring Technology,       ║\n"
      + "║   Empowering You\"             ║\n"
      + "╚═══════════════════════════════╝\n\n"
      + "🎯 **BOOKING REQUEST**\n"
      + "━━━━━━━━━━━━━━━━━━━━━━━━━━━━━━━\n\n"
      + "👤 **CLIENT INFORMATION**\n"
      + "├─ 📝 Name: ",
    "\n├─ 📧 Email: ",
    "  \n└─ 📱 Phone: ",
    "\n\n🛠\U{FE0F} **SERVICE DETAILS**\n├─ 🎯 Service: ",
    "\n├─ 📅 Date: ",
    "\n└─ ⏰ Time: ",
    "\n\n💬 **ADDITIONAL MESSAGE**\n",
    "\n\n━━━━━━━━━━━━━━━━━━━━━━━━━━━━━━━\n"
      + "🏢 **CONTACT INFORMATION**\n"
      + "━━━━━━━━━━━━━━━━━━━━━━━━━━━━━━━\n"
      + "📧 Email: info@inkspire.co.tz\n"
      + "📱 WhatsApp: +255738644881\n"
      + "☎\U{FE0F} Phone: 0738644881 / 0620691036\n"
      + "📍 Location: Boma Road, Morogoro\n"
      + "🕒 Hours: Mon-Sat 8AM-8PM\n\n"
      + "🌟 Services: Branding | IT Solutions | Gaming\n"
      + "           Digital Services | Connectivity | Entertainment"
  ]

  /** The deep-link prefix, with the `+` the number has here. */
  const UrlPrefix: string := "https://wa.me/+255738644881?text="

  /** The form state plus the `isSubmitted` flag. */
  datatype Page = Page(form: Draft, isSubmitted: bool)

  /** The state when the page mounts. */
  const Initial: Page := Page(Empty, false)

  /** A new page state and the URLs handed to `window.open`. */
  datatype Outcome = Outcome(page: Page, urls: seq<string>)

  /** `isFormValid`: every field except the additional message is filled. */
  function IsFormValid(f: Draft): (ok: bool)
    ensures ok <==> forall g :: g != Message ==> Get(f, g) != ""
  {
    assert (forall g :: g != Message ==> Get(f, g) != "") ==>
      Get(f, Name) != "" && Get(f, Email) != "" && Get(f, Phone) != ""
      && Get(f, ServiceId) != "" && Get(f, Date) != "" && Get(f, Time) != "";
    f.name != "" && f.email != "" && f.phone != "" && f.service != "" && f.date != "" && f.time != ""
  }

  /** `handleInputChange(field, value)`: exactly that field changes. */
  function HandleInputChange(p: Page, f: Field, v: string): (r: Page)
    ensures r.isSubmitted == p.isSubmitted
    ensures Get(r.form, f) == v
    ensures forall g :: g != f ==> Get(r.form, g) == Get(p.form, g)
  {
    Page(Set(p.form, f, v), p.isSubmitted)
  }

  /** The text in the additional-message slot: the message, or the
      placeholder when it is empty. */
  function MessageSlot(message: string): (s: string)
    ensures s != ""
    ensures message != "" ==> s == message
  {
    if message == "" then Placeholder else message
  }

  /** The values of the card's slots, in card order. */
  function CardValues(f: Draft): (vals: seq<string>)
    ensures |vals| == |CardText| - 1
  {
    [f.name, f.email, f.phone, f.service, f.date, f.time, MessageSlot(f.message)]
  }

  /** The WhatsApp message of `handleSubmit`: it opens with the banner and,
      when the six one-line fields are single-line, reading the card gives
      back name, email, phone, service, date, time and the message slot. */
  function WhatsAppMessage(f: Draft): (m: string)
    ensures StartsWith(m, CardText[0])
    ensures SingleLine(f) ==>
      Template.Read(CardText, m)
        == Some([f.name, f.email, f.phone, f.service, f.date, f.time, MessageSlot(f.message)])
  {
    var m := Template.Fill(CardText, CardValues(f));
    if SingleLine(f) then CardReadsBack(f); m else m
  }

  /** The URL of `handleSubmit`: the fixed prefix and the encoded message. */
  function WhatsAppUrl(enc: string -> string, f: Draft): (url: string)
    ensures StartsWith(url, UrlPrefix)
    ensures Uri.After(UrlPrefix, url) == Some(enc(WhatsAppMessage(f)))
  {
    assert (UrlPrefix + enc(WhatsAppMessage(f)))[..|UrlPrefix|] == UrlPrefix;
    UrlPrefix + enc(WhatsAppMessage(f))
  }

  /** How the receiver reads a booking link: decode the text parameter and
      read the seven slots off the card. */
  function ReadUrl(dec: string -> string, url: string): (r: Option<seq<string>>)
    ensures r.Some? ==> |r.value| == 7
  {
    match Uri.After(UrlPrefix, url)
    case None => None
    case Some(text) => Template.Read(CardText, dec(text))
  }

  /** The six fields the card shows on one line each are single-line. */
  predicate SingleLine(f: Draft) {
    forall g :: g != Message ==> Lacks(Get(f, g), '\n')
  }

  /** A card filled from a form with single-line fields reads back to its
      slot values. */
  lemma CardReadsBack(f: Draft)
    requires SingleLine(f)
    ensures Template.Read(CardText, Template.Fill(CardText, CardValues(f))) == Some(CardValues(f))
  {
    var vals := CardValues(f);
    assert forall i :: 0 <= i < 6 ==> Lacks(vals[i], '\n') by {
      assert Get(f, Name) == vals[0] && Get(f, Email) == vals[1] && Get(f, Phone) == vals[2];
      assert Get(f, ServiceId) == vals[3] && Get(f, Date) == vals[4] && Get(f, Time) == vals[5];
    }
    CardDelimited(vals);
    Template.ReadFill(CardText, vals);
  }

  /** Every literal of the card that follows a one-line slot holds a line
      break. */
  lemma CardDelimited(vals: seq<string>)
    requires |vals| == 7
    requires forall i :: 0 <= i < 6 ==> Lacks(vals[i], '\n')
    ensures Template.Delimited(CardText, vals)
  {
    assert CardText[1][0] == '\n';
    assert CardText[2][2] == '\n';
    assert CardText[3][0] == '\n';
    assert CardText[4][0] == '\n';
    assert CardText[5][0] == '\n';
    assert CardText[6][0] == '\n';
  }

  /** The card shows name, email, phone, service, date, time and the
      message slot in that order: each at its offset, each ending before
      the next begins. */
  lemma MessageOrder(f: Draft)
    ensures var vals := [f.name, f.email, f.phone, f.service, f.date, f.time, MessageSlot(f.message)];
      forall i :: 0 <= i < 7 ==>
        var at := Template.Offset(CardText, vals, i);
        at + |vals[i]| <= |WhatsAppMessage(f)|
        && WhatsAppMessage(f)[at..at + |vals[i]|] == vals[i]
    ensures var vals := [f.name, f.email, f.phone, f.service, f.date, f.time, MessageSlot(f.message)];
      forall i, j :: 0 <= i < j < 7 ==>
        Template.Offset(CardText, vals, i) + |vals[i]| <= Template.Offset(CardText, vals, j)
  {
    var vals := [f.name, f.email, f.phone, f.service, f.date, f.time, MessageSlot(f.message)];
    var m := WhatsAppMessage(f);
    assert m == Template.Fill(CardText, vals) by {
      assert vals == CardValues(f);
    }
    forall i | 0 <= i < 7
      ensures var at := Template.Offset(CardText, vals, i);
        at + |vals[i]| <= |m| && m[at..at + |vals[i]|] == vals[i]
    {
      Template.FillAt(CardText, vals, i);
    }
    forall i, j | 0 <= i < j < 7
      ensures Template.Offset(CardText, vals, i) + |vals[i]| <= Template.Offset(CardText, vals, j)
    {
      Template.OffsetOrder(CardText, vals, i, j);
    }
  }

  /** Decoding a booking link and reading the card gives back the six
      fields and the message slot: the placeholder for an empty message,
      the message itself otherwise. */
  lemma UrlRoundTrip(enc: string -> string, dec: string -> string, f: Draft)
    requires Uri.Inverts(dec, enc)
    requires SingleLine(f)
    ensures ReadUrl(dec, WhatsAppUrl(enc, f))
      == Some([f.name, f.email, f.phone, f.service, f.date, f.time,
               if f.message == "" then Placeholder else f.message])
  {
    assert dec(enc(WhatsAppMessage(f))) == WhatsAppMessage(f);
  }

  /** An empty message and a message that is literally the placeholder
      produce the same card: the receiver cannot tell them apart. */
  lemma PlaceholderAmbiguous(f: Draft)
    ensures WhatsAppMessage(f.(message := "")) == WhatsAppMessage(f.(message := Placeholder))
  {
    assert CardValues(f.(message := "")) == CardValues(f.(message := Placeholder));
  }

  /** `handleSubmit`: opens the link built from the current form and sets
      `isSubmitted`; the form itself is kept. */
  function HandleSubmit(enc: string -> string, p: Page): (r: Outcome)
    ensures r.page.isSubmitted && r.page.form == p.form
    ensures r.urls == [WhatsAppUrl(enc, p.form)]
  {
    Outcome(Page(p.form, true), [WhatsAppUrl(enc, p.form)])
  }

  /** The controls of the page. */
  datatype Event =
    | Edit(field: Field, value: string) // an input, textarea, service or time button
    | Submit                            // the Create Booking button

  /** The values a control can put into a field: a service or time button
      its own label, a single-line input a value without line breaks (the
      browser strips them), the textarea anything. */
  predicate Enterable(f: Field, v: string) {
    match f
    case ServiceId => v in ServiceNames
    case Time => v in TimeSlots
    case Message => true
    case _ => Lacks(v, '\n')
  }

  /** What a control does, or None when it is not on screen or disabled:
      after submission only the success view is shown, and the submit
      button is disabled while the form is incomplete. */
  function Next(enc: string -> string, p: Page, e: Event): (r: Option<Outcome>)
    ensures p.isSubmitted ==> r.None?
    ensures e == Submit ==> (r.Some? <==> !p.isSubmitted && IsFormValid(p.form))
    ensures e == Submit && r.Some? ==> r.value == HandleSubmit(enc, p)
    ensures r.Some? && r.value.urls != [] ==>
      e == Submit && IsFormValid(p.form) && r.value.urls == [WhatsAppUrl(enc, p.form)]
    ensures e.Edit? ==> (r.Some? <==> !p.isSubmitted && Enterable(e.field, e.value))
    ensures e.Edit? && r.Some? ==>
      r.value.page == HandleInputChange(p, e.field, e.value) && r.value.urls == []
  {
    if p.isSubmitted then None
    else
      match e
      case Submit =>
        if IsFormValid(p.form) then Some(HandleSubmit(enc, p)) else None
      case Edit(f, v) =>
        if Enterable(f, v) then Some(Outcome(HandleInputChange(p, f, v), [])) else None
  }

  /** Plays a sequence of clicks and keystrokes, collecting the
      URLs it opens; a control that is absent or disabled does nothing. */
  function Run(enc: string -> string, p: Page, es: seq<Event>): Outcome
    decreases |es|
  {
    if |es| == 0 then Outcome(p, [])
    else
      match Next(enc, p, es[0])
      case None => Run(enc, p, es[1..])
      case Some(o) =>
        var rest := Run(enc, o.page, es[1..]);
        Outcome(rest.page, o.urls + rest.urls)
  }

  /** What holds in every state the page can reach. */
  predicate Inv(p: Page) {
    && (p.form.service == "" || p.form.service in ServiceNames)
    && (p.form.time == "" || p.form.time in TimeSlots)
    && SingleLine(p.form)
    && (p.isSubmitted ==> IsFormValid(p.form))
  }

  /** The service and time buttons' labels are single-line. */
  lemma LabelsSingleLine()
    ensures forall s :: s in ServiceNames ==> Lacks(s, '\n')
    ensures forall s :: s in TimeSlots ==> Lacks(s, '\n')
  {
  }

  /** Every control keeps the invariant. */
  lemma NextInv(enc: string -> string, p: Page, e: Event)
    requires Inv(p)
    requires Next(enc, p, e).Some?
    ensures Inv(Next(enc, p, e).value.page)
  {
    if e.Edit? {
      LabelsSingleLine();
      var r := Next(enc, p, e).value.page;
      forall g | g != Message
        ensures Lacks(Get(r.form, g), '\n')
      {
        if g != e.field { assert Get(r.form, g) == Get(p.form, g); }
      }
    }
  }

  /** From a reachable state, any session opens at most one URL; once it
      has, the page is on its success view and the URL carries the form as
      it stands there, which is complete. */
  lemma {:induction false} RunDispatch(enc: string -> string, p: Page, es: seq<Event>)
    requires Inv(p)
    ensures var o := Run(enc, p, es);
      && Inv(o.page)
      && (p.isSubmitted ==> o.urls == [] && o.page == p)
      && (!p.isSubmitted ==> (o.page.isSubmitted <==> o.urls != []))
      && |o.urls| <= 1
      && (o.urls != [] ==> o.page.isSubmitted && o.urls == [WhatsAppUrl(enc, o.page.form)])
      && (o.page.isSubmitted ==> IsFormValid(o.page.form))
    decreases |es|
  {
    if |es| > 0 {
      match Next(enc, p, es[0])
      case None =>
        RunDispatch(enc, p, es[1..]);
      case Some(o) =>
        NextInv(enc, p, es[0]);
        RunDispatch(enc, o.page, es[1..]);
    }
  }

  /** On an unsent page with a complete form, Create Booking opens exactly
      the card link of the form and switches to the success view. */
  lemma SubmitSends(enc: string -> string, p: Page)
    requires !p.isSubmitted && IsFormValid(p.form)
    ensures Run(enc, p, [Submit]) == Outcome(Page(p.form, true), [WhatsAppUrl(enc, p.form)])
  {
    assert [Submit][1..] == [];
  }

  /** In any session from a fresh page, the success view is shown exactly
      when one link has been opened, and that link reads back to the
      fields of the booking on the success view. */
  lemma DispatchReadsBack(enc: string -> string, dec: string -> string, es: seq<Event>)
    requires Uri.Inverts(dec, enc)
    ensures var o := Run(enc, Initial, es);
      && (o.page.isSubmitted <==> |o.urls| == 1)
      && (o.urls != [] ==>
        var g := o.page.form;
        ReadUrl(dec, o.urls[0])
          == Some([g.name, g.email, g.phone, g.service, g.date, g.time, MessageSlot(g.message)]))
  {
    assert Inv(Initial);
    RunDispatch(enc, Initial, es);
    var o := Run(enc, Initial, es);
    if o.urls != [] {
      UrlRoundTrip(enc, dec, o.page.form);
    }
  }

  /** Clearing or typing the additional message never changes whether the
      form can be submitted. */
  lemma MessageIrrelevant(f: Draft, v: string)
    ensures IsFormValid(Set(f, Message, v)) == IsFormValid(f)
  {
  }
}
