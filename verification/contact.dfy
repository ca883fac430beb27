/** The contact form of src/components/Contact.tsx: name, email and
    message; on submit it opens an email draft and a WhatsApp chat, both
    pre-filled from the form, then clears the form. */
module Contact {
  import opened Wrappers
  import opened Text
  import Template
  import Uri

  datatype Field = Name | Email | Message

  datatype Form = Form(name: string, email: string, message: string)

  const Empty: Form := Form("", "", "")

  /** The fixed text of the email subject around the name. */
  const SubjectText: seq<string> := ["Service Inquiry from ", ""]

  /** The fixed text of the email body around name, email and message. */
  const BodyText: seq<string> := ["Name: ", "\nEmail: ", "\n\nMessage:\n", ""]

  /** The fixed text of the WhatsApp greeting around name, email and
      message. */
  const GreetingText: seq<string> := ["Hello! I'm ", ".\n\nEmail: ", "\n\nMessage: ", ""]

  /** The email link up to the subject, and the key of the body. */
  const MailtoPrefix: string := "mailto:info@inkspire.co.tz?subject="
  const BodyKey: string := "&body="

  /** The WhatsApp link up to the text; the number has no `+` here, unlike
      the booking page's. */
  const WhatsAppPrefix: string := "https://wa.me/255738644881?text="

  function Get(f: Form, k: Field): string {
    match k
    case Name => f.name
    case Email => f.email
    case Message => f.message
  }

  /** `handleChange`: `{ ...formData, [name]: value }`, exactly one field
      changes. */
  function HandleChange(f: Form, k: Field, v: string): (r: Form)
    ensures Get(r, k) == v
    ensures forall j :: j != k ==> Get(r, j) == Get(f, j)
  {
    match k
    case Name => f.(name := v)
    case Email => f.(email := v)
    case Message => f.(message := v)
  }

  /** The encoded subject: the fixed phrase followed by the name. Any
      decoder that undoes the encoder reads the name back, whatever it
      holds. */
  function Subject(enc: string -> string, f: Form): (s: string)
    ensures forall dec :: Uri.Inverts(dec, enc) ==>
      Template.Read(SubjectText, dec(s)) == Some([f.name])
  {
    Template.ReadFill(SubjectText, [f.name]);
    enc(Template.Fill(SubjectText, [f.name]))
  }

  /** The encoded email body: name, email and message on their own lines,
      read back by any decoder that undoes the encoder when name and email
      are single-line. */
  function Body(enc: string -> string, f: Form): (b: string)
    ensures SingleLine(f) ==> forall dec :: Uri.Inverts(dec, enc) ==>
      Template.Read(BodyText, dec(b)) == Some([f.name, f.email, f.message])
  {
    var t := Template.Fill(BodyText, [f.name, f.email, f.message]);
    if SingleLine(f) then
      assert Template.Delimited(BodyText, [f.name, f.email, f.message]) by {
        assert BodyText[1][0] == '\n' && BodyText[2][0] == '\n';
      }
      Template.ReadFill(BodyText, [f.name, f.email, f.message]);
      enc(t)
    else enc(t)
  }

  /** The encoded WhatsApp greeting, read back the same way. */
  function Greeting(enc: string -> string, f: Form): (g: string)
    ensures SingleLine(f) ==> forall dec :: Uri.Inverts(dec, enc) ==>
      Template.Read(GreetingText, dec(g)) == Some([f.name, f.email, f.message])
  {
    var t := Template.Fill(GreetingText, [f.name, f.email, f.message]);
    if SingleLine(f) then
      assert Template.Delimited(GreetingText, [f.name, f.email, f.message]) by {
        assert GreetingText[1][1] == '\n' && GreetingText[2][0] == '\n';
      }
      Template.ReadFill(GreetingText, [f.name, f.email, f.message]);
      enc(t)
    else enc(t)
  }

  /** The `mailto:` link: subject and body as two query parameters. */
  function MailtoUrl(enc: string -> string, f: Form): (url: string)
    ensures StartsWith(url, MailtoPrefix)
  {
    var url := MailtoPrefix + Subject(enc, f) + BodyKey + Body(enc, f);
    assert url == MailtoPrefix + (Subject(enc, f) + BodyKey + Body(enc, f));
    url
  }

  /** The `wa.me` link with the greeting as its text. */
  function WhatsAppUrl(enc: string -> string, f: Form): (url: string)
    ensures StartsWith(url, WhatsAppPrefix)
    ensures Uri.After(WhatsAppPrefix, url) == Some(Greeting(enc, f))
  {
    var url := WhatsAppPrefix + Greeting(enc, f);
    assert url[..|WhatsAppPrefix|] == WhatsAppPrefix;
    url
  }

  /** Splits an email link into its raw subject and body parameters: the
      subject runs up to the first `&`. */
  function SplitMailto(url: string): (r: Option<(string, string)>)
    ensures r.Some? ==> url == MailtoPrefix + r.value.0 + BodyKey + r.value.1
  {
    match Uri.After(MailtoPrefix, url)
    case None => None
    case Some(query) =>
      var k := IndexOf(query, '&');
      match Uri.After(BodyKey, query[k..])
      case None => None
      case Some(body) =>
        assert query == query[..k] + query[k..];
        Some((query[..k], body))
  }

  /** How the receiver reads the email link: split the query at the `&`,
      decode subject and body, and read the name, email and message off
      them; the name in the subject must match the one in the body. */
  function ReadMailto(dec: string -> string, url: string): (r: Option<Form>)
    ensures r.Some? ==> StartsWith(url, MailtoPrefix)
  {
    match SplitMailto(url)
    case None => None
    case Some((subject, body)) =>
      assert url == MailtoPrefix + (subject + BodyKey + body);
      match (Template.Read(SubjectText, dec(subject)), Template.Read(BodyText, dec(body)))
      case (Some(s), Some(b)) =>
        if s[0] == b[0] then Some(Form(b[0], b[1], b[2])) else None
      case _ => None
  }

  /** A subject without `&` is split off its link exactly. */
  lemma SplitMailtoOf(subject: string, body: string)
    requires Lacks(subject, '&')
    ensures SplitMailto(MailtoPrefix + subject + BodyKey + body) == Some((subject, body))
  {
    var query := subject + BodyKey + body;
    var url := MailtoPrefix + subject + BodyKey + body;
    assert url == MailtoPrefix + query;
    assert Uri.After(MailtoPrefix, url) == Some(query);
    assert query == subject + (BodyKey + body);
    IndexOfAppend(subject, BodyKey + body, '&');
    var k := IndexOf(query, '&');
    assert k == |subject|;
    assert query[..k] == subject;
    assert query[k..] == BodyKey + body;
  }

  /** How the receiver reads the WhatsApp link. */
  function ReadWhatsApp(dec: string -> string, url: string): (r: Option<Form>)
    ensures r.Some? ==> StartsWith(url, WhatsAppPrefix)
  {
    match Uri.After(WhatsAppPrefix, url)
    case None => None
    case Some(text) =>
      match Template.Read(GreetingText, dec(text))
      case Some(g) => Some(Form(g[0], g[1], g[2]))
      case None => None
  }

  /** Name and email come from single-line inputs. */
  predicate SingleLine(f: Form) {
    Lacks(f.name, '\n') && Lacks(f.email, '\n')
  }

  /** The email link reads back to the form it was built from. */
  lemma MailtoRoundTrip(enc: string -> string, dec: string -> string, f: Form)
    requires Uri.IsComponentEncoder(enc)
    requires Uri.Inverts(dec, enc)
    requires SingleLine(f)
    ensures ReadMailto(dec, MailtoUrl(enc, f)) == Some(f)
  {
    var subject := Subject(enc, f);
    var body := Body(enc, f);
    Uri.EncodedLacksAmpersand(subject);
    SplitMailtoOf(subject, body);
    assert MailtoUrl(enc, f) == MailtoPrefix + subject + BodyKey + body;
  }

  /** The WhatsApp link reads back to the form it was built from. */
  lemma WhatsAppRoundTrip(enc: string -> string, dec: string -> string, f: Form)
    requires Uri.Inverts(dec, enc)
    requires SingleLine(f)
    ensures ReadWhatsApp(dec, WhatsAppUrl(enc, f)) == Some(f)
  {
  }

  /** The links opened on submit, and the form left behind. */
  datatype Submission = Submission(form: Form, urls: seq<string>)

  /** `handleSubmit`: both links are built from the form as it was, then
      the form is cleared. */
  function HandleSubmit(enc: string -> string, f: Form): (r: Submission)
    ensures r.form == Empty
    ensures |r.urls| == 2 && StartsWith(r.urls[0], MailtoPrefix) && StartsWith(r.urls[1], WhatsAppPrefix)
  {
    Submission(Empty, [MailtoUrl(enc, f), WhatsAppUrl(enc, f)])
  }

  /** Both links of a submission carry the submitted values, not the
      cleared ones. */
  lemma SubmitCarriesForm(enc: string -> string, dec: string -> string, f: Form)
    requires Uri.IsComponentEncoder(enc)
    requires Uri.Inverts(dec, enc)
    requires SingleLine(f)
    ensures var r := HandleSubmit(enc, f);
      && ReadMailto(dec, r.urls[0]) == Some(f)
      && ReadWhatsApp(dec, r.urls[1]) == Some(f)
      && r.form == Empty
  {
    MailtoRoundTrip(enc, dec, f);
    WhatsAppRoundTrip(enc, dec, f);
  }

  /** The controls of the form. */
  datatype Event =
    | Edit(field: Field, value: string) // an input or the textarea
    | Submit                            // the Send Message button

  /** What a control does: the new form and the links opened, or None when
      the browser refuses it (a single-line input never holds a line break,
      and all three fields are `required`). */
  function Next(enc: string -> string, f: Form, e: Event): (r: Option<Submission>)
    ensures e == Submit ==> (r.Some? <==> f.name != "" && f.email != "" && f.message != "")
    ensures e == Submit && r.Some? ==> r.value == HandleSubmit(enc, f)
    ensures e.Edit? && r.Some? ==> r.value == Submission(HandleChange(f, e.field, e.value), [])
    ensures e.Edit? ==> (r.Some? <==> e.field == Message || Lacks(e.value, '\n'))
  {
    match e
    case Submit =>
      if f.name != "" && f.email != "" && f.message != "" then Some(HandleSubmit(enc, f)) else None
    case Edit(k, v) =>
      if k == Message || Lacks(v, '\n') then Some(Submission(HandleChange(f, k, v), [])) else None
  }

  /** Every control keeps name and email single-line. */
  lemma NextSingleLine(enc: string -> string, f: Form, e: Event)
    requires SingleLine(f)
    requires Next(enc, f, e).Some?
    ensures SingleLine(Next(enc, f, e).value.form)
  {
  }

  /** Plays a sequence of keystrokes and clicks, collecting the URLs
      opened; a keystroke the browser refuses and a blocked submit do
      nothing. */
  function Run(enc: string -> string, f: Form, es: seq<Event>): Submission
    decreases |es|
  {
    if |es| == 0 then Submission(f, [])
    else
      match Next(enc, f, es[0])
      case None => Run(enc, f, es[1..])
      case Some(o) =>
        var rest := Run(enc, o.form, es[1..]);
        Submission(rest.form, o.urls + rest.urls)
  }

  /** How many submits of a session the browser lets through: it counts
      along `Run`, independent of the URLs `Run` collects. */
  function Accepted(enc: string -> string, f: Form, es: seq<Event>): nat
    decreases |es|
  {
    if |es| == 0 then 0
    else
      match Next(enc, f, es[0])
      case None => Accepted(enc, f, es[1..])
      case Some(o) => (if es[0] == Submit then 1 else 0) + Accepted(enc, o.form, es[1..])
  }

  /** The `k`-th submission among `urls`: an email link and the WhatsApp
      link after it, both reading back to the same complete form. */
  predicate SentPair(dec: string -> string, urls: seq<string>, k: nat) {
    && 2 * k + 1 < |urls|
    && var g := ReadMailto(dec, urls[2 * k]);
      && g.Some?
      && ReadWhatsApp(dec, urls[2 * k + 1]) == g
      && g.value.name != "" && g.value.email != "" && g.value.message != ""
  }

  /** Every submission recorded in `urls` is a `SentPair`. */
  predicate AllSent(dec: string -> string, urls: seq<string>) {
    && |urls| % 2 == 0
    && forall k: nat :: k < |urls| / 2 ==> SentPair(dec, urls, k)
  }

  /** Sessions of submissions concatenate. */
  lemma AllSentAppend(dec: string -> string, a: seq<string>, b: seq<string>)
    requires AllSent(dec, a) && AllSent(dec, b)
    ensures AllSent(dec, a + b)
  {
    var n := |a| / 2;
    forall k: nat | k < |a + b| / 2
      ensures SentPair(dec, a + b, k)
    {
      if k < n {
        assert SentPair(dec, a, k);
        assert (a + b)[2 * k] == a[2 * k] && (a + b)[2 * k + 1] == a[2 * k + 1];
      } else {
        var j: nat := k - n;
        assert SentPair(dec, b, j);
        assert (a + b)[2 * k] == b[2 * j] && (a + b)[2 * k + 1] == b[2 * j + 1];
      }
    }
  }

  /** Over any session, the form keeps name and email single-line, and the
      URLs opened come in pairs, one pair per accepted submit, each pair an
      email link and a WhatsApp link carrying the same complete form. */
  lemma {:induction false} RunSends(enc: string -> string, dec: string -> string, f: Form, es: seq<Event>)
    requires Uri.IsComponentEncoder(enc)
    requires Uri.Inverts(dec, enc)
    requires SingleLine(f)
    ensures SingleLine(Run(enc, f, es).form)
    ensures AllSent(dec, Run(enc, f, es).urls)
    ensures |Run(enc, f, es).urls| == 2 * Accepted(enc, f, es)
    decreases |es|
  {
    if |es| > 0 {
      match Next(enc, f, es[0])
      case None =>
        RunSends(enc, dec, f, es[1..]);
      case Some(o) =>
        NextSingleLine(enc, f, es[0]);
        RunSends(enc, dec, o.form, es[1..]);
        if es[0] == Submit {
          SubmitCarriesForm(enc, dec, f);
          assert SentPair(dec, o.urls, 0);
        }
        AllSentAppend(dec, o.urls, Run(enc, o.form, es[1..]).urls);
    }
  }
}
