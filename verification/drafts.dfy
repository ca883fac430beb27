/** The seven-field booking record that both booking flows keep in React
    state (`bookingData` in src/components/BookingModal.tsx, `formData` in
    src/components/Booking.tsx): the same seven string keys, declared in a
    different order. Both update it with an object spread that replaces one
    named key. */
module Drafts {

  datatype Field = ServiceId | Date | Time | Name | Email | Phone | Message

  datatype Draft = Draft(
    service: string,
    date: string,
    time: string,
    name: string,
    email: string,
    phone: string,
    message: string)

  /** The all-empty record both flows start from. */
  const Empty: Draft := Draft("", "", "", "", "", "", "")

  /** `d[f]`. */
  function Get(d: Draft, f: Field): string {
    match f
    case ServiceId => d.service
    case Date => d.date
    case Time => d.time
    case Name => d.name
    case Email => d.email
    case Phone => d.phone
    case Message => d.message
  }

  /** `{ ...d, [f]: v }`: the named field takes the new value and no other
      field changes. */
  function Set(d: Draft, f: Field, v: string): (r: Draft)
    ensures Get(r, f) == v
    ensures forall g :: g != f ==> Get(r, g) == Get(d, g)
  {
    match f
    case ServiceId => d.(service := v)
    case Date => d.(date := v)
    case Time => d.(time := v)
    case Name => d.(name := v)
    case Email => d.(email := v)
    case Phone => d.(phone := v)
    case Message => d.(message := v)
  }

  /** A record is determined by its seven fields. */
  lemma Extensional(a: Draft, b: Draft)
    requires forall f :: Get(a, f) == Get(b, f)
    ensures a == b
  {
    assert Get(a, ServiceId) == Get(b, ServiceId);
    assert Get(a, Date) == Get(b, Date);
    assert Get(a, Time) == Get(b, Time);
    assert Get(a, Name) == Get(b, Name);
    assert Get(a, Email) == Get(b, Email);
    assert Get(a, Phone) == Get(b, Phone);
    assert Get(a, Message) == Get(b, Message);
  }

  /** Writing a field back to its old value undoes an update, and a later
      write to the same field overrides an earlier one. */
  lemma SetUndo(d: Draft, f: Field, v: string, w: string)
    ensures Set(Set(d, f, v), f, Get(d, f)) == d
    ensures Set(Set(d, f, v), f, w) == Set(d, f, w)
  {
    Extensional(Set(Set(d, f, v), f, Get(d, f)), d);
    Extensional(Set(Set(d, f, v), f, w), Set(d, f, w));
  }

  /** Updates of two different fields commute. */
  lemma SetCommute(d: Draft, f: Field, v: string, g: Field, w: string)
    requires f != g
    ensures Set(Set(d, f, v), g, w) == Set(Set(d, g, w), f, v)
  {
    Extensional(Set(Set(d, f, v), g, w), Set(Set(d, g, w), f, v));
  }
}
