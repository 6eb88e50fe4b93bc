/** The contact-message schema: required fields, the trim and lowercase
    setters, the status enumeration with its default, and the empty-string
    defaults of the optional fields. */
module ContactModel {
  import opened Common
  import opened Text

  datatype ContactStatus = New | Read | Replied | Archived

  function StatusName(s: ContactStatus): (t: string)
    ensures t in ["new", "read", "replied", "archived"]
  {
    match s
    case New => "new"
    case Read => "read"
    case Replied => "replied"
    case Archived => "archived"
  }

  /** The enum validator: a stored status is one of the four names. */
  function ParseStatus(t: string): (r: Option<ContactStatus>)
    ensures r.Some? <==> t in ["new", "read", "replied", "archived"]
  {
    if t == "new" then Some(New)
    else if t == "read" then Some(Read)
    else if t == "replied" then Some(Replied)
    else if t == "archived" then Some(Archived)
    else None
  }

  /** The names and the enumeration correspond one to one. */
  lemma StatusNamesRoundTrip(s: ContactStatus, t: string)
    ensures ParseStatus(StatusName(s)) == Some(s)
    ensures ParseStatus(t).Some? ==> StatusName(ParseStatus(t).value) == t
  {
  }

  datatype Contact = Contact(
    id: nat,
    name: string,
    email: string,
    phone: string,
    company: string,
    service: string,
    subject: string,
    message: string,
    status: ContactStatus,
    notes: string,
    ipAddress: string,
    createdAt: int)

  /** The fields of a request body that the schema knows; `None` is absent. */
  datatype ContactBody = ContactBody(
    name: Option<string>,
    email: Option<string>,
    phone: Option<string>,
    company: Option<string>,
    service: Option<string>,
    subject: Option<string>,
    message: Option<string>,
    status: Option<string>,
    notes: Option<string>)

  /** What every stored contact satisfies. */
  predicate ContactValid(c: Contact) {
    && c.name != "" && Trimmed(c.name)
    && c.email != "" && Trimmed(c.email) && Lowercase(c.email)
    && c.subject != "" && c.message != ""
  }

  /** A `required` string path accepts a present, non-empty value. */
  predicate Present(v: Option<string>) {
    v.Some? && v.value != ""
  }

  /** A `default: ''` string path. */
  function OrEmpty(v: Option<string>): (r: string)
    ensures v.None? ==> r == ""
    ensures v.Some? ==> r == v.value
  {
    if v.Some? then v.value else ""
  }

  /** The `lowercase` then `trim` setters of the email path. */
  function NormalizeEmail(raw: string): (r: string)
    ensures Lowercase(r) && Trimmed(r)
    ensures |r| <= |raw|
  {
    var low := ToLower(raw);
    Trim(low)
  }

  /** Whether the body passes the schema's validators once the setters ran. */
  predicate BodyAccepted(body: ContactBody) {
    && Present(body.name) && !IsBlank(body.name.value)
    && Present(body.email) && !IsBlank(ToLower(body.email.value))
    && Present(body.subject) && Present(body.message)
    && (body.status.None? || ParseStatus(body.status.value).Some?)
  }

  /** `new Contact(data)` followed by validation: the stored record, or
      `None` when a validator fails. The name is stored trimmed, the address
      trimmed and lower-cased, subject and message as sent, the status as
      sent or `new`, and each optional field as sent or empty when left out. */
  function NewContact(body: ContactBody, ipAddress: string, id: nat, now: int): (r: Option<Contact>)
    ensures r.Some? <==> BodyAccepted(body)
    ensures r.Some? ==> ContactValid(r.value)
    ensures r.Some? ==> r.value.id == id && r.value.ipAddress == ipAddress && r.value.createdAt == now
    ensures r.Some? ==> && r.value.name == Trim(body.name.value)
                        && r.value.email == Trim(ToLower(body.email.value))
                        && r.value.subject == body.subject.value && r.value.message == body.message.value
    ensures r.Some? ==> && (body.status.None? ==> r.value.status == New)
                        && (body.status.Some? ==> StatusName(r.value.status) == body.status.value)
    ensures r.Some? ==> && (body.phone.Some? ==> r.value.phone == body.phone.value)
                        && (body.phone.None? ==> r.value.phone == "")
                        && (body.company.Some? ==> r.value.company == body.company.value)
                        && (body.company.None? ==> r.value.company == "")
                        && (body.service.Some? ==> r.value.service == body.service.value)
                        && (body.service.None? ==> r.value.service == "")
                        && (body.notes.Some? ==> r.value.notes == body.notes.value)
                        && (body.notes.None? ==> r.value.notes == "")
  {
    if !BodyAccepted(body) then None
    else
      var name := Trim(body.name.value);
      var email := NormalizeEmail(body.email.value);
      var status :=
        if body.status.None? then New
        else (
          var st := ParseStatus(body.status.value).value;
          StatusNamesRoundTrip(st, body.status.value);
          st);
      Some(Contact(id, name, email, OrEmpty(body.phone), OrEmpty(body.company), OrEmpty(body.service),
                   body.subject.value, body.message.value, status, OrEmpty(body.notes), ipAddress, now))
  }
}
