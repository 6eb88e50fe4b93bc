/** The contact-message routes: the public submit, and the admin list,
    get-and-mark-read, partial update, delete and statistics. */
module ContactRoutes {
  import opened Common
  import opened ContactModel
  import Seqs
  import Store

  function ContactId(c: Contact): nat { c.id }

  /** `sort({ createdAt: -1 })`: newest first. */
  function NewestFirst(c: Contact): Seqs.Key { Seqs.Key(-c.createdAt, 0) }

  /** The list filter: a truthy `status` query keeps that status only. */
  predicate MatchesStatus(status: Option<string>, c: Contact) {
    !Truthy(status) || StatusName(c.status) == status.value
  }

  /** `GET /` query: the contacts with the requested status (all of them
      when none is requested), newest first. */
  function ListContacts(contacts: seq<Contact>, status: Option<string>): (r: seq<Contact>)
    ensures Seqs.SortedBy(r, NewestFirst)
    ensures forall c :: multiset(r)[c] == if MatchesStatus(status, c) then multiset(contacts)[c] else 0
    ensures forall i :: 0 <= i < |r| ==> r[i] in contacts && MatchesStatus(status, r[i])
    ensures !Truthy(status) ==> multiset(r) == multiset(contacts)
  {
    Seqs.Query(contacts, c => MatchesStatus(status, c), NewestFirst)
  }

  /** Viewing a contact marks a new one as read and leaves any other as is. */
  function MarkRead(c: Contact): (r: Contact)
    ensures r.status == (if c.status == New then Read else c.status)
    ensures r == c.(status := r.status)
  {
    if c.status == New then c.(status := Read) else c
  }

  lemma MarkReadIdempotent(c: Contact)
    ensures MarkRead(MarkRead(c)) == MarkRead(c)
    ensures ContactValid(c) ==> ContactValid(MarkRead(c))
  {
  }

  /** PUT/PATCH body applied to a contact: a truthy `status` replaces the
      status (and must be one of the four names, else the save fails), and
      `notes` replaces the notes whenever it is present, even when empty. */
  function ApplyUpdate(c: Contact, status: Option<string>, notes: Option<string>): (r: Option<Contact>)
    ensures r.None? <==> Truthy(status) && ParseStatus(status.value).None?
    ensures r.Some? ==> r.value == c.(status := r.value.status, notes := r.value.notes)
    ensures r.Some? ==> (Truthy(status) ==> StatusName(r.value.status) == status.value)
    ensures r.Some? ==> (!Truthy(status) ==> r.value.status == c.status)
    ensures r.Some? ==> r.value.notes == (if notes.Some? then notes.value else c.notes)
  {
    if Truthy(status) && ParseStatus(status.value).None? then None
    else
      var s := if Truthy(status) then ParseStatus(status.value).value else c.status;
      StatusNamesRoundTrip(s, if Truthy(status) then status.value else "");
      var n := if notes.Some? then notes.value else c.notes;
      Some(c.(status := s, notes := n))
  }

  /** The stats payload: `total` and the counts reported as `new`, `read`,
      `replied` and `archived`. */
  datatype ContactStats = ContactStats(total: nat, newCount: nat, readCount: nat, repliedCount: nat, archivedCount: nat)

  /** The status filter of a count. */
  function StatusIs(s: ContactStatus): Contact -> bool {
    (c: Contact) => c.status == s
  }

  /** `countDocuments({ status })`: the number of contacts with the status. */
  function CountStatus(contacts: seq<Contact>, s: ContactStatus): (n: nat)
    ensures n <= |contacts|
    ensures n == |set i | 0 <= i < |contacts| && contacts[i].status == s|
  {
    StatusPositions(contacts, s);
    Seqs.Count(contacts, StatusIs(s))
  }

  lemma {:induction false} StatusPositions(contacts: seq<Contact>, s: ContactStatus)
    ensures Seqs.Count(contacts, StatusIs(s)) == |set i | 0 <= i < |contacts| && contacts[i].status == s|
  {
    if contacts != [] {
      var a, x := contacts[..|contacts| - 1], contacts[|contacts| - 1];
      assert contacts == a + [x];
      Seqs.CountConcat(a, [x], StatusIs(s));
      assert Seqs.Count([x], StatusIs(s)) == if x.status == s then 1 else 0;
      StatusPositions(a, s);
      PositionsOfLast(contacts, s);
    }
  }

  /** Adding the last contact adds its position exactly when it has the status. */
  lemma PositionsOfLast(contacts: seq<Contact>, s: ContactStatus)
    requires contacts != []
    ensures var a := contacts[..|contacts| - 1];
            |set i | 0 <= i < |contacts| && contacts[i].status == s|
            == |set i | 0 <= i < |a| && a[i].status == s| + (if contacts[|a|].status == s then 1 else 0)
  {
    var a := contacts[..|contacts| - 1];
    var A := set i | 0 <= i < |a| && a[i].status == s;
    var S := set i | 0 <= i < |contacts| && contacts[i].status == s;
    if contacts[|a|].status == s {
      assert S == A + {|a|};
    } else {
      assert S == A;
    }
  }

  /** The four per-status counts partition the collection. */
  lemma {:induction false} StatusCountsPartition(contacts: seq<Contact>)
    ensures CountStatus(contacts, New) + CountStatus(contacts, Read)
          + CountStatus(contacts, Replied) + CountStatus(contacts, Archived) == |contacts|
  {
    if contacts != [] {
      StatusCountsPartition(contacts[1..]);
    }
  }

  /** `GET /admin/stats`. */
  function Stats(contacts: seq<Contact>): (r: ContactStats)
    ensures r.total == |contacts| == r.newCount + r.readCount + r.repliedCount + r.archivedCount
    ensures r.newCount == CountStatus(contacts, New) && r.readCount == CountStatus(contacts, Read)
    ensures r.repliedCount == CountStatus(contacts, Replied) && r.archivedCount == CountStatus(contacts, Archived)
  {
    StatusCountsPartition(contacts);
    ContactStats(|contacts|, CountStatus(contacts, New), CountStatus(contacts, Read),
                 CountStatus(contacts, Replied), CountStatus(contacts, Archived))
  }

  const SubmitMessage := "Your message has been sent successfully. We will contact you soon!"

  /** What the stored collection keeps: unique ids, all below the next id,
      and every contact valid. */
  ghost predicate StoreInvariant(cs: seq<Contact>, next: nat) {
    && Store.UniqueIds(cs, ContactId)
    && Store.IdsBelow(cs, ContactId, next)
    && Store.AllSatisfy(cs, ContactValid)
  }

  lemma AppendKeepsInvariant(cs: seq<Contact>, next: nat, c: Contact)
    requires StoreInvariant(cs, next) && ContactValid(c) && c.id == next
    ensures StoreInvariant(cs + [c], next + 1)
  {
    Store.AppendFreshId(cs, ContactId, next, c);
    Store.AllSatisfyKept(cs, ContactValid, |cs|, c);
  }

  /** The contact collection. */
  class ContactStore {
    var contacts: seq<Contact>
    var nextId: nat

    ghost predicate Valid()
      reads this
    {
      StoreInvariant(contacts, nextId)
    }

    constructor ()
      ensures Valid() && contacts == []
    {
      contacts := [];
      nextId := 0;
    }

    /** `POST /`: the body plus the client address is stored, or nothing is
        stored when validation fails. */
    method Submit(body: ContactBody, reqIp: Option<string>, remoteAddress: string, now: int)
      returns (r: Response<string>)
      requires Valid()
      modifies this
      ensures Valid()
      ensures BodyAccepted(body) ==>
                && contacts == old(contacts) + [NewContact(body, ClientAddress(reqIp, remoteAddress), old(nextId), now).value]
                && r == Success(201, SubmitMessage)
      ensures !BodyAccepted(body) ==>
                contacts == old(contacts) && r == Failure(500, "Failed to send message. Please try again.")
    {
      if !BodyAccepted(body) {
        return Failure(500, "Failed to send message. Please try again.");
      }
      var c := NewContact(body, ClientAddress(reqIp, remoteAddress), nextId, now).value;
      Save(c);
      r := Success(201, SubmitMessage);
    }

    /** `contact.save()`: a valid contact carrying the next id is appended. */
    method Save(c: Contact)
      requires Valid() && ContactValid(c) && c.id == nextId
      modifies this
      ensures Valid() && contacts == old(contacts) + [c] && nextId == old(nextId) + 1
    {
      AppendKeepsInvariant(contacts, nextId, c);
      contacts := contacts + [c];
      nextId := nextId + 1;
    }

    /** `GET /` */
    function List(status: Option<string>): (r: seq<Contact>)
      reads this
      ensures r == ListContacts(contacts, status)
    {
      ListContacts(contacts, status)
    }

    /** `GET /:id`: a new contact is marked read before it is returned. */
    method Get(id: nat) returns (r: Response<Contact>)
      requires Valid()
      modifies this
      ensures Valid()
      ensures match Store.IndexOfId(old(contacts), ContactId, id)
        case None => r == Failure(404, "Contact not found") && contacts == old(contacts)
        case Some(i) => && contacts == old(contacts)[i := MarkRead(old(contacts)[i])]
                        && r == Success(200, MarkRead(old(contacts)[i]))
    {
      var found := Store.IndexOfId(contacts, ContactId, id);
      if found.None? {
        return Failure(404, "Contact not found");
      }
      var i := found.value;
      var contact := contacts[i];
      if contact.status == New {
        contact := contact.(status := Read);
        Store.ReplaceKeepsIds(contacts, ContactId, i, contact);
        contacts := contacts[i := contact];
      }
      r := Success(200, contact);
    }

    /** `PUT /:id` and `PATCH /:id/status` (the two handlers are the same). */
    method Update(id: nat, status: Option<string>, notes: Option<string>) returns (r: Response<Contact>)
      requires Valid()
      modifies this
      ensures Valid()
      ensures match Store.IndexOfId(old(contacts), ContactId, id)
        case None => r == Failure(404, "Contact not found") && contacts == old(contacts)
        case Some(i) =>
          match ApplyUpdate(old(contacts)[i], status, notes)
          case None => r == Failure(500, "Server error") && contacts == old(contacts)
          case Some(c) => contacts == old(contacts)[i := c] && r == Success(200, c)
    {
      var found := Store.IndexOfId(contacts, ContactId, id);
      if found.None? {
        return Failure(404, "Contact not found");
      }
      var i := found.value;
      var contact := contacts[i];
      if Truthy(status) {
        var s := ParseStatus(status.value);
        if s.None? {
          return Failure(500, "Server error");
        }
        contact := contact.(status := s.value);
      }
      if notes.Some? {
        contact := contact.(notes := notes.value);
      }
      Store.ReplaceKeepsIds(contacts, ContactId, i, contact);
      contacts := contacts[i := contact];
      r := Success(200, contact);
    }

    /** `DELETE /:id`. */
    method Delete(id: nat) returns (r: Response<string>)
      requires Valid()
      modifies this
      ensures Valid()
      ensures match Store.IndexOfId(old(contacts), ContactId, id)
        case None => r == Failure(404, "Contact not found") && contacts == old(contacts)
        case Some(i) => && contacts == old(contacts)[..i] + old(contacts)[i + 1..]
                        && r == Success(200, "Contact deleted successfully")
      ensures forall c :: c in contacts <==> c in old(contacts) && c.id != id
    {
      var found := Store.IndexOfId(contacts, ContactId, id);
      if found.None? {
        return Failure(404, "Contact not found");
      }
      var i := found.value;
      Store.RemoveAtExactly(contacts, ContactId, i);
      Store.AllSatisfyKept(contacts, ContactValid, i, contacts[i]);
      contacts := contacts[..i] + contacts[i + 1..];
      r := Success(200, "Contact deleted successfully");
    }
  }
}
