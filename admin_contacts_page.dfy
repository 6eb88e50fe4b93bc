/** The message inbox of the admin panel: the list filter, the status badges,
    the action buttons, and the open-and-mark-read sequence with the status
    update it triggers. */
module AdminContactsPage {
  import opened Common
  import opened ContactModel
  import ContactRoutes

  // -------------------------------------------------------------- filter

  /** The filter buttons. */
  const FilterOptions: seq<string> := ["all", "new", "read", "replied", "archived"]

  /** Every filter button asks the server for what it names: `all` for every
      contact, any other button for the contacts with that status. */
  lemma FilterButtonsSelectStatus(contacts: seq<Contact>, i: nat)
    requires i < |FilterOptions|
    ensures var r := ContactRoutes.ListContacts(contacts, FilterParam(FilterOptions[i]));
            && (i == 0 ==> multiset(r) == multiset(contacts))
            && (i > 0 ==> forall c :: multiset(r)[c] == if StatusName(c.status) == FilterOptions[i] then multiset(contacts)[c] else 0)
  {
    if i == 0 {
      assert FilterParam(FilterOptions[i]).None?;
    } else {
      assert FilterParam(FilterOptions[i]) == Some(FilterOptions[i]) && FilterOptions[i] != "";
    }
  }

  /** Every filter button other than `all` names a status the schema
      accepts, and each status has its button. */
  lemma FilterButtonsAreStatuses(s: ContactStatus)
    ensures forall i :: 1 <= i < |FilterOptions| ==> ParseStatus(FilterOptions[i]).Some?
    ensures StatusName(s) in FilterOptions[1..]
  {
  }

  // -------------------------------------------------------------- badges

  /** The badge classes of `getStatusBadge`. */
  const BadgeStyles: map<string, string> := map[
    "new" := "bg-blue-100 text-blue-700", "read" := "bg-gray-100 text-gray-700",
    "replied" := "bg-green-100 text-green-700", "archived" := "bg-yellow-100 text-yellow-700"]

  /** The badge labels of `getStatusBadge`. */
  const BadgeLabels: map<string, string> := map[
    "new" := "Yeni", "read" := "Okundu", "replied" := "Yanıtlandı", "archived" := "Arşivlendi"]

  /** Both lookups are keyed by exactly the four status names, so each
      status gets a style and a label, and the four labels differ. */
  lemma BadgesCoverStatuses(s: ContactStatus, t: ContactStatus)
    ensures BadgeStyles.Keys == BadgeLabels.Keys == {"new", "read", "replied", "archived"}
    ensures StatusName(s) in BadgeStyles && StatusName(s) in BadgeLabels
    ensures forall k :: k in BadgeLabels ==> ParseStatus(k).Some?
    ensures s != t ==> BadgeLabels[StatusName(s)] != BadgeLabels[StatusName(t)]
  {
    assert BadgeStyles.Keys == {"new", "read", "replied", "archived"};
    assert BadgeLabels.Keys == {"new", "read", "replied", "archived"};
  }

  // ------------------------------------------------------------- actions

  /** What the page keeps of a contact: its id and its status. */
  datatype ContactView = ContactView(id: nat, status: ContactStatus)

  /** "Mark as replied" is enabled unless the status is already `replied`. */
  predicate ReplyEnabled(c: ContactView) {
    c.status != Replied
  }

  /** "Archive" is enabled unless the status is already `archived`. */
  predicate ArchiveEnabled(c: ContactView) {
    c.status != Archived
  }

  /** Each button is disabled exactly when it would set the status the
      contact already has, so the two are never disabled together. */
  lemma ButtonsDisabledAtTarget(c: ContactView)
    ensures ReplyEnabled(c) || ArchiveEnabled(c)
  {
  }

  /** A request the page sends to the server. */
  datatype Request = PutStatus(id: nat, status: ContactStatus) | DeleteContact(id: nat) | FetchList

  /** The page state the status sequence touches: the contact in the modal,
      whether the modal is open, and the requests sent so far. */
  datatype PageState = PageState(selected: Option<ContactView>, modalOpen: bool, sent: seq<Request>)

  /** `updateStatus(id, status)` run by a handler that sees `seen` as the
      selected contact. The `PUT` is always sent; when it succeeds the list is
      fetched again and, if `seen` is the updated contact, the modal shows
      `seen` with the new status. `ok` is the server's answer. */
  function UpdateStatusSeeing(st: PageState, seen: Option<ContactView>, id: nat, status: ContactStatus,
                              ok: bool): (r: PageState)
    ensures r.modalOpen == st.modalOpen
    ensures r.sent == st.sent + [PutStatus(id, status)] + (if ok then [FetchList] else [])
    ensures ok && seen.Some? && seen.value.id == id ==> r.selected == Some(seen.value.(status := status))
    ensures !(ok && seen.Some? && seen.value.id == id) ==> r.selected == st.selected
  {
    var sent := st.sent + [PutStatus(id, status)];
    if !ok then st.(sent := sent)
    else if seen.Some? && seen.value.id == id then
      PageState(Some(seen.value.(status := status)), st.modalOpen, sent + [FetchList])
    else st.(sent := sent + [FetchList])
  }

  /** `updateStatus` from a button of the open modal: the handler sees the
      current selection, so only the contact that was updated changes. */
  function UpdateStatus(st: PageState, id: nat, status: ContactStatus, ok: bool): (r: PageState)
    ensures r.sent == st.sent + [PutStatus(id, status)] + (if ok then [FetchList] else [])
    ensures r.modalOpen == st.modalOpen
    ensures r.selected.Some? <==> st.selected.Some?
    ensures r.selected.Some? ==> r.selected.value.id == st.selected.value.id
    ensures r.selected != st.selected ==> ok && st.selected.value.id == id && r.selected.value.status == status
    ensures ok && st.selected.Some? && st.selected.value.id == id ==> r.selected.value.status == status
  {
    UpdateStatusSeeing(st, st.selected, id, status, ok)
  }

  /** The requests `viewContact(c)` sends: a `PUT` to `read` exactly when
      the contact is new, followed by a list fetch when it succeeds. */
  function ViewRequests(c: ContactView, ok: bool): seq<Request> {
    if c.status == New then [PutStatus(c.id, Read)] + (if ok then [FetchList] else []) else []
  }

  /** `viewContact(contact)` as written: the modal opens on the contact, and
      a new contact is marked read by an `updateStatus` that still sees the
      selection from before the click. */
  function ViewContactAsWritten(st: PageState, c: ContactView, ok: bool): (r: PageState)
    ensures r.modalOpen
    ensures r.sent == st.sent + ViewRequests(c, ok)
  {
    var shown := st.(selected := Some(c), modalOpen := true);
    if c.status == New then UpdateStatusSeeing(shown, st.selected, c.id, Read, ok) else shown
  }

  /** `viewContact(contact)` as intended: the mark-read update sees the
      contact just opened. */
  function ViewContact(st: PageState, c: ContactView, ok: bool): (r: PageState)
    ensures r.modalOpen
    ensures r.sent == st.sent + ViewRequests(c, ok)
    ensures r.selected == Some(if c.status == New && ok then c.(status := Read) else c)
  {
    var shown := st.(selected := Some(c), modalOpen := true);
    if c.status == New then UpdateStatus(shown, c.id, Read, ok) else shown
  }

  /** Opening a contact sends exactly one status update, to `read`, when it
      is new and none otherwise; the modal then shows it as the server now
      stores it (`MarkRead` of the contact routes) once the update succeeds. */
  lemma ViewMarksNewOnce(st: PageState, c: ContactView, ok: bool)
    ensures var r := ViewContact(st, c, ok);
            && |r.sent| >= |st.sent|
            && multiset(r.sent[|st.sent|..])[PutStatus(c.id, Read)] == (if c.status == New then 1 else 0)
            && (forall q :: q in r.sent[|st.sent|..] && q.PutStatus? ==> q == PutStatus(c.id, Read))
            && (ok ==> r.selected.value.status != New)
  {
    var r := ViewContact(st, c, ok);
    assert r.sent[|st.sent|..] == ViewRequests(c, ok);
  }

  /** The stale selection: with no contact open before, opening a new
      contact whose update succeeds leaves the modal showing it as new,
      while the intended sequence shows it as read. */
  lemma StaleStatusAfterView()
    ensures var st := PageState(None, false, []);
            var c := ContactView(7, New);
            && ViewContactAsWritten(st, c, true).selected == Some(ContactView(7, New))
            && ViewContact(st, c, true).selected == Some(ContactView(7, Read))
  {
  }

  /** `deleteContact(id)`: nothing without confirmation; on a successful
      delete the modal closes, the selection clears and the list is fetched
      again; on a failure only the request was sent. */
  function DeleteSelected(st: PageState, id: nat, confirmed: bool, ok: bool): (r: PageState)
    ensures !confirmed ==> r == st
    ensures confirmed ==> |r.sent| > |st.sent| && r.sent[..|st.sent|] == st.sent && r.sent[|st.sent|] == DeleteContact(id)
    ensures confirmed && ok ==> r.selected.None? && !r.modalOpen
    ensures confirmed && !ok ==> r.selected == st.selected && r.modalOpen == st.modalOpen
  {
    if !confirmed then st
    else if !ok then st.(sent := st.sent + [DeleteContact(id)])
    else PageState(None, false, st.sent + [DeleteContact(id), FetchList])
  }

  /** The inbox page as a stateful component: each handler changes the state
      as the intended functions above say. */
  class ContactsPage {
    var selected: Option<ContactView>
    var modalOpen: bool
    var sent: seq<Request>

    function State(): PageState
      reads this
    {
      PageState(selected, modalOpen, sent)
    }

    /** The page on mount: no contact open, and the first list request sent. */
    constructor ()
      ensures State() == PageState(None, false, [FetchList])
    {
      selected := None;
      modalOpen := false;
      sent := [FetchList];
    }

    /** `updateStatus(id, status)`. */
    method SetStatus(id: nat, status: ContactStatus, ok: bool)
      modifies this
      ensures State() == UpdateStatus(old(State()), id, status, ok)
    {
      sent := sent + [PutStatus(id, status)];
      if ok {
        sent := sent + [FetchList];
        if selected.Some? && selected.value.id == id {
          selected := Some(selected.value.(status := status));
        }
      }
    }

    /** `viewContact(contact)`. */
    method View(c: ContactView, ok: bool)
      modifies this
      ensures State() == ViewContact(old(State()), c, ok)
    {
      selected := Some(c);
      modalOpen := true;
      if c.status == New {
        SetStatus(c.id, Read, ok);
      }
    }

    /** `deleteContact(id)`. */
    method Delete(id: nat, confirmed: bool, ok: bool)
      modifies this
      ensures State() == DeleteSelected(old(State()), id, confirmed, ok)
    {
      if !confirmed {
        return;
      }
      sent := sent + [DeleteContact(id)];
      if ok {
        modalOpen := false;
        selected := None;
        sent := sent + [FetchList];
      }
    }
  }
}
