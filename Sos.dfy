/** The SOS screen's contact list: three built-in helplines followed by the
    user's personal contacts.  Only personal contacts are written to
    storage; loading puts the built-in helplines back in front. */
module Sos {
  import opened Wrappers
  import opened Seqs
  import opened Text

  /** The storage key the personal contacts are written under. */
  const StorageKey: string := "sos.contacts.v1"

  datatype ContactType = Personal | Helpline

  datatype Contact = Contact(id: string, name: string, phone: string, kind: ContactType)

  /** The built-in helplines: the Indian emergency number, AASRA and KIRAN. */
  const DefaultContacts: seq<Contact> := [
    Contact("emergency-112", "Emergency (112)", "112", Helpline),
    Contact("aasra", "AASRA Helpline", "+919820466726", Helpline),
    Contact("kiran", "KIRAN Mental Health", "18005990019", Helpline)
  ]

  /** `DEFAULT_CONTACTS.some((d) => d.id === id)`. */
  predicate IsDefaultId(id: string)
  {
    exists i :: 0 <= i < |DefaultContacts| && DefaultContacts[i].id == id
  }

  /** The load-time merge: the built-in helplines, then the saved contacts
      whose id is not a built-in one, in saved order. */
  function Merged(saved: seq<Contact>): (r: seq<Contact>)
    ensures |DefaultContacts| <= |r| && r[..|DefaultContacts|] == DefaultContacts
    ensures forall c :: c in r[|DefaultContacts|..] <==> c in saved && !IsDefaultId(c.id)
    ensures IsSubsequence(r[|DefaultContacts|..], saved)
  {
    var p := (c: Contact) => !IsDefaultId(c.id);
    var r := DefaultContacts + Filter(saved, p);
    assert r[|DefaultContacts|..] == Filter(saved, p);
    r
  }

  /** What `persist` writes: the personal contacts of the list, in order. */
  function PersonalContacts(list: seq<Contact>): (r: seq<Contact>)
    ensures forall c :: c in r <==> c in list && c.kind == Personal
    ensures IsSubsequence(r, list)
  {
    var p := (c: Contact) => c.kind == Personal;
    Filter(list, p)
  }

  /** `addContact`'s new list: nothing when the trimmed name or the trimmed
      phone is empty (the screen alerts instead), otherwise a personal
      contact with the trimmed name and phone in front of the list. */
  function NewContactList(contacts: seq<Contact>, name: string, phone: string, id: string): (r: Option<seq<Contact>>)
    ensures r.None? <==> IsBlank(name) || IsBlank(phone)
    ensures r.Some? ==> |r.value| == |contacts| + 1 && r.value[1..] == contacts
    ensures r.Some? ==> r.value[0].id == id && r.value[0].kind == Personal
    ensures r.Some? ==> r.value[0].name == Trim(name) && r.value[0].name != []
    ensures r.Some? ==> r.value[0].phone == Trim(phone) && r.value[0].phone != []
  {
    var n := Trim(name);
    var p := Trim(phone);
    if n == [] || p == [] then None else Some([Contact(id, n, p, Personal)] + contacts)
  }

  /** `removeContact`'s new list: every contact with the id dropped,
      whatever its type, the others kept in order. */
  function WithoutContact(contacts: seq<Contact>, id: string): (r: seq<Contact>)
    ensures forall c :: c in r <==> c in contacts && c.id != id
    ensures IsSubsequence(r, contacts)
    ensures (forall c :: c in contacts ==> c.id != id) ==> r == contacts
  {
    var p := (c: Contact) => c.id != id;
    if forall c :: c in contacts ==> c.id != id then
      FilterKeepsAll(contacts, p);
      Filter(contacts, p)
    else
      Filter(contacts, p)
  }

  // ---- Properties ----

  /** After the helplines, the merge holds every copy of each saved contact
      without a built-in id, and nothing else. */
  lemma MergedCounts(saved: seq<Contact>, c: Contact)
    ensures multiset(Merged(saved)[|DefaultContacts|..])[c] == if !IsDefaultId(c.id) then multiset(saved)[c] else 0
  {
    var p := (c: Contact) => !IsDefaultId(c.id);
    assert Merged(saved)[|DefaultContacts|..] == Filter(saved, p);
    FilterCounts(saved, p, c);
  }

  /** What is written holds every copy of each personal contact and no
      helpline. */
  lemma PersonalContactsCounts(list: seq<Contact>, c: Contact)
    ensures multiset(PersonalContacts(list))[c] == if c.kind == Personal then multiset(list)[c] else 0
  {
    FilterCounts(list, (c: Contact) => c.kind == Personal, c);
  }

  /** Removal drops every copy of the contacts with the id and keeps every
      copy of the others. */
  lemma WithoutContactCounts(contacts: seq<Contact>, id: string, c: Contact)
    ensures multiset(WithoutContact(contacts, id))[c] == if c.id != id then multiset(contacts)[c] else 0
  {
    FilterCounts(contacts, (c: Contact) => c.id != id, c);
  }

  /** The built-in ids are exactly "emergency-112", "aasra" and "kiran". */
  lemma DefaultIds(id: string)
    ensures IsDefaultId(id) <==> id == "emergency-112" || id == "aasra" || id == "kiran"
  {
    if id == "emergency-112" {
      assert DefaultContacts[0].id == id;
    } else if id == "aasra" {
      assert DefaultContacts[1].id == id;
    } else if id == "kiran" {
      assert DefaultContacts[2].id == id;
    }
  }

  /** None of the built-in contacts is personal, so none is ever written. */
  lemma {:induction false} DefaultsNotPersisted()
    ensures PersonalContacts(DefaultContacts) == []
  {
    FilterDropsAll(DefaultContacts, (c: Contact) => c.kind == Personal);
  }

  /** Reloading after `persist(list)` shows the built-in helplines, then the
      list's personal contacts whose id is not a built-in one, in list
      order. */
  lemma {:induction false} ReloadAfterPersist(list: seq<Contact>)
    ensures Merged(PersonalContacts(list)) ==
      DefaultContacts + Filter(list, (c: Contact) => c.kind == Personal && !IsDefaultId(c.id))
  {
    var p := (c: Contact) => c.kind == Personal;
    var q := (c: Contact) => !IsDefaultId(c.id);
    var pq := (c: Contact) => c.kind == Personal && !IsDefaultId(c.id);
    FilterFilter(list, p, q, pq);
  }

  /** Persisting the list a load produced writes back the stored contacts,
      when those are personal contacts with ids of their own. */
  lemma {:induction false} PersistAfterLoad(saved: seq<Contact>)
    requires forall c :: c in saved ==> c.kind == Personal && !IsDefaultId(c.id)
    ensures PersonalContacts(Merged(saved)) == saved
  {
    var p := (c: Contact) => c.kind == Personal;
    var q := (c: Contact) => !IsDefaultId(c.id);
    FilterKeepsAll(saved, q);
    FilterAppend(DefaultContacts, saved, p);
    DefaultsNotPersisted();
    FilterKeepsAll(saved, p);
  }

  /** A contact added through the form is still there after a reload,
      unless its id happens to be a built-in one. */
  lemma NewContactSurvivesReload(contacts: seq<Contact>, name: string, phone: string, id: string)
    requires !IsBlank(name) && !IsBlank(phone) && !IsDefaultId(id)
    ensures var r := NewContactList(contacts, name, phone, id);
      r.Some? && r.value[0] in Merged(PersonalContacts(r.value))[|DefaultContacts|..]
  {
    var r := NewContactList(contacts, name, phone, id);
    assert r.value[0] in r.value;
  }

  /** Removing a built-in helpline hides it only until the next load. */
  lemma {:induction false} RemovedHelplineReturns(contacts: seq<Contact>, id: string, i: int)
    requires 0 <= i < |DefaultContacts| && DefaultContacts[i].id == id
    ensures DefaultContacts[i] !in WithoutContact(contacts, id)
    ensures DefaultContacts[i] in Merged(PersonalContacts(WithoutContact(contacts, id)))
  {
    var r := Merged(PersonalContacts(WithoutContact(contacts, id)));
    assert r[i] == DefaultContacts[i];
  }

  // ---- The screen ----

  /** The SOS screen: the list it shows, the value stored under
      `StorageKey`, and the add-contact form. */
  class SosScreen {
    var contacts: seq<Contact>
    /** What storage holds under `StorageKey`; None when nothing was saved. */
    var stored: Option<seq<Contact>>
    var name: string
    var phone: string
    var modalOpen: bool

    /** The first render: an empty list and an empty form. */
    constructor(stored: Option<seq<Contact>>)
      ensures contacts == [] && this.stored == stored
      ensures name == "" && phone == "" && !modalOpen
    {
      contacts := [];
      this.stored := stored;
      name := "";
      phone := "";
      modalOpen := false;
    }

    /** The load effect: the merge of the stored contacts; the built-in
        helplines alone when nothing is stored or reading fails (`readOk`
        false). */
    method Load(readOk: bool)
      modifies this
      ensures contacts == if readOk && old(stored).Some? then Merged(old(stored).value) else DefaultContacts
      ensures stored == old(stored) && name == old(name) && phone == old(phone) && modalOpen == old(modalOpen)
    {
      if readOk && stored.Some? {
        contacts := Merged(stored.value);
      } else {
        contacts := DefaultContacts;
      }
    }

    /** `persist(list)`: the list is shown at once and its personal contacts
        are written.  The write is not caught: `ok` is false when it fails,
        and the stored value is then left as it was. */
    method Persist(list: seq<Contact>, writeOk: bool) returns (ok: bool)
      modifies this
      ensures ok == writeOk
      ensures contacts == list
      ensures stored == if writeOk then Some(PersonalContacts(list)) else old(stored)
      ensures name == old(name) && phone == old(phone) && modalOpen == old(modalOpen)
    {
      contacts := list;
      if writeOk {
        stored := Some(PersonalContacts(list));
      }
      ok := writeOk;
    }

    /** `addContact` with the form's name and phone: a blank name or phone
        changes nothing; otherwise the new contact goes in front and is
        persisted, and only a successful write resets and closes the form. */
    method AddContact(id: string, writeOk: bool)
      modifies this
      ensures var next := NewContactList(old(contacts), old(name), old(phone), id);
        if next.None? then
          contacts == old(contacts) && stored == old(stored)
          && name == old(name) && phone == old(phone) && modalOpen == old(modalOpen)
        else
          contacts == next.value
          && stored == (if writeOk then Some(PersonalContacts(contacts)) else old(stored))
          && (if writeOk then name == "" && phone == "" && !modalOpen
              else name == old(name) && phone == old(phone) && modalOpen == old(modalOpen))
    {
      var next := NewContactList(contacts, name, phone, id);
      if next.Some? {
        var ok := Persist(next.value, writeOk);
        if ok {
          name := "";
          phone := "";
          modalOpen := false;
        }
      }
    }

    /** `removeContact(id)`. */
    method RemoveContact(id: string, writeOk: bool)
      modifies this
      ensures contacts == WithoutContact(old(contacts), id)
      ensures stored == if writeOk then Some(PersonalContacts(contacts)) else old(stored)
      ensures name == old(name) && phone == old(phone) && modalOpen == old(modalOpen)
    {
      var _ := Persist(WithoutContact(contacts, id), writeOk);
    }
  }
}
