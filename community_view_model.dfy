/**
 * The contact-list view-model: `loadContactsForUser` resolves the owner's
 * contact emails to user rows, dropping the ones with no row, and
 * publishes them in `contactUsers`; `addContactByEmail` appends a contact
 * when both users exist and the contact is not yet listed, writes the
 * owner back and reloads. The view-model talks to its own `users` table.
 */
module Community {
  import opened Entities
  import opened UserDao
  import Seqs

  /** `emails.mapNotNull { getUserByEmail(it) }`. */
  function ResolveContacts(rows: Rows, emails: seq<string>): (r: seq<User>)
    ensures |r| <= |emails|
    ensures forall i :: 0 <= i < |r| ==> r[i] in rows.Values
  {
    if emails == [] then []
    else (if emails[0] in rows then [rows[emails[0]]] else []) + ResolveContacts(rows, emails[1..])
  }

  predicate Known(rows: Rows, email: string)
  {
    email in rows
  }

  /** The rows of a list of emails that all have one. */
  function RowsOf(rows: Rows, emails: seq<string>): seq<User>
    requires forall i :: 0 <= i < |emails| ==> emails[i] in rows
  {
    seq(|emails|, i requires 0 <= i < |emails| => rows[emails[i]])
  }

  /**
   * Resolving is "drop the unknown emails, then look up each remaining one":
   * the result follows the contact list's order, one row per known email.
   */
  lemma {:induction false} ResolveIsLookupOfKnown(rows: Rows, emails: seq<string>)
    ensures var known := Seqs.Filter(emails, e => Known(rows, e));
            (forall i :: 0 <= i < |known| ==> known[i] in rows)
            && ResolveContacts(rows, emails) == RowsOf(rows, known)
  {
    var known := Seqs.Filter(emails, e => Known(rows, e));
    if emails != [] {
      ResolveIsLookupOfKnown(rows, emails[1..]);
      var rest := Seqs.Filter(emails[1..], e => Known(rows, e));
      if emails[0] in rows {
        assert known == [emails[0]] + rest;
      } else {
        assert known == rest;
      }
    }
  }

  /** Resolving one more email appends its row when it has one. */
  lemma {:induction false} ResolveAppend(rows: Rows, emails: seq<string>, e: string)
    ensures ResolveContacts(rows, emails + [e])
         == ResolveContacts(rows, emails) + (if e in rows then [rows[e]] else [])
  {
    if emails == [] {
      assert emails + [e] == [e];
    } else {
      ResolveAppend(rows, emails[1..], e);
      assert (emails + [e])[1..] == emails[1..] + [e];
    }
  }

  /** With the email as key, each resolved row is the row of one of the listed emails. */
  lemma ResolvedEmailsListed(rows: Rows, emails: seq<string>)
    requires KeyedByEmail(rows)
    ensures forall i :: 0 <= i < |ResolveContacts(rows, emails)| ==> ResolveContacts(rows, emails)[i].email in emails
  {
    ResolveIsLookupOfKnown(rows, emails);
  }

  /** The condition under which `addContactByEmail` writes. */
  predicate CanAdd(rows: Rows, ownerEmail: string, contactEmail: string)
  {
    ownerEmail in rows && contactEmail in rows && contactEmail !in rows[ownerEmail].contacts
  }

  /**
   * The table after `addContactByEmail`: the owner's row with `contactEmail`
   * appended to its contacts, written back by key; otherwise unchanged.
   */
  function AddContact(rows: Rows, ownerEmail: string, contactEmail: string): (r: Rows)
    requires KeyedByEmail(rows)
    ensures KeyedByEmail(r) && r.Keys == rows.Keys
    ensures forall e :: e in rows && e != ownerEmail ==> r[e] == rows[e]
    ensures CanAdd(rows, ownerEmail, contactEmail) ==>
              r[ownerEmail] == rows[ownerEmail].(contacts := rows[ownerEmail].contacts + [contactEmail])
    ensures !CanAdd(rows, ownerEmail, contactEmail) ==> r == rows
  {
    if CanAdd(rows, ownerEmail, contactEmail) then
      var owner := rows[ownerEmail];
      UpdateByKey(rows, owner.(contacts := owner.contacts + [contactEmail]))
    else
      rows
  }

  /** No contact email is listed twice. */
  predicate DistinctContacts(u: User)
  {
    forall i, j :: 0 <= i < j < |u.contacts| ==> u.contacts[i] != u.contacts[j]
  }

  /** Adding keeps every contact list free of duplicates. */
  lemma AddContactKeepsDistinct(rows: Rows, ownerEmail: string, contactEmail: string)
    requires KeyedByEmail(rows)
    requires forall e :: e in rows ==> DistinctContacts(rows[e])
    ensures forall e :: e in AddContact(rows, ownerEmail, contactEmail) ==> DistinctContacts(AddContact(rows, ownerEmail, contactEmail)[e])
  {
    var r := AddContact(rows, ownerEmail, contactEmail);
    if CanAdd(rows, ownerEmail, contactEmail) {
      var cs := rows[ownerEmail].contacts;
      assert r[ownerEmail].contacts == cs + [contactEmail];
      forall i, j | 0 <= i < j < |cs| + 1
        ensures (cs + [contactEmail])[i] != (cs + [contactEmail])[j]
      {
        if j == |cs| {
          assert cs[i] in cs;
        }
      }
    }
  }

  /** Adding the same contact twice leaves the table as adding it once. */
  lemma AddContactIdempotent(rows: Rows, ownerEmail: string, contactEmail: string)
    requires KeyedByEmail(rows)
    ensures AddContact(AddContact(rows, ownerEmail, contactEmail), ownerEmail, contactEmail)
         == AddContact(rows, ownerEmail, contactEmail)
  {
    var once := AddContact(rows, ownerEmail, contactEmail);
    if CanAdd(rows, ownerEmail, contactEmail) {
      assert contactEmail in once[ownerEmail].contacts;
    }
  }

  /** Two tables that agree on the rows of the listed emails resolve the list alike. */
  lemma {:induction false} ResolveSameOn(a: Rows, b: Rows, emails: seq<string>)
    requires a.Keys == b.Keys
    requires forall i :: 0 <= i < |emails| && emails[i] in a ==> a[emails[i]] == b[emails[i]]
    ensures ResolveContacts(a, emails) == ResolveContacts(b, emails)
  {
    if emails != [] {
      ResolveSameOn(a, b, emails[1..]);
    }
  }

  /**
   * After a successful add the reloaded list ends with the added contact's
   * row. Before it stands the owner's earlier contact list resolved in the
   * updated table; when the owner does not list itself, that is the list
   * as it resolved before the add. (An owner that lists itself resolves,
   * after the add, to its updated row.)
   */
  lemma AddedContactComesLast(rows: Rows, ownerEmail: string, contactEmail: string)
    requires KeyedByEmail(rows) && CanAdd(rows, ownerEmail, contactEmail)
    ensures var r := AddContact(rows, ownerEmail, contactEmail);
            var loaded := ResolveContacts(r, r[ownerEmail].contacts);
            && |loaded| > 0
            && loaded[|loaded| - 1] == r[contactEmail]
            && loaded[..|loaded| - 1] == ResolveContacts(r, rows[ownerEmail].contacts)
            && (ownerEmail !in rows[ownerEmail].contacts ==>
                  loaded[..|loaded| - 1] == ResolveContacts(rows, rows[ownerEmail].contacts))
  {
    var r := AddContact(rows, ownerEmail, contactEmail);
    var before := rows[ownerEmail].contacts;
    ResolveAppend(r, before, contactEmail);
    if ownerEmail !in before {
      forall i | 0 <= i < |before| && before[i] in r
        ensures r[before[i]] == rows[before[i]]
      {
        assert before[i] != ownerEmail;
      }
      ResolveSameOn(r, rows, before);
    }
  }

  class CommunityViewModel {
    const userDao: UserTable
    var contactUsers: seq<User>

    ghost predicate Valid()
      reads userDao
    {
      userDao.Valid()
    }

    constructor (userDao: UserTable)
      requires userDao.Valid()
      ensures this.userDao == userDao && Valid() && contactUsers == []
    {
      this.userDao := userDao;
      contactUsers := [];
    }

    /** The `mapNotNull` loop: look up each email in order, keep the rows found. */
    method Resolve(emails: seq<string>) returns (users: seq<User>)
      requires Valid()
      ensures users == ResolveContacts(userDao.rows, emails)
    {
      users := [];
      var i := 0;
      while i < |emails|
        invariant 0 <= i <= |emails|
        invariant users == ResolveContacts(userDao.rows, emails[..i])
      {
        var found := userDao.GetUserByEmail(emails[i]);
        ResolveAppend(userDao.rows, emails[..i], emails[i]);
        assert emails[..i + 1] == emails[..i] + [emails[i]];
        if found.Some? {
          users := users + [found.value];
        }
        i := i + 1;
      }
      assert emails[..i] == emails;
    }

    /**
     * `loadContactsForUser`: for an unknown email `contactUsers` stays as it
     * was; otherwise it becomes the owner's contacts resolved to rows.
     */
    method LoadContactsForUser(email: string)
      requires Valid()
      modifies this
      ensures email !in userDao.rows ==> contactUsers == old(contactUsers)
      ensures email in userDao.rows ==>
                contactUsers == ResolveContacts(userDao.rows, userDao.rows[email].contacts)
    {
      var user := userDao.GetUserByEmail(email);
      if user.Some? {
        var contacts := Resolve(user.value.contacts);
        contactUsers := contacts;
      }
    }

    /**
     * `addContactByEmail`: when both users exist and the contact is not yet
     * listed, the owner's row gains the contact at the end, is written back,
     * and the contact list is reloaded; otherwise nothing changes.
     */
    method AddContactByEmail(ownerEmail: string, contactEmail: string)
      requires Valid()
      modifies this, userDao
      ensures Valid()
      ensures userDao.rows == AddContact(old(userDao.rows), ownerEmail, contactEmail)
      ensures CanAdd(old(userDao.rows), ownerEmail, contactEmail) ==>
                contactUsers == ResolveContacts(userDao.rows, userDao.rows[ownerEmail].contacts)
      ensures !CanAdd(old(userDao.rows), ownerEmail, contactEmail) ==> contactUsers == old(contactUsers)
    {
      var owner := userDao.GetUserByEmail(ownerEmail);
      var contact := userDao.GetUserByEmail(contactEmail);
      if owner.Some? && contact.Some? && contactEmail !in owner.value.contacts {
        var updated := owner.value.(contacts := owner.value.contacts + [contactEmail]);
        userDao.UpdateUser(updated);
        LoadContactsForUser(ownerEmail);
      }
    }
  }
}
