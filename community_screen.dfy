/**
 * The community screen: the contact search over the loaded contact list,
 * and the add-contact action, which goes through only when a user is
 * signed in and then adds on that user's behalf.
 */
module CommunityScreen {
  import opened Text
  import opened Entities
  import Seqs
  import opened Community

  /** The search test for one contact: the query occurs in the name or the email, ignoring case. */
  predicate ContactMatches(contact: User, searchQuery: string)
  {
    ContainsIgnoreCase(contact.name, searchQuery) || ContainsIgnoreCase(contact.email, searchQuery)
  }

  /**
   * `filteredContacts`: a blank query shows the contact list as it is;
   * otherwise the contacts, in their order, whose name or email contains
   * the query, and all of them.
   */
  function FilteredContacts(contactUsers: seq<User>, searchQuery: string): (r: seq<User>)
    ensures IsBlank(searchQuery) ==> r == contactUsers
    ensures Seqs.IsSubsequence(r, contactUsers)
    ensures !IsBlank(searchQuery) ==> forall i :: 0 <= i < |r| ==> ContactMatches(r[i], searchQuery)
    ensures !IsBlank(searchQuery) ==> forall c :: c in r <==> c in contactUsers && ContactMatches(c, searchQuery)
    ensures forall c :: multiset(r)[c]
                        == if IsBlank(searchQuery) || ContactMatches(c, searchQuery) then multiset(contactUsers)[c] else 0
  {
    if IsBlank(searchQuery) then
      Seqs.SubsequenceOfSelf(contactUsers);
      contactUsers
    else
      var keep := (c: User) => ContactMatches(c, searchQuery);
      Seqs.FilterIsSubsequence(contactUsers, keep);
      Seqs.FilterMembership(contactUsers, keep);
      Seqs.FilterCounts(contactUsers, keep);
      Seqs.Filter(contactUsers, keep)
  }

  /** Searching the shown list again with the same query shows the same list. */
  lemma FilterContactsIdempotent(contactUsers: seq<User>, searchQuery: string)
    ensures FilteredContacts(FilteredContacts(contactUsers, searchQuery), searchQuery)
         == FilteredContacts(contactUsers, searchQuery)
  {
    if !IsBlank(searchQuery) {
      var keep := (c: User) => ContactMatches(c, searchQuery);
      Seqs.FilterFilter(contactUsers, keep, keep, keep);
    }
  }

  /** A contact's own email, as a query, always keeps that contact. */
  lemma OwnEmailFindsContact(contactUsers: seq<User>, contact: User)
    requires contact in contactUsers
    ensures contact in FilteredContacts(contactUsers, contact.email)
  {
    ContainsSelf(contact.email);
  }

  /**
   * The dialog's `onAdd`: without a signed-in user nothing happens; with
   * one, the contact is added for that user's email, and the contact list
   * is reloaded exactly when the add went through.
   */
  method OnAdd(communityViewModel: CommunityViewModel, currentUser: Option<User>, email: string)
    requires communityViewModel.Valid()
    modifies communityViewModel, communityViewModel.userDao
    ensures communityViewModel.Valid()
    ensures currentUser.None? ==>
              && communityViewModel.userDao.rows == old(communityViewModel.userDao.rows)
              && communityViewModel.contactUsers == old(communityViewModel.contactUsers)
    ensures currentUser.Some? ==>
              communityViewModel.userDao.rows
              == AddContact(old(communityViewModel.userDao.rows), currentUser.value.email, email)
    ensures currentUser.Some? && CanAdd(old(communityViewModel.userDao.rows), currentUser.value.email, email) ==>
              communityViewModel.contactUsers
              == ResolveContacts(communityViewModel.userDao.rows,
                                 communityViewModel.userDao.rows[currentUser.value.email].contacts)
    ensures currentUser.Some? && !CanAdd(old(communityViewModel.userDao.rows), currentUser.value.email, email) ==>
              communityViewModel.contactUsers == old(communityViewModel.contactUsers)
  {
    if currentUser.Some? {
      communityViewModel.AddContactByEmail(currentUser.value.email, email);
    }
  }
}
