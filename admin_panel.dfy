/** The admin page's module-level state: the fetched user list, the set of
    ids hidden in the table, and the ids the delete and update dialogs act on. */
module AdminPanel {

  import opened Wrappers
  import opened Seqs
  import opened Text
  import opened Schema

  /** The search box keeps a user when the (already lowercased) term occurs
      in the lowercased username or the lowercased email. */
  predicate Matches(u: Profile, term: string)
  {
    Contains(Lower(u.username), term) || Contains(Lower(u.email), term)
  }

  /** The users the table shows for what is typed in the search box. */
  function SearchUsers(users: seq<Profile>, input: string): (r: seq<Profile>)
    ensures r == Filter(users, (u: Profile) => Matches(u, Lower(input)))
    ensures forall u :: u in r <==> u in users && Matches(u, Lower(input))
    ensures IsSubsequence(r, users)
    ensures input == "" ==> r == users
  {
    var term := Lower(input);
    var r := Filter(users, (u: Profile) => Matches(u, term));
    FilterIsSubsequence(users, (u: Profile) => Matches(u, term));
    assert forall u :: u in r <==> u in users && Matches(u, term) by {
      forall u ensures u in r <==> u in users && Matches(u, term) {
        FilterMembership(users, (u: Profile) => Matches(u, term), u);
      }
    }
    if input == "" then
      EmptyTermKeepsAll(users);
      r
    else
      r
  }

  /** Every user matches the empty search term, so nothing is filtered out. */
  lemma EmptyTermKeepsAll(users: seq<Profile>)
    ensures Filter(users, (u: Profile) => Matches(u, Lower(""))) == users
  {
    forall k | 0 <= k < |users| ensures Matches(users[k], Lower("")) {
      ContainsEmpty(Lower(users[k].username));
    }
    FilterAll(users, (u: Profile) => Matches(u, Lower("")));
  }

  /** The hidden set after the Hide/Show button of `id`. */
  function Toggle(hidden: set<int>, id: int): (r: set<int>)
    ensures id in r <==> id !in hidden
    ensures forall x :: x != id ==> (x in r <==> x in hidden)
  {
    if id in hidden then hidden - {id} else hidden + {id}
  }

  lemma ToggleTwice(hidden: set<int>, id: int)
    ensures Toggle(Toggle(hidden, id), id) == hidden
  {
  }

  /** `if (!userToDelete) return;`: null and 0 both stop the handler. */
  predicate Truthy(id: Option<int>)
  {
    id.Some? && id.value != 0
  }

  class Panel {
    var allUsers: seq<Profile>
    var hiddenUsers: set<int>
    var userToDelete: Option<int>
    var userToUpdate: Option<int>

    constructor ()
      ensures allUsers == [] && hiddenUsers == {} && userToDelete == None && userToUpdate == None
    {
      allUsers, hiddenUsers := [], {};
      userToDelete, userToUpdate := None, None;
    }

    /** `loadUsers`: the response of `GET /api/users`, or `None` when the
        request failed and the list stays as it was. */
    method LoadUsers(response: Option<seq<Profile>>)
      modifies this`allUsers
      ensures allUsers == if response.Some? then response.value else old(allUsers)
    {
      if response.Some? {
        allUsers := response.value;
      }
    }

    /** `toggleUserVisibility`: flips the membership of `id` and of no other
        id, then redraws the table for what is in the search box. */
    method ToggleUserVisibility(id: int, searchBox: string) returns (shown: seq<Profile>)
      modifies this`hiddenUsers
      ensures hiddenUsers == Toggle(old(hiddenUsers), id)
      ensures id in hiddenUsers <==> id !in old(hiddenUsers)
      ensures forall x :: x != id ==> (x in hiddenUsers <==> x in old(hiddenUsers))
      ensures shown == SearchUsers(allUsers, searchBox)
    {
      if id in hiddenUsers {
        hiddenUsers := hiddenUsers - {id};
      } else {
        hiddenUsers := hiddenUsers + {id};
      }
      shown := SearchUsers(allUsers, searchBox);
    }

    method OpenDeleteModal(id: int)
      modifies this`userToDelete
      ensures userToDelete == Some(id)
    {
      userToDelete := Some(id);
    }

    method CloseDeleteModal()
      modifies this`userToDelete
      ensures userToDelete == None
    {
      userToDelete := None;
    }

    /** `confirmDelete`; `serverOk` is `response.ok` of `DELETE /api/users/:id`.
        On success the user leaves the list and the hidden set and the dialog
        closes; otherwise nothing changes. */
    method ConfirmDelete(serverOk: bool)
      modifies this`allUsers, this`hiddenUsers, this`userToDelete
      ensures !Truthy(old(userToDelete)) || !serverOk ==>
                allUsers == old(allUsers) && hiddenUsers == old(hiddenUsers) && userToDelete == old(userToDelete)
      ensures Truthy(old(userToDelete)) && serverOk ==>
                var id := old(userToDelete).value;
                allUsers == Filter(old(allUsers), (u: Profile) => u.id != id)
                && (forall u :: u in allUsers <==> u in old(allUsers) && u.id != id)
                && IsSubsequence(allUsers, old(allUsers))
                && hiddenUsers == old(hiddenUsers) - {id}
                && userToDelete == None
    {
      if !Truthy(userToDelete) {
        return;
      }
      if !serverOk {
        return;
      }
      var id := userToDelete.value;
      ghost var before := allUsers;
      allUsers := Filter(allUsers, (u: Profile) => u.id != id);
      forall u ensures u in allUsers <==> u in before && u.id != id {
        FilterMembership(before, (u: Profile) => u.id != id, u);
      }
      FilterIsSubsequence(before, (u: Profile) => u.id != id);
      hiddenUsers := hiddenUsers - {id};
      CloseDeleteModal();
    }

    method OpenUpdateModal(id: int)
      modifies this`userToUpdate
      ensures userToUpdate == Some(id)
    {
      userToUpdate := Some(id);
    }

    method CloseUpdateModal()
      modifies this`userToUpdate
      ensures userToUpdate == None
    {
      userToUpdate := None;
    }

    /** The update form's submit handler; `serverOk` is `response.ok` of
        `PUT /api/users/:id`. On success the first entry with the id gets the
        new username and email, nothing else in the list changes, and the
        dialog closes; otherwise nothing changes. */
    method SubmitUpdate(username: string, email: string, serverOk: bool)
      modifies this`allUsers, this`userToUpdate
      ensures !Truthy(old(userToUpdate)) || !serverOk ==>
                allUsers == old(allUsers) && userToUpdate == old(userToUpdate)
      ensures Truthy(old(userToUpdate)) && serverOk ==>
                var id := old(userToUpdate).value;
                var found := FirstIndex(old(allUsers), (u: Profile) => u.id == id);
                userToUpdate == None
                && |allUsers| == |old(allUsers)|
                && (found.None? ==> allUsers == old(allUsers))
                && (found.Some? ==>
                      allUsers == old(allUsers)[found.value := Profile(id, username, email)])
    {
      if !Truthy(userToUpdate) {
        return;
      }
      if !serverOk {
        return;
      }
      var id := userToUpdate.value;
      var userIndex := FirstIndex(allUsers, (u: Profile) => u.id == id);
      if userIndex.Some? {
        var k := userIndex.value;
        allUsers := allUsers[k := allUsers[k].(username := username, email := email)];
      }
      CloseUpdateModal();
    }
  }
}
