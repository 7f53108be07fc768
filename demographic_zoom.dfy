/**
 * The demographic zoom panel: a list of users narrowed by an age range and
 * four equality filters, a selection of user ids with per-row and
 * select-all checkboxes, and the counts the action buttons report.
 */
module DemographicZoom {
  import Selection

  /** A customer of the segment. */
  datatype User = User(
    id: int,
    name: string,
    email: string,
    age: int,
    gender: string,
    city: string,
    producto: string,
    lastPurchase: string,
    preferredChannel: string,
    purchaseCount: int,
    totalSpent: real)

  /**
   * The filter state. The age slider's two-element array is kept as its
   * lower and upper bound; "all" switches an equality filter off.
   */
  datatype Filters = Filters(
    ageMin: int,
    ageMax: int,
    gender: string,
    city: string,
    channel: string,
    producto: string)

  /** The filters on opening and after "Limpiar". */
  const DefaultFilters: Filters := Filters(18, 65, "all", "all", "all", "all")

  /** The ten hard-coded users. */
  const MockUsers: seq<User> := [
    User(1, "Ana García", "ana@example.com", 34, "F", "Bogotá", "Revancha", "2024-05-01", "Web", 5, 450.75),
    User(2, "Carlos Rodríguez", "carlos@example.com", 42, "M", "Medellín", "Baloto", "2024-04-15", "App", 3, 320.50),
    User(3, "Lucía Fernández", "lucia@example.com", 28, "F", "Cali", "Baloto Revancha", "2024-04-28", "Web", 7, 680.25),
    User(4, "Miguel López", "miguel@example.com", 39, "M", "Bogotá", "Miloto", "2024-03-20", "App", 2, 150.00),
    User(5, "Laura Díaz", "laura@example.com", 31, "F", "Barranquilla", "Color loto", "2024-05-05", "Web", 4, 390.75),
    User(6, "Javier Martínez", "javier@example.com", 45, "M", "Medellín", "Revancha", "2024-04-10", "App", 6, 580.50),
    User(7, "Carmen Sánchez", "carmen@example.com", 29, "F", "Bogotá", "Baloto", "2024-05-02", "Web", 3, 270.25),
    User(8, "David Pérez", "david@example.com", 37, "M", "Cali", "Baloto Revancha", "2024-04-05", "Email", 5, 420.00),
    User(9, "Sara González", "sara@example.com", 33, "F", "Barranquilla", "Miloto", "2024-04-22", "App", 4, 340.75),
    User(10, "Pablo Ruiz", "pablo@example.com", 40, "M", "Bogotá", "Color loto", "2024-03-15", "Web", 2, 195.50)
  ]

  // ---------------------------------------------------------------------------
  // Filtering
  // ---------------------------------------------------------------------------

  /** An equality filter: "all" admits every value. */
  predicate Admits(filter: string, value: string) {
    filter == "all" || value == filter
  }

  /** Whether a user passes the filters: the age range is inclusive at both ends. */
  predicate Matches(u: User, f: Filters) {
    && f.ageMin <= u.age <= f.ageMax
    && Admits(f.gender, u.gender)
    && Admits(f.city, u.city)
    && Admits(f.channel, u.preferredChannel)
    && Admits(f.producto, u.producto)
  }

  /** The users that pass the filters, in their original order. */
  function FilteredUsers(users: seq<User>, f: Filters): (r: seq<User>)
    ensures |r| <= |users|
    ensures forall u :: u in r <==> u in users && Matches(u, f)
  {
    if users == [] then []
    else
      assert users == [users[0]] + users[1..];
      (if Matches(users[0], f) then [users[0]] else []) + FilteredUsers(users[1..], f)
  }

  /** Filtering a concatenation filters each part and keeps them in order. */
  lemma {:induction false} FilteredConcat(a: seq<User>, b: seq<User>, f: Filters)
    ensures FilteredUsers(a + b, f) == FilteredUsers(a, f) + FilteredUsers(b, f)
  {
    if a == [] {
      assert a + b == b;
    } else {
      var head := if Matches(a[0], f) then [a[0]] else [];
      var t := a + b;
      assert t[0] == a[0];
      assert t[1..] == a[1..] + b;
      FilteredConcat(a[1..], b, f);
      calc {
        FilteredUsers(t, f);
        head + FilteredUsers(t[1..], f);
        head + (FilteredUsers(a[1..], f) + FilteredUsers(b, f));
        (head + FilteredUsers(a[1..], f)) + FilteredUsers(b, f);
        FilteredUsers(a, f) + FilteredUsers(b, f);
      }
    }
  }

  /** When every user passes, the filtered list is the whole list, in order. */
  lemma {:induction false} FilteredAllPass(users: seq<User>, f: Filters)
    requires forall i :: 0 <= i < |users| ==> Matches(users[i], f)
    ensures FilteredUsers(users, f) == users
  {
    if users != [] {
      FilteredAllPass(users[1..], f);
      assert users == [users[0]] + users[1..];
    }
  }

  /** The default filters admit exactly the users aged 18 to 65. */
  lemma DefaultFiltersAdmitAdults(u: User)
    ensures Matches(u, DefaultFilters) <==> 18 <= u.age <= 65
  {
  }

  /** Every mock user is between 28 and 45, so the default filters show all ten. */
  lemma MockUsersAllShown()
    ensures FilteredUsers(MockUsers, DefaultFilters) == MockUsers
  {
    assert forall i :: 0 <= i < |MockUsers| ==> 28 <= MockUsers[i].age <= 45;
    FilteredAllPass(MockUsers, DefaultFilters);
  }

  /** The ids of a list of users, in order. */
  function Ids(users: seq<User>): (r: seq<int>)
    ensures |r| == |users|
    ensures forall i :: 0 <= i < |users| ==> r[i] == users[i].id
  {
    seq(|users|, i requires 0 <= i < |users| => users[i].id)
  }

  /** Filtering keeps distinct ids distinct. */
  lemma {:induction false} FilteredIdsDistinct(users: seq<User>, f: Filters)
    requires Selection.NoDup(Ids(users))
    ensures Selection.NoDup(Ids(FilteredUsers(users, f)))
  {
    if users != [] {
      var rest := users[1..];
      assert Selection.NoDup(Ids(rest)) by {
        forall i, j | 0 <= i < j < |rest| ensures Ids(rest)[i] != Ids(rest)[j] {
          assert Ids(users)[i + 1] != Ids(users)[j + 1];
        }
      }
      FilteredIdsDistinct(rest, f);
      var fr := FilteredUsers(rest, f);
      if Matches(users[0], f) {
        var r := [users[0]] + fr;
        assert FilteredUsers(users, f) == r;
        forall i, j | 0 <= i < j < |r| ensures Ids(r)[i] != Ids(r)[j] {
          if i == 0 {
            assert r[j] == fr[j - 1];
            assert r[j] in rest;
            var k :| 0 <= k < |rest| && rest[k] == r[j];
            assert Ids(users)[0] != Ids(users)[k + 1];
          } else {
            assert Ids(fr)[i - 1] != Ids(fr)[j - 1];
          }
        }
      } else {
        assert FilteredUsers(users, f) == fr;
      }
    }
  }

  /** The mock users' ids are 1 to 10, all distinct. */
  lemma MockIdsDistinct()
    ensures forall i :: 0 <= i < |MockUsers| ==> Ids(MockUsers)[i] == i + 1
    ensures Selection.NoDup(Ids(MockUsers))
  {
  }

  // ---------------------------------------------------------------------------
  // Selection rules
  // ---------------------------------------------------------------------------

  /**
   * The selection after the header checkbox is clicked: cleared when its
   * size equals the number of filtered users, otherwise all filtered ids.
   */
  function SelectAllResult(selected: seq<int>, filtered: seq<User>): seq<int> {
    if |selected| == |filtered| then [] else Ids(filtered)
  }

  /** Whether the header checkbox is checked. */
  predicate HeaderChecked(selected: seq<int>, filtered: seq<User>) {
    |filtered| > 0 && |selected| == |filtered|
  }

  /** The number of users the export reports: the selection, or all filtered users if none. */
  function ExportCount(selected: seq<int>, filtered: seq<User>): (n: nat)
    ensures |selected| > 0 ==> n == |selected|
    ensures |selected| == 0 ==> n == |filtered|
  {
    if |selected| != 0 then |selected| else |filtered|
  }

  /**
   * Select-all compares sizes only: a click either empties the selection
   * or makes it exactly the filtered ids; it empties it exactly when the
   * sizes match or nothing is shown, and with a non-empty filtered list a
   * click flips the header checkbox.
   */
  lemma SelectAllFacts(selected: seq<int>, filtered: seq<User>)
    ensures var r := SelectAllResult(selected, filtered);
      (r == [] || r == Ids(filtered))
      && (r == [] <==> |selected| == |filtered| || |filtered| == 0)
      && (|filtered| > 0 ==> (HeaderChecked(r, filtered) <==> !HeaderChecked(selected, filtered)))
  {
  }

  /**
   * Because only sizes are compared, a selection of one user who is not in
   * the filtered list is cleared instead of being replaced by the filtered
   * user, and the header checkbox shows as checked before the click.
   */
  lemma SelectAllComparesSizesOnly()
    ensures var filtered := [MockUsers[0]];
      && HeaderChecked([2], filtered)
      && 2 !in Ids(filtered)
      && SelectAllResult([2], filtered) == []
  {
  }

  /**
   * The export count is positive exactly when something is selected or
   * shown, and never smaller than the selection.
   */
  lemma ExportCountFacts(selected: seq<int>, filtered: seq<User>)
    ensures ExportCount(selected, filtered) > 0 <==> |selected| > 0 || |filtered| > 0
    ensures ExportCount(selected, filtered) >= |selected|
  {
  }

  /** The panel's state; the user list itself is never changed. */
  class ZoomPanel {
    var users: seq<User>
    var filters: Filters
    var selectedUsers: seq<int>
    var savedFilter: bool

    /** The selection has no repeated id and the users have distinct ids. */
    ghost predicate Valid()
      reads this
    {
      Selection.NoDup(selectedUsers) && Selection.NoDup(Ids(users))
    }

    /** The users shown in the table. */
    function Filtered(): seq<User>
      reads this
    {
      FilteredUsers(users, filters)
    }

    /** Opening the panel: the mock users, default filters, nothing selected or saved. */
    constructor ()
      ensures Valid()
      ensures users == MockUsers && filters == DefaultFilters
      ensures selectedUsers == [] && !savedFilter
    {
      MockIdsDistinct();
      users := MockUsers;
      filters := DefaultFilters;
      selectedUsers := [];
      savedFilter := false;
    }

    /** handleAgeChange: set the age range only. */
    method HandleAgeChange(ageMin: int, ageMax: int)
      requires Valid()
      modifies this`filters
      ensures Valid()
      ensures filters == old(filters).(ageMin := ageMin, ageMax := ageMax)
    {
      filters := filters.(ageMin := ageMin, ageMax := ageMax);
    }

    /** handleGenderChange: set the gender filter only. */
    method HandleGenderChange(value: string)
      requires Valid()
      modifies this`filters
      ensures Valid()
      ensures filters == old(filters).(gender := value)
    {
      filters := filters.(gender := value);
    }

    /** handleCityChange: set the city filter only. */
    method HandleCityChange(value: string)
      requires Valid()
      modifies this`filters
      ensures Valid()
      ensures filters == old(filters).(city := value)
    {
      filters := filters.(city := value);
    }

    /** handleChannelChange: set the channel filter only. */
    method HandleChannelChange(value: string)
      requires Valid()
      modifies this`filters
      ensures Valid()
      ensures filters == old(filters).(channel := value)
    {
      filters := filters.(channel := value);
    }

    /** handleProductoChange: set the product filter only. */
    method HandleProductoChange(value: string)
      requires Valid()
      modifies this`filters
      ensures Valid()
      ensures filters == old(filters).(producto := value)
    {
      filters := filters.(producto := value);
    }

    /** "Limpiar": back to the default filters, which admit every user aged 18 to 65. */
    method ResetFilters()
      requires Valid()
      modifies this`filters
      ensures Valid()
      ensures filters == DefaultFilters
      ensures forall u :: u in Filtered() <==> u in users && 18 <= u.age <= 65
    {
      filters := DefaultFilters;
    }

    /** handleUserSelect: remove the id if selected, append it otherwise. */
    method HandleUserSelect(userId: int)
      requires Valid()
      modifies this`selectedUsers
      ensures Valid()
      ensures selectedUsers == Selection.Toggle(old(selectedUsers), userId)
      ensures userId in selectedUsers <==> userId !in old(selectedUsers)
      ensures forall id :: id != userId ==> (id in selectedUsers <==> id in old(selectedUsers))
    {
      Selection.ToggleKeepsNoDup(selectedUsers, userId);
      if userId in selectedUsers {
        selectedUsers := Selection.Without(selectedUsers, userId);
      } else {
        selectedUsers := selectedUsers + [userId];
      }
    }

    /** handleSelectAll: compare sizes, then clear or select every filtered user. */
    method HandleSelectAll()
      requires Valid()
      modifies this`selectedUsers
      ensures Valid()
      ensures selectedUsers == SelectAllResult(old(selectedUsers), Filtered())
    {
      var filtered := FilteredUsers(users, filters);
      if |selectedUsers| == |filtered| {
        selectedUsers := [];
      } else {
        FilteredIdsDistinct(users, filters);
        selectedUsers := Ids(filtered);
      }
    }

    /** "Limpiar selección": drop the whole selection. */
    method ClearSelection()
      requires Valid()
      modifies this`selectedUsers
      ensures Valid()
      ensures selectedUsers == []
    {
      selectedUsers := [];
    }

    /** handleSaveFilter: mark the filter as saved (the notification is left out). */
    method HandleSaveFilter()
      requires Valid()
      modifies this`savedFilter
      ensures Valid()
      ensures savedFilter
    {
      savedFilter := true;
    }
  }
}
