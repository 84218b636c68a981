/**
 * The admin user list of learnhub/components/admin/user-management.tsx: the search, role and
 * status filter over the admin user table, the four summary counts, and the action offered
 * per user.
 */
module UserManagement {
  import opened Strings
  import opened Sorting
  import Auth

  datatype Status = Active | Suspended | Pending

  /** A row of the admin user table (dates and activity counters are not modelled). */
  datatype ManagedUser = ManagedUser(id: string, name: string, email: string, role: Auth.Role, status: Status)

  /** A drop-down choice: "all", or one value. */
  datatype Selection<T> = All | Only(value: T)

  /** The table `mockUsers` of the admin section. */
  const MockUsers: seq<ManagedUser> := [
    ManagedUser("1", "John Student", "student@learnhub.com", Auth.Student, Active),
    ManagedUser("2", "Sarah Teacher", "teacher@learnhub.com", Auth.Teacher, Active),
    ManagedUser("3", "Admin User", "admin@learnhub.com", Auth.Administrator, Active),
    ManagedUser("4", "Alice Chen", "alice@example.com", Auth.Student, Active),
    ManagedUser("5", "Mike Rodriguez", "mike@example.com", Auth.Student, Suspended)]

  predicate Selected<T(==)>(selection: Selection<T>, value: T) {
    selection.All? || selection.value == value
  }

  /** Case-insensitive substring search over name and email. */
  predicate MatchesSearch(u: ManagedUser, searchTerm: string) {
    Contains(Lower(u.name), Lower(searchTerm)) || Contains(Lower(u.email), Lower(searchTerm))
  }

  predicate Listed(u: ManagedUser, searchTerm: string, role: Selection<Auth.Role>, status: Selection<Status>) {
    MatchesSearch(u, searchTerm) && Selected(role, u.role) && Selected(status, u.status)
  }

  /** `filteredUsers`: the users passing all three conditions, in table order. */
  function FilteredUsers(users: seq<ManagedUser>, searchTerm: string, role: Selection<Auth.Role>, status: Selection<Status>): (r: seq<ManagedUser>)
    ensures forall i :: 0 <= i < |r| ==> r[i] in users && Listed(r[i], searchTerm, role, status)
    ensures forall i :: 0 <= i < |users| && Listed(users[i], searchTerm, role, status) ==> users[i] in r
    ensures IsSubsequence(r, users)
  {
    FilterIsSubsequence(users, u => Listed(u, searchTerm, role, status));
    Filter(users, u => Listed(u, searchTerm, role, status))
  }

  /** With an empty search and both selections on "all", every user is listed. */
  lemma NoFilterListsEveryone(users: seq<ManagedUser>)
    ensures FilteredUsers(users, "", All, All) == users
  {
    forall u | u in users ensures Listed(u, "", All, All) {
      ContainsEmpty(Lower(u.name));
    }
    FilterKeepsAll(users, u => Listed(u, "", All, All));
  }

  /** A filter that every element passes returns its input. */
  lemma {:induction false} FilterKeepsAll<T>(s: seq<T>, p: T -> bool)
    requires forall x :: x in s ==> p(x)
    ensures Filter(s, p) == s
  {
    if s != [] {
      FilterAppend([s[0]], s[1..], p);
      assert [s[0]] + s[1..] == s;
      FilterKeepsAll(s[1..], p);
    }
  }

  function IsActive(u: ManagedUser): bool { u.status == Active }
  function IsSuspended(u: ManagedUser): bool { u.status == Suspended }
  function IsPending(u: ManagedUser): bool { u.status == Pending }
  function IsTeacher(u: ManagedUser): bool { u.role == Auth.Teacher }

  /** The four summary cards: total, active, teachers, suspended. */
  datatype UserStats = UserStats(total: nat, active: nat, teachers: nat, suspended: nat)

  /** The cards count over the whole table, whatever the filter shows: each counts the positions whose user is active, a teacher or suspended. */
  function Stats(users: seq<ManagedUser>): (r: UserStats)
    ensures r.total == |users|
    ensures r.active == |IndicesWhere(users, IsActive)|
    ensures r.teachers == |IndicesWhere(users, IsTeacher)|
    ensures r.suspended == |IndicesWhere(users, IsSuspended)|
    ensures r.active <= r.total && r.teachers <= r.total && r.suspended <= r.total
  {
    FilterCountsIndices(users, IsActive);
    FilterCountsIndices(users, IsTeacher);
    FilterCountsIndices(users, IsSuspended);
    UserStats(|users|, |Filter(users, IsActive)|, |Filter(users, IsTeacher)|, |Filter(users, IsSuspended)|)
  }

  /** Every user has exactly one status, so active, suspended and pending users add up to the total. */
  lemma {:induction false} StatusesPartition(users: seq<ManagedUser>)
    ensures |Filter(users, IsActive)| + |Filter(users, IsSuspended)| + |Filter(users, IsPending)| == |users|
  {
    if users != [] {
      var head, tail := [users[0]], users[1..];
      assert users == head + tail;
      FilterAppend(head, tail, IsActive);
      FilterAppend(head, tail, IsSuspended);
      FilterAppend(head, tail, IsPending);
      StatusesPartition(tail);
    }
  }

  /** The counts the admin page shows for its table. */
  lemma MockUserStats()
    ensures Stats(MockUsers) == UserStats(5, 4, 1, 1)
  {
    var head, tail := MockUsers[..4], MockUsers[4..];
    assert MockUsers == head + tail;
    FilterKeepsAll(head, IsActive);
    FilterAppend(head, tail, IsActive);
    FilterAppend(head, tail, IsTeacher);
    FilterAppend(head, tail, IsSuspended);
  }

  datatype Action = Suspend | Activate

  /** The button offered per user. */
  function ActionFor(u: ManagedUser): (a: Action)
    ensures a == Suspend <==> u.status == Active
  {
    if u.status == Active then Suspend else Activate
  }
}
