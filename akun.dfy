/**
 * The account management page: the search over users, the role a profile
 * gets when its role row is missing, and the label and badge of each role.
 */
module Akun {
  import opened Wrappers
  import opened Seqs
  import opened Text
  import opened Roles

  /** A row of the `profiles` table, as far as the page reads it. */
  datatype Profile = Profile(id: string, email: string, fullName: Option<string>)

  /** `UserWithRole`. */
  datatype User = User(id: string, email: string, fullName: Option<string>, role: UserRole)

  /**
   * The role of a profile from the `user_roles` rows found for it. The
   * query asks for exactly one row (`.single()`): with none, or with several,
   * it yields no data and the role falls back to staf_biasa.
   */
  function RoleFromRows(rows: seq<UserRole>): (role: UserRole)
    ensures |rows| == 1 ==> role == rows[0]
    ensures |rows| != 1 ==> role == StafBiasa
  {
    if |rows| == 1 then rows[0] else StafBiasa
  }

  /**
   * The user list built from the profiles, in the order the profiles came,
   * each with the role its role rows give.
   */
  function UsersWithRoles(profiles: seq<Profile>, roleRows: string -> seq<UserRole>): (users: seq<User>)
    ensures |users| == |profiles|
    ensures forall i :: 0 <= i < |users| ==>
      && users[i].id == profiles[i].id
      && users[i].email == profiles[i].email
      && users[i].fullName == profiles[i].fullName
      && users[i].role == RoleFromRows(roleRows(profiles[i].id))
  {
    seq(|profiles|, i requires 0 <= i < |profiles| =>
      var p := profiles[i];
      User(p.id, p.email, p.fullName, RoleFromRows(roleRows(p.id))))
  }

  /** A profile without a role row is listed as staf_biasa. */
  lemma MissingRoleIsStafBiasa(profiles: seq<Profile>, roleRows: string -> seq<UserRole>, i: int)
    requires 0 <= i < |profiles| && roleRows(profiles[i].id) == []
    ensures UsersWithRoles(profiles, roleRows)[i].role == StafBiasa
  {
  }

  /** The search test against an already lower-cased needle. */
  predicate MatchesNeedle(user: User, needle: string) {
    || Contains(Lower(user.email), needle)
    || (user.fullName.Some? && Contains(Lower(user.fullName.value), needle))
  }

  function MatchesQuery(needle: string): User -> bool {
    (user: User) => MatchesNeedle(user, needle)
  }

  /**
   * `filteredUsers`: the users whose lower-cased email, or whose lower-cased
   * full name when there is one, contains the lower-cased query.
   */
  function FilteredUsers(users: seq<User>, searchQuery: string): (r: seq<User>)
    ensures |r| <= |users|
    ensures forall i :: 0 <= i < |r| ==> MatchesNeedle(r[i], Lower(searchQuery))
  {
    Filter(users, MatchesQuery(Lower(searchQuery)))
  }

  /** A user is kept exactly when the query occurs, ignoring case, in the email or the full name. */
  lemma FilteredUsersMembership(users: seq<User>, searchQuery: string, user: User)
    ensures user in FilteredUsers(users, searchQuery) <==>
      && user in users
      && (|| (exists i :: OccursAt(Lower(user.email), Lower(searchQuery), i))
          || (user.fullName.Some? && exists i :: OccursAt(Lower(user.fullName.value), Lower(searchQuery), i)))
  {
    FilterMembership(users, MatchesQuery(Lower(searchQuery)), user);
    ContainsIffOccurs(Lower(user.email), Lower(searchQuery));
    if user.fullName.Some? {
      ContainsIffOccurs(Lower(user.fullName.value), Lower(searchQuery));
    }
  }

  /** The kept users appear in the order of the full list. */
  lemma FilteredUsersInOrder(users: seq<User>, searchQuery: string)
    ensures IsSubsequence(FilteredUsers(users, searchQuery), users)
  {
    FilterIsSubsequence(users, MatchesQuery(Lower(searchQuery)));
  }

  /** An empty search keeps every user. */
  lemma EmptyQueryKeepsAll(users: seq<User>)
    ensures FilteredUsers(users, "") == users
  {
    assert Lower("") == "";
    FilterKeepsAll(users, MatchesQuery(""));
  }

  /** Queries that differ only in the case of their letters select the same users. */
  lemma SearchIgnoresCase(users: seq<User>, q1: string, q2: string)
    requires SameIgnoringCase(q1, q2)
    ensures FilteredUsers(users, q1) == FilteredUsers(users, q2)
  {
    SameIgnoringCaseLower(q1, q2);
  }

  /** Typing the query in capitals, or in small letters, finds the same users. */
  lemma SearchIgnoresShift(users: seq<User>, q: string)
    ensures FilteredUsers(users, Upper(q)) == FilteredUsers(users, q)
    ensures FilteredUsers(users, Lower(q)) == FilteredUsers(users, q)
  {
    UpperSameIgnoringCase(q);
    SearchIgnoresCase(users, Upper(q), q);
    SearchIgnoresCase(users, Lower(q), q);
  }

  /** A user without a full name can be found only through the email. */
  lemma NamelessUserFoundByEmailOnly(users: seq<User>, searchQuery: string, user: User)
    requires user.fullName.None?
    ensures user in FilteredUsers(users, searchQuery) <==>
      user in users && Contains(Lower(user.email), Lower(searchQuery))
  {
    FilterMembership(users, MatchesQuery(Lower(searchQuery)), user);
  }

  /** `roleLabels`: only the admin is labelled "Admin". */
  function RoleLabel(role: UserRole): (name: string)
    ensures name != []
    ensures name == "Admin" <==> role == Admin
  {
    match role
    case Admin => "Admin"
    case StafKeuangan => "Staf Keuangan"
    case StafBiasa => "Staf Biasa"
  }

  /** `roleVariants`: only the admin gets the filled badge, and no role the destructive one. */
  function RoleVariant(role: UserRole): (v: BadgeVariant)
    ensures v != Destructive
    ensures v == Default <==> role == Admin
  {
    match role
    case Admin => Default
    case StafKeuangan => Secondary
    case StafBiasa => Outline
  }

  /**
   * Each role has its own label and its own badge: admin "Admin" on the
   * default badge, staf_keuangan "Staf Keuangan" on the secondary one,
   * staf_biasa "Staf Biasa" on the outline one.
   */
  lemma RoleBadgesDistinct(r1: UserRole, r2: UserRole)
    ensures RoleLabel(r1) == RoleLabel(r2) <==> r1 == r2
    ensures RoleVariant(r1) == RoleVariant(r2) <==> r1 == r2
    ensures RoleVariant(r1) != Destructive
    ensures RoleLabel(Admin) == "Admin" && RoleVariant(Admin) == Default
    ensures RoleLabel(StafKeuangan) == "Staf Keuangan" && RoleVariant(StafKeuangan) == Secondary
    ensures RoleLabel(StafBiasa) == "Staf Biasa" && RoleVariant(StafBiasa) == Outline
  {
  }
}
