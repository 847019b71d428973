/**
 * The navigation sidebar: which menu entries each role sees, and the
 * initials shown in the avatar fallback.
 */
module AppSidebar {
  import opened Wrappers
  import opened Seqs
  import opened Text
  import opened Roles

  datatype MenuItem = MenuItem(title: string, url: string, roles: seq<UserRole>)

  /** The menu, in display order, with the roles allowed to see each entry. */
  const Items: seq<MenuItem> := [
    MenuItem("Dashboard", "/", [Admin, StafKeuangan, StafBiasa]),
    MenuItem("Kegiatan", "/kegiatan", [Admin, StafKeuangan, StafBiasa]),
    MenuItem("POK", "/pok", [Admin, StafKeuangan]),
    MenuItem("Pencairan", "/pencairan", [Admin, StafKeuangan]),
    MenuItem("Eviden", "/eviden", [Admin, StafKeuangan, StafBiasa]),
    MenuItem("ERD", "/erd", [Admin, StafKeuangan, StafBiasa]),
    MenuItem("Akun", "/akun", [Admin])
  ]

  /** The filter test: a role is known and the entry lists it. */
  function VisibleTo(userRole: Option<UserRole>): MenuItem -> bool {
    (item: MenuItem) => userRole.Some? && userRole.value in item.roles
  }

  /**
   * `filteredItems`: the entries whose roles include the signed-in user's
   * role, in menu order; nothing while the role is unknown.
   */
  function FilteredItems(userRole: Option<UserRole>): (r: seq<MenuItem>)
    ensures |r| <= |Items|
    ensures forall i :: 0 <= i < |r| ==> userRole.Some? && userRole.value in r[i].roles
    ensures userRole.None? ==> r == []
  {
    Filter(Items, VisibleTo(userRole))
  }

  /** An entry is shown exactly when it is in the menu and lists the user's role. */
  lemma FilteredItemsMembership(userRole: Option<UserRole>, item: MenuItem)
    ensures item in FilteredItems(userRole) <==>
      item in Items && userRole.Some? && userRole.value in item.roles
  {
    FilterMembership(Items, VisibleTo(userRole), item);
  }

  /** The visible entries keep their menu order. */
  lemma FilteredItemsInMenuOrder(userRole: Option<UserRole>)
    ensures IsSubsequence(FilteredItems(userRole), Items)
  {
    FilterIsSubsequence(Items, VisibleTo(userRole));
  }

  function Titles(items: seq<MenuItem>): (r: seq<string>)
    ensures |r| == |items| && forall i :: 0 <= i < |items| ==> r[i] == items[i].title
  {
    seq(|items|, i requires 0 <= i < |items| => items[i].title)
  }

  lemma AllTitles()
    ensures Titles(Items) == ["Dashboard", "Kegiatan", "POK", "Pencairan", "Eviden", "ERD", "Akun"]
  {
  }

  lemma AllButAkunTitles()
    ensures Titles(Items[..6]) == ["Dashboard", "Kegiatan", "POK", "Pencairan", "Eviden", "ERD"]
  {
  }

  lemma StafBiasaTitles()
    ensures Titles(Items[..2] + Items[4..6]) == ["Dashboard", "Kegiatan", "Eviden", "ERD"]
  {
  }

  /**
   * The menu each role sees: an admin every entry, staf_keuangan every entry
   * but Akun, staf_biasa exactly Dashboard, Kegiatan, Eviden and ERD.
   */
  lemma MenuForRole(role: UserRole)
    ensures FilteredItems(Some(role)) ==
      match role
      case Admin => Items
      case StafKeuangan => Items[..6]
      case StafBiasa => Items[..2] + Items[4..6]
    ensures Titles(FilteredItems(Some(role))) ==
      match role
      case Admin => ["Dashboard", "Kegiatan", "POK", "Pencairan", "Eviden", "ERD", "Akun"]
      case StafKeuangan => ["Dashboard", "Kegiatan", "POK", "Pencairan", "Eviden", "ERD"]
      case StafBiasa => ["Dashboard", "Kegiatan", "Eviden", "ERD"]
  {
    match role
    case Admin => AdminMenu(role);
    case StafKeuangan => StafKeuanganMenu(role);
    case StafBiasa => StafBiasaMenu(role);
  }

  lemma AdminMenu(role: UserRole)
    requires role == Admin
    ensures FilteredItems(Some(role)) == Items
    ensures Titles(FilteredItems(Some(role)))
      == ["Dashboard", "Kegiatan", "POK", "Pencairan", "Eviden", "ERD", "Akun"]
  {
    FilterKeepsAll(Items, VisibleTo(Some(role)));
    assert FilteredItems(Some(role)) == Items;
    AllTitles();
  }

  lemma StafKeuanganMenu(role: UserRole)
    requires role == StafKeuangan
    ensures FilteredItems(Some(role)) == Items[..6]
    ensures Titles(FilteredItems(Some(role)))
      == ["Dashboard", "Kegiatan", "POK", "Pencairan", "Eviden", "ERD"]
  {
    StafKeuanganFiltered(role);
    AllButAkunTitles();
  }

  lemma StafKeuanganFiltered(role: UserRole)
    requires role == StafKeuangan
    ensures FilteredItems(Some(role)) == Items[..6]
  {
    var p := VisibleTo(Some(role));
    FilterSplit(Items, 6, p);
    FilterKeepsAll(Items[..6], p);
    FilterKeepsNone(Items[6..], p);
  }

  lemma StafBiasaMenu(role: UserRole)
    requires role == StafBiasa
    ensures FilteredItems(Some(role)) == Items[..2] + Items[4..6]
    ensures Titles(FilteredItems(Some(role))) == ["Dashboard", "Kegiatan", "Eviden", "ERD"]
  {
    StafBiasaFiltered(role);
    StafBiasaTitles();
  }

  lemma StafBiasaFiltered(role: UserRole)
    requires role == StafBiasa
    ensures FilteredItems(Some(role)) == Items[..2] + Items[4..6]
  {
    var p := VisibleTo(Some(role));
    var front, back := Items[..4], Items[4..];
    FilterSplit(Items, 4, p);
    FilterSplit(front, 2, p);
    FilterSplit(back, 2, p);
    FilterKeepsAll(front[..2], p);
    FilterKeepsNone(front[2..], p);
    FilterKeepsAll(back[..2], p);
    FilterKeepsNone(back[2..], p);
    assert front[..2] == Items[..2];
    assert back[..2] == Items[4..6];
  }

  /** Only an admin sees Akun, and staf_biasa never sees POK or Pencairan. */
  lemma RestrictedEntries(role: UserRole)
    ensures Items[6] in FilteredItems(Some(role)) <==> role == Admin
    ensures role == StafBiasa ==>
      Items[2] !in FilteredItems(Some(role)) && Items[3] !in FilteredItems(Some(role))
  {
    MenuForRole(role);
  }

  /** `n[0]` of every piece, joined: an empty piece contributes nothing. */
  function FirstChars(pieces: seq<string>): string {
    if pieces == [] then [] else Take(pieces[0], 1) + FirstChars(pieces[1..])
  }

  /**
   * The first character of every word of `s`, where a word is a maximal run
   * of non-space characters; `afterSpace` says whether `s` begins a word.
   */
  function WordInitials(s: string, afterSpace: bool): string {
    if s == [] then []
    else (if afterSpace && s[0] != ' ' then [s[0]] else []) + WordInitials(s[1..], s[0] == ' ')
  }

  lemma FirstCharsCons(piece: string, pieces: seq<string>)
    ensures FirstChars([piece] + pieces) == Take(piece, 1) + FirstChars(pieces)
  {
    assert ([piece] + pieces)[1..] == pieces;
  }

  /** The first characters of the space-separated pieces are the word initials. */
  lemma {:induction false} FirstCharsOfSplit(s: string)
    ensures FirstChars(SplitOnSpace(s)) == WordInitials(s, true)
    ensures FirstChars(SplitOnSpace(s)[1..]) == WordInitials(s, false)
  {
    if s != [] {
      var rest := SplitOnSpace(s[1..]);
      FirstCharsOfSplit(s[1..]);
      if s[0] == ' ' {
        FirstCharsCons("", rest);
        assert ([""] + rest)[1..] == rest;
      } else {
        FirstCharsCons([s[0]] + rest[0], rest[1..]);
        assert ([[s[0]] + rest[0]] + rest[1..])[1..] == rest[1..];
      }
    }
  }

  /**
   * `getInitials`: "U" for a missing or empty name; otherwise the upper-cased
   * first characters of its words, cut to two.
   */
  function GetInitials(name: Option<string>): (r: string)
    ensures |r| <= 2
    ensures name.None? || name.value == "" ==> r == "U"
    ensures name.Some? && name.value != "" ==> r == Take(Upper(WordInitials(name.value, true)), 2)
  {
    if name.None? || name.value == "" then "U"
    else
      FirstCharsOfSplit(name.value);
      Take(Upper(FirstChars(SplitOnSpace(name.value))), 2)
  }

  /** A single word gives its first letter, upper-cased. */
  lemma {:induction false} SingleWordInitial(s: string)
    requires s != [] && s[0] != ' '
    requires forall i :: 0 <= i < |s| ==> s[i] != ' '
    ensures GetInitials(Some(s)) == [UpperChar(s[0])]
  {
    NoSpaceNoLaterInitials(s[1..]);
  }

  lemma {:induction false} NoSpaceNoLaterInitials(s: string)
    requires forall i :: 0 <= i < |s| ==> s[i] != ' '
    ensures WordInitials(s, false) == []
  {
    if s != [] {
      NoSpaceNoLaterInitials(s[1..]);
    }
  }

  /** A name made only of spaces is not empty, yet it has no initials at all. */
  lemma {:induction false} BlankNameHasNoInitials(s: string)
    requires s != [] && forall i :: 0 <= i < |s| ==> s[i] == ' '
    ensures GetInitials(Some(s)) == ""
  {
    AllSpacesNoInitials(s, true);
  }

  lemma {:induction false} AllSpacesNoInitials(s: string, afterSpace: bool)
    requires forall i :: 0 <= i < |s| ==> s[i] == ' '
    ensures WordInitials(s, afterSpace) == []
  {
    if s != [] {
      AllSpacesNoInitials(s[1..], true);
    }
  }
}
