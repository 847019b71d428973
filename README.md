# dashflow-boss view logic, modelled in Dafny

dashflow-boss is an office tool for tracking activities (kegiatan), the budget
chart (POK, "Petunjuk Operasional Kegiatan"), disbursements (pencairan) and
evidence documents. Most of it is forms wired to a hosted database. This
project models the pure logic inside five of its React components, and proves
what that logic promises:

- **MonthlyCalendar** (`monthly_calendar.dfy`). The month grid is padded to
  whole Sunday–Saturday weeks. An activity is listed on a day by a
  three-case overlap test. Each activity gets a colour from a hash of its id.
  A cell shows at most three activities, then "+N more".
- **AppSidebar** (`app_sidebar.dfy`). The role table says which menu entries
  each role sees. `getInitials` builds the avatar fallback.
- **POK** (`pok.dfy`). The page shows the budget and used totals, the
  remaining budget, the rounded overall percentage and the colour band of each
  line's realisation bar.
- **Pencairan** (`pencairan.dfy`). The page shows approved and pending totals,
  a count per status, and the badge variant and icon for each status.
- **Akun** (`akun.dfy`). Users are searched case-insensitively by email or
  full name. A profile with no role row gets a default role. Each role has a
  label and a badge.

Shared pieces:
- `seqs.dfy` holds `filter`, a summing `reduce` and `slice(0, n)`, with lemmas
  on order, membership and sums over parts.
- `text.dfy` holds ASCII case mapping, `includes` and `split(" ")`.
- `roles.dfy` holds the role and badge-variant enumerations.
- `wrappers.dfy` holds `Option`, which models `null`/`undefined`.

Conventions:
- Days are integer day numbers counted from 1970-01-01, a Thursday, so
  `Weekday(d) = (d + 4) % 7` with Sunday as 0.
- Instants are milliseconds. An unparseable timestamp is `Invalid`, and every
  comparison with it is false, as with an Invalid Date in JavaScript.
- Money is whole rupiah, as unbounded integers.

The POK and disbursement tables in the ERD diagram page have columns for a
budget version and for realised amounts and payment dates: `versi` and
`tanggal_versi` (src/pages/ERD.tsx:165-166), and `riil_pencairan`, `tgl_spp`
and `tgl_sp2d` (src/pages/ERD.tsx:239-243). They are diagram text only. No
component computes with them, so the model has no versions, snapshots or
realisation.

The access rule comes from the sidebar's role table, which gives staf_biasa
the ERD entry. The help text on the account page
(src/pages/Akun.tsx:217) lists only Dashboard, Kegiatan and Eviden for that
role. The model follows the role table.

## Model

| member | source | states |
|---|---|---|
| `MonthlyCalendar.Weekday` | src/components/calendar/MonthlyCalendar.tsx:42 | `getDay` of a day is always one of the seven weekdays, 0 (Sunday) to 6 |
| `MonthlyCalendar.GridStart` | src/components/calendar/MonthlyCalendar.tsx:41-42 | the first grid day is a Sunday, at most 6 days before the month start |
| `MonthlyCalendar.GridEnd` | src/components/calendar/MonthlyCalendar.tsx:44-45 | the last grid day is a Saturday, at most 6 days after the month end |
| `MonthlyCalendar.EachDay` | src/components/calendar/MonthlyCalendar.tsx:47 | `eachDayOfInterval` lists every day from start to end, consecutively |
| `MonthlyCalendar.GridDays` | src/components/calendar/MonthlyCalendar.tsx:37-47 | grid length is a positive multiple of 7; it starts on Sunday and ends on Saturday; position i has weekday i % 7, matching the Sun..Sat header; every month day is included; padding before is the month-start weekday and padding after is 6 minus the month-end weekday |
| `MonthlyCalendar.GridSize` | src/components/calendar/MonthlyCalendar.tsx:37-47 | a month of 28–31 days gives 28–42 grid days, i.e. 4, 5 or 6 rows of the 7-column grid |
| `MonthlyCalendar.DayStart` | src/components/calendar/MonthlyCalendar.tsx:51 | `startOfDay` is a valid instant at a midnight, and it belongs to that day |
| `MonthlyCalendar.DayEnd` | src/components/calendar/MonthlyCalendar.tsx:52 | `endOfDay` is a valid instant after the day's start and one millisecond before the next day's start |
| `MonthlyCalendar.OccursOn` | src/components/calendar/MonthlyCalendar.tsx:58-62 | an activity is listed on the day of its valid start and on the day of its valid end; with neither timestamp valid, it is listed on no day |
| `MonthlyCalendar.DayOf` | src/components/calendar/MonthlyCalendar.tsx:51-52 | every instant lies between `startOfDay` and `endOfDay` of its day |
| `MonthlyCalendar.ActivitiesForDay` | src/components/calendar/MonthlyCalendar.tsx:50-64 | the result is no longer than the input, and every listed activity passes the day test |
| `MonthlyCalendar.ActivitiesForDayMembership` | src/components/calendar/MonthlyCalendar.tsx:54-63 | an activity is listed iff it is in the input and passes the three-case test |
| `MonthlyCalendar.ActivitiesForDayInOrder` | src/components/calendar/MonthlyCalendar.tsx:54 | the listed activities are an order-preserving subsequence of the input |
| `MonthlyCalendar.OccursOnIffOverlap` | src/components/calendar/MonthlyCalendar.tsx:58-62 | for valid timestamps with start ≤ end, the three-case test equals `start ≤ dayEnd ∧ end ≥ dayStart` |
| `MonthlyCalendar.OccursOnIffWithinDays` | src/components/calendar/MonthlyCalendar.tsx:50-62 | a well-formed activity passes the test exactly on the days from its start day to its end day |
| `MonthlyCalendar.ListedExactlyOnItsDays` | src/components/calendar/MonthlyCalendar.tsx:50-64 | a well-formed activity appears in the list of exactly the days it spans |
| `MonthlyCalendar.InvalidStartListedByEnd` | src/components/calendar/MonthlyCalendar.tsx:55-62 | an activity with an unparseable start is listed only on the day of its end, if that end is valid |
| `MonthlyCalendar.CodeSum` | src/components/calendar/MonthlyCalendar.tsx:67 | the hash is a non-negative sum, at least the code of each character |
| `MonthlyCalendar.CodeSumOfPermutation` | src/components/calendar/MonthlyCalendar.tsx:67 | the character-code sum depends only on the multiset of characters |
| `MonthlyCalendar.ActivityColor` | src/components/calendar/MonthlyCalendar.tsx:66-69 | the colour is the palette entry at (code sum mod 8), so always a palette colour |
| `MonthlyCalendar.SameCharactersSameColor` | src/components/calendar/MonthlyCalendar.tsx:66-69 | ids with the same multiset of characters get the same colour |
| `MonthlyCalendar.CellFor` | src/components/calendar/MonthlyCalendar.tsx:117-161 | a cell shows a prefix of min(n, 3) of the day's n activities; "+k more" appears iff n > 3; shown + k = n; the in-month and today flags are correct |
| `MonthlyCalendar.MonthView` | src/components/calendar/MonthlyCalendar.tsx:114-166 | one cell per grid day, in order; cell i has weekday i % 7; its in-month and today flags are correct; it shows a prefix of min(n, 3) of the n activities listed for its day, with "+k more" iff n > 3 and shown + k = n |
| `AppSidebar.FilteredItems` | src/components/layout/AppSidebar.tsx:62-64 | every shown entry lists the user's role; nothing is shown while the role is null |
| `AppSidebar.FilteredItemsMembership` | src/components/layout/AppSidebar.tsx:38-64 | an entry is shown iff it is in the menu and its roles include the user's role |
| `AppSidebar.FilteredItemsInMenuOrder` | src/components/layout/AppSidebar.tsx:62 | the shown entries are an order-preserving subsequence of the menu |
| `AppSidebar.MenuForRole` | src/components/layout/AppSidebar.tsx:38-46 | admin sees all 7 entries; staf_keuangan sees all but Akun; staf_biasa sees exactly Dashboard, Kegiatan, Eviden, ERD |
| `AppSidebar.RestrictedEntries` | src/components/layout/AppSidebar.tsx:41-45 | only admin sees Akun; staf_biasa never sees POK or Pencairan |
| `AppSidebar.FirstCharsOfSplit` | src/components/layout/AppSidebar.tsx:55-57 | the first characters of the space-split pieces are exactly the first characters of the words; empty pieces add nothing |
| `AppSidebar.GetInitials` | src/components/layout/AppSidebar.tsx:52-60 | "U" for a null or empty name; otherwise the upper-cased word initials cut to 2; never longer than 2 |
| `AppSidebar.SingleWordInitial` | src/components/layout/AppSidebar.tsx:52-60 | a one-word name gives its upper-cased first letter |
| `AppSidebar.BlankNameHasNoInitials` | src/components/layout/AppSidebar.tsx:53-59 | a non-empty name of only spaces gives "" rather than "U" |
| `Text.SplitOnSpace` | src/components/layout/AppSidebar.tsx:55 | `split(" ")` gives at least one piece, and no piece contains a space |
| `Text.JoinSplit` | src/components/layout/AppSidebar.tsx:55 | joining the pieces of `split(" ")` with spaces gives the name back |
| `Text.SplitJoin` | src/components/layout/AppSidebar.tsx:55 | pieces without spaces survive a join followed by a split |
| `Text.LowerChar` | src/pages/Akun.tsx:129-130 | a lower-cased character is never a capital A–Z, and a character that is not a capital is kept |
| `Text.UpperChar` | src/components/layout/AppSidebar.tsx:58 | an upper-cased character is never a small a–z, and a character that is not a small letter is kept |
| `Text.CaseRoundTrip` | src/pages/Akun.tsx:129-130 | lower-casing after upper-casing is the same as lower-casing alone, and the other way round |
| `Text.Lower` | src/pages/Akun.tsx:129-130 | `toLowerCase` maps each character on its own, keeps the length and leaves no capital A–Z |
| `Text.Upper` | src/components/layout/AppSidebar.tsx:58 | `toUpperCase` maps each character on its own, keeps the length and leaves no small a–z |
| `Text.SameIgnoringCaseLower` | src/pages/Akun.tsx:129-130 | strings that differ at each index at most by one being the capital of the other lower-case to the same string |
| `Text.UpperSameIgnoringCase` | src/pages/Akun.tsx:129-130 | a string differs from its upper-cased and its lower-cased copy only in letter case |
| `Text.Contains` | src/pages/Akun.tsx:129-130 | `includes("")` is always true, and a match needs a needle no longer than the text |
| `Text.ContainsIffOccurs` | src/pages/Akun.tsx:129-130 | `includes` holds iff the needle occurs at some index |
| `Pok.TotalAnggaran` | src/pages/POK.tsx:58 | with no negative budget, the total is ≥ 0 and at least each line's budget |
| `Pok.TotalTerpakai` | src/pages/POK.tsx:59 | with no negative use, the total used is ≥ 0 and at least each line's use |
| `Pok.TotalPersentase` | src/pages/POK.tsx:60 | the used share of the total budget, as a whole percentage rounded to nearest with halves up |
| `Pok.RoundedPercent` | src/pages/POK.tsx:60 | `Math.round(t/a*100)` is the integer r with 2ar − a ≤ 200t < 2ar + a, i.e. nearest with halves up |
| `Pok.RoundedPercentUnique` | src/pages/POK.tsx:60 | no other integer meets those rounding bounds |
| `Pok.RoundedPercentBounds` | src/pages/POK.tsx:60 | 0 ≤ t ≤ a gives a percentage between 0 and 100 |
| `Pok.UsedWithinBudget` | src/pages/POK.tsx:58-59 | if no line overspends, the total used is at most the total budget |
| `Pok.SisaAnggaran` | src/pages/POK.tsx:115 | if no line overspends, the remaining budget (total budget − total used) is ≥ 0 |
| `Pok.SisaPersentase` | src/pages/POK.tsx:117 | the "% tersisa" figure is the unused share of the budget rounded to nearest with halves down, the complement of the half-up used figure |
| `Pok.PercentagesSumTo100` | src/pages/POK.tsx:102-117 | for any positive total budget, the used % and the remaining % add up to 100 |
| `Pok.SummaryPercentages` | src/pages/POK.tsx:102-117 | if the total budget is positive, no line overspends and no line's use is negative, the used % and remaining % each lie in 0..100 |
| `Pok.PageSummary` | src/pages/POK.tsx:7-60 | on the page's lines: budget 475,000,000, used 316,750,000, remaining 158,250,000, 67% used, 33% left |
| `Pok.StoredPercentagesExact` | src/pages/POK.tsx:14-46 | each line's stored percentage (72, 65, 75, 60) equals used × 100 / budget exactly |
| `Pok.RealisationBand` | src/pages/POK.tsx:160-164 | warning iff ≥ 80, success iff 50–79, primary iff < 50 (exclusive and exhaustive) |
| `Pok.RealisationBandMonotone` | src/pages/POK.tsx:160-164 | a higher percentage never lands in a lower band |
| `Pok.PageBands` | src/pages/POK.tsx:156-164 | all four listed lines are in the success band |
| `Pencairan.WithStatus` | src/pages/Pencairan.tsx:89-95 | the status filter keeps only records with that status |
| `Pencairan.WithStatusMembership` | src/pages/Pencairan.tsx:89-95 | a record is kept iff it is in the list and carries the status |
| `Pencairan.WithStatusInOrder` | src/pages/Pencairan.tsx:90 | kept records keep the list's order |
| `Pencairan.TotalDisetujui` | src/pages/Pencairan.tsx:89-91 | with non-negative amounts, the approved total is ≥ 0 and at least each approved record's amount |
| `Pencairan.TotalPending` | src/pages/Pencairan.tsx:93-95 | with non-negative amounts, the pending total is ≥ 0 and at least each pending record's amount |
| `Pencairan.CountWithStatus` | src/pages/Pencairan.tsx:123-154 | a status count is at most the number of records, and 0 iff no record carries the status |
| `Pencairan.StatusCountsPartition` | src/pages/Pencairan.tsx:123-154 | when every status is Disetujui, Pending or Ditolak, the three counts sum to the number of records |
| `Pencairan.ApprovedAndPendingWithinTotal` | src/pages/Pencairan.tsx:89-95 | with non-negative amounts, both totals are ≥ 0 and together ≤ the sum over all records |
| `Pencairan.PageSummary` | src/pages/Pencairan.tsx:7-95 | on the page's records: 67,500,000 approved (2 records), 27,000,000 pending (2), 1 rejected |
| `Pencairan.GetStatusIcon` | src/pages/Pencairan.tsx:63-74 | Disetujui gets CheckCircle, Pending gets Clock, Ditolak gets XCircle, and any other string gets no icon |
| `Pencairan.GetStatusVariant` | src/pages/Pencairan.tsx:76-87 | Disetujui gets default, Pending secondary, Ditolak destructive, and any other string outline |
| `Pencairan.BadgeMatchesIcon` | src/pages/Pencairan.tsx:63-87 | Disetujui→default/check, Pending→secondary/clock, Ditolak→destructive/x, anything else→outline with no icon |
| `Akun.RoleFromRows` | src/pages/Akun.tsx:72-82 | a single role row gives its role; no row or several rows give staf_biasa |
| `Akun.UsersWithRoles` | src/pages/Akun.tsx:70-85 | one user per profile, in profile order, with id, email and name copied and the role from its rows |
| `Akun.MissingRoleIsStafBiasa` | src/pages/Akun.tsx:82 | a profile with no role row is listed as staf_biasa |
| `Akun.FilteredUsers` | src/pages/Akun.tsx:128-131 | every kept user matches the lower-cased query |
| `Akun.FilteredUsersMembership` | src/pages/Akun.tsx:128-131 | a user is kept iff the lower-cased query occurs in the lower-cased email, or in the lower-cased full name when present |
| `Akun.FilteredUsersInOrder` | src/pages/Akun.tsx:128 | kept users are an order-preserving subsequence of the users |
| `Akun.EmptyQueryKeepsAll` | src/pages/Akun.tsx:128-131 | the empty query keeps every user |
| `Akun.SearchIgnoresCase` | src/pages/Akun.tsx:129-130 | queries that differ only in letter case (at each index equal, or one the capital of the other) give the same result |
| `Akun.SearchIgnoresShift` | src/pages/Akun.tsx:129-130 | a query typed in capitals, or in small letters, finds the same users as the query itself |
| `Akun.NamelessUserFoundByEmailOnly` | src/pages/Akun.tsx:130 | a user with a null full name is matched only through the email |
| `Akun.RoleLabel` | src/pages/Akun.tsx:24-28 | every role has a non-empty label, and only admin is labelled "Admin" |
| `Akun.RoleVariant` | src/pages/Akun.tsx:30-34 | only admin gets the default badge, and no role gets the destructive one |
| `Akun.RoleBadgesDistinct` | src/pages/Akun.tsx:24-34 | admin is "Admin" on default, staf_keuangan "Staf Keuangan" on secondary, staf_biasa "Staf Biasa" on outline; labels and variants tell the roles apart; never destructive |

## Left out

- Budget versions (`versi`, `tanggal_versi`) and realised disbursements (`riil_pencairan`, `tgl_spp`, `tgl_sp2d`) are left out. They appear only as columns in the ERD diagram (src/pages/ERD.tsx:165-166, 239-243); no component computes with them.
- All database reads and writes are left out: the forms, the reference-table managers and the permission switches. So are the admin check and redirect on the account page, `fetchUsers`'s queries and `handleChangeRole`'s delete-then-insert. These are remote I/O. `Akun.UsersWithRoles` models only the mapping from fetched rows to users; the role rows arrive as a function parameter.
- Clock and calendar arithmetic are left out. The month bounds (`startOfMonth`, `endOfMonth`) and "today" are inputs, given as day numbers. Month navigation (previous / today / next) is UI state.
- `MonthlyCalendar.DayOf`: instants are read on one fixed time scale. Time zones and days of 23 or 25 hours around daylight-saving changes are not modelled.
- `parseISO` itself is not modelled. An activity carries timestamps that are already parsed, or `Invalid`.
- `MonthlyCalendar.CodeSum`: a character's code is its Unicode scalar value. `charCodeAt` uses UTF-16 code units, which differ only for characters outside the Basic Multilingual Plane.
- `MonthlyCalendar.ActivityColor`: the colour index comes from `MonthlyCalendar.CodeSum`, so it carries the same difference.
- AppSidebar.GetInitials: `n[0]` and `slice(0, 2)` count UTF-16 code units, while the model counts characters. For a name whose word starts outside the Basic Multilingual Plane (an emoji, say), the code keeps a lone high surrogate, but the model keeps the whole character. The same holds for `AppSidebar.SingleWordInitial`.
- `Text.Lower`: only the ASCII letters A–Z are lower-cased. JavaScript's full Unicode case mapping, including mappings that change the length, is not modelled.
- `Text.Upper`: only the ASCII letters a–z are upper-cased, for the same reason.
- `Pok.RoundedPercent`: computed in exact integers. The double-precision division and multiplication before `Math.round` is not modelled.
- `Pok.TotalPersentase` requires a positive total budget. The page divides with no guard, and a zero total would show `NaN` or `Infinity`; the page's own lines always have a positive total.
- Sums are exact, unbounded integers. Loss of precision in JavaScript numbers above 2^53 is not modelled.
- Currency formatting (`Intl.NumberFormat`), rendering, routing, PDF generation on the ERD page and the year filter context are left out. They are presentation only.
- Disbursement statuses are the page's strings "Disetujui", "Pending" and "Ditolak". The form's own enum (pending/approved/rejected) belongs to the database I/O, which is left out.
