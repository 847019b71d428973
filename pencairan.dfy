/**
 * The disbursement page: the approved and pending totals, the count per
 * status, and the badge and icon each status is drawn with. The page's
 * statuses are the strings "Disetujui", "Pending" and "Ditolak".
 */
module Pencairan {
  import opened Wrappers
  import opened Seqs
  import opened Roles

  datatype Disbursement = Disbursement(
    id: int,
    nilaiPencairan: int,
    metodePencairan: string,
    statusPencairan: string,
    tglPencairan: string,
    pokNama: string,
    kodeAkun: string)

  const Disetujui := "Disetujui"
  const Pending := "Pending"
  const Ditolak := "Ditolak"

  /** The disbursements the page lists. */
  const Disbursements: seq<Disbursement> := [
    Disbursement(1, 45_000_000, "Transfer Bank", "Disetujui", "2025-09-25", "Belanja Perjalanan Dinas", "521211"),
    Disbursement(2, 15_000_000, "Transfer Bank", "Pending", "2025-09-28", "Belanja Bahan", "521111"),
    Disbursement(3, 22_500_000, "Tunai", "Disetujui", "2025-09-20", "Honorarium Narasumber", "521213"),
    Disbursement(4, 80_000_000, "Transfer Bank", "Ditolak", "2025-09-18", "Belanja Modal Peralatan", "532111"),
    Disbursement(5, 12_000_000, "Transfer Bank", "Pending", "2025-09-30", "Belanja Perjalanan Dinas", "521211")
  ]

  function Nilai(d: Disbursement): int { d.nilaiPencairan }

  function HasStatus(status: string): Disbursement -> bool {
    (d: Disbursement) => d.statusPencairan == status
  }

  /** `disbursements.filter(d => d.status_pencairan === status)`. */
  function WithStatus(ds: seq<Disbursement>, status: string): (r: seq<Disbursement>)
    ensures |r| <= |ds|
    ensures forall i :: 0 <= i < |r| ==> r[i].statusPencairan == status
  {
    Filter(ds, HasStatus(status))
  }

  /** The sum of `nilai_pencairan` over the records with `status`. */
  function TotalWithStatus(ds: seq<Disbursement>, status: string): int {
    SumOf(WithStatus(ds, status), Nilai)
  }

  /** Every amount on the page is non-negative. */
  predicate NonNegativeAmounts(ds: seq<Disbursement>) {
    forall i :: 0 <= i < |ds| ==> ds[i].nilaiPencairan >= 0
  }

  /**
   * With non-negative amounts, the total under a status is non-negative and
   * covers each record with that status.
   */
  lemma TotalWithStatusBounds(ds: seq<Disbursement>, status: string)
    ensures NonNegativeAmounts(ds) ==> 0 <= SumOf(WithStatus(ds, status), Nilai)
    ensures NonNegativeAmounts(ds) ==> forall i :: 0 <= i < |ds| && ds[i].statusPencairan == status ==>
      ds[i].nilaiPencairan <= SumOf(WithStatus(ds, status), Nilai)
  {
    if !NonNegativeAmounts(ds) {
      return;
    }
    var w := WithStatus(ds, status);
    forall j | 0 <= j < |w| ensures Nilai(w[j]) >= 0 {
      FilterMembership(ds, HasStatus(status), w[j]);
    }
    SumOfNonNegative(w, Nilai);
    forall i | 0 <= i < |ds| && ds[i].statusPencairan == status
      ensures ds[i].nilaiPencairan <= SumOf(w, Nilai)
    {
      FilterMembership(ds, HasStatus(status), ds[i]);
      var j :| 0 <= j < |w| && w[j] == ds[i];
    }
  }

  /** `totalDisetujui`: with non-negative amounts, at least each approved record's amount. */
  function TotalDisetujui(ds: seq<Disbursement>): (t: int)
    ensures NonNegativeAmounts(ds) ==> 0 <= t && forall i :: 0 <= i < |ds| && ds[i].statusPencairan == Disetujui ==>
      ds[i].nilaiPencairan <= t
  {
    TotalWithStatusBounds(ds, Disetujui);
    TotalWithStatus(ds, Disetujui)
  }

  /** `totalPending`: with non-negative amounts, at least each pending record's amount. */
  function TotalPending(ds: seq<Disbursement>): (t: int)
    ensures NonNegativeAmounts(ds) ==> 0 <= t && forall i :: 0 <= i < |ds| && ds[i].statusPencairan == Pending ==>
      ds[i].nilaiPencairan <= t
  {
    TotalWithStatusBounds(ds, Pending);
    TotalWithStatus(ds, Pending)
  }

  /** No record is counted under a status exactly when no record carries it. */
  lemma WithStatusEmpty(ds: seq<Disbursement>, status: string)
    ensures WithStatus(ds, status) == [] <==> forall i :: 0 <= i < |ds| ==> ds[i].statusPencairan != status
  {
    if WithStatus(ds, status) == [] {
      forall i | 0 <= i < |ds| ensures ds[i].statusPencairan != status {
        FilterMembership(ds, HasStatus(status), ds[i]);
      }
    }
    if forall i :: 0 <= i < |ds| ==> ds[i].statusPencairan != status {
      FilterKeepsNone(ds, HasStatus(status));
    }
  }

  /** The "n pencairan" / "n pending" / rejected counts. */
  function CountWithStatus(ds: seq<Disbursement>, status: string): (n: nat)
    ensures n <= |ds|
    ensures n == 0 <==> forall i :: 0 <= i < |ds| ==> ds[i].statusPencairan != status
  {
    WithStatusEmpty(ds, status);
    |WithStatus(ds, status)|
  }

  /** A record is counted under a status exactly when it carries that status. */
  lemma WithStatusMembership(ds: seq<Disbursement>, status: string, d: Disbursement)
    ensures d in WithStatus(ds, status) <==> d in ds && d.statusPencairan == status
  {
    FilterMembership(ds, HasStatus(status), d);
  }

  /** The filtered records keep the page's order. */
  lemma WithStatusInOrder(ds: seq<Disbursement>, status: string)
    ensures IsSubsequence(WithStatus(ds, status), ds)
  {
    FilterIsSubsequence(ds, HasStatus(status));
  }

  /** Every record carries one of the page's three statuses. */
  predicate KnownStatuses(ds: seq<Disbursement>) {
    forall i :: 0 <= i < |ds| ==> ds[i].statusPencairan in {Disetujui, Pending, Ditolak}
  }

  /** When every status is one of the three, the three counts add up to the number of records. */
  lemma StatusCountsPartition(ds: seq<Disbursement>)
    requires KnownStatuses(ds)
    ensures CountWithStatus(ds, Disetujui) + CountWithStatus(ds, Pending) + CountWithStatus(ds, Ditolak) == |ds|
  {
    FilterCountsPartition(ds, HasStatus(Disetujui), HasStatus(Pending), HasStatus(Ditolak));
  }

  /** With non-negative amounts, approved plus pending never exceeds the sum over all records. */
  lemma ApprovedAndPendingWithinTotal(ds: seq<Disbursement>)
    requires NonNegativeAmounts(ds)
    ensures 0 <= TotalDisetujui(ds) && 0 <= TotalPending(ds)
    ensures TotalDisetujui(ds) + TotalPending(ds) <= SumOf(ds, Nilai)
  {
    SumOfDisjointFilters(ds, Nilai, HasStatus(Disetujui), HasStatus(Pending));
  }

  /** On the page's own records: 67,500,000 approved in 2 records, 27,000,000 pending in 2, 1 rejected. */
  lemma PageSummary()
    ensures TotalDisetujui(Disbursements) == 67_500_000
    ensures TotalPending(Disbursements) == 27_000_000
    ensures CountWithStatus(Disbursements, Disetujui) == 2
    ensures CountWithStatus(Disbursements, Pending) == 2
    ensures CountWithStatus(Disbursements, Ditolak) == 1
  {
  }

  /** The icons of the status badge. */
  datatype StatusIcon = CheckCircle | Clock | XCircle

  /** `getStatusIcon`: an icon for the three known statuses, none for any other string. */
  function GetStatusIcon(status: string): (icon: Option<StatusIcon>)
    ensures icon.Some? <==> status in {Disetujui, Pending, Ditolak}
    ensures status == Disetujui ==> icon == Some(CheckCircle)
    ensures status == Pending ==> icon == Some(Clock)
    ensures status == Ditolak ==> icon == Some(XCircle)
  {
    match status
    case "Disetujui" => Some(CheckCircle)
    case "Pending" => Some(Clock)
    case "Ditolak" => Some(XCircle)
    case _ => None
  }

  /** `getStatusVariant`: default, secondary or destructive for the known statuses, outline otherwise. */
  function GetStatusVariant(status: string): (v: BadgeVariant)
    ensures v == Outline <==> status !in {Disetujui, Pending, Ditolak}
    ensures status == Disetujui ==> v == Default
    ensures status == Pending ==> v == Secondary
    ensures status == Ditolak ==> v == Destructive
  {
    match status
    case "Disetujui" => Default
    case "Pending" => Secondary
    case "Ditolak" => Destructive
    case _ => Outline
  }

  /**
   * Badge and icon agree: each known status has its own variant and its own
   * icon, and an unknown status gets the outline badge with no icon.
   */
  lemma BadgeMatchesIcon(status: string)
    ensures GetStatusIcon(status).None? <==> GetStatusVariant(status) == Outline
    ensures GetStatusIcon(status) == Some(CheckCircle) <==> GetStatusVariant(status) == Default
    ensures GetStatusIcon(status) == Some(Clock) <==> GetStatusVariant(status) == Secondary
    ensures GetStatusIcon(status) == Some(XCircle) <==> GetStatusVariant(status) == Destructive
    ensures status == Disetujui ==> GetStatusIcon(status) == Some(CheckCircle) && GetStatusVariant(status) == Default
    ensures status == Pending ==> GetStatusIcon(status) == Some(Clock) && GetStatusVariant(status) == Secondary
    ensures status == Ditolak ==> GetStatusIcon(status) == Some(XCircle) && GetStatusVariant(status) == Destructive
    ensures status !in {Disetujui, Pending, Ditolak} ==> GetStatusIcon(status).None? && GetStatusVariant(status) == Outline
  {
  }
}
