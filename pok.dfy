/**
 * The budget summary of the POK page: the totals over the budget lines, the
 * rounded realisation percentage, what remains, and the colour band of each
 * line's realisation bar. Amounts are whole rupiah.
 */
module Pok {
  import opened Seqs

  datatype BudgetItem = BudgetItem(
    id: int,
    namaAkun: string,
    kodeAkun: string,
    jenisAkun: string,
    uraian: string,
    nilaiAnggaran: int,
    terpakai: int,
    persentase: int)

  /** The budget lines the page lists. */
  const BudgetItems: seq<BudgetItem> := [
    BudgetItem(1, "Belanja Perjalanan Dinas", "521211", "Belanja Operasional",
      "Biaya perjalanan dinas dalam dan luar kota", 150_000_000, 108_000_000, 72),
    BudgetItem(2, "Belanja Bahan", "521111", "Belanja Operasional",
      "Pembelian bahan habis pakai dan ATK", 50_000_000, 32_500_000, 65),
    BudgetItem(3, "Honorarium Narasumber", "521213", "Belanja Pegawai",
      "Honor narasumber dan pembicara", 75_000_000, 56_250_000, 75),
    BudgetItem(4, "Belanja Modal Peralatan", "532111", "Belanja Modal",
      "Pengadaan peralatan kantor", 200_000_000, 120_000_000, 60)
  ]

  function Anggaran(item: BudgetItem): int { item.nilaiAnggaran }

  function Terpakai(item: BudgetItem): int { item.terpakai }

  /** `totalAnggaran`: the budget over all lines; with no negative budget, at least each line's budget. */
  function TotalAnggaran(items: seq<BudgetItem>): (t: int)
    ensures (forall i :: 0 <= i < |items| ==> items[i].nilaiAnggaran >= 0) ==>
      0 <= t && forall i :: 0 <= i < |items| ==> items[i].nilaiAnggaran <= t
  {
    SumOfNonNegative(items, Anggaran);
    SumOf(items, Anggaran)
  }

  /** `totalTerpakai`: the amount used over all lines; with nothing negative, at least each line's use. */
  function TotalTerpakai(items: seq<BudgetItem>): (t: int)
    ensures (forall i :: 0 <= i < |items| ==> items[i].terpakai >= 0) ==>
      0 <= t && forall i :: 0 <= i < |items| ==> items[i].terpakai <= t
  {
    SumOfNonNegative(items, Terpakai);
    SumOf(items, Terpakai)
  }

  /** Every line has used no more than its budget. */
  predicate WithinBudget(items: seq<BudgetItem>) {
    forall i :: 0 <= i < |items| ==> items[i].terpakai <= items[i].nilaiAnggaran
  }

  /**
   * `Math.round(used / budget * 100)`: the whole percentage nearest to the
   * exact ratio, halves rounded up.
   */
  function RoundedPercent(used: int, budget: int): (r: int)
    requires budget > 0
    ensures 2 * budget * r - budget <= 200 * used < 2 * budget * r + budget
  {
    var q := (200 * used + budget) / (2 * budget);
    DivBounds(200 * used + budget, 2 * budget);
    q
  }

  lemma DivBounds(x: int, d: int)
    requires d > 0
    ensures d * (x / d) <= x < d * (x / d) + d
  {
  }

  /** No other whole number satisfies the rounding bounds. */
  lemma RoundedPercentUnique(used: int, budget: int, r: int)
    requires budget > 0
    requires 2 * budget * r - budget <= 200 * used < 2 * budget * r + budget
    ensures r == RoundedPercent(used, budget)
  {
    var q := RoundedPercent(used, budget);
    if r < q {
      MulMonotone(2 * budget, r + 1, q);
    } else if r > q {
      MulMonotone(2 * budget, q + 1, r);
    }
  }

  lemma MulMonotone(k: int, a: int, b: int)
    requires k >= 0 && a <= b
    ensures k * a <= k * b
  {
  }

  /** A used amount between nothing and the whole budget rounds to 0..100 percent. */
  lemma {:induction false} RoundedPercentBounds(used: int, budget: int)
    requires budget > 0 && 0 <= used <= budget
    ensures 0 <= RoundedPercent(used, budget) <= 100
  {
    var r := RoundedPercent(used, budget);
    if r < 0 {
      MulMonotone(2 * budget, r, -1);
    } else if r > 100 {
      MulMonotone(2 * budget, 101, r);
    }
  }

  /**
   * `totalPersentase`: the used share of the budget as a whole percentage,
   * rounded to nearest with halves up. The page divides without guarding a
   * zero budget.
   */
  function TotalPersentase(items: seq<BudgetItem>): (p: int)
    requires TotalAnggaran(items) > 0
    ensures var used, budget := TotalTerpakai(items), TotalAnggaran(items);
      2 * budget * p - budget <= 200 * used < 2 * budget * p + budget
  {
    RoundedPercent(TotalTerpakai(items), TotalAnggaran(items))
  }

  /** When no line overspends, neither does the whole budget. */
  lemma UsedWithinBudget(items: seq<BudgetItem>)
    ensures WithinBudget(items) ==> TotalTerpakai(items) <= TotalAnggaran(items)
  {
    if WithinBudget(items) {
      SumOfMonotone(items, Terpakai, Anggaran);
    }
  }

  /** "Sisa Anggaran": the budget not yet used, never negative when no line overspends. */
  function SisaAnggaran(items: seq<BudgetItem>): (sisa: int)
    ensures WithinBudget(items) ==> sisa >= 0
  {
    UsedWithinBudget(items);
    TotalAnggaran(items) - TotalTerpakai(items)
  }

  /**
   * The "% tersisa" figure: the unused share of the budget as a whole
   * percentage, rounded to nearest with halves down (the complement of a
   * half-up rounding).
   */
  function SisaPersentase(items: seq<BudgetItem>): (p: int)
    requires TotalAnggaran(items) > 0
    ensures var used, budget := TotalTerpakai(items), TotalAnggaran(items);
      2 * budget * p - budget < 200 * (budget - used) <= 2 * budget * p + budget
  {
    var used, budget := TotalTerpakai(items), TotalAnggaran(items);
    var r := TotalPersentase(items);
    assert 2 * budget * (100 - r) == 200 * budget - 2 * budget * r;
    100 - r
  }

  /** The used and the remaining percentages always add up to 100. */
  lemma PercentagesSumTo100(items: seq<BudgetItem>)
    requires TotalAnggaran(items) > 0
    ensures TotalPersentase(items) + SisaPersentase(items) == 100
  {
  }

  /**
   * When no line overspends and nothing is negative, the used and the
   * remaining percentages both lie in 0..100 (and add up to 100).
   */
  lemma SummaryPercentages(items: seq<BudgetItem>)
    requires WithinBudget(items) && TotalAnggaran(items) > 0
    requires forall i :: 0 <= i < |items| ==> items[i].terpakai >= 0
    ensures 0 <= TotalPersentase(items) <= 100
    ensures 0 <= SisaPersentase(items) <= 100
    ensures TotalPersentase(items) + SisaPersentase(items) == 100
  {
    UsedWithinBudget(items);
    RoundedPercentBounds(TotalTerpakai(items), TotalAnggaran(items));
  }

  /** On the page's own lines: 475,000,000 budgeted, 316,750,000 used, 67% shown, 33% left. */
  lemma PageSummary()
    ensures TotalAnggaran(BudgetItems) == 475_000_000
    ensures TotalTerpakai(BudgetItems) == 316_750_000
    ensures SisaAnggaran(BudgetItems) == 158_250_000
    ensures TotalPersentase(BudgetItems) == 67
    ensures SisaPersentase(BudgetItems) == 33
  {
    var t, a := TotalTerpakai(BudgetItems), TotalAnggaran(BudgetItems);
    RoundedPercentUnique(t, a, 67);
  }

  /** Each listed line's stored percentage is its exact realisation, with no rounding. */
  lemma StoredPercentagesExact()
    ensures forall i :: 0 <= i < |BudgetItems| ==>
      BudgetItems[i].persentase * BudgetItems[i].nilaiAnggaran == BudgetItems[i].terpakai * 100
  {
  }

  /** The colour of a realisation bar. */
  datatype Band = Warning | Success | Primary

  /** `bg-warning` from 80%, `bg-success` from 50%, `bg-primary` below. */
  function RealisationBand(persentase: int): (b: Band)
    ensures b == Warning <==> persentase >= 80
    ensures b == Success <==> 50 <= persentase < 80
    ensures b == Primary <==> persentase < 50
  {
    if persentase >= 80 then Warning
    else if persentase >= 50 then Success
    else Primary
  }

  function BandRank(b: Band): nat {
    match b
    case Primary => 0
    case Success => 1
    case Warning => 2
  }

  /** A higher realisation never falls into a lower band. */
  lemma RealisationBandMonotone(p: int, q: int)
    requires p <= q
    ensures BandRank(RealisationBand(p)) <= BandRank(RealisationBand(q))
  {
  }

  /** All four listed lines sit in the success band. */
  lemma PageBands()
    ensures forall i :: 0 <= i < |BudgetItems| ==> RealisationBand(BudgetItems[i].persentase) == Success
  {
  }
}
