/** The Java-side arithmetic of the sales dashboard (`VendaService.gerarDashboard`).

    The five repository queries are uninterpreted: they are supplied as
    functions of the company id, so the model states only that the dashboard
    asks them about the caller's company and what it computes from the answers.
 */
module Dashboard {
  import opened Results
  import opened Decimals
  import opened Model
  import opened Tenancy

  /** One cell of a native query row, as the JDBC driver hands it over. */
  datatype Cell =
    | NullCell
    | DecimalCell(cents: Cents)   // a scale-2 BigDecimal
    | IntegerCell(value: int)     // a Long or BigInteger
    | TextCell(text: string)      // anything that is not a Number

  /** `HistoricoRendimentoDTO`: one month ("YYYY-MM") of sales and commission. */
  datatype HistoryRow = HistoryRow(period: string, sold: Option<Cents>, commission: Option<Cents>)

  /** `VendedorRankingDTO`. */
  datatype RankingRow = RankingRow(sellerName: string, sellerId: Id, total: Cents, count: int)

  /** `VendaDetalheDTO`. */
  datatype SaleDetail = SaleDetail(saleId: Id, sellerName: string, sellerId: Id, amount: Cents, date: Timestamp)

  /** The current month's figures. A null total in the query's answer stays null. */
  datatype MonthTotals = MonthTotals(
    totalSales: Option<Cents>,
    totalCommission: Option<Cents>,
    count: int,
    averageSale: Cents,
    averageCommission: Cents)

  /** The repository queries, each asked about one company. */
  datatype Queries = Queries(
    monthTotals: Id -> Option<seq<seq<Cell>>>,
    ranking: Id -> seq<RankingRow>,
    largest: Id -> seq<SaleDetail>,
    latest: Id -> seq<SaleDetail>,
    history: Id -> seq<HistoryRow>)

  /** `DashboardResponseDTO`. */
  datatype DashboardView = DashboardView(
    totals: MonthTotals,
    ranking: seq<RankingRow>,
    largest: seq<SaleDetail>,
    latest: seq<SaleDetail>,
    history: seq<HistoryRow>)

  /** `(BigDecimal) cell`: null passes, a decimal is read, anything else fails the cast. */
  function AsDecimal(c: Cell): (r: Result<Option<Cents>>)
    ensures r.Ok? <==> c.NullCell? || c.DecimalCell?
    ensures c.NullCell? ==> r == Ok(None)
    ensures c.DecimalCell? ==> r == Ok(Some(c.cents))
    ensures r.Err? ==> r.error == ClassCast
  {
    match c
    case NullCell => Ok(None)
    case DecimalCell(v) => Ok(Some(v))
    case _ => Err(ClassCast)
  }

  /** `Number.longValue()` of a count cell, and 0 for a null or non-number cell.
      A decimal loses its fraction, truncating toward zero. */
  function AsCount(c: Cell): (n: int)
    ensures c.IntegerCell? ==> n == c.value
    ensures c.DecimalCell? && c.cents >= 0 ==> 100 * n <= c.cents < 100 * n + 100
    ensures c.DecimalCell? && c.cents < 0 ==> 100 * n - 100 < c.cents <= 100 * n
    ensures c.NullCell? || c.TextCell? ==> n == 0
  {
    match c
    case IntegerCell(v) => v
    case DecimalCell(v) => if v >= 0 then v / 100 else -((-v) / 100)
    case _ => 0
  }

  /** The first row has the expected three cells. */
  predicate WellFormed(rows: Option<seq<seq<Cell>>>) {
    rows.Some? && |rows.value| > 0 && |rows.value[0]| == 3
  }

  /** The average of a possibly-null total: zero for a non-positive count, a
      null dereference when the count is positive but the total null. */
  function AverageOf(total: Option<Cents>, count: int): (r: Result<Cents>)
    ensures count <= 0 ==> r == Ok(0)
    ensures count > 0 && total.None? ==> r == Err(NullPointer)
    ensures count > 0 && total.Some? ==> r == Ok(Average(total.value, count))
  {
    if count > 0 then
      if total.None? then Err(NullPointer) else Ok(DivHalfUp(total.value, count))
    else Ok(0)
  }

  /** Steps 1 to 2.1 of `gerarDashboard`: totals and count read from the first
      row, zero when the answer is null, empty or not three cells wide; averages
      `total / count` rounded HALF_UP to two decimals when the count is
      positive, and zero otherwise, so nothing is ever divided by zero. */
  function ComputeTotals(rows: Option<seq<seq<Cell>>>): (r: Result<MonthTotals>)
    ensures !WellFormed(rows) ==> r == Ok(MonthTotals(Some(0), Some(0), 0, 0, 0))
    ensures WellFormed(rows) ==>
      var row := rows.value[0];
      var n := AsCount(row[2]);
      && (r.Ok? <==>
            && (row[0].NullCell? || row[0].DecimalCell?)
            && (row[1].NullCell? || row[1].DecimalCell?)
            && (n > 0 ==> row[0].DecimalCell? && row[1].DecimalCell?))
      && (r.Err? && !(row[0].NullCell? || row[0].DecimalCell?) ==> r.error == ClassCast)
      && (r.Err? && (row[0].NullCell? || row[0].DecimalCell?) && !(row[1].NullCell? || row[1].DecimalCell?) ==>
            r.error == ClassCast)
      && (r.Err? && (row[0].NullCell? || row[0].DecimalCell?) && (row[1].NullCell? || row[1].DecimalCell?) ==>
            r.error == NullPointer)
      && (r.Ok? ==>
            && r.value.totalSales == AsDecimal(row[0]).value
            && r.value.totalCommission == AsDecimal(row[1]).value
            && r.value.count == n)
    ensures r.Ok? && r.value.count <= 0 ==> r.value.averageSale == 0 && r.value.averageCommission == 0
    ensures r.Ok? && r.value.count > 0 ==>
      && r.value.totalSales.Some? && r.value.totalCommission.Some?
      && r.value.averageSale == Average(r.value.totalSales.value, r.value.count)
      && r.value.averageCommission == Average(r.value.totalCommission.value, r.value.count)
  {
    var (total, commission, count) :=
      if WellFormed(rows) then
        var row := rows.value[0];
        (AsDecimal(row[0]), AsDecimal(row[1]), AsCount(row[2]))
      else (Ok(Some(0)), Ok(Some(0)), 0);
    var total :- total;
    var commission :- commission;
    var averageSale :- AverageOf(total, count);
    var averageCommission :- AverageOf(commission, count);
    Ok(MonthTotals(total, commission, count, averageSale, averageCommission))
  }

  /** `gerarDashboard`: every query is asked about the caller's company, the
      totals are post-processed, and the lists are passed through unchanged. */
  function GenerateDashboard(auth: Option<Authentication>, q: Queries): (r: Result<DashboardView>)
    ensures CurrentCompanyId(auth).Err? ==> r == Err(CurrentCompanyId(auth).error)
    ensures CurrentCompanyId(auth).Ok? ==>
      var company := CurrentCompanyId(auth).value;
      && (r.Ok? <==> ComputeTotals(q.monthTotals(company)).Ok?)
      && (r.Err? ==> r.error == ComputeTotals(q.monthTotals(company)).error)
      && (r.Ok? ==>
            && r.value.totals == ComputeTotals(q.monthTotals(company)).value
            && r.value.ranking == q.ranking(company)
            && r.value.largest == q.largest(company)
            && r.value.latest == q.latest(company)
            && r.value.history == q.history(company))
  {
    var company :- CurrentCompanyId(auth);
    var totals :- ComputeTotals(q.monthTotals(company));
    Ok(DashboardView(totals, q.ranking(company), q.largest(company), q.latest(company), q.history(company)))
  }

  /** If the month query answers with two null SUMs and a COUNT of 0, the
      totals stay null and both averages are zero, with no division. */
  lemma EmptyMonthHasZeroAverages(rows: Option<seq<seq<Cell>>>)
    requires rows.Some? && |rows.value| > 0
    requires rows.value[0] == [NullCell, NullCell, IntegerCell(0)]
    ensures ComputeTotals(rows) == Ok(MonthTotals(None, None, 0, 0, 0))
  {
  }
}
