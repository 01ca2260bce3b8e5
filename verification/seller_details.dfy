/** The detailed seller view and its commission metrics
    (`VendedorDetalhadoResponseDTO.fromEntity`). */
module SellerDetails {
  import opened Results
  import opened Decimals
  import opened Model
  import opened Dashboard

  /** The detailed view of a seller; name and email are null without a login. */
  datatype Details = Details(
    id: Id,
    name: Option<string>,
    email: Option<string>,
    percentage: Option<int>,
    companyId: Option<Id>,
    count: int,
    totalSales: Cents,
    averageCommission: Cents,
    history: seq<HistoryRow>)

  /** Every history row carries a commission value. */
  predicate AllCommissionsPresent(rows: seq<HistoryRow>) {
    forall i :: 0 <= i < |rows| ==> rows[i].commission.Some?
  }

  /** The sum of the rows' commissions, defined when every one is present. */
  function SumCommissions(rows: seq<HistoryRow>): Cents
    requires AllCommissionsPresent(rows)
  {
    if rows == [] then 0 else SumCommissions(rows[..|rows| - 1]) + rows[|rows| - 1].commission.value
  }

  /** `stream().map(getValorComissao).reduce(ZERO, BigDecimal::add)` from the
      running total `acc`: a null commission makes `add` dereference null. */
  function ReduceCommissions(acc: Cents, rows: seq<HistoryRow>): (r: Result<Cents>)
    ensures r.Ok? <==> AllCommissionsPresent(rows)
    ensures r.Err? ==> r.error == NullPointer
    decreases |rows|
  {
    if rows == [] then Ok(acc)
    else match rows[0].commission
      case None => Err(NullPointer)
      case Some(c) =>
        var r := ReduceCommissions(acc + c, rows[1..]);
        assert AllCommissionsPresent(rows) <==> AllCommissionsPresent(rows[1..]) by {
          assert forall i :: 0 <= i < |rows[1..]| ==> rows[1..][i] == rows[i + 1];
        }
        r
  }

  /** The left fold from zero computes the sum of the commissions. */
  lemma {:induction false} ReduceIsSum(acc: Cents, rows: seq<HistoryRow>)
    requires AllCommissionsPresent(rows)
    ensures ReduceCommissions(acc, rows) == Ok(acc + SumCommissions(rows))
    decreases |rows|
  {
    if rows != [] {
      var c := rows[0].commission.value;
      assert AllCommissionsPresent(rows[1..]) by {
        assert forall i :: 0 <= i < |rows[1..]| ==> rows[1..][i] == rows[i + 1];
      }
      ReduceIsSum(acc + c, rows[1..]);
      SumOfFirstAndRest(rows);
    }
  }

  /** Splitting off the first row instead of the last gives the same sum. */
  lemma {:induction false} SumOfFirstAndRest(rows: seq<HistoryRow>)
    requires rows != [] && AllCommissionsPresent(rows)
    ensures AllCommissionsPresent(rows[1..])
    ensures SumCommissions(rows) == rows[0].commission.value + SumCommissions(rows[1..])
    decreases |rows|
  {
    assert forall i :: 0 <= i < |rows[1..]| ==> rows[1..][i] == rows[i + 1];
    if |rows| > 1 {
      var init := rows[..|rows| - 1];
      assert forall i :: 0 <= i < |init| ==> init[i] == rows[i];
      SumOfFirstAndRest(init);
      assert init[1..] == rows[1..][..|rows[1..]| - 1];
    }
  }

  /** `fromEntity`: a null seller yields null; otherwise the total commission is
      the sum of the history rows' commissions, the average commission is that
      total over the sale count rounded HALF_UP to two decimals when the count
      is positive and zero otherwise, a null count or total amount becomes
      zero, and the history list is passed through unchanged. Name and email
      are those of the seller's own login (`vendedor.getUsuario()`), read from
      the store, and null when that login is missing. */
  function FromEntity(
    s: Store, seller: Option<Seller>, count: Option<int>, totalSales: Option<Cents>,
    history: seq<HistoryRow>)
    : (r: Result<Option<Details>>)
    ensures seller.None? ==> r == Ok(None)
    ensures seller.Some? ==> (r.Ok? <==> AllCommissionsPresent(history))
    ensures r.Err? ==> r.error == NullPointer
    ensures seller.Some? && r.Ok? ==>
      && r.value.Some?
      && var d := r.value.value;
      && d.id == seller.value.id
      && d.percentage == seller.value.percentage
      && d.companyId == Some(seller.value.company)
      && d.count == count.GetOr(0)
      && d.totalSales == totalSales.GetOr(0)
      && d.averageCommission == Average(SumCommissions(history), count.GetOr(0))
      && d.history == history
      && (seller.value.user !in s.users ==> d.name.None? && d.email.None?)
      && (seller.value.user in s.users ==>
            && d.name == Some(s.users[seller.value.user].name)
            && d.email == Some(s.users[seller.value.user].email))
  {
    if seller.None? then Ok(None)
    else
      var total :- ReduceCommissions(0, history);
      ReduceIsSum(0, history);
      var average := if count.Some? && count.value > 0 then DivHalfUp(total, count.value) else 0;
      var v := seller.value;
      var login := if v.user in s.users then Some(s.users[v.user]) else None;
      Ok(Some(Details(
        v.id,
        if login.Some? then Some(login.value.name) else None,
        if login.Some? then Some(login.value.email) else None,
        v.percentage,
        Some(v.company),
        count.GetOr(0),
        totalSales.GetOr(0),
        average,
        history)))
  }

  /** On a valid store every seller has its login, so the detailed view of a
      stored seller always names it with its own login's name and email. */
  lemma StoredSellerIsNamed(
    s: Store, id: Id, count: Option<int>, totalSales: Option<Cents>, history: seq<HistoryRow>)
    requires Valid(s) && id in s.sellers
    requires AllCommissionsPresent(history)
    ensures var r := FromEntity(s, Some(s.sellers[id]), count, totalSales, history);
            var login := s.users[s.sellers[id].user];
            && r.Ok? && r.value.Some?
            && r.value.value.name == Some(login.name)
            && r.value.value.email == Some(login.email)
            && r.value.value.companyId == login.company
  {
  }
}
