/** The report store: creating a report owned by the caller, listing the
    caller's reports, setting the approval flag, and the price estimate,
    which is the SQL average of the prices of every comparable report. */
module ReportStore {
  import opened Common
  import opened JsParse
  import AccountStore

  /** One row of the report table, with its `owner` relation. Every number
      is a JavaScript number, modelled exactly as a real. */
  datatype Report = Report(
    id: nat, approved: bool, price: real, make: string, model: string,
    year: real, lng: real, lat: real, mileage: real, owner: AccountStore.Account)

  /** A report creation body after validation; it has no `approved` field. */
  datatype NewReport = NewReport(
    make: string, model: string, year: real, lng: real, lat: real, mileage: real, price: real)

  /** An estimate query after validation; `year` and `mileage` went through
      `parseInt`. */
  datatype EstimateQuery = EstimateQuery(
    make: string, model: string, year: int, lng: real, lat: real, mileage: int)

  /** The single row the estimate query answers: `{ price }`, where `None`
      is SQL NULL. */
  datatype Estimate = Estimate(price: Option<real>)

  predicate IdsAscending(rows: seq<Report>) {
    forall i, j :: 0 <= i < j < |rows| ==> rows[i].id < rows[j].id
  }

  /** The row a lookup by id returns; a NaN id matches no row. */
  function IndexOfId(rows: seq<Report>, id: Option<int>): (r: Option<nat>)
    ensures r.Some? ==> id.Some? && r.value < |rows| && rows[r.value].id == id.value
    ensures r.None? ==> id.None? || forall j :: 0 <= j < |rows| ==> rows[j].id != id.value
  {
    if rows == [] || id.None? then None
    else if rows[0].id == id.value then Some(0)
    else match IndexOfId(rows[1..], id)
      case None => None
      case Some(i) => Some(i + 1)
  }

  /** The reports whose owner has the given id, in table order. */
  function OwnedBy(rows: seq<Report>, ownerId: nat): (r: seq<Report>)
    ensures |r| <= |rows|
    ensures forall x :: x in r <==> x in rows && x.owner.id == ownerId
  {
    if rows == [] then []
    else if rows[0].owner.id == ownerId then [rows[0]] + OwnedBy(rows[1..], ownerId)
    else OwnedBy(rows[1..], ownerId)
  }

  /** The query's WHERE clause: approved, the same make and model, and
      longitude, latitude and year within the inclusive windows. */
  predicate IsCandidate(r: Report, q: EstimateQuery) {
    && r.make == q.make
    && r.model == q.model
    && -5.0 <= r.lng - q.lng <= 5.0
    && -5.0 <= r.lat - q.lat <= 5.0
    && -3.0 <= r.year - q.year as real <= 3.0
    && r.approved
  }

  /** The rows the WHERE clause keeps, in table order. */
  function Candidates(rows: seq<Report>, q: EstimateQuery): (c: seq<Report>)
    ensures |c| <= |rows|
    ensures forall x :: x in c <==> x in rows && IsCandidate(x, q)
  {
    if rows == [] then []
    else if IsCandidate(rows[0], q) then [rows[0]] + Candidates(rows[1..], q)
    else Candidates(rows[1..], q)
  }

  function SumPrices(rows: seq<Report>): real {
    if rows == [] then 0.0 else rows[0].price + SumPrices(rows[1..])
  }

  /** SQL `AVG(price)`: NULL over no rows, otherwise the arithmetic mean. */
  function Average(rows: seq<Report>): (r: Option<real>)
    ensures r.None? <==> rows == []
    ensures r.Some? ==> r.value * |rows| as real == SumPrices(rows)
  {
    if rows == [] then None else Some(SumPrices(rows) / |rows| as real)
  }

  /** The estimate over a table: the average price of all its candidates.
      The query's `ORDER BY` and `LIMIT 3` act on the one aggregate row and
      select nothing. */
  function EstimateOf(rows: seq<Report>, q: EstimateQuery): Estimate {
    Estimate(Average(Candidates(rows, q)))
  }

  lemma {:induction false} CandidatesAppend(a: seq<Report>, b: seq<Report>, q: EstimateQuery)
    ensures Candidates(a + b, q) == Candidates(a, q) + Candidates(b, q)
  {
    if a == [] {
      assert a + b == b;
    } else {
      assert (a + b)[1..] == a[1..] + b;
      CandidatesAppend(a[1..], b, q);
    }
  }

  lemma {:induction false} SumPricesAppend(a: seq<Report>, b: seq<Report>)
    ensures SumPrices(a + b) == SumPrices(a) + SumPrices(b)
  {
    if a == [] {
      assert a + b == b;
    } else {
      assert (a + b)[1..] == a[1..] + b;
      SumPricesAppend(a[1..], b);
    }
  }

  /** A report that is not a candidate (unapproved, another make or model,
      or outside a window) does not change the estimate, wherever it sits. */
  lemma NonCandidateIgnored(a: seq<Report>, x: Report, b: seq<Report>, q: EstimateQuery)
    requires !IsCandidate(x, q)
    ensures EstimateOf(a + [x] + b, q) == EstimateOf(a + b, q)
  {
    CandidatesAppend(a + [x], b, q);
    CandidatesAppend(a, [x], q);
    CandidatesAppend(a, b, q);
    assert [x][1..] == [];
    assert Candidates([x], q) == [];
    assert Candidates(a + [x] + b, q) == Candidates(a + b, q);
  }

  /** A report saved unapproved does not move the estimate until it is approved. */
  lemma NewReportLeavesEstimate(rows: seq<Report>, r: Report, q: EstimateQuery)
    requires !r.approved
    ensures EstimateOf(rows + [r], q) == EstimateOf(rows, q)
  {
    NonCandidateIgnored(rows, r, [], q);
    assert rows + [r] + [] == rows + [r];
    assert rows + [] == rows;
  }

  /** The estimate is NULL exactly when no report is a candidate. */
  lemma EstimateNullIffNoCandidate(rows: seq<Report>, q: EstimateQuery)
    ensures EstimateOf(rows, q).price.None? <==> forall x :: x in rows ==> !IsCandidate(x, q)
  {
    if forall x :: x in rows ==> !IsCandidate(x, q) {
      NoCandidates(rows, q);
    }
  }

  lemma {:induction false} NoCandidates(rows: seq<Report>, q: EstimateQuery)
    requires forall x :: x in rows ==> !IsCandidate(x, q)
    ensures Candidates(rows, q) == []
  {
    if rows != [] {
      assert rows[0] in rows;
      NoCandidates(rows[1..], q);
    }
  }

  lemma {:induction false} SumPricesBounds(rows: seq<Report>, lo: real, hi: real)
    requires forall i :: 0 <= i < |rows| ==> lo <= rows[i].price <= hi
    ensures lo * |rows| as real <= SumPrices(rows) <= hi * |rows| as real
  {
    if rows != [] {
      SumPricesBounds(rows[1..], lo, hi);
    }
  }

  lemma QuotientBounds(sum: real, n: real, lo: real, hi: real)
    requires n > 0.0 && lo * n <= sum <= hi * n
    ensures lo <= sum / n <= hi
  {
    var avg := sum / n;
    assert avg * n == sum;
  }

  lemma AverageWithin(c: seq<Report>, lo: real, hi: real)
    requires forall i :: 0 <= i < |c| ==> lo <= c[i].price <= hi
    ensures Average(c).Some? ==> lo <= Average(c).value <= hi
  {
    if c != [] {
      SumPricesBounds(c, lo, hi);
      QuotientBounds(SumPrices(c), |c| as real, lo, hi);
    }
  }

  /** When every candidate's price lies in [lo, hi], so does the estimate. */
  lemma EstimateWithinPrices(rows: seq<Report>, q: EstimateQuery, lo: real, hi: real)
    requires forall x :: x in rows && IsCandidate(x, q) ==> lo <= x.price <= hi
    ensures EstimateOf(rows, q).price.Some? ==> lo <= EstimateOf(rows, q).price.value <= hi
  {
    var c := Candidates(rows, q);
    forall i | 0 <= i < |c| ensures lo <= c[i].price <= hi {
      assert c[i] in c;
    }
    AverageWithin(c, lo, hi);
  }

  /** Two comparable reports give the mean of their prices: 200000 and
      100000 give 150000, 150000 and 100000 give 125000. */
  lemma TwoCandidatesAverage(a: Report, b: Report, q: EstimateQuery)
    requires IsCandidate(a, q) && IsCandidate(b, q)
    ensures EstimateOf([a, b], q) == Estimate(Some((a.price + b.price) / 2.0))
  {
    assert [a, b][1..] == [b];
    assert [b][1..] == [];
    assert Candidates([b], q) == [b];
    assert Candidates([a, b], q) == [a, b];
    assert SumPrices([b]) == b.price;
    assert SumPrices([a, b]) == a.price + b.price;
  }

  lemma {:induction false} CandidatesCount(rows: seq<Report>, q: EstimateQuery, x: Report)
    ensures multiset(Candidates(rows, q))[x] == if IsCandidate(x, q) then multiset(rows)[x] else 0
  {
    if rows != [] {
      CandidatesCount(rows[1..], q, x);
      assert rows == [rows[0]] + rows[1..];
    }
  }

  lemma {:induction false} SumPricesPermutation(s: seq<Report>, t: seq<Report>)
    requires multiset(s) == multiset(t)
    ensures SumPrices(s) == SumPrices(t)
    decreases |s|
  {
    if s != [] {
      var x := s[0];
      assert x in multiset(t);
      var j :| 0 <= j < |t| && t[j] == x;
      var rest := t[..j] + t[j + 1..];
      assert t == t[..j] + [x] + t[j + 1..];
      assert s == [x] + s[1..];
      assert multiset(s) == multiset{x} + multiset(s[1..]);
      assert multiset(t) == multiset(t[..j]) + multiset{x} + multiset(t[j + 1..]);
      assert multiset(rest) == multiset(t[..j]) + multiset(t[j + 1..]);
      forall y ensures multiset(s[1..])[y] == multiset(rest)[y] {
        assert multiset(s)[y] == multiset{x}[y] + multiset(s[1..])[y];
        assert multiset(t)[y] == multiset(t[..j])[y] + multiset{x}[y] + multiset(t[j + 1..])[y];
        assert multiset(rest)[y] == multiset(t[..j])[y] + multiset(t[j + 1..])[y];
      }
      assert multiset(s[1..]) == multiset(rest);
      SumPricesPermutation(s[1..], rest);
      SumPricesAppend(t[..j] + [x], t[j + 1..]);
      SumPricesAppend(t[..j], [x]);
      SumPricesAppend(t[..j], t[j + 1..]);
    } else {
      assert |t| == |multiset(t)| == 0;
    }
  }

  /** The estimate does not depend on the order of the table: any
      rearrangement of the same reports gives the same answer. */
  lemma EstimateOrderIndependent(s: seq<Report>, t: seq<Report>, q: EstimateQuery)
    requires multiset(s) == multiset(t)
    ensures EstimateOf(s, q) == EstimateOf(t, q)
  {
    var cs, ct := Candidates(s, q), Candidates(t, q);
    forall x ensures multiset(cs)[x] == multiset(ct)[x] {
      CandidatesCount(s, q, x);
      CandidatesCount(t, q, x);
    }
    assert multiset(cs) == multiset(ct);
    assert |cs| == |multiset(cs)| == |multiset(ct)| == |ct|;
    SumPricesPermutation(cs, ct);
  }

  class ReportsService {
    /** The report table, in id order. */
    var rows: seq<Report>
    /** The id the next inserted row receives. */
    var nextId: nat

    ghost predicate Valid()
      reads this
    {
      && nextId >= 1
      && IdsAscending(rows)
      && forall i :: 0 <= i < |rows| ==> 1 <= rows[i].id < nextId
    }

    constructor ()
      ensures Valid() && rows == [] && nextId == 1
    {
      rows, nextId := [], 1;
    }

    /** Saves a new report owned by the given account; `approved` takes its
        column default, false. */
    method Create(data: NewReport, owner: AccountStore.Account) returns (r: Report)
      requires Valid()
      modifies this
      ensures Valid()
      ensures r == Report(old(nextId), false, data.price, data.make, data.model,
                          data.year, data.lng, data.lat, data.mileage, owner)
      ensures rows == old(rows) + [r] && nextId == old(nextId) + 1
    {
      r := Report(nextId, false, data.price, data.make, data.model,
                  data.year, data.lng, data.lat, data.mileage, owner);
      rows := rows + [r];
      nextId := nextId + 1;
    }

    /** The reports owned by the given account. */
    function List(account: AccountStore.Account): (r: seq<Report>)
      reads this
      ensures forall x :: x in r <==> x in rows && x.owner.id == account.id
    {
      OwnedBy(rows, account.id)
    }

    /** Sets the approval flag of the report with the given id. */
    method UpdateApproval(id: string, approved: bool) returns (r: Result<Report, Error>)
      requires Valid()
      modifies this
      ensures Valid() && nextId == old(nextId)
      ensures IndexOfId(old(rows), ParseInt(id)).None? ==>
        r == Failure(NotFound(ReportNotFound)) && rows == old(rows)
      ensures IndexOfId(old(rows), ParseInt(id)).Some? ==>
        var i := IndexOfId(old(rows), ParseInt(id)).value;
        r == Success(old(rows)[i].(approved := approved)) && rows == old(rows)[i := r.value]
    {
      var found := IndexOfId(rows, ParseInt(id));
      if found.None? {
        return Failure(NotFound(ReportNotFound));
      }
      var i := found.value;
      var report := rows[i].(approved := approved);
      rows := rows[i := report];
      r := Success(report);
    }

    /** The estimate for a query over the current table. */
    function CreateEstimate(q: EstimateQuery): (e: Estimate)
      reads this
      ensures e.price.None? <==> forall x :: x in rows ==> !IsCandidate(x, q)
      ensures e.price.Some? ==>
        e.price.value * |Candidates(rows, q)| as real == SumPrices(Candidates(rows, q))
    {
      var c := Candidates(rows, q);
      EstimateNullIffNoCandidate(rows, q);
      assert EstimateOf(rows, q) == Estimate(Average(c));
      Estimate(Average(c))
    }
  }
}
