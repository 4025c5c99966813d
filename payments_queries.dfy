/**
  The payment helpers (`src/lib/payments.ts`): creating a payment after the
  checkout-creation route answers, listing payments with filters, newest
  first, one page at a time, and reading one payment by reference.

  The checkout-creation route (`/api/create-checkout`) is not part of this
  model; its answer is the parameter `CheckoutAnswer`.
*/
module Payments {
  import opened Common
  import opened Ledger

  const CheckoutFailed := "Failed to create checkout"

  /** The answer of `/api/create-checkout` as its callers read it: a network error, a
      non-ok status (the body is not read), a body that does not parse, or the
      created checkout's id and reference. */
  datatype CheckoutAnswer =
    | NoAnswer(message: string)
    | NotOk
    | BadBody(message: string)
    | Created(checkoutId: Option<string>, checkoutRef: string)

  /** The ids `createPayment` returns. */
  datatype CreatedIds = CreatedIds(checkoutId: Option<string>, checkoutRef: string)

  /** `createPayment`: nothing is inserted unless the checkout was created; then exactly
      one PENDING row with the returned reference is inserted, and the ids are returned
      only when that insert succeeds. */
  method CreatePayment(amount: real, clientId: string, productId: string, createdAt: int,
                       answer: CheckoutAnswer, payments: PaymentsTable, backend: Outcome)
    returns (r: Result<CreatedIds>)
    modifies payments
    ensures !answer.Created? ==> payments.rows == old(payments.rows)
    ensures answer.NoAnswer? ==> r == Err(answer.message)
    ensures answer.NotOk? ==> r == Err(CheckoutFailed)
    ensures answer.BadBody? ==> r == Err(answer.message)
    ensures answer.Created? && backend.Failure? ==> payments.rows == old(payments.rows) && r == Err(backend.message)
    ensures answer.Created? && backend.Success? ==>
              payments.rows == old(payments.rows)
                               + [NewPayment(answer.checkoutRef, StatusPending, amount, productId, clientId, createdAt)]
              && r == Ok(CreatedIds(answer.checkoutId, answer.checkoutRef))
  {
    match answer {
      case NoAnswer(m) => return Err(m);
      case NotOk => return Err(CheckoutFailed);
      case BadBody(m) => return Err(m);
      case Created(checkoutId, checkoutRef) =>
        var row := NewPayment(checkoutRef, StatusPending, amount, productId, clientId, createdAt);
        var error := payments.Insert(row, backend);
        if error.Some? {
          return Err(error.value);
        }
        return Ok(CreatedIds(checkoutId, checkoutRef));
    }
  }

  /** The optional filters of `getPayments`; dates are instants in milliseconds. */
  datatype Filters = Filters(startDate: Option<int>, endDate: Option<int>, status: Option<string>,
                             productId: Option<string>)

  /** A row passes every filter that was supplied (empty strings supply nothing). */
  predicate Matches(p: Payment, f: Filters) {
    && (f.startDate.Some? ==> p.createdAt >= f.startDate.value)
    && (f.endDate.Some? ==> p.createdAt <= f.endDate.value)
    && (Present(f.status) ==> p.status == f.status.value)
    && (Present(f.productId) ==> p.productId == f.productId.value)
  }

  /** The rows that pass the filters, in table order. */
  function Filtered(rows: seq<Payment>, f: Filters): (r: seq<Payment>)
    ensures |r| <= |rows|
    ensures forall k :: 0 <= k < |r| ==> r[k] in rows && Matches(r[k], f)
    ensures forall k :: 0 <= k < |rows| && Matches(rows[k], f) ==> rows[k] in r
  {
    if rows == [] then []
    else (if Matches(rows[0], f) then [rows[0]] else []) + Filtered(rows[1..], f)
  }

  /** Filtering keeps every copy of a passing row and no copy of another, so the number
      of filtered rows counts them all. */
  lemma {:induction false} FilteredCounts(rows: seq<Payment>, f: Filters)
    ensures forall x :: multiset(Filtered(rows, f))[x] == (if Matches(x, f) then multiset(rows)[x] else 0)
  {
    if rows != [] {
      FilteredCounts(rows[1..], f);
      assert rows == [rows[0]] + rows[1..];
      var head := if Matches(rows[0], f) then [rows[0]] else [];
      assert Filtered(rows, f) == head + Filtered(rows[1..], f);
      assert multiset(Filtered(rows, f)) == multiset(head) + multiset(Filtered(rows[1..], f));
      assert multiset(rows) == multiset{rows[0]} + multiset(rows[1..]);
    }
  }

  /** Filtering a concatenation concatenates the filtered parts: the table order is kept. */
  lemma {:induction false} FilteredAppend(a: seq<Payment>, b: seq<Payment>, f: Filters)
    ensures Filtered(a + b, f) == Filtered(a, f) + Filtered(b, f)
  {
    if a == [] {
      assert a + b == b;
    } else {
      assert (a + b)[1..] == a[1..] + b;
      FilteredAppend(a[1..], b, f);
    }
  }

  predicate NewestFirst(s: seq<Payment>) {
    forall i, j :: 0 <= i < j < |s| ==> s[i].createdAt >= s[j].createdAt
  }

  /** Every row of `a` is also a row of `b` when the two hold the same rows; used to carry
      the filters from the filtered rows to the sorted page. */
  lemma SameRows(a: seq<Payment>, b: seq<Payment>)
    requires multiset(a) == multiset(b)
    ensures forall k :: 0 <= k < |a| ==> a[k] in b
  {
    forall k | 0 <= k < |a| ensures a[k] in b {
      assert a[k] in multiset(b);
    }
  }

  /** No row is newer than `t`: what a row must satisfy to go in front of a newest-first
      list, as the sort does. */
  predicate NoNewerThan(s: seq<Payment>, t: int) {
    forall k :: 0 <= k < |s| ==> s[k].createdAt <= t
  }

  /** Rearranging rows keeps them all no newer than `t`; the sort's insertion step needs it. */
  lemma NoNewerThanSameRows(a: seq<Payment>, b: seq<Payment>, t: int)
    requires multiset(a) == multiset(b) && NoNewerThan(b, t)
    ensures NoNewerThan(a, t)
  {
    SameRows(a, b);
    forall k | 0 <= k < |a| ensures a[k].createdAt <= t {
      var j :| 0 <= j < |b| && b[j] == a[k];
    }
  }

  lemma NewestFirstCons(x: Payment, s: seq<Payment>)
    requires NewestFirst(s) && NoNewerThan(s, x.createdAt)
    ensures NewestFirst([x] + s)
  {
  }

  function InsertByNewest(p: Payment, s: seq<Payment>): (r: seq<Payment>)
    requires NewestFirst(s)
    ensures NewestFirst(r)
    ensures multiset(r) == multiset(s) + multiset{p}
  {
    if s == [] || p.createdAt >= s[0].createdAt then
      NewestFirstCons(p, s);
      [p] + s
    else
      var rest := InsertByNewest(p, s[1..]);
      assert s == [s[0]] + s[1..];
      assert multiset(s[1..] + [p]) == multiset(s[1..]) + multiset{p};
      assert NoNewerThan(s[1..] + [p], s[0].createdAt);
      NoNewerThanSameRows(rest, s[1..] + [p], s[0].createdAt);
      NewestFirstCons(s[0], rest);
      [s[0]] + rest
  }

  /** `.order('created_at', { ascending: false })`: the same rows, newest first. */
  function SortByNewest(s: seq<Payment>): (r: seq<Payment>)
    ensures NewestFirst(r)
    ensures multiset(r) == multiset(s)
  {
    if s == [] then []
    else
      assert s == [s[0]] + s[1..];
      InsertByNewest(s[0], SortByNewest(s[1..]))
  }

  /** `.range(start, start + limit - 1)`: the rows at the inclusive positions
      start .. start + limit - 1 that exist. */
  function Window(s: seq<Payment>, start: nat, limit: nat): (r: seq<Payment>)
    ensures |r| <= limit
    ensures start + |r| <= |s| || r == []
    ensures forall k :: 0 <= k < |r| ==> r[k] == s[start + k]
    ensures start < |s| ==> |r| == if start + limit <= |s| then limit else |s| - start
  {
    if start >= |s| then []
    else if start + limit <= |s| then s[start..start + limit]
    else s[start..]
  }

  lemma PageRows(rows: seq<Payment>, f: Filters, sorted: seq<Payment>, start: nat, limit: nat)
    requires multiset(sorted) == multiset(Filtered(rows, f)) && NewestFirst(sorted)
    ensures var shown := Window(sorted, start, limit);
      NewestFirst(shown) && forall k :: 0 <= k < |shown| ==> shown[k] in rows && Matches(shown[k], f)
  {
    var matching := Filtered(rows, f);
    var shown := Window(sorted, start, limit);
    SameRows(sorted, matching);
    forall k | 0 <= k < |shown| ensures shown[k] in rows && Matches(shown[k], f) {
      assert shown[k] == sorted[start + k];
      var j :| 0 <= j < |matching| && matching[j] == shown[k];
    }
  }

  /** One page of the payment list with the count of all filtered rows. */
  datatype PaymentsPage = PaymentsPage(payments: seq<Payment>, total: nat, page: int, limit: int)

  /** The first position of a page: `(page - 1) * limit`. */
  function PageStart(page: int, limit: int): (start: nat)
    requires page >= 1 && limit >= 1
    ensures start == (page - 1) * limit
  {
    var pages: nat := page - 1;
    var size: nat := limit;
    pages * size
  }

  /** `getPayments`: the resolved page and limit are 1 and 10 unless given. */
  function GetPayments(rows: seq<Payment>, f: Filters, page: Option<int>, limit: Option<int>, backend: Outcome)
    : (r: Result<PaymentsPage>)
    requires page.GetOr(1) >= 1 && limit.GetOr(10) >= 1
    ensures backend.Failure? ==> r == Err(backend.message)
    ensures backend.Success? ==> r.Ok?
    ensures r.Ok? ==> r.value.page == page.GetOr(1) && r.value.limit == limit.GetOr(10)
    ensures r.Ok? ==> r.value.total == |Filtered(rows, f)|
    ensures r.Ok? ==> |r.value.payments| <= r.value.limit
    ensures r.Ok? ==> forall k :: 0 <= k < |r.value.payments| ==>
                        r.value.payments[k] in rows && Matches(r.value.payments[k], f)
    ensures r.Ok? ==> NewestFirst(r.value.payments)
    ensures r.Ok? ==> r.value.payments == Window(SortByNewest(Filtered(rows, f)),
                                                 PageStart(r.value.page, r.value.limit), r.value.limit)
  {
    if backend.Failure? then Err(backend.message)
    else
      var p := page.GetOr(1);
      var l := limit.GetOr(10);
      var start: nat := PageStart(p, l);
      var matching := Filtered(rows, f);
      var sorted := SortByNewest(matching);
      var shown := Window(sorted, start, l);
      PageRows(rows, f, sorted, start, l);
      Ok(PaymentsPage(shown, |matching|, p, l))
  }

  /** `getPaymentDetails`: the one row with the reference; zero or several rows, or a
      backend error, throw. */
  function GetPaymentDetails(rows: seq<Payment>, reference: string, backend: Outcome): (r: Result<Payment>)
    ensures r.Ok? <==> backend.Success? && MatchCount(rows, reference) == 1
    ensures r.Ok? ==> r.value in rows && r.value.reference == reference
    ensures backend.Failure? ==> r == Err(backend.message)
    ensures backend.Success? && MatchCount(rows, reference) != 1 ==> r == Err(SingleRowError)
  {
    if backend.Failure? then Err(backend.message) else SingleByReference(rows, reference)
  }
}
