/**
  The `payments` and `clients` tables of the backend, as rows in insertion
  order, with the three kinds of write the code issues against them:
  an insert, an update of every row with a given `checkout_reference`
  (`.update(..).eq('checkout_reference', ref)`), and the same update followed
  by `.select().single()`, which the backend only commits when exactly one
  row matched.
*/
module Ledger {
  import opened Common

  /** The status strings written by the different writers. */
  const StatusPending := "PENDING"
  const StatusSuccessful := "SUCCESSFUL"
  const StatusFailed := "FAILED"
  const StatusPendingLower := "pending"
  const StatusCompleted := "completed"

  /** The message the backend returns when `.single()` finds zero or several rows. */
  const SingleRowError := "JSON object requested, multiple (or no) rows returned"

  /** One row of the `payments` table. */
  datatype Payment = Payment(
    reference: string,
    status: string,
    amount: real,
    productId: string,
    clientId: string,
    transactionId: Option<string>,
    transactionCode: Option<string>,
    paymentMethod: Option<string>,
    errorMessage: Option<string>,
    createdAt: int,
    updatedAt: Option<string>)

  /** A freshly inserted row: the columns the writers do not set are null. */
  function NewPayment(reference: string, status: string, amount: real, productId: string,
                      clientId: string, createdAt: int): (p: Payment)
    ensures p.reference == reference && p.status == status && p.amount == amount
    ensures p.productId == productId && p.clientId == clientId && p.createdAt == createdAt
    ensures p.transactionId == None && p.transactionCode == None && p.paymentMethod == None
    ensures p.errorMessage == None && p.updatedAt == None
  {
    Payment(reference, status, amount, productId, clientId, None, None, None, None, createdAt, None)
  }

  /** One column of an update: left alone (the key is absent or `undefined`, which
      `JSON.stringify` drops) or set to a value (possibly null). */
  datatype Write<T> = Keep | Put(value: T) {
    function Over(current: T): T {
      if Put? then value else current
    }
    function Then(later: Write<T>): Write<T> {
      if later.Put? then later else this
    }
  }

  /** The columns of `payments` that some writer updates. */
  datatype Patch = Patch(
    status: Write<string>,
    transactionId: Write<Option<string>>,
    transactionCode: Write<Option<string>>,
    paymentMethod: Write<Option<string>>,
    errorMessage: Write<Option<string>>,
    updatedAt: Write<Option<string>>)
  {
    /** The single update equivalent to this one followed by `later`. */
    function Then(later: Patch): Patch {
      Patch(status.Then(later.status), transactionId.Then(later.transactionId),
            transactionCode.Then(later.transactionCode), paymentMethod.Then(later.paymentMethod),
            errorMessage.Then(later.errorMessage), updatedAt.Then(later.updatedAt))
    }
  }

  /** A row after an update: the reference, amount, product, client and creation time
      are never written. */
  function ApplyPatch(p: Payment, patch: Patch): (q: Payment)
    ensures q.reference == p.reference && q.amount == p.amount && q.productId == p.productId
    ensures q.clientId == p.clientId && q.createdAt == p.createdAt
    ensures patch.status.Put? ==> q.status == patch.status.value
    ensures patch.status.Keep? ==> q.status == p.status
  {
    Payment(p.reference, patch.status.Over(p.status), p.amount, p.productId, p.clientId,
            patch.transactionId.Over(p.transactionId), patch.transactionCode.Over(p.transactionCode),
            patch.paymentMethod.Over(p.paymentMethod), patch.errorMessage.Over(p.errorMessage),
            p.createdAt, patch.updatedAt.Over(p.updatedAt))
  }

  /** Two updates of a row are one update: the later value of each column wins. */
  lemma ApplyPatchThen(p: Payment, first: Patch, later: Patch)
    ensures ApplyPatch(ApplyPatch(p, first), later) == ApplyPatch(p, first.Then(later))
  {
  }

  /** Every update is idempotent on a row: writing the same values again changes nothing. */
  lemma ApplyPatchTwice(p: Payment, patch: Patch)
    ensures ApplyPatch(ApplyPatch(p, patch), patch) == ApplyPatch(p, patch)
  {
    ApplyPatchThen(p, patch, patch);
    assert patch.Then(patch) == patch;
  }

  /** The table after `.update(patch).eq('checkout_reference', ref)`: every matching row
      is patched, every other row is left as it was, and the order is kept. */
  function UpdatedWhereReference(rows: seq<Payment>, ref: string, patch: Patch): (r: seq<Payment>)
    ensures |r| == |rows|
    ensures forall i :: 0 <= i < |rows| && rows[i].reference == ref ==> r[i] == ApplyPatch(rows[i], patch)
    ensures forall i :: 0 <= i < |rows| && rows[i].reference != ref ==> r[i] == rows[i]
  {
    if rows == [] then []
    else
      (if rows[0].reference == ref then [ApplyPatch(rows[0], patch)] else [rows[0]])
      + UpdatedWhereReference(rows[1..], ref, patch)
  }

  /** An update whose reference matches no row leaves the table as it was. */
  lemma UpdateOfUnknownReference(rows: seq<Payment>, ref: string, patch: Patch)
    requires forall i :: 0 <= i < |rows| ==> rows[i].reference != ref
    ensures UpdatedWhereReference(rows, ref, patch) == rows
  {
  }

  /** Two successive updates of the same reference are the one update `first.Then(later)`. */
  lemma UpdateThen(rows: seq<Payment>, ref: string, first: Patch, later: Patch)
    ensures UpdatedWhereReference(UpdatedWhereReference(rows, ref, first), ref, later)
         == UpdatedWhereReference(rows, ref, first.Then(later))
  {
    var once := UpdatedWhereReference(rows, ref, first);
    var twice := UpdatedWhereReference(once, ref, later);
    var merged := UpdatedWhereReference(rows, ref, first.Then(later));
    forall i | 0 <= i < |rows| ensures twice[i] == merged[i] {
      if rows[i].reference == ref {
        ApplyPatchThen(rows[i], first, later);
      }
    }
  }

  /** Replaying an update of a reference is the same as applying it once. */
  lemma UpdateIdempotent(rows: seq<Payment>, ref: string, patch: Patch)
    ensures UpdatedWhereReference(UpdatedWhereReference(rows, ref, patch), ref, patch)
         == UpdatedWhereReference(rows, ref, patch)
  {
    UpdateThen(rows, ref, patch, patch);
    assert patch.Then(patch) == patch;
  }

  /** The number of rows carrying a reference. */
  function MatchCount(rows: seq<Payment>, ref: string): (n: nat)
    ensures n <= |rows|
    ensures n == 0 <==> forall i :: 0 <= i < |rows| ==> rows[i].reference != ref
  {
    if rows == [] then 0
    else (if rows[0].reference == ref then 1 else 0) + MatchCount(rows[1..], ref)
  }

  /** What `.eq('checkout_reference', ref).single()` reads: the one matching row, or the
      backend's error when there are zero or several. */
  function SingleByReference(rows: seq<Payment>, ref: string): (r: Result<Payment>)
    ensures r.Ok? <==> MatchCount(rows, ref) == 1
    ensures r.Ok? ==> r.value in rows && r.value.reference == ref
    ensures r.Err? ==> r.message == SingleRowError
  {
    if rows == [] then Err(SingleRowError)
    else if rows[0].reference == ref then
      if MatchCount(rows[1..], ref) == 0 then Ok(rows[0]) else Err(SingleRowError)
    else SingleByReference(rows[1..], ref)
  }

  /** The `payments` table. Each write takes the backend's answer as a parameter; a
      rejected statement writes nothing. */
  class PaymentsTable {
    var rows: seq<Payment>

    constructor (initial: seq<Payment>)
      ensures rows == initial
    {
      rows := initial;
    }

    /** `.insert(row)`. */
    method Insert(row: Payment, backend: Outcome) returns (error: Option<string>)
      modifies this
      ensures backend.Success? ==> rows == old(rows) + [row] && error == None
      ensures backend.Failure? ==> rows == old(rows) && error == Some(backend.message)
    {
      if backend.Failure? {
        error := Some(backend.message);
      } else {
        rows := rows + [row];
        error := None;
      }
    }

    /** `.update(patch).eq('checkout_reference', ref)`. */
    method UpdateWhereReference(ref: string, patch: Patch, backend: Outcome) returns (error: Option<string>)
      modifies this
      ensures backend.Success? ==> rows == UpdatedWhereReference(old(rows), ref, patch) && error == None
      ensures backend.Failure? ==> rows == old(rows) && error == Some(backend.message)
    {
      if backend.Failure? {
        error := Some(backend.message);
      } else {
        rows := UpdatedWhereReference(rows, ref, patch);
        error := None;
      }
    }

    /** `.update(patch).eq('checkout_reference', ref).select().single()`: the update is
        rolled back, and an error returned, unless exactly one row matched. */
    method UpdateSingleReference(ref: string, patch: Patch, backend: Outcome) returns (error: Option<string>)
      modifies this
      ensures backend.Success? && MatchCount(old(rows), ref) == 1 ==>
                rows == UpdatedWhereReference(old(rows), ref, patch) && error == None
      ensures backend.Success? && MatchCount(old(rows), ref) != 1 ==>
                rows == old(rows) && error == Some(SingleRowError)
      ensures backend.Failure? ==> rows == old(rows) && error == Some(backend.message)
    {
      if backend.Failure? {
        error := Some(backend.message);
      } else if MatchCount(rows, ref) != 1 {
        error := Some(SingleRowError);
      } else {
        rows := UpdatedWhereReference(rows, ref, patch);
        error := None;
      }
    }
  }

  /** The columns a client row is created with: the purchase dialog and the payment
      form write different columns. */
  datatype ClientColumns =
    | DialogClient(firstName: string, lastName: string, phone: string, address: string)
    | FormClient(name: string, address: string)

  /** One row of the `clients` table. */
  datatype Client = Client(id: string, email: string, columns: ClientColumns)

  /** The number of clients with an email. */
  function EmailCount(clients: seq<Client>, email: string): (n: nat)
    ensures n <= |clients|
    ensures n == 0 <==> forall i :: 0 <= i < |clients| ==> clients[i].email != email
  {
    if clients == [] then 0
    else (if clients[0].email == email then 1 else 0) + EmailCount(clients[1..], email)
  }

  /** What `.select().eq('email', email).single()` finds: the client when exactly one
      row has that email, nothing otherwise (the error is not looked at). */
  function SingleByEmail(clients: seq<Client>, email: string): (r: Option<Client>)
    ensures r.Some? <==> EmailCount(clients, email) == 1
    ensures r.Some? ==> r.value in clients && r.value.email == email
  {
    if clients == [] then None
    else if clients[0].email == email then
      if EmailCount(clients[1..], email) == 0 then Some(clients[0]) else None
    else SingleByEmail(clients[1..], email)
  }

  /** The answer to `.insert(..).select().single()` on `clients`: the new row's id,
      no row, or the backend's error. */
  datatype RowAnswer = Row(id: string) | NoRow | RowError(message: string)

  /** The `clients` table. */
  class ClientsTable {
    var rows: seq<Client>

    constructor (initial: seq<Client>)
      ensures rows == initial
    {
      rows := initial;
    }

    /** `.insert(..)` of a client whose id the backend generates as `id`. */
    method Insert(id: string, email: string, columns: ClientColumns, backend: Outcome)
      returns (error: Option<string>)
      modifies this
      ensures backend.Success? ==> rows == old(rows) + [Client(id, email, columns)] && error == None
      ensures backend.Failure? ==> rows == old(rows) && error == Some(backend.message)
    {
      if backend.Failure? {
        error := Some(backend.message);
      } else {
        rows := rows + [Client(id, email, columns)];
        error := None;
      }
    }
  }
}
