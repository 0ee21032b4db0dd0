/**
 * Scheduled payments: the `scheduled_payments` table of
 * `backend/models/ScheduledPayment.js` and the owner-scoped routes of
 * `backend/routes/scheduledPayments.js` that create, list and cancel them.
 * The payee IBAN is stored encrypted beside its lookup digest, like an
 * account's; rows handed out carry it decrypted.
 */
module ScheduledPayments {
  import opened Wrappers
  import Crypto
  import opened AccountNumbers
  import opened Accounts
  import Ordering

  /** Seconds in a day: `next_run` is `start_date` cut down to its day. */
  const SecondsPerDay := 86400

  /** `$8::date`: the start of the day holding `t` (UTC, `t` in seconds). */
  function DayStart(t: int): (d: int)
    ensures d <= t < d + SecondsPerDay && d % SecondsPerDay == 0
  {
    t - t % SecondsPerDay
  }

  /** One row of `scheduled_payments`; `payeeIban` holds ciphertext as stored. Amounts in cents, times in seconds. */
  datatype ScheduledRow = ScheduledRow(
    id: int,
    userId: int,
    accountId: int,
    payeeName: string,
    payeeIban: Option<string>,
    payeeIbanHash: Option<string>,
    amount: int,
    frequency: string,
    startDate: int,
    nextRun: Option<int>,
    notes: Option<string>,
    status: string,
    createdAt: int,
    updatedAt: int)

  /** `serialize`: a missing row passes through; otherwise the payee IBAN is decrypted, `null` when empty. */
  function Serialize(p: Crypto.Primitives, row: Option<ScheduledRow>): (r: Option<ScheduledRow>)
    ensures r.None? <==> row.None?
    ensures r.Some? ==> r.value.(payeeIban := row.value.payeeIban) == row.value
    ensures r.Some? ==> r.value.payeeIban == Decrypt(p, Iban, row.value.payeeIban)
  {
    match row
    case None => None
    case Some(s) => Some(s.(payeeIban := if Truthy(s.payeeIban) then Decrypt(p, Iban, s.payeeIban) else None))
  }

  /** A listed payment: the serialized row and its source account's decrypted number. */
  datatype ListedPayment = ListedPayment(payment: ScheduledRow, accountNumber: Option<string>)

  function Listed(p: Crypto.Primitives, accountRows: map<int, AccountRow>, row: ScheduledRow): ListedPayment
    requires row.accountId in accountRows
  {
    ListedPayment(Serialize(p, Some(row)).value, Decrypt(p, AccountNumber, accountRows[row.accountId].accountNumber))
  }

  /** Each row listed with its account, in the given order. */
  function ListAll(p: Crypto.Primitives, accountRows: map<int, AccountRow>, sorted: seq<ScheduledRow>): (r: seq<ListedPayment>)
    requires forall i :: 0 <= i < |sorted| ==> sorted[i].accountId in accountRows
    ensures |r| == |sorted| && forall i :: 0 <= i < |sorted| ==> r[i] == Listed(p, accountRows, sorted[i])
    ensures forall row :: row in sorted ==> row.accountId in accountRows && Listed(p, accountRows, row) in r
    ensures forall i :: 0 <= i < |sorted| ==> r[i].payment.createdAt == sorted[i].createdAt
  {
    var r := seq(|sorted|, i requires 0 <= i < |sorted| => Listed(p, accountRows, sorted[i]));
    assert forall row :: row in sorted ==> row.accountId in accountRows && Listed(p, accountRows, row) in r by {
      forall row | row in sorted ensures row.accountId in accountRows && Listed(p, accountRows, row) in r {
        var k :| 0 <= k < |sorted| && sorted[k] == row;
        assert r[k] == Listed(p, accountRows, row);
      }
    }
    r
  }

  /** `JOIN accounts ON sp.account_id = a.id WHERE sp.user_id = $1`. */
  function OwnedJoined(accountRows: map<int, AccountRow>, userId: int): ScheduledRow -> bool {
    (row: ScheduledRow) => row.userId == userId && row.accountId in accountRows
  }

  function Newest(row: ScheduledRow): int { row.createdAt }

  /** `JOIN accounts ... WHERE sp.user_id = $1 ORDER BY sp.created_at DESC`. */
  function OwnedRows(table: seq<ScheduledRow>, accountRows: map<int, AccountRow>, userId: int): (r: seq<ScheduledRow>)
    ensures forall x :: x in r <==> x in table && x.userId == userId && x.accountId in accountRows
    ensures forall i :: 0 <= i < |r| ==> r[i].accountId in accountRows
    ensures forall i, j :: 0 <= i < j < |r| ==> r[i].createdAt >= r[j].createdAt
  {
    var joined := OwnedJoined(accountRows, userId);
    Ordering.SelectSortedMembers(table, joined, Newest);
    var r := Ordering.SortDesc(Ordering.Filter(table, joined), Newest);
    assert forall i :: 0 <= i < |r| ==> r[i] in r;
    r
  }

  /** As many rows as `COUNT(*)` with the same join and `WHERE` gives. */
  lemma OwnedRowsCount(table: seq<ScheduledRow>, accountRows: map<int, AccountRow>, userId: int)
    ensures |OwnedRows(table, accountRows, userId)| == Ordering.Count(table, OwnedJoined(accountRows, userId))
  {
    var joined := OwnedJoined(accountRows, userId);
    Ordering.SortDescLength(Ordering.Filter(table, joined), Newest);
    Ordering.CountIsFilterLength(table, joined);
  }

  /** Each joined row of the user is selected as often as the table holds it, no other row at all. */
  lemma OwnedRowCounts(table: seq<ScheduledRow>, accountRows: map<int, AccountRow>, userId: int, x: ScheduledRow)
    ensures multiset(OwnedRows(table, accountRows, userId))[x] ==
      if x.userId == userId && x.accountId in accountRows then multiset(table)[x] else 0
  {
    Ordering.FilterCounts(table, OwnedJoined(accountRows, userId), x);
  }

  /**
   * `ScheduledPayment.findByUser`: the user's payments whose source account exists
   * (the inner join), newest created first, each with the account number decrypted.
   */
  function OwnedListing(p: Crypto.Primitives, table: seq<ScheduledRow>, accountRows: map<int, AccountRow>, userId: int)
    : (r: seq<ListedPayment>)
    ensures forall i :: 0 <= i < |r| ==>
      exists row :: row in table && row.userId == userId && row.accountId in accountRows && r[i] == Listed(p, accountRows, row)
    ensures forall row :: row in table && row.userId == userId && row.accountId in accountRows ==>
      Listed(p, accountRows, row) in r
    ensures |r| == Ordering.Count(table, OwnedJoined(accountRows, userId))
    ensures forall i, j :: 0 <= i < j < |r| ==> r[i].payment.createdAt >= r[j].payment.createdAt
  {
    var sorted := OwnedRows(table, accountRows, userId);
    OwnedRowsCount(table, accountRows, userId);
    var r := ListAll(p, accountRows, sorted);
    forall i | 0 <= i < |r|
      ensures exists row :: row in table && row.userId == userId && row.accountId in accountRows && r[i] == Listed(p, accountRows, row)
    {
      assert sorted[i] in sorted;
      var row := sorted[i];
      assert row in table && row.userId == userId && row.accountId in accountRows && r[i] == Listed(p, accountRows, row);
    }
    r
  }

  /** From a table whose ids are all different, no payment is listed twice. */
  lemma ListingOnce(p: Crypto.Primitives, table: seq<ScheduledRow>, accountRows: map<int, AccountRow>, userId: int)
    requires forall i, j :: 0 <= i < j < |table| ==> table[i].id != table[j].id
    ensures var r := OwnedListing(p, table, accountRows, userId);
      forall i, j :: 0 <= i < j < |r| ==> r[i].payment.id != r[j].payment.id
  {
    var sorted := OwnedRows(table, accountRows, userId);
    var r := OwnedListing(p, table, accountRows, userId);
    OwnedRowsOnce(table, accountRows, userId);
    assert forall i :: 0 <= i < |r| ==> r[i].payment.id == sorted[i].id;
  }

  lemma OwnedRowsOnce(table: seq<ScheduledRow>, accountRows: map<int, AccountRow>, userId: int)
    requires forall i, j :: 0 <= i < j < |table| ==> table[i].id != table[j].id
    ensures var r := OwnedRows(table, accountRows, userId); forall i, j :: 0 <= i < j < |r| ==> r[i].id != r[j].id
  {
    var r := OwnedRows(table, accountRows, userId);
    assert multiset(r) <= multiset(table) by {
      forall x ensures multiset(r)[x] <= multiset(table)[x] {
        OwnedRowCounts(table, accountRows, userId, x);
      }
    }
    Ordering.SubmultisetDistinct(table, r, (row: ScheduledRow) => row.id);
  }

  /** The row to remove: the one with this id, provided it belongs to the user. */
  function IndexOwned(rows: seq<ScheduledRow>, id: int, userId: int): (k: Option<nat>)
    ensures k.Some? ==> k.value < |rows| && rows[k.value].id == id && rows[k.value].userId == userId
    ensures k.None? ==> forall i :: 0 <= i < |rows| ==> !(rows[i].id == id && rows[i].userId == userId)
  {
    if rows == [] then None
    else if rows[0].id == id && rows[0].userId == userId then Some(0)
    else
      var rest := IndexOwned(rows[1..], id, userId);
      if rest.Some? then Some(rest.value + 1) else None
  }

  class ScheduleStore {
    /** The process-wide cipher and digest. */
    const crypto: Crypto.Primitives
    /** The table in insertion order. */
    var rows: seq<ScheduledRow>
    /** The next value of the `SERIAL` id sequence. */
    var nextId: int

    ghost predicate Valid()
      reads this
    {
      && Crypto.Sound(crypto)
      && nextId >= 1
      && (forall i :: 0 <= i < |rows| ==> 1 <= rows[i].id < nextId)
      && (forall i, j :: 0 <= i < j < |rows| ==> rows[i].id != rows[j].id)
    }

    constructor (crypto: Crypto.Primitives)
      requires Crypto.Sound(crypto)
      ensures Valid() && this.crypto == crypto && rows == [] && nextId == 1
    {
      this.crypto := crypto;
      rows := [];
      nextId := 1;
    }

    /**
     * `ScheduledPayment.create`: the payee IBAN stored encrypted and hashed, `next_run`
     * the start date's day, empty notes stored as `null`, status `scheduled`, both
     * timestamps `now`. The returned row reads back the normalised IBAN.
     */
    method Create(userId: int, accountId: int, payeeName: string, payeeIban: string, amount: int, frequency: string,
                  startDate: int, notes: Option<string>, now: int, iv: nat)
      returns (payment: ScheduledRow)
      requires Valid()
      modifies this
      ensures Valid()
      ensures var stored := ScheduledRow(old(nextId), userId, accountId, payeeName, Encrypt(crypto, Iban, iv, payeeIban),
                                         Hash(crypto, payeeIban), amount, frequency, startDate, Some(DayStart(startDate)),
                                         if Truthy(notes) then notes else None, "scheduled", now, now);
        && rows == old(rows) + [stored]
        && Some(payment) == Serialize(crypto, Some(stored))
      ensures nextId == old(nextId) + 1
      ensures payment.payeeIban == (if payeeIban == "" then None else Some(Normalize(payeeIban)))
      ensures payment.id == old(nextId) && payment.userId == userId && payment.accountId == accountId
      ensures payment.status == "scheduled" && payment.nextRun == Some(DayStart(startDate))
    {
      var stored := ScheduledRow(nextId, userId, accountId, payeeName, Encrypt(crypto, Iban, iv, payeeIban),
                                 Hash(crypto, payeeIban), amount, frequency, startDate, Some(DayStart(startDate)),
                                 if Truthy(notes) then notes else None, "scheduled", now, now);
      rows := rows + [stored];
      nextId := nextId + 1;
      payment := Serialize(crypto, Some(stored)).value;
      if payeeIban != "" {
        DecryptEncrypt(crypto, Iban, iv, payeeIban);
      }
    }

    /** `ScheduledPayment.findByUser` over the current tables: one listing per joined row of the user, newest first. */
    function FindByUser(accounts: AccountStore, userId: int): (r: seq<ListedPayment>)
      reads this, accounts
      ensures forall row :: row in rows && row.userId == userId && row.accountId in accounts.rows ==>
        Listed(crypto, accounts.rows, row) in r
      ensures |r| == Ordering.Count(rows, OwnedJoined(accounts.rows, userId))
      ensures forall i, j :: 0 <= i < j < |r| ==> r[i].payment.createdAt >= r[j].payment.createdAt
    {
      OwnedListing(crypto, rows, accounts.rows, userId)
    }

    /**
     * `ScheduledPayment.delete`: the row with this id is removed only when it belongs to
     * the user, and is returned serialized; otherwise nothing is removed.
     */
    method Delete(id: int, userId: int) returns (removed: Option<ScheduledRow>)
      requires Valid()
      modifies this`rows
      ensures Valid()
      ensures removed.None? <==> !exists i :: 0 <= i < |old(rows)| && old(rows)[i].id == id && old(rows)[i].userId == userId
      ensures removed.None? ==> rows == old(rows)
      ensures removed.Some? ==>
        exists row :: row in old(rows) && row.id == id && row.userId == userId
                      && removed == Serialize(crypto, Some(row))
                      && forall x :: x in rows <==> x in old(rows) && x != row
    {
      var k := IndexOwned(rows, id, userId);
      if k.None? {
        return None;
      }
      var row := rows[k.value];
      ghost var before := rows;
      rows := rows[..k.value] + rows[k.value + 1..];
      RemoveAtMembers(before, k.value);
      removed := Serialize(crypto, Some(row));
    }
  }

  /** Removing the row at `k` of a table with unique ids removes exactly that row. */
  lemma RemoveAtMembers(rows: seq<ScheduledRow>, k: nat)
    requires k < |rows|
    requires forall i, j :: 0 <= i < j < |rows| ==> rows[i].id != rows[j].id
    ensures forall x :: x in rows[..k] + rows[k + 1..] <==> x in rows && x != rows[k]
  {
    var after := rows[..k] + rows[k + 1..];
    forall x ensures x in after <==> x in rows && x != rows[k] {
      if x in rows && x != rows[k] {
        var j :| 0 <= j < |rows| && rows[j] == x;
        if j < k {
          assert after[j] == x;
        } else {
          assert after[j - 1] == x;
        }
      }
      if x in after {
        var j :| 0 <= j < |after| && after[j] == x;
        var src := if j < k then j else j + 1;
        assert rows[src] == x && src != k;
      }
    }
  }

  /**
   * `GET /api/scheduled-payments`: the caller's payments and no one else's, every one
   * of them whose source account exists, newest created first.
   */
  function ListScheduledPayments(store: ScheduleStore, accounts: AccountStore, callerId: int): (r: seq<ListedPayment>)
    reads store, accounts
    requires store.Valid()
    ensures forall i :: 0 <= i < |r| ==> r[i].payment.userId == callerId && r[i].payment in PaymentsOf(store, callerId)
    ensures forall row :: row in store.rows && row.userId == callerId && row.accountId in accounts.rows ==>
      Listed(store.crypto, accounts.rows, row) in r
    ensures |r| == Ordering.Count(store.rows, OwnedJoined(accounts.rows, callerId))
    ensures forall i, j :: 0 <= i < j < |r| ==> r[i].payment.id != r[j].payment.id
    ensures forall i, j :: 0 <= i < j < |r| ==> r[i].payment.createdAt >= r[j].payment.createdAt
  {
    ListingOnce(store.crypto, store.rows, accounts.rows, callerId);
    var r := store.FindByUser(accounts, callerId);
    forall i | 0 <= i < |r| ensures r[i].payment.userId == callerId && r[i].payment in PaymentsOf(store, callerId) {
      var row :| row in store.rows && row.userId == callerId && row.accountId in accounts.rows
                 && r[i] == Listed(store.crypto, accounts.rows, row);
    }
    r
  }

  /** The caller's stored rows as `serialize` hands them out. */
  function PaymentsOf(store: ScheduleStore, callerId: int): set<ScheduledRow>
    reads store
  {
    set row | row in store.rows && row.userId == callerId :: Serialize(store.crypto, Some(row)).value
  }

  /** A route's answer: status, error message, and the payment it carries. */
  datatype ScheduleReply = ScheduleReply(code: int, message: string, payment: Option<ScheduledRow>)

  const Inaccessible := "Account not found or inaccessible"

  /**
   * `POST /api/scheduled-payments`: the source account must exist and belong to the
   * caller, else 403 and no row; otherwise the payment is created for the caller.
   */
  method PostScheduledPayment(store: ScheduleStore, accounts: AccountStore, callerId: int, accountId: int, payeeName: string,
                              payeeIban: string, amount: int, frequency: string, startDate: int, notes: Option<string>,
                              now: int, iv: nat)
    returns (r: ScheduleReply)
    requires store.Valid()
    modifies store
    ensures store.Valid()
    ensures r == ScheduleReply(403, Inaccessible, None) <==> accountId !in accounts.rows || accounts.rows[accountId].userId != callerId
    ensures r.code == 403 ==> store.rows == old(store.rows) && store.nextId == old(store.nextId)
    ensures r.code != 403 ==>
      var row := ScheduledRow(old(store.nextId), callerId, accountId, payeeName,
                              Encrypt(store.crypto, Iban, iv, payeeIban), Hash(store.crypto, payeeIban), amount, frequency,
                              startDate, Some(DayStart(startDate)), if Truthy(notes) then notes else None,
                              "scheduled", now, now);
      && r.code == 201 && r.payment.Some?
      && store.rows == old(store.rows) + [row] && store.nextId == old(store.nextId) + 1
      && Some(r.payment.value) == Serialize(store.crypto, Some(row))
      && r.payment.value.payeeIban == (if payeeIban == "" then None else Some(Normalize(payeeIban)))
  {
    var account := accounts.FindById(accountId);
    if account.None? || account.value.userId != callerId {
      return ScheduleReply(403, Inaccessible, None);
    }
    var payment := store.Create(callerId, accountId, payeeName, payeeIban, amount, frequency, startDate, notes, now, iv);
    return ScheduleReply(201, "", Some(payment));
  }

  /**
   * `DELETE /api/scheduled-payments/:id`: 404 unless the caller owns a payment with that id.
   * The route parameter is taken as an integer; a non-integer text, which PostgreSQL refuses
   * with a 500, is not modelled.
   */
  method DeleteScheduledPayment(store: ScheduleStore, callerId: int, id: int) returns (r: ScheduleReply)
    requires store.Valid()
    modifies store`rows
    ensures store.Valid()
    ensures r == ScheduleReply(404, "Scheduled payment not found", None) <==>
      !exists i :: 0 <= i < |old(store.rows)| && old(store.rows)[i].id == id && old(store.rows)[i].userId == callerId
    ensures r.code == 404 ==> store.rows == old(store.rows)
    ensures r.code != 404 ==>
      && r.code == 200 && r.message == "Scheduled payment cancelled" && r.payment.Some?
      && r.payment.value.id == id && r.payment.value.userId == callerId
      && (exists row :: row in old(store.rows) && row.id == id && r.payment == Serialize(store.crypto, Some(row)))
      && (forall x :: x in store.rows <==> x in old(store.rows) && x.id != id)
  {
    var removed := store.Delete(id, callerId);
    if removed.None? {
      return ScheduleReply(404, "Scheduled payment not found", None);
    }
    ghost var row :| row in old(store.rows) && row.id == id && row.userId == callerId
                     && removed == Serialize(store.crypto, Some(row))
                     && forall x :: x in store.rows <==> x in old(store.rows) && x != row;
    forall x ensures x in store.rows <==> x in old(store.rows) && x.id != id {
      if x in old(store.rows) && x.id == id {
        var a :| 0 <= a < |old(store.rows)| && old(store.rows)[a] == x;
        var b :| 0 <= b < |old(store.rows)| && old(store.rows)[b] == row;
        assert a == b;
      }
    }
    return ScheduleReply(200, "Scheduled payment cancelled", removed);
  }
}
