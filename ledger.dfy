/**
 * The money-moving route handlers of `backend/routes/transactions.js` and the
 * account routes of `backend/routes/accounts.js`, each one atomic step over the
 * account store and the transaction log: load, check existence, ownership and
 * funds, overwrite the balance(s), append one log entry, answer a status code.
 *
 * `Books` is the invariant every handler keeps: balances are never negative,
 * every balance equals the net of the log entries that name its account, and
 * every log leg names an account id already handed out.
 */
module Ledger {
  import opened Wrappers
  import opened AccountNumbers
  import opened Accounts
  import opened Transactions
  import opened Validation
  import opened Text

  /** A route's answer: a success status with its payload, or an error status with the error message. */
  datatype Reply<T> = Success(code: int, value: T) | Failure(code: int, message: string)

  /** JavaScript's `===` on two raw ids: numbers by value, strings by text, a number never equals a string. */
  predicate StrictEquals(a: IdParam, b: IdParam) {
    match (a, b)
    case (Num(x), Num(y)) => x == y
    case (Str(s), Str(t)) => s == t
    case _ => false
  }

  predicate NonNegative(rows: map<int, AccountRow>) {
    forall id :: id in rows ==> rows[id].balance >= 0
  }

  /** Every balance is the net of the logged movements of its account (accounts open at 0). */
  predicate Reconciled(rows: map<int, AccountRow>, entries: seq<Entry>) {
    forall id :: id in rows ==> rows[id].balance == Net(entries, id)
  }

  /** Every id in the table or on a log leg is below the next id the table hands out. */
  predicate IdsIssued(rows: map<int, AccountRow>, entries: seq<Entry>, nextId: int) {
    && (forall id :: id in rows ==> id < nextId)
    && (forall i :: 0 <= i < |entries| ==> LegBelow(entries[i].fromAccountId, nextId) && LegBelow(entries[i].toAccountId, nextId))
  }

  predicate BooksOf(rows: map<int, AccountRow>, entries: seq<Entry>, nextId: int) {
    NonNegative(rows) && Reconciled(rows, entries) && IdsIssued(rows, entries, nextId)
  }

  ghost predicate Books(accounts: AccountStore, log: TransactionLog)
    reads accounts, log
  {
    accounts.Valid() && log.Valid() && BooksOf(accounts.rows, log.entries, accounts.nextId)
  }

  /**
   * Appending an entry while changing each balance by exactly what the entry does to
   * it keeps the books, provided no balance turns negative.
   */
  lemma PostKeepsBooks(rows: map<int, AccountRow>, entries: seq<Entry>, nextId: int, e: Entry, rows': map<int, AccountRow>)
    requires BooksOf(rows, entries, nextId)
    requires LegBelow(e.fromAccountId, nextId) && LegBelow(e.toAccountId, nextId)
    requires rows'.Keys == rows.Keys
    requires forall id :: id in rows ==> rows'[id].balance == rows[id].balance + Delta(e, id) && rows'[id].balance >= 0
    ensures BooksOf(rows', entries + [e], nextId)
  {
    forall id | id in rows' ensures rows'[id].balance == Net(entries + [e], id) {
      NetAppend(entries, e, id);
    }
    assert forall i :: 0 <= i < |entries| ==> (entries + [e])[i] == entries[i];
  }

  function Credited(rows: map<int, AccountRow>, id: int, amount: int): map<int, AccountRow>
    requires id in rows
  {
    rows[id := rows[id].(balance := rows[id].balance + amount)]
  }

  function Debited(rows: map<int, AccountRow>, id: int, amount: int): map<int, AccountRow>
    requires id in rows
  {
    rows[id := rows[id].(balance := rows[id].balance - amount)]
  }

  /** The transfer's two overwrites in source order, both computed from balances read before either write. */
  function TransferWrites(rows: map<int, AccountRow>, fromId: int, toId: int, amount: int): map<int, AccountRow>
    requires fromId in rows && toId in rows
  {
    var fromRow := rows[fromId];
    var toRow := rows[toId];
    rows[fromId := fromRow.(balance := fromRow.balance - amount)][toId := toRow.(balance := toRow.balance + amount)]
  }

  /** The closure sweep's two overwrites: the destination gains the whole balance, then the source is set to 0. */
  function SweepWrites(rows: map<int, AccountRow>, id: int, destination: int): map<int, AccountRow>
    requires id in rows && destination in rows
  {
    var moved := rows[id].balance;
    rows[destination := rows[destination].(balance := rows[destination].balance + moved)][id := rows[id].(balance := 0)]
  }

  predicate Owned(rows: map<int, AccountRow>, id: int, caller: int) {
    id in rows && rows[id].userId == caller
  }

  /** Posts `amount` into account `id` from outside the bank. */
  method Credit(accounts: AccountStore, log: TransactionLog, id: int, amount: int, kind: TxType, description: Description, now: int)
    returns (entry: Entry)
    requires Books(accounts, log) && id in accounts.rows && amount > 0
    modifies accounts`rows, log
    ensures Books(accounts, log)
    ensures accounts.rows == Credited(old(accounts.rows), id, amount)
    ensures entry == Entry(old(log.nextId), None, Some(id), amount, kind, "completed", description, now)
    ensures log.entries == old(log.entries) + [entry]
    ensures accounts.Total() == old(accounts.Total()) + amount
  {
    var updated := accounts.UpdateBalance(id, accounts.rows[id].balance + amount);
    entry := log.Create(None, Some(id), amount, kind, now, "completed", description);
    PostKeepsBooks(old(accounts.rows), old(log.entries), accounts.nextId, entry, accounts.rows);
  }

  /** Pays `amount` out of account `id` to outside the bank; the caller has checked the funds. */
  method Debit(accounts: AccountStore, log: TransactionLog, id: int, amount: int, kind: TxType, description: Description, now: int)
    returns (entry: Entry)
    requires Books(accounts, log) && id in accounts.rows && 0 < amount <= accounts.rows[id].balance
    modifies accounts`rows, log
    ensures Books(accounts, log)
    ensures accounts.rows == Debited(old(accounts.rows), id, amount)
    ensures entry == Entry(old(log.nextId), Some(id), None, amount, kind, "completed", description, now)
    ensures log.entries == old(log.entries) + [entry]
    ensures accounts.Total() == old(accounts.Total()) - amount
  {
    var updated := accounts.UpdateBalance(id, accounts.rows[id].balance - amount);
    entry := log.Create(Some(id), None, amount, kind, now, "completed", description);
    PostKeepsBooks(old(accounts.rows), old(log.entries), accounts.nextId, entry, accounts.rows);
  }

  /**
   * `POST /external/incoming`: credits the account whose IBAN digest matches, with no
   * ownership check (the API-key gate runs before), and logs the sender.
   */
  method PostExternalIncoming(accounts: AccountStore, log: TransactionLog, iban: string, senderName: Option<string>,
                              amount: int, reference: Option<string>, now: int)
    returns (r: Reply<Entry>)
    requires Books(accounts, log) && amount > 0
    modifies accounts`rows, log
    ensures Books(accounts, log)
    ensures r == Failure(404, "Destination account not found for provided IBAN") <==> old(accounts.FindByIban(iban)).None?
    ensures r.Failure? ==> r.code == 404 && unchanged(accounts, log)
    ensures r.Success? ==>
      var id := old(accounts.FindByIban(iban)).value.id;
      && r.code == 201
      && accounts.rows == Credited(old(accounts.rows), id, amount)
      && r.value == Entry(old(log.nextId), None, Some(id), amount, ExternalIncoming, "completed",
                          Metadata(senderName, Some(iban), None, None, reference), now)
      && log.entries == old(log.entries) + [r.value]
  {
    var account := accounts.FindByIban(iban);
    if account.None? {
      return Failure(404, "Destination account not found for provided IBAN");
    }
    var entry := Credit(accounts, log, account.value.id, amount, ExternalIncoming,
                        Metadata(senderName, Some(iban), None, None, reference), now);
    return Success(201, entry);
  }

  /** `POST /deposit`: a cash deposit into one of the caller's accounts. */
  method PostDeposit(accounts: AccountStore, log: TransactionLog, caller: int, accountId: IdParam, amount: int, now: int)
    returns (r: Reply<Entry>)
    requires Books(accounts, log) && amount > 0 && accountId.IsInt()
    modifies accounts`rows, log
    ensures Books(accounts, log)
    ensures r == Failure(400, "Account ID is required") <==> accountId == Num(0)
    ensures r == Failure(404, "Account not found") <==> accountId != Num(0) && accountId.Id() !in old(accounts.rows)
    ensures r == Failure(403, "Access denied") <==>
      accountId != Num(0) && accountId.Id() in old(accounts.rows) && old(accounts.rows)[accountId.Id()].userId != caller
    ensures r.Failure? ==> unchanged(accounts, log)
    ensures r.Success? ==>
      && r.code == 201
      && accounts.rows == Credited(old(accounts.rows), accountId.Id(), amount)
      && r.value == Entry(old(log.nextId), None, Some(accountId.Id()), amount, Deposit, "completed",
                          NoMetadata.(externalFromName := Some("CASH IN")), now)
      && log.entries == old(log.entries) + [r.value]
  {
    if accountId == Num(0) {
      return Failure(400, "Account ID is required");
    }
    var account := accounts.FindById(accountId.Id());
    if account.None? {
      return Failure(404, "Account not found");
    }
    if account.value.userId != caller {
      return Failure(403, "Access denied");
    }
    var entry := Credit(accounts, log, accountId.Id(), amount, Deposit, NoMetadata.(externalFromName := Some("CASH IN")), now);
    return Success(201, entry);
  }

  /** `POST /withdraw`: a cash withdrawal, refused when the balance is below the amount. */
  method PostWithdraw(accounts: AccountStore, log: TransactionLog, caller: int, accountId: IdParam, amount: int, now: int)
    returns (r: Reply<Entry>)
    requires Books(accounts, log) && amount > 0 && accountId.IsInt()
    modifies accounts`rows, log
    ensures Books(accounts, log)
    ensures r == Failure(400, "Account ID is required") <==> accountId == Num(0)
    ensures r == Failure(404, "Account not found") <==> accountId != Num(0) && accountId.Id() !in old(accounts.rows)
    ensures r == Failure(403, "Access denied") <==>
      accountId != Num(0) && accountId.Id() in old(accounts.rows) && old(accounts.rows)[accountId.Id()].userId != caller
    ensures r == Failure(400, "Insufficient funds") <==>
      accountId != Num(0) && Owned(old(accounts.rows), accountId.Id(), caller) && old(accounts.rows)[accountId.Id()].balance < amount
    ensures r.Failure? ==> unchanged(accounts, log)
    ensures r.Success? ==>
      && r.code == 201
      && accounts.rows == Debited(old(accounts.rows), accountId.Id(), amount)
      && r.value == Entry(old(log.nextId), Some(accountId.Id()), None, amount, Withdrawal, "completed",
                          NoMetadata.(externalToName := Some("CASH OUT")), now)
      && log.entries == old(log.entries) + [r.value]
  {
    if accountId == Num(0) {
      return Failure(400, "Account ID is required");
    }
    var account := accounts.FindById(accountId.Id());
    if account.None? {
      return Failure(404, "Account not found");
    }
    if account.value.userId != caller {
      return Failure(403, "Access denied");
    }
    if account.value.balance < amount {
      return Failure(400, "Insufficient funds");
    }
    var entry := Debit(accounts, log, accountId.Id(), amount, Withdrawal, NoMetadata.(externalToName := Some("CASH OUT")), now);
    return Success(201, entry);
  }

  /**
   * `POST /external/outgoing`: a payment to an outside IBAN. A missing and a foreign
   * source answer the same 403; the amount is checked here, not by a validator.
   */
  method PostExternalOutgoing(accounts: AccountStore, log: TransactionLog, caller: int, fromAccountId: int,
                              recipientName: Option<string>, recipientIban: Option<string>, amount: int,
                              reference: Option<string>, now: int)
    returns (r: Reply<Entry>)
    requires Books(accounts, log)
    modifies accounts`rows, log
    ensures Books(accounts, log)
    ensures r == Failure(403, "Source account not found or inaccessible") <==> !Owned(old(accounts.rows), fromAccountId, caller)
    ensures r == Failure(400, "Amount must be positive") <==> Owned(old(accounts.rows), fromAccountId, caller) && amount <= 0
    ensures r == Failure(400, "Insufficient funds") <==>
      Owned(old(accounts.rows), fromAccountId, caller) && amount > 0 && old(accounts.rows)[fromAccountId].balance < amount
    ensures r.Failure? ==> unchanged(accounts, log)
    ensures r.Success? ==>
      && r.code == 201
      && accounts.rows == Debited(old(accounts.rows), fromAccountId, amount)
      && r.value == Entry(old(log.nextId), Some(fromAccountId), None, amount, ExternalOutgoing, "completed",
                          Metadata(None, None, recipientName, recipientIban, reference), now)
      && log.entries == old(log.entries) + [r.value]
  {
    var account := accounts.FindById(fromAccountId);
    if account.None? || account.value.userId != caller {
      return Failure(403, "Source account not found or inaccessible");
    }
    if amount <= 0 {
      return Failure(400, "Amount must be positive");
    }
    if account.value.balance < amount {
      return Failure(400, "Insufficient funds");
    }
    var entry := Debit(accounts, log, fromAccountId, amount, ExternalOutgoing,
                       Metadata(None, None, recipientName, recipientIban, reference), now);
    return Success(201, entry);
  }

  /**
   * `POST /transfer` exactly as written: the same-account guard compares the two ids
   * with strict equality, so a number and a digit string naming one account, or two
   * strings written differently ("5", "05", "+5"), get through, and the second
   * overwrite then credits the account it just debited.
   * The books are only assumed valid as tables here, since this path can break them.
   */
  method PostTransferAsWritten(accounts: AccountStore, log: TransactionLog, caller: int, from: IdParam, to: IdParam,
                               amount: int, now: int)
    returns (r: Reply<Entry>)
    requires accounts.Valid() && log.Valid() && amount > 0 && from.IsInt() && to.IsInt()
    modifies accounts`rows, log
    ensures accounts.Valid() && log.Valid()
    ensures r == Failure(400, "Cannot transfer to the same account") <==> StrictEquals(from, to)
    ensures r == Failure(404, "One or both accounts not found") <==>
      !StrictEquals(from, to) && (from.Id() !in old(accounts.rows) || to.Id() !in old(accounts.rows))
    ensures r == Failure(403, "Access denied to source account") <==>
      !StrictEquals(from, to) && from.Id() in old(accounts.rows) && to.Id() in old(accounts.rows) && old(accounts.rows)[from.Id()].userId != caller
    ensures r == Failure(400, "Insufficient funds") <==>
      !StrictEquals(from, to) && Owned(old(accounts.rows), from.Id(), caller) && to.Id() in old(accounts.rows)
      && old(accounts.rows)[from.Id()].balance < amount
    ensures r.Failure? ==> unchanged(accounts, log)
    ensures r.Success? ==>
      && r.code == 201
      && accounts.rows == TransferWrites(old(accounts.rows), from.Id(), to.Id(), amount)
      && r.value == Entry(old(log.nextId), Some(from.Id()), Some(to.Id()), amount, Transfer, "completed", NoDescription, now)
      && log.entries == old(log.entries) + [r.value]
    ensures r.Success? ==> accounts.Total() == old(accounts.Total()) + (if from.Id() == to.Id() then amount else 0)
  {
    if StrictEquals(from, to) {
      return Failure(400, "Cannot transfer to the same account");
    }
    r := TransferBetween(accounts, log, caller, from.Id(), to.Id(), amount, now);
  }

  /**
   * The transfer route after its same-account guard, on the ids as the database
   * reads them: both accounts must exist, the source must be the caller's and hold
   * the amount; then both balances are written and one transfer is logged.
   */
  method TransferBetween(accounts: AccountStore, log: TransactionLog, caller: int, fromId: int, toId: int,
                         amount: int, now: int)
    returns (r: Reply<Entry>)
    requires accounts.Valid() && log.Valid() && amount > 0
    modifies accounts`rows, log
    ensures accounts.Valid() && log.Valid()
    ensures r == Failure(404, "One or both accounts not found") <==> fromId !in old(accounts.rows) || toId !in old(accounts.rows)
    ensures r == Failure(403, "Access denied to source account") <==>
      fromId in old(accounts.rows) && toId in old(accounts.rows) && old(accounts.rows)[fromId].userId != caller
    ensures r == Failure(400, "Insufficient funds") <==>
      Owned(old(accounts.rows), fromId, caller) && toId in old(accounts.rows) && old(accounts.rows)[fromId].balance < amount
    ensures r.Failure? ==> r.code == 404 || r.code == 403 || r.message == "Insufficient funds"
    ensures r.Failure? ==> unchanged(accounts, log)
    ensures r.Success? ==>
      && r.code == 201
      && accounts.rows == TransferWrites(old(accounts.rows), fromId, toId, amount)
      && r.value == Entry(old(log.nextId), Some(fromId), Some(toId), amount, Transfer, "completed", NoDescription, now)
      && log.entries == old(log.entries) + [r.value]
    ensures r.Success? ==> accounts.Total() == old(accounts.Total()) + (if fromId == toId then amount else 0)
  {
    var fromAccount := accounts.FindById(fromId);
    var toAccount := accounts.FindById(toId);
    if fromAccount.None? || toAccount.None? {
      return Failure(404, "One or both accounts not found");
    }
    if fromAccount.value.userId != caller {
      return Failure(403, "Access denied to source account");
    }
    var currentBalance := fromAccount.value.balance;
    if currentBalance < amount {
      return Failure(400, "Insufficient funds");
    }
    var entry := WriteTransfer(accounts, log, fromId, toId, amount, now);
    return Success(201, entry);
  }

  /**
   * The transfer's success path: both new balances computed from the rows as read,
   * written source first, then one transfer logged. When the two ids are the same
   * account the second write undoes the first and the total grows by `amount`.
   */
  method WriteTransfer(accounts: AccountStore, log: TransactionLog, fromId: int, toId: int, amount: int, now: int)
    returns (entry: Entry)
    requires accounts.Valid() && log.Valid() && fromId in accounts.rows && toId in accounts.rows
    modifies accounts`rows, log
    ensures accounts.Valid() && log.Valid()
    ensures accounts.rows == TransferWrites(old(accounts.rows), fromId, toId, amount)
    ensures entry == Entry(old(log.nextId), Some(fromId), Some(toId), amount, Transfer, "completed", NoDescription, now)
    ensures log.entries == old(log.entries) + [entry]
    ensures accounts.Total() == old(accounts.Total()) + (if fromId == toId then amount else 0)
  {
    var fromNewBalance := accounts.rows[fromId].balance - amount;
    var toNewBalance := accounts.rows[toId].balance + amount;
    var u1 := accounts.UpdateBalance(fromId, fromNewBalance);
    var u2 := accounts.UpdateBalance(toId, toNewBalance);
    entry := log.Create(Some(fromId), Some(toId), amount, Transfer, now);
  }

  /**
   * The same-account guard as written compares raw values, not ids: for every
   * account id, the number, its digit string, the string with a leading zero and
   * the string with a `+` sign all pass `isInt()` and name that one account, yet
   * `===` tells the number from the strings and the strings from each other.
   */
  lemma StrictGuardAdmitsSameAccount(n: nat)
    ensures var digits := Str(DecimalString(n)); var zero := Str("0" + DecimalString(n)); var plus := Str("+" + DecimalString(n));
      && Num(n).IsInt() && digits.IsInt() && zero.IsInt() && plus.IsInt()
      && Num(n).Id() == digits.Id() == zero.Id() == plus.Id() == n
      && !StrictEquals(Num(n), digits) && !StrictEquals(digits, zero) && !StrictEquals(Num(n), plus) && !StrictEquals(digits, plus)
  {
    NumberIsInt(n);
    SignAndZeroKeepId(DecimalString(n));
  }

  /** The strict guard never refuses two different accounts: equal raw values name one id. */
  lemma StrictEqualsSameId(a: IdParam, b: IdParam)
    requires a.IsInt() && b.IsInt() && StrictEquals(a, b)
    ensures a.Id() == b.Id()
  {
  }

  /** A transfer from an account to itself, as the writes stand, leaves the books unreconciled and the total inflated. */
  lemma {:induction false} SelfTransferBreaksBooks(rows: map<int, AccountRow>, entries: seq<Entry>, id: int, amount: int, e: Entry)
    requires Reconciled(rows, entries) && id in rows && amount > 0
    requires e.fromAccountId == Some(id) && e.toAccountId == Some(id) && e.amount == amount
    ensures TransferWrites(rows, id, id, amount)[id].balance == rows[id].balance + amount
    ensures !Reconciled(TransferWrites(rows, id, id, amount), entries + [e])
  {
    NetAppend(entries, e, id);
    assert Delta(e, id) == 0;
  }

  /**
   * `POST /transfer` with the same-account guard on the ids themselves: between two
   * distinct accounts, the source (owned by the caller) pays the destination (owned by
   * anyone); their sum and the total are preserved and the books stay reconciled.
   */
  method PostTransfer(accounts: AccountStore, log: TransactionLog, caller: int, from: IdParam, to: IdParam,
                      amount: int, now: int)
    returns (r: Reply<Entry>)
    requires Books(accounts, log) && amount > 0 && from.IsInt() && to.IsInt()
    modifies accounts`rows, log
    ensures Books(accounts, log)
    ensures r == Failure(400, "Cannot transfer to the same account") <==> from.Id() == to.Id()
    ensures r == Failure(404, "One or both accounts not found") <==>
      from.Id() != to.Id() && (from.Id() !in old(accounts.rows) || to.Id() !in old(accounts.rows))
    ensures r == Failure(403, "Access denied to source account") <==>
      from.Id() != to.Id() && from.Id() in old(accounts.rows) && to.Id() in old(accounts.rows) && old(accounts.rows)[from.Id()].userId != caller
    ensures r == Failure(400, "Insufficient funds") <==>
      from.Id() != to.Id() && Owned(old(accounts.rows), from.Id(), caller) && to.Id() in old(accounts.rows)
      && old(accounts.rows)[from.Id()].balance < amount
    ensures r.Failure? ==> unchanged(accounts, log)
    ensures r.Success? ==>
      && r.code == 201
      && accounts.rows == Credited(Debited(old(accounts.rows), from.Id(), amount), to.Id(), amount)
      && accounts.rows[from.Id()].balance + accounts.rows[to.Id()].balance == old(accounts.rows)[from.Id()].balance + old(accounts.rows)[to.Id()].balance
      && r.value == Entry(old(log.nextId), Some(from.Id()), Some(to.Id()), amount, Transfer, "completed", NoDescription, now)
      && log.entries == old(log.entries) + [r.value]
    ensures r.Success? ==> accounts.Total() == old(accounts.Total())
  {
    if from.Id() == to.Id() {
      return Failure(400, "Cannot transfer to the same account");
    }
    r := TransferBetween(accounts, log, caller, from.Id(), to.Id(), amount, now);
    if r.Success? {
      DistinctTransferKeepsBooks(old(accounts.rows), old(log.entries), accounts.nextId, from.Id(), to.Id(), amount, r.value);
    }
  }

  /** Between two distinct accounts the transfer's overwrites are a debit and a credit, and they keep the books. */
  lemma DistinctTransferKeepsBooks(rows: map<int, AccountRow>, entries: seq<Entry>, nextId: int,
                                   fromId: int, toId: int, amount: int, e: Entry)
    requires BooksOf(rows, entries, nextId) && fromId != toId && fromId in rows && toId in rows
    requires 0 < amount <= rows[fromId].balance
    requires e.fromAccountId == Some(fromId) && e.toAccountId == Some(toId) && e.amount == amount
    ensures TransferWrites(rows, fromId, toId, amount) == Credited(Debited(rows, fromId, amount), toId, amount)
    ensures var rows' := TransferWrites(rows, fromId, toId, amount);
      && rows'[fromId].balance + rows'[toId].balance == rows[fromId].balance + rows[toId].balance
      && BooksOf(rows', entries + [e], nextId)
  {
    var rows' := TransferWrites(rows, fromId, toId, amount);
    assert forall id :: id in rows ==> rows'[id].balance == rows[id].balance + Delta(e, id);
    PostKeepsBooks(rows, entries, nextId, e, rows');
  }

  /** What a money route answers: the validation gate's 400 with the collected messages, or the handler's reply. */
  datatype Routed<T> = Invalid(code: int, errors: seq<string>) | Handled(reply: Reply<T>)

  /**
   * `POST /deposit` with `depositWithdrawValidation` in front: only an id that passes
   * `isInt()` and an amount of at least one cent reach the handler, which is what
   * meets its preconditions.
   */
  method RouteDeposit(accounts: AccountStore, log: TransactionLog, caller: int, accountId: IdParam, cents: int,
                      now: int)
    returns (r: Routed<Entry>)
    requires Books(accounts, log)
    modifies accounts`rows, log
    ensures Books(accounts, log)
    ensures r.Invalid? <==> !accountId.IsInt() || cents <= 0
    ensures r.Invalid? ==> r.code == 400 && r.errors == DepositWithdrawErrors(accountId, cents)
    ensures r.Invalid? || r.reply.Failure? ==> unchanged(accounts, log)
    ensures r.Handled? && r.reply.Success? ==>
      && Owned(old(accounts.rows), accountId.Id(), caller)
      && accounts.rows == Credited(old(accounts.rows), accountId.Id(), cents)
      && log.entries == old(log.entries) + [r.reply.value] && r.reply.value.amount == cents
  {
    var gate := HandleValidationErrors(DepositWithdrawErrors(accountId, cents));
    if gate.Respond? {
      return Invalid(gate.code, gate.errors);
    }
    var reply := PostDeposit(accounts, log, caller, accountId, cents, now);
    return Handled(reply);
  }

  /** `POST /withdraw` with `depositWithdrawValidation` in front. */
  method RouteWithdraw(accounts: AccountStore, log: TransactionLog, caller: int, accountId: IdParam, cents: int,
                       now: int)
    returns (r: Routed<Entry>)
    requires Books(accounts, log)
    modifies accounts`rows, log
    ensures Books(accounts, log)
    ensures r.Invalid? <==> !accountId.IsInt() || cents <= 0
    ensures r.Invalid? ==> r.code == 400 && r.errors == DepositWithdrawErrors(accountId, cents)
    ensures r.Invalid? || r.reply.Failure? ==> unchanged(accounts, log)
    ensures r.Handled? && r.reply.Success? ==>
      && Owned(old(accounts.rows), accountId.Id(), caller)
      && accounts.rows == Debited(old(accounts.rows), accountId.Id(), cents)
      && log.entries == old(log.entries) + [r.reply.value] && r.reply.value.amount == cents
  {
    var gate := HandleValidationErrors(DepositWithdrawErrors(accountId, cents));
    if gate.Respond? {
      return Invalid(gate.code, gate.errors);
    }
    var reply := PostWithdraw(accounts, log, caller, accountId, cents, now);
    return Handled(reply);
  }

  /** `POST /transfer` with `transferValidation` in front, and the same-account guard on ids. */
  method RouteTransfer(accounts: AccountStore, log: TransactionLog, caller: int, from: IdParam, to: IdParam,
                       cents: int, now: int)
    returns (r: Routed<Entry>)
    requires Books(accounts, log)
    modifies accounts`rows, log
    ensures Books(accounts, log)
    ensures r.Invalid? <==> !from.IsInt() || !to.IsInt() || cents <= 0
    ensures r.Invalid? ==> r.code == 400 && r.errors == TransferErrors(from, to, cents)
    ensures r.Invalid? || r.reply.Failure? ==> unchanged(accounts, log)
    ensures r.Handled? && r.reply.Success? ==>
      && from.Id() != to.Id() && Owned(old(accounts.rows), from.Id(), caller) && to.Id() in old(accounts.rows)
      && accounts.rows == Credited(Debited(old(accounts.rows), from.Id(), cents), to.Id(), cents)
      && log.entries == old(log.entries) + [r.reply.value] && r.reply.value.amount == cents
      && accounts.Total() == old(accounts.Total())
  {
    var gate := HandleValidationErrors(TransferErrors(from, to, cents));
    if gate.Respond? {
      return Invalid(gate.code, gate.errors);
    }
    var reply := PostTransfer(accounts, log, caller, from, to, cents, now);
    return Handled(reply);
  }

  /** The `GET /balance/:account_id` payload. */
  datatype BalanceView = BalanceView(accountId: int, accountNumber: Option<string>, balance: int)

  /**
   * `GET /balance/:account_id`: the decrypted number and the balance of one of the caller's
   * accounts. The route parameter is taken as an integer; a non-integer text, which
   * PostgreSQL refuses with a 500, is not modelled.
   */
  function GetBalance(accounts: AccountStore, caller: int, accountId: int): (r: Reply<BalanceView>)
    reads accounts
    requires accounts.Valid()
    ensures r == Failure(404, "Account not found") <==> accountId !in accounts.rows
    ensures r == Failure(403, "Access denied") <==> accountId in accounts.rows && accounts.rows[accountId].userId != caller
    ensures r.Success? <==> Owned(accounts.rows, accountId, caller)
    ensures r.Success? ==> r.code == 200 && r.value == BalanceView(accountId,
      Decrypt(accounts.crypto, AccountNumber, accounts.rows[accountId].accountNumber), accounts.rows[accountId].balance)
  {
    var account := accounts.FindById(accountId);
    if account.None? then Failure(404, "Account not found")
    else if account.value.userId != caller then Failure(403, "Access denied")
    else Success(200, BalanceView(account.value.id, account.value.accountNumber, account.value.balance))
  }

  /** `GET /accounts`: exactly the caller's accounts, decrypted, newest first. */
  function ListAccounts(accounts: AccountStore, caller: int): (r: seq<AccountRow>)
    reads accounts
    requires accounts.Valid()
    ensures forall i :: 0 <= i < |r| ==> Owned(accounts.rows, r[i].id, caller)
    ensures forall id :: Owned(accounts.rows, id, caller) ==> Deserialize(accounts.crypto, Some(accounts.rows[id])).value in r
    ensures forall i, j :: 0 <= i < j < |r| ==> r[i].id != r[j].id
    ensures forall i, j :: 0 <= i < j < |r| ==> r[i].createdAt >= r[j].createdAt
  {
    accounts.FindByUserIdOwned(caller);
    accounts.FindByUserIdOnce(caller);
    accounts.FindByUserId(caller)
  }

  /**
   * `GET /accounts/:id`: one of the caller's accounts, decrypted. The route parameter is
   * taken as an integer; a non-integer text, which PostgreSQL refuses with a 500, is not modelled.
   */
  function GetAccount(accounts: AccountStore, caller: int, id: int): (r: Reply<AccountRow>)
    reads accounts
    ensures r == Failure(404, "Account not found") <==> id !in accounts.rows
    ensures r == Failure(403, "Access denied") <==> id in accounts.rows && accounts.rows[id].userId != caller
    ensures r.Success? <==> Owned(accounts.rows, id, caller)
    ensures r.Success? ==> r.code == 200 && Some(r.value) == Deserialize(accounts.crypto, Some(accounts.rows[id]))
  {
    var account := accounts.FindById(id);
    if account.None? then Failure(404, "Account not found")
    else if account.value.userId != caller then Failure(403, "Access denied")
    else Success(200, account.value)
  }

  /**
   * `POST /accounts`: opens an account for the caller with balance 0. A unique-index
   * violation on the generated identifiers surfaces as a server error.
   */
  method PostAccount(accounts: AccountStore, log: TransactionLog, caller: int, accountType: string, now: nat, draw: AccountDraw)
    returns (r: Reply<AccountRow>)
    requires Books(accounts, log) && WellFormedDraw(draw) && Validation.IsAccountType(accountType)
    modifies accounts`rows, accounts`ids, accounts`nextId
    ensures Books(accounts, log)
    ensures r.Failure? <==> Collides(old(accounts.rows), NewRow(accounts.crypto, old(accounts.nextId), caller, accountType, now, draw))
    ensures r.Failure? ==> r.code == 500 && accounts.rows == old(accounts.rows) && accounts.ids == old(accounts.ids)
    ensures accounts.nextId == old(accounts.nextId) + 1
    ensures r.Success? ==>
      && r.code == 201
      && r.value.id == old(accounts.nextId) && r.value.userId == caller && r.value.balance == 0
      && r.value.accountType == accountType
      && accounts.rows == old(accounts.rows)[r.value.id := NewRow(accounts.crypto, r.value.id, caller, accountType, now, draw)]
      && r.value.accountNumber == Some(GenerateAccountNumber(draw.clockMillis, draw.numberBytes))
      && r.value.iban == Some(GenerateIban(draw.ibanBytes, draw.ibanSha1))
  {
    var account := accounts.Create(caller, accountType, now, draw);
    if account.None? {
      return Failure(500, "");
    }
    NewRowReadsBack(accounts.crypto, old(accounts.nextId), caller, accountType, now, draw);
    NetOfFresh(log.entries, old(accounts.nextId));
    return Success(201, account.value);
  }

  /** The closure sweep: the whole balance of `id` moves to `destination` and is logged as one transfer. */
  method Sweep(accounts: AccountStore, log: TransactionLog, id: int, destination: int, now: int)
    requires Books(accounts, log) && id in accounts.rows && destination in accounts.rows && id != destination
    requires accounts.rows[id].balance > 0
    modifies accounts`rows, log
    ensures Books(accounts, log)
    ensures accounts.rows == SweepWrites(old(accounts.rows), id, destination)
    ensures log.entries == old(log.entries) + [Entry(old(log.nextId), Some(id), Some(destination), old(accounts.rows)[id].balance,
                                                      Transfer, "completed", NoMetadata.(reference := Some(ClosureReference)), now)]
    ensures accounts.Total() == old(accounts.Total())
  {
    var balance := accounts.rows[id].balance;
    var u1 := accounts.UpdateBalance(destination, accounts.rows[destination].balance + balance);
    var u2 := accounts.UpdateBalance(id, 0);
    var entry := log.Create(Some(id), Some(destination), balance, Transfer, now, "completed",
                            NoMetadata.(reference := Some(ClosureReference)));
    PostKeepsBooks(old(accounts.rows), old(log.entries), accounts.nextId, entry, accounts.rows);
  }

  /** The `DELETE /accounts/:id` payload. */
  datatype Closure = Closure(transferredAmount: int, transferAccountId: Option<int>)

  const RemainingBalance := "Account has a remaining balance. Provide transfer_account_id to move funds before deletion."
  const ClosureReference := "Balance transfer before account closure"

  /**
   * `DELETE /accounts/:id`: closes one of the caller's accounts. A positive balance
   * must first be swept, in full, into another account of the caller; `transferTo`
   * is `None` when no (or a falsy) `transfer_account_id` was given. Both ids are taken as
   * integers; a non-integer text, which PostgreSQL refuses with a 500, is not modelled.
   */
  method DeleteAccount(accounts: AccountStore, log: TransactionLog, caller: int, id: int, transferTo: Option<int>, now: int)
    returns (r: Reply<Closure>)
    requires Books(accounts, log)
    modifies accounts`rows, accounts`ids, log
    ensures Books(accounts, log)
    ensures r == Failure(404, "Account not found") <==> id !in old(accounts.rows)
    ensures r == Failure(403, "Access denied") <==> id in old(accounts.rows) && old(accounts.rows)[id].userId != caller
    ensures r == Failure(400, RemainingBalance) <==>
      Owned(old(accounts.rows), id, caller) && old(accounts.rows)[id].balance > 0 && transferTo.None?
    ensures r == Failure(400, "Cannot transfer funds to the same account") <==>
      Owned(old(accounts.rows), id, caller) && old(accounts.rows)[id].balance > 0 && transferTo == Some(id)
    ensures r == Failure(403, "Destination account not found or inaccessible") <==>
      && Owned(old(accounts.rows), id, caller) && old(accounts.rows)[id].balance > 0
      && transferTo.Some? && transferTo.value != id && !Owned(old(accounts.rows), transferTo.value, caller)
    ensures r.Failure? ==> unchanged(accounts, log)
    ensures r.Success? ==> r.code == 200 && id !in accounts.rows && accounts.Total() == old(accounts.Total())
    ensures r.Success? && old(accounts.rows)[id].balance > 0 ==>
      var moved := old(accounts.rows)[id].balance;
      && r.value == Closure(moved, transferTo)
      && accounts.rows == SweepWrites(old(accounts.rows), id, transferTo.value) - {id}
      && log.entries == DetachAll(old(log.entries) + [Entry(old(log.nextId), Some(id), Some(transferTo.value), moved, Transfer,
                                                             "completed", NoMetadata.(reference := Some(ClosureReference)), now)], id)
    ensures r.Success? && old(accounts.rows)[id].balance <= 0 ==>
      && r.value == Closure(0, transferTo)
      && accounts.rows == old(accounts.rows) - {id}
      && log.entries == DetachAll(old(log.entries), id)
  {
    var account := accounts.FindById(id);
    if account.None? {
      return Failure(404, "Account not found");
    }
    if account.value.userId != caller {
      return Failure(403, "Access denied");
    }
    var balance := account.value.balance;
    if balance > 0 {
      if transferTo.None? {
        return Failure(400, RemainingBalance);
      }
      var destinationId := transferTo.value;
      if destinationId == id {
        return Failure(400, "Cannot transfer funds to the same account");
      }
      var destination := accounts.FindById(destinationId);
      if destination.None? || destination.value.userId != caller {
        return Failure(403, "Destination account not found or inaccessible");
      }
    }
    var moved, deleted := CloseAccount(accounts, log, id, transferTo, now);
    r := if deleted then Success(200, Closure(moved, transferTo)) else Failure(500, "Failed to delete account");
  }

  /**
   * The closure once every check has passed: a positive balance swept in full into
   * the destination, then the row deleted. Books and total are kept.
   */
  method CloseAccount(accounts: AccountStore, log: TransactionLog, id: int, transferTo: Option<int>, now: int)
    returns (moved: int, deleted: bool)
    requires Books(accounts, log) && id in accounts.rows
    requires accounts.rows[id].balance > 0 ==>
      transferTo.Some? && transferTo.value != id && transferTo.value in accounts.rows
    modifies accounts`rows, accounts`ids, log
    ensures Books(accounts, log)
    ensures deleted && id !in accounts.rows && accounts.Total() == old(accounts.Total())
    ensures old(accounts.rows)[id].balance > 0 ==>
      && moved == old(accounts.rows)[id].balance
      && accounts.rows == SweepWrites(old(accounts.rows), id, transferTo.value) - {id}
      && log.entries == DetachAll(old(log.entries) + [Entry(old(log.nextId), Some(id), Some(transferTo.value), moved, Transfer,
                                                             "completed", NoMetadata.(reference := Some(ClosureReference)), now)], id)
    ensures old(accounts.rows)[id].balance <= 0 ==>
      moved == 0 && accounts.rows == old(accounts.rows) - {id} && log.entries == DetachAll(old(log.entries), id)
  {
    moved := accounts.rows[id].balance;
    if moved > 0 {
      Sweep(accounts, log, id, transferTo.value, now);
    } else {
      moved := 0;
    }
    deleted := RemoveEmpty(accounts, log, id);
  }

  /**
   * Deleting an account whose balance is 0, with the log's legs naming it set to
   * `null` by the foreign keys, keeps the books and the total.
   */
  method RemoveEmpty(accounts: AccountStore, log: TransactionLog, id: int) returns (deleted: bool)
    requires Books(accounts, log) && id in accounts.rows && accounts.rows[id].balance == 0
    modifies accounts`rows, accounts`ids, log`entries
    ensures Books(accounts, log)
    ensures deleted && accounts.rows == old(accounts.rows) - {id}
    ensures log.entries == DetachAll(old(log.entries), id) && log.nextId == old(log.nextId)
    ensures accounts.Total() == old(accounts.Total())
  {
    deleted := accounts.Delete(id);
    log.DetachAccount(id);
    forall other | other in accounts.rows ensures accounts.rows[other].balance == Net(log.entries, other) {
      NetDetach(old(log.entries), id, other);
    }
  }
}
