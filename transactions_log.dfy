/**
 * The append-only `transactions` table of `backend/models/Transaction.js`:
 * `create` appends one entry; the finders select by account or by owning
 * user, filter by type and by an inclusive date range, order newest first
 * and paginate; the count agrees with the unpaginated selection. Amounts are
 * in cents and timestamps in milliseconds.
 */
module Transactions {
  import opened Wrappers
  import Ordering
  import Accounts

  datatype TxType = Deposit | Withdrawal | Transfer | ExternalIncoming | ExternalOutgoing {
    /** The value stored in the `type` column. */
    function Name(): string {
      match this
      case Deposit => "deposit"
      case Withdrawal => "withdrawal"
      case Transfer => "transfer"
      case ExternalIncoming => "external_incoming"
      case ExternalOutgoing => "external_outgoing"
    }
  }

  /** The `description` column: `null`, a plain string, or the JSON object of an external counterparty. */
  datatype Description =
    | NoDescription
    | Text(text: string)
    | Metadata(
        externalFromName: Option<string>,
        externalFromIban: Option<string>,
        externalToName: Option<string>,
        externalToIban: Option<string>,
        reference: Option<string>)

  /** A `Metadata` description with every key absent. */
  const NoMetadata := Metadata(None, None, None, None, None)

  /** One row of `transactions`; a `None` leg is the outside world. */
  datatype Entry = Entry(
    id: int,
    fromAccountId: Option<int>,
    toAccountId: Option<int>,
    amount: int,
    kind: TxType,
    status: string,
    description: Description,
    timestamp: int)

  class TransactionLog {
    var entries: seq<Entry>
    /** The next value of the `SERIAL` id sequence. */
    var nextId: int

    ghost predicate Valid()
      reads this
    {
      nextId >= 1 && forall i :: 0 <= i < |entries| ==> 1 <= entries[i].id < nextId
    }

    constructor ()
      ensures Valid() && entries == [] && nextId == 1
    {
      entries := [];
      nextId := 1;
    }

    /**
     * `Transaction.create`: appends exactly one entry stamped with `now`; the
     * status defaults to `completed` and the description to `null`.
     */
    method Create(fromAccountId: Option<int>, toAccountId: Option<int>, amount: int, kind: TxType, now: int,
                  status: string := "completed", description: Description := NoDescription)
      returns (entry: Entry)
      requires Valid()
      modifies this
      ensures Valid()
      ensures entry == Entry(old(nextId), fromAccountId, toAccountId, amount, kind, status, description, now)
      ensures entries == old(entries) + [entry] && nextId == old(nextId) + 1
    {
      entry := Entry(nextId, fromAccountId, toAccountId, amount, kind, status, description, now);
      entries := entries + [entry];
      nextId := nextId + 1;
    }

    /**
     * `ON DELETE SET NULL` on both legs: deleting account `id` blanks every leg that
     * names it and leaves every other column and every other leg as it was.
     */
    method DetachAccount(id: int)
      requires Valid()
      modifies this`entries
      ensures Valid()
      ensures entries == DetachAll(old(entries), id)
    {
      entries := DetachAll(entries, id);
    }
  }

  /** A leg after account `id` is deleted. */
  function DetachLeg(leg: Option<int>, id: int): Option<int> {
    if leg == Some(id) then None else leg
  }

  /** Every entry with the legs naming account `id` set to `null`, in log order. */
  function DetachAll(entries: seq<Entry>, id: int): (r: seq<Entry>)
    ensures |r| == |entries|
    ensures forall i :: 0 <= i < |entries| ==>
      r[i] == entries[i].(fromAccountId := DetachLeg(entries[i].fromAccountId, id), toAccountId := DetachLeg(entries[i].toAccountId, id))
  {
    seq(|entries|, i requires 0 <= i < |entries| =>
      entries[i].(fromAccountId := DetachLeg(entries[i].fromAccountId, id), toAccountId := DetachLeg(entries[i].toAccountId, id)))
  }

  /** The optional query filters; a `None` or zero value is the clause left out, as a falsy value is in the source. */
  datatype Filters = Filters(kind: Option<string>, startDate: Option<int>, endDate: Option<int>, limit: nat, offset: nat)

  /** The `type`, `startDate` and `endDate` clauses, conjoined; both date bounds are inclusive. */
  predicate MatchesFilters(e: Entry, f: Filters) {
    && (f.kind.None? || f.kind.value == "" || e.kind.Name() == f.kind.value)
    && (f.startDate.None? || e.timestamp >= f.startDate.value)
    && (f.endDate.None? || e.timestamp <= f.endDate.value)
  }

  function Timestamp(e: Entry): int { e.timestamp }

  predicate NewestFirst(s: seq<Entry>) {
    Ordering.SortedDesc(s, Timestamp)
  }

  /** `WHERE where AND <filters> ORDER BY t.timestamp DESC`: exactly the matching entries, newest first. */
  function Selection(entries: seq<Entry>, where: Entry -> bool, f: Filters): (r: seq<Entry>)
    ensures NewestFirst(r)
    ensures forall e :: e in r <==> e in entries && where(e) && MatchesFilters(e, f)
    ensures |r| == Ordering.Count(entries, (e: Entry) => where(e) && MatchesFilters(e, f))
  {
    var selected := (e: Entry) => where(e) && MatchesFilters(e, f);
    Ordering.SelectSortedMembers(entries, selected, Timestamp);
    Ordering.SortDescLength(Ordering.Filter(entries, selected), Timestamp);
    Ordering.CountIsFilterLength(entries, selected);
    Ordering.SortDesc(Ordering.Filter(entries, selected), Timestamp)
  }

  /** Each matching entry is selected as often as the log holds it, every other entry not at all. */
  lemma SelectionCounts(entries: seq<Entry>, where: Entry -> bool, f: Filters, e: Entry)
    ensures multiset(Selection(entries, where, f))[e] == if where(e) && MatchesFilters(e, f) then multiset(entries)[e] else 0
  {
    Ordering.FilterCounts(entries, (e: Entry) => where(e) && MatchesFilters(e, f), e);
  }

  /**
   * The selection with `LIMIT limit [OFFSET offset]` applied when a limit is given:
   * without a limit, exactly the matching entries; with one, the window of at most
   * `limit` of them that starts `offset` entries in.
   */
  function Query(entries: seq<Entry>, where: Entry -> bool, f: Filters): (r: seq<Entry>)
    ensures NewestFirst(r)
    ensures forall e :: e in r ==> e in entries && where(e) && MatchesFilters(e, f)
    ensures f.limit == 0 ==> r == Selection(entries, where, f)
    ensures f.limit > 0 ==> |r| <= f.limit
    ensures var sel := Selection(entries, where, f);
      f.limit > 0 ==> |r| == Ordering.PageLength(|sel|, f.limit, f.offset) && forall i :: 0 <= i < |r| ==> r[i] == sel[f.offset + i]
  {
    var sorted := Selection(entries, where, f);
    Ordering.PaginateWindow(sorted, f.limit, f.offset, Timestamp);
    Ordering.Paginate(sorted, f.limit, f.offset)
  }

  /** A joined result row: the entry with the raw `account_number` column of each leg's account. */
  datatype Joined = Joined(entry: Entry, fromAccountNumber: Option<string>, toAccountNumber: Option<string>)

  /** `LEFT JOIN accounts ON leg = accounts.id`, column `account_number`, exactly as stored. */
  function NumberColumn(accounts: map<int, Accounts.AccountRow>, leg: Option<int>): Option<string> {
    if leg.Some? && leg.value in accounts then accounts[leg.value].accountNumber else None
  }

  function JoinAll(accounts: map<int, Accounts.AccountRow>, s: seq<Entry>): (r: seq<Joined>)
    ensures EntriesOf(r) == s
    ensures forall i :: 0 <= i < |r| ==> Joins(accounts, r[i])
  {
    var r := seq(|s|, i requires 0 <= i < |s| => Joined(s[i], NumberColumn(accounts, s[i].fromAccountId), NumberColumn(accounts, s[i].toAccountId)));
    assert EntriesOf(r) == s;
    r
  }

  function EntriesOf(r: seq<Joined>): (s: seq<Entry>)
    ensures |s| == |r| && forall i :: 0 <= i < |r| ==> s[i] == r[i].entry
  {
    seq(|r|, i requires 0 <= i < |r| => r[i].entry)
  }

  /** The row carries the stored account-number column of each leg's account. */
  predicate Joins(accounts: map<int, Accounts.AccountRow>, j: Joined) {
    && j.fromAccountNumber == NumberColumn(accounts, j.entry.fromAccountId)
    && j.toAccountNumber == NumberColumn(accounts, j.entry.toAccountId)
  }

  /** `t.from_account_id = $1 OR t.to_account_id = $1`. */
  predicate Involves(e: Entry, accountId: int) {
    e.fromAccountId == Some(accountId) || e.toAccountId == Some(accountId)
  }

  /** `fa.user_id = $1 OR ta.user_id = $1`: a leg whose joined account belongs to the user. */
  predicate TouchesUser(accounts: map<int, Accounts.AccountRow>, e: Entry, userId: int) {
    || (e.fromAccountId.Some? && e.fromAccountId.value in accounts && accounts[e.fromAccountId.value].userId == userId)
    || (e.toAccountId.Some? && e.toAccountId.value in accounts && accounts[e.toAccountId.value].userId == userId)
  }

  /** The `WHERE` condition of `findByAccountId`. */
  function Involving(accountId: int): Entry -> bool {
    (e: Entry) => Involves(e, accountId)
  }

  /** The `WHERE` condition of `findByUserId` and `countByUserId`. */
  function TouchingUser(accounts: map<int, Accounts.AccountRow>, userId: int): Entry -> bool {
    (e: Entry) => TouchesUser(accounts, e, userId)
  }

  /** `Transaction.findByAccountId`: the entries with a leg on the account, filtered, newest first, paginated. */
  function FindByAccountId(entries: seq<Entry>, accounts: map<int, Accounts.AccountRow>, accountId: int, f: Filters): (r: seq<Joined>)
    ensures NewestFirst(EntriesOf(r))
    ensures forall e :: e in EntriesOf(r) ==> e in entries && Involves(e, accountId) && MatchesFilters(e, f)
    ensures f.limit == 0 ==> forall e :: e in entries && Involves(e, accountId) && MatchesFilters(e, f) ==> e in EntriesOf(r)
    ensures f.limit > 0 ==> |r| <= f.limit
    ensures var sel := Selection(entries, Involving(accountId), f);
      && (f.limit == 0 ==> EntriesOf(r) == sel)
      && (f.limit > 0 ==> |r| == Ordering.PageLength(|sel|, f.limit, f.offset)
                          && forall i :: 0 <= i < |r| ==> r[i].entry == sel[f.offset + i])
    ensures forall i :: 0 <= i < |r| ==> Joins(accounts, r[i])
  {
    JoinAll(accounts, Query(entries, Involving(accountId), f))
  }

  /**
   * `Transaction.findByUserId`: the entries with a leg on one of the user's accounts,
   * filtered, newest first, paginated. The joined account numbers are returned as
   * stored, that is still encrypted.
   */
  function FindByUserId(entries: seq<Entry>, accounts: map<int, Accounts.AccountRow>, userId: int, f: Filters): (r: seq<Joined>)
    ensures NewestFirst(EntriesOf(r))
    ensures forall e :: e in EntriesOf(r) ==> e in entries && TouchesUser(accounts, e, userId) && MatchesFilters(e, f)
    ensures f.limit == 0 ==> forall e :: e in entries && TouchesUser(accounts, e, userId) && MatchesFilters(e, f) ==> e in EntriesOf(r)
    ensures f.limit > 0 ==> |r| <= f.limit
    ensures var sel := Selection(entries, TouchingUser(accounts, userId), f);
      && (f.limit == 0 ==> EntriesOf(r) == sel)
      && (f.limit > 0 ==> |r| == Ordering.PageLength(|sel|, f.limit, f.offset)
                          && forall i :: 0 <= i < |r| ==> r[i].entry == sel[f.offset + i])
    ensures forall i :: 0 <= i < |r| ==> Joins(accounts, r[i])
  {
    JoinAll(accounts, Query(entries, TouchingUser(accounts, userId), f))
  }

  /** `Transaction.countByUserId`: the number of entries the same selection holds, whatever the limit. */
  function CountByUserId(entries: seq<Entry>, accounts: map<int, Accounts.AccountRow>, userId: int, f: Filters): (n: nat)
    ensures n == |Selection(entries, TouchingUser(accounts, userId), f)|
  {
    var where := TouchingUser(accounts, userId);
    Ordering.CountSame(entries, (e: Entry) => where(e) && MatchesFilters(e, f),
                       (e: Entry) => TouchesUser(accounts, e, userId) && MatchesFilters(e, f));
    Ordering.Count(entries, (e: Entry) => TouchesUser(accounts, e, userId) && MatchesFilters(e, f))
  }

  /** The count is the length of the user's history under the same filters without a limit. */
  lemma CountIsUnpaginatedLength(entries: seq<Entry>, accounts: map<int, Accounts.AccountRow>, userId: int, f: Filters)
    ensures CountByUserId(entries, accounts, userId, f) == |FindByUserId(entries, accounts, userId, f.(limit := 0))|
  {
    var g := f.(limit := 0);
    var where := (e: Entry) => TouchesUser(accounts, e, userId);
    forall e: Entry ensures (where(e) && MatchesFilters(e, g)) == (TouchesUser(accounts, e, userId) && MatchesFilters(e, f)) {
    }
    Ordering.CountSame(entries, (e: Entry) => where(e) && MatchesFilters(e, g),
                       (e: Entry) => TouchesUser(accounts, e, userId) && MatchesFilters(e, f));
  }

  /** An entry none of whose legs names an account is in no user's history. */
  lemma OrphanEntriesHidden(entries: seq<Entry>, accounts: map<int, Accounts.AccountRow>, userId: int, f: Filters, e: Entry)
    requires e.fromAccountId.None? && e.toAccountId.None?
    ensures e !in EntriesOf(FindByUserId(entries, accounts, userId, f))
  {
  }

  /** What an entry does to one account's balance: credited as destination, debited as source. */
  function Delta(e: Entry, accountId: int): int {
    (if e.toAccountId == Some(accountId) then e.amount else 0) - (if e.fromAccountId == Some(accountId) then e.amount else 0)
  }

  /** The net effect of the whole log on one account. */
  function Net(entries: seq<Entry>, accountId: int): int {
    if entries == [] then 0 else Net(entries[..|entries| - 1], accountId) + Delta(entries[|entries| - 1], accountId)
  }

  /** Blanking the legs of a deleted account leaves the movement of every other account as it was. */
  lemma {:induction false} NetDetach(entries: seq<Entry>, id: int, other: int)
    requires other != id
    ensures Net(DetachAll(entries, id), other) == Net(entries, other)
  {
    if entries != [] {
      var front := entries[..|entries| - 1];
      assert DetachAll(entries, id)[..|entries| - 1] == DetachAll(front, id);
      NetDetach(front, id, other);
    }
  }

  lemma NetAppend(entries: seq<Entry>, e: Entry, accountId: int)
    ensures Net(entries + [e], accountId) == Net(entries, accountId) + Delta(e, accountId)
  {
    assert (entries + [e])[..|entries|] == entries;
  }

  predicate LegBelow(leg: Option<int>, bound: int) {
    leg.None? || leg.value < bound
  }

  /** An account id above every leg of the log has seen no movement. */
  lemma {:induction false} NetOfFresh(entries: seq<Entry>, accountId: int)
    requires forall i :: 0 <= i < |entries| ==> LegBelow(entries[i].fromAccountId, accountId) && LegBelow(entries[i].toAccountId, accountId)
    ensures Net(entries, accountId) == 0
  {
    if entries != [] {
      NetOfFresh(entries[..|entries| - 1], accountId);
    }
  }
}
