/**
 * The accounts table of `backend/models/Account.js`: rows keep the account
 * number and the IBAN encrypted, next to their lookup digests; reads decrypt
 * them. The store itself enforces no balance rule: `UpdateBalance` overwrites
 * unconditionally and the funds policy lives in the route handlers.
 */
module Accounts {
  import opened Wrappers
  import opened Text
  import Crypto
  import opened AccountNumbers
  import Ordering

  /**
   * One row of `accounts`. As stored, `accountNumber` and `iban` hold ciphertext;
   * after `Deserialize` they hold the plaintext. Balances are in cents.
   */
  datatype AccountRow = AccountRow(
    id: int,
    userId: int,
    accountNumber: Option<string>,
    accountNumberHash: Option<string>,
    iban: Option<string>,
    ibanHash: Option<string>,
    balance: int,
    accountType: string,
    createdAt: int)

  /**
   * What one `create` draws in the application: the `Date.now()` reading (milliseconds)
   * stamped into the number, bytes for the number and the IBAN, a SHA-1 digest, two
   * cipher IVs. The row's `created_at` is the database's own `NOW()`, a separate input.
   */
  datatype AccountDraw = AccountDraw(
    clockMillis: nat,
    numberBytes: seq<Byte>,
    ibanBytes: seq<Byte>,
    ibanSha1: seq<Byte>,
    numberIv: nat,
    ibanIv: nat)

  predicate WellFormedDraw(d: AccountDraw) {
    |d.numberBytes| == 6 && |d.ibanBytes| == 6 && |d.ibanSha1| == 20
  }

  predicate AllDigits(s: string) { forall i :: 0 <= i < |s| ==> IsDigit(s[i]) }
  predicate AllUpperHex(s: string) { forall i :: 0 <= i < |s| ==> IsUpperHex(s[i]) }

  /** The layout of a generated account number, given its two variable parts. */
  lemma NumberLayout(stamp: string, hex: string)
    requires AllDigits(stamp) && AllUpperHex(hex)
    ensures var r := "ACC-" + stamp + "-" + hex;
      && StartsWith(r, "ACC-") && NoSpace(r) && IsUpperCased(r)
      && |r| == 5 + |stamp| + |hex|
      && (forall i :: 4 <= i < 4 + |stamp| ==> IsDigit(r[i]))
      && r[4 + |stamp|] == '-'
      && (forall i :: 5 + |stamp| <= i < |r| ==> IsUpperHex(r[i]))
  {
    var r := "ACC-" + stamp + "-" + hex;
    assert forall i :: 4 <= i < 4 + |stamp| ==> r[i] == stamp[i - 4];
    assert forall i :: 5 + |stamp| <= i < |r| ==> r[i] == hex[i - 5 - |stamp|];
  }

  /**
   * `generateAccountNumber`: `ACC-`, the last six digits of the clock in milliseconds,
   * `-`, six random bytes in upper-case hex. Any clock past 100 seconds after the
   * epoch gives the full 23-character form.
   */
  function GenerateAccountNumber(nowMillis: nat, randomBytes: seq<Byte>): (r: string)
    requires |randomBytes| == 6
    ensures StartsWith(r, "ACC-") && NoSpace(r) && IsUpperCased(r)
    ensures nowMillis >= 100000 ==>
      && |r| == 23
      && (forall i :: 4 <= i < 10 ==> IsDigit(r[i]))
      && r[10] == '-'
      && (forall i :: 11 <= i < 23 ==> IsUpperHex(r[i]))
  {
    var stamp := LastN(DecimalString(nowMillis), 6);
    var hex := ToUpper(Hex(randomBytes));
    assert AllDigits(stamp) by {
      assert forall i :: 0 <= i < |stamp| ==> stamp[i] == DecimalString(nowMillis)[|DecimalString(nowMillis)| - |stamp| + i];
    }
    assert AllUpperHex(hex);
    NumberLayout(stamp, hex);
    assert nowMillis >= 100000 ==> |DecimalString(nowMillis)| > 5 by {
      if nowMillis >= 100000 {
        assert Pow10(5) == 100000;
        DecimalStringLength(nowMillis, 5);
      }
    }
    "ACC-" + stamp + "-" + hex
  }

  lemma GeneratedNumberIsNormal(nowMillis: nat, randomBytes: seq<Byte>)
    requires |randomBytes| == 6
    ensures Normalize(GenerateAccountNumber(nowMillis, randomBytes)) == GenerateAccountNumber(nowMillis, randomBytes)
  {
    NormalizeOfNormal(GenerateAccountNumber(nowMillis, randomBytes));
  }

  lemma GeneratedIbanIsNormal(randomBytes: seq<Byte>, sha1: seq<Byte>)
    requires |randomBytes| == 6 && |sha1| == 20
    ensures Normalize(GenerateIban(randomBytes, sha1)) == GenerateIban(randomBytes, sha1)
  {
    var r := GenerateIban(randomBytes, sha1);
    assert forall i :: 0 <= i < 4 ==> r[i] in "IBAN";
    NormalizeOfNormal(r);
  }

  /**
   * `deserializeAccount`: a missing row passes through; otherwise the account number
   * is decrypted, a missing IBAN reads as `null`, and every other column is kept.
   */
  function Deserialize(p: Crypto.Primitives, row: Option<AccountRow>): (r: Option<AccountRow>)
    ensures r.None? <==> row.None?
    ensures r.Some? ==> r.value.(accountNumber := row.value.accountNumber, iban := row.value.iban) == row.value
    ensures r.Some? ==> r.value.accountNumber == Decrypt(p, AccountNumber, row.value.accountNumber)
    ensures r.Some? ==> r.value.iban == Decrypt(p, Iban, row.value.iban)
  {
    match row
    case None => None
    case Some(a) =>
      Some(a.(accountNumber := Decrypt(p, AccountNumber, a.accountNumber),
              iban := if a.iban.Some? && a.iban.value != "" then Decrypt(p, Iban, a.iban) else None))
  }

  /** The lookup digest column of a kind: `account_number_hash` or `iban_hash`. */
  function DigestOf(kind: Kind, row: AccountRow): Option<string> {
    match kind
    case AccountNumber => row.accountNumberHash
    case Iban => row.ibanHash
  }

  /** The unique index on a digest column: distinct non-null values (SQL lets NULLs repeat). */
  predicate UniqueDigests(rows: map<int, AccountRow>, kind: Kind) {
    forall a, b :: a in rows && b in rows && a != b && DigestOf(kind, rows[a]).Some? ==> DigestOf(kind, rows[a]) != DigestOf(kind, rows[b])
  }

  predicate Distinct(ids: seq<int>) {
    forall i, j :: 0 <= i < j < |ids| ==> ids[i] != ids[j]
  }

  /** `ids` with `id` taken out. */
  function RemoveId(ids: seq<int>, id: int): (r: seq<int>)
    requires Distinct(ids)
    ensures Distinct(r)
    ensures forall x :: x in r <==> x in ids && x != id
  {
    if ids == [] then []
    else if ids[0] == id then ids[1..]
    else
      assert ids[0] !in ids[1..];
      [ids[0]] + RemoveId(ids[1..], id)
  }

  /** The sum of the balances of the listed accounts. */
  ghost function SumBalances(ids: seq<int>, rows: map<int, AccountRow>): int
    requires forall i :: 0 <= i < |ids| ==> ids[i] in rows
  {
    if ids == [] then 0 else rows[ids[0]].balance + SumBalances(ids[1..], rows)
  }

  /** Overwriting one listed account's balance moves the sum by exactly the difference. */
  lemma {:induction false} SumAfterUpdate(ids: seq<int>, rows: map<int, AccountRow>, id: int, balance: int)
    requires Distinct(ids) && id in rows
    requires forall i :: 0 <= i < |ids| ==> ids[i] in rows
    ensures SumBalances(ids, rows[id := rows[id].(balance := balance)])
            == SumBalances(ids, rows) + (if id in ids then balance - rows[id].balance else 0)
  {
    if ids != [] {
      assert id == ids[0] ==> id !in ids[1..];
      SumAfterUpdate(ids[1..], rows, id, balance);
    }
  }

  /** Rows outside the list do not contribute to the sum. */
  lemma {:induction false} SumIgnoresUnlisted(ids: seq<int>, rows: map<int, AccountRow>, rows': map<int, AccountRow>)
    requires forall i :: 0 <= i < |ids| ==> ids[i] in rows && ids[i] in rows' && rows[ids[i]] == rows'[ids[i]]
    ensures SumBalances(ids, rows) == SumBalances(ids, rows')
  {
    if ids != [] {
      SumIgnoresUnlisted(ids[1..], rows, rows');
    }
  }

  lemma {:induction false} SumAppend(ids: seq<int>, rows: map<int, AccountRow>)
    requires forall i :: 0 <= i < |ids| ==> ids[i] in rows
    requires |ids| > 0
    ensures SumBalances(ids, rows) == SumBalances(ids[..|ids| - 1], rows) + rows[ids[|ids| - 1]].balance
  {
    if |ids| > 1 {
      assert ids[1..][..|ids| - 2] == ids[..|ids| - 1][1..];
      SumAppend(ids[1..], rows);
    }
  }

  lemma {:induction false} SumAfterRemove(ids: seq<int>, rows: map<int, AccountRow>, id: int)
    requires Distinct(ids) && id in ids
    requires forall i :: 0 <= i < |ids| ==> ids[i] in rows
    ensures forall i :: 0 <= i < |RemoveId(ids, id)| ==> RemoveId(ids, id)[i] in rows - {id}
    ensures SumBalances(RemoveId(ids, id), rows - {id}) == SumBalances(ids, rows) - rows[id].balance
  {
    var r := RemoveId(ids, id);
    assert forall i :: 0 <= i < |r| ==> r[i] in ids && r[i] != id;
    if ids[0] == id {
      assert ids[0] !in ids[1..];
      SumIgnoresUnlisted(ids[1..], rows, rows - {id});
    } else {
      assert ids[0] !in ids[1..];
      SumAfterRemove(ids[1..], rows, id);
    }
  }

  /** The row `Account.create` inserts: generated identifiers encrypted and digested, balance 0. */
  function NewRow(p: Crypto.Primitives, id: int, userId: int, accountType: string, now: nat, draw: AccountDraw): (r: AccountRow)
    requires WellFormedDraw(draw)
    ensures r.id == id && r.userId == userId && r.balance == 0 && r.accountType == accountType && r.createdAt == now
    ensures r.accountNumberHash.Some? && r.ibanHash.Some?
    ensures IsEncrypted(AccountNumber, r.accountNumber) && IsEncrypted(Iban, r.iban)
  {
    var number := GenerateAccountNumber(draw.clockMillis, draw.numberBytes);
    var iban := GenerateIban(draw.ibanBytes, draw.ibanSha1);
    AccountRow(id, userId,
      Encrypt(p, AccountNumber, draw.numberIv, number), Hash(p, number),
      Encrypt(p, Iban, draw.ibanIv, iban), Hash(p, iban),
      0, accountType, now)
  }

  /** Reading a freshly created row back yields exactly the generated number and IBAN. */
  lemma NewRowReadsBack(p: Crypto.Primitives, id: int, userId: int, accountType: string, now: nat, draw: AccountDraw)
    requires Crypto.Sound(p) && WellFormedDraw(draw)
    ensures var row := NewRow(p, id, userId, accountType, now, draw);
      Deserialize(p, Some(row)) == Some(row.(accountNumber := Some(GenerateAccountNumber(draw.clockMillis, draw.numberBytes)),
                                             iban := Some(GenerateIban(draw.ibanBytes, draw.ibanSha1))))
  {
    var number := GenerateAccountNumber(draw.clockMillis, draw.numberBytes);
    var iban := GenerateIban(draw.ibanBytes, draw.ibanSha1);
    DecryptEncrypt(p, AccountNumber, draw.numberIv, number);
    GeneratedNumberIsNormal(draw.clockMillis, draw.numberBytes);
    DecryptEncrypt(p, Iban, draw.ibanIv, iban);
    GeneratedIbanIsNormal(draw.ibanBytes, draw.ibanSha1);
  }

  /** The columns `RETURNING` hands back: the digests are not among them and read as absent. */
  function Returned(row: AccountRow): (r: AccountRow)
    ensures r.accountNumberHash.None? && r.ibanHash.None?
    ensures r.(accountNumberHash := row.accountNumberHash, ibanHash := row.ibanHash) == row
  {
    row.(accountNumberHash := None, ibanHash := None)
  }

  /** Whether `row`'s digests collide with a stored row's: the unique-index violation that fails an insert. */
  predicate Collides(rows: map<int, AccountRow>, row: AccountRow) {
    exists id :: id in rows && (DigestOf(AccountNumber, rows[id]) == row.accountNumberHash || DigestOf(Iban, rows[id]) == row.ibanHash)
  }

  /** A row that collides with no stored digest, inserted under a fresh id, keeps both digest columns unique. */
  lemma InsertKeepsDigestsUnique(rows: map<int, AccountRow>, id: int, row: AccountRow)
    requires id !in rows
    requires UniqueDigests(rows, AccountNumber) && UniqueDigests(rows, Iban)
    requires !Collides(rows, row)
    ensures UniqueDigests(rows[id := row], AccountNumber) && UniqueDigests(rows[id := row], Iban)
  {
    forall other | other in rows
      ensures DigestOf(AccountNumber, rows[other]) != row.accountNumberHash
      ensures DigestOf(Iban, rows[other]) != row.ibanHash
    {
    }
  }

  /**
   * The table's invariants: ids listed once each, exactly the stored rows, issued by
   * the sequence, and both digest columns unique.
   */
  ghost predicate ValidTables(crypto: Crypto.Primitives, rows: map<int, AccountRow>, ids: seq<int>, nextId: int) {
    && Crypto.Sound(crypto)
    && nextId >= 1
    && Distinct(ids)
    && (forall i :: 0 <= i < |ids| ==> ids[i] in rows)
    && (forall id :: id in rows ==> id in ids)
    && (forall id :: id in rows ==> rows[id].id == id && 1 <= id < nextId)
    && UniqueDigests(rows, AccountNumber)
    && UniqueDigests(rows, Iban)
  }

  /** Inserting a non-colliding row under the next id keeps the invariants and adds its balance to the total. */
  lemma InsertKeepsValid(crypto: Crypto.Primitives, rows: map<int, AccountRow>, ids: seq<int>, nextId: int, row: AccountRow)
    requires ValidTables(crypto, rows, ids, nextId)
    requires row.id == nextId && !Collides(rows, row)
    ensures ValidTables(crypto, rows[nextId := row], ids + [nextId], nextId + 1)
    ensures SumBalances(ids + [nextId], rows[nextId := row]) == SumBalances(ids, rows) + row.balance
  {
    var rows', ids' := rows[nextId := row], ids + [nextId];
    assert nextId !in rows;
    InsertKeepsDigestsUnique(rows, nextId, row);
    assert Distinct(ids') by {
      assert forall i :: 0 <= i < |ids| ==> ids[i] in rows && ids[i] < nextId;
    }
    SumIgnoresUnlisted(ids, rows, rows');
    SumAppend(ids', rows');
    assert ids'[..|ids'| - 1] == ids;
  }

  /** The decrypted form of every row, in order. */
  function DeserializeAll(p: Crypto.Primitives, rows: seq<AccountRow>): (r: seq<AccountRow>)
    ensures |r| == |rows|
    ensures forall i :: 0 <= i < |rows| ==> Some(r[i]) == Deserialize(p, Some(rows[i]))
    ensures forall i :: 0 <= i < |rows| ==> r[i].id == rows[i].id && r[i].userId == rows[i].userId && r[i].createdAt == rows[i].createdAt
  {
    seq(|rows|, i requires 0 <= i < |rows| => Deserialize(p, Some(rows[i])).value)
  }

  /** `WHERE user_id = $1 ORDER BY created_at DESC` over a table. */
  function OwnedNewestFirst(table: seq<AccountRow>, userId: int): (r: seq<AccountRow>)
    ensures forall a :: a in r <==> a in table && a.userId == userId
    ensures forall i, j :: 0 <= i < j < |r| ==> r[i].createdAt >= r[j].createdAt
  {
    var owned := (a: AccountRow) => a.userId == userId;
    var newest := (a: AccountRow) => a.createdAt;
    Ordering.SelectSortedMembers(table, owned, newest);
    Ordering.SortDesc(Ordering.Filter(table, owned), newest)
  }

  /** Each of the user's rows is selected as often as the table holds it, no other row at all. */
  lemma OwnedCounts(table: seq<AccountRow>, userId: int, a: AccountRow)
    ensures multiset(OwnedNewestFirst(table, userId))[a] == if a.userId == userId then multiset(table)[a] else 0
  {
    Ordering.FilterCounts(table, (a: AccountRow) => a.userId == userId, a);
  }

  /** Selecting from a table whose ids are all different yields each id at most once. */
  lemma OwnedDistinct(table: seq<AccountRow>, userId: int)
    requires forall i, j :: 0 <= i < j < |table| ==> table[i].id != table[j].id
    ensures var r := OwnedNewestFirst(table, userId); forall i, j :: 0 <= i < j < |r| ==> r[i].id != r[j].id
  {
    var r := OwnedNewestFirst(table, userId);
    var rowId := (a: AccountRow) => a.id;
    assert multiset(r) <= multiset(table) by {
      forall a ensures multiset(r)[a] <= multiset(table)[a] {
        OwnedCounts(table, userId, a);
      }
    }
    Ordering.SubmultisetDistinct(table, r, rowId);
  }

  class AccountStore {
    /** The process-wide cipher and digest, fixed when the process starts. */
    const crypto: Crypto.Primitives
    var rows: map<int, AccountRow>
    /** Row ids in insertion order. */
    var ids: seq<int>
    /** The next value of the `SERIAL` id sequence. */
    var nextId: int

    ghost predicate Valid()
      reads this
    {
      ValidTables(crypto, rows, ids, nextId)
    }

    constructor (crypto: Crypto.Primitives)
      requires Crypto.Sound(crypto)
      ensures Valid() && this.crypto == crypto
      ensures rows == map[] && ids == [] && nextId == 1
    {
      this.crypto := crypto;
      rows := map[];
      ids := [];
      nextId := 1;
    }

    /** The table in insertion order. */
    function Table(): (t: seq<AccountRow>)
      reads this
      requires Valid()
      ensures |t| == |ids| && forall i :: 0 <= i < |ids| ==> t[i] == rows[ids[i]]
    {
      seq(|ids|, i reads this requires 0 <= i < |ids| && ids[i] in rows => rows[ids[i]])
    }

    /** A row is in the table exactly when it is stored under its own id. */
    lemma TableMembers()
      requires Valid()
      ensures forall a: AccountRow :: a in Table() <==> a.id in rows && rows[a.id] == a
    {
      forall a: AccountRow | a in Table() ensures a.id in rows && rows[a.id] == a {
        var k :| 0 <= k < |ids| && Table()[k] == a;
      }
      forall a: AccountRow | a.id in rows && rows[a.id] == a ensures a in Table() {
        var k :| 0 <= k < |ids| && ids[k] == a.id;
        assert Table()[k] == a;
      }
    }

    /** The sum of every balance in the table. */
    ghost function Total(): int
      reads this
      requires Valid()
    {
      SumBalances(ids, rows)
    }

    /**
     * `Account.create`: a fresh account of `userId` with balance 0 under the next id,
     * returned decrypted and without the two digest columns, which `RETURNING` leaves
     * out. A digest that collides with a stored one violates the unique index: nothing
     * is inserted, but the `SERIAL` sequence has already moved on.
     */
    method Create(userId: int, accountType: string, now: nat, draw: AccountDraw) returns (account: Option<AccountRow>)
      requires Valid() && WellFormedDraw(draw)
      modifies this`rows, this`ids, this`nextId
      ensures Valid()
      ensures nextId == old(nextId) + 1
      ensures var stored := NewRow(crypto, old(nextId), userId, accountType, now, draw);
              && (account.None? <==> Collides(old(rows), stored))
              && (account.None? ==> rows == old(rows) && ids == old(ids))
              && (account.Some? ==>
                  && rows == old(rows)[old(nextId) := stored]
                  && ids == old(ids) + [old(nextId)]
                  && account == Deserialize(crypto, Some(Returned(stored))))
      ensures Total() == old(Total())
    {
      var stored := NewRow(crypto, nextId, userId, accountType, now, draw);
      if Collides(rows, stored) {
        nextId := nextId + 1;
        return None;
      }
      InsertKeepsValid(crypto, rows, ids, nextId, stored);
      rows := rows[nextId := stored];
      ids := ids + [nextId];
      nextId := nextId + 1;
      account := Deserialize(crypto, Some(Returned(stored)));
    }

    /** `Account.findById`. */
    function FindById(id: int): (r: Option<AccountRow>)
      reads this
      ensures r.Some? <==> id in rows
      ensures r.Some? ==> r == Deserialize(crypto, Some(rows[id]))
    {
      if id in rows then Deserialize(crypto, Some(rows[id])) else None
    }

    /** `Account.findByUserId`: exactly the user's accounts, decrypted, newest first; each comes once (`FindByUserIdOnce`). */
    function FindByUserId(userId: int): (r: seq<AccountRow>)
      reads this
      requires Valid()
      ensures forall i :: 0 <= i < |r| ==> r[i].id in rows && Some(r[i]) == Deserialize(crypto, Some(rows[r[i].id])) && r[i].userId == userId
      ensures forall id :: id in rows && rows[id].userId == userId ==> Deserialize(crypto, Some(rows[id])).value in r
      ensures forall i, j :: 0 <= i < j < |r| ==> r[i].createdAt >= r[j].createdAt
    {
      var sorted := OwnedNewestFirst(Table(), userId);
      var r := DeserializeAll(crypto, sorted);
      TableMembers();
      forall i | 0 <= i < |r|
        ensures r[i].id in rows && Some(r[i]) == Deserialize(crypto, Some(rows[r[i].id])) && r[i].userId == userId
      {
        assert sorted[i] in sorted;
        assert rows[sorted[i].id] == sorted[i];
      }
      assert forall id :: id in rows && rows[id].userId == userId ==> Deserialize(crypto, Some(rows[id])).value in r by {
        forall id | id in rows && rows[id].userId == userId
          ensures Deserialize(crypto, Some(rows[id])).value in r
        {
          assert rows[id] in sorted;
          var j :| 0 <= j < |sorted| && sorted[j] == rows[id];
          assert r[j] == Deserialize(crypto, Some(rows[id])).value;
        }
      }
      r
    }

    /** No account is listed twice: the ids of a user's listing are all different. */
    lemma FindByUserIdOnce(userId: int)
      requires Valid()
      ensures var r := FindByUserId(userId); forall i, j :: 0 <= i < j < |r| ==> r[i].id != r[j].id
    {
      var table := Table();
      assert forall i, j :: 0 <= i < j < |table| ==> table[i].id != table[j].id by {
        forall i, j | 0 <= i < j < |table| ensures table[i].id != table[j].id {
          assert ids[i] != ids[j];
        }
      }
      OwnedDistinct(table, userId);
      var sorted := OwnedNewestFirst(table, userId);
      var r := FindByUserId(userId);
      assert forall i :: 0 <= i < |r| ==> r[i].id == sorted[i].id;
    }

    /** Every listed account is stored under its id and belongs to the user. */
    lemma FindByUserIdOwned(userId: int)
      requires Valid()
      ensures var r := FindByUserId(userId); forall i :: 0 <= i < |r| ==> r[i].id in rows && rows[r[i].id].userId == userId
    {
      var r := FindByUserId(userId);
      forall i | 0 <= i < |r| ensures r[i].id in rows && rows[r[i].id].userId == userId {
        assert Some(r[i]) == Deserialize(crypto, Some(rows[r[i].id]));
      }
    }

    /** The first stored row whose digest column of `kind` equals `digest`, decrypted. */
    function FindByDigest(kind: Kind, digest: Option<string>): (r: Option<AccountRow>)
      reads this
      requires Valid()
      ensures r.Some? ==> r.value.id in rows && DigestOf(kind, rows[r.value.id]) == digest && r == Deserialize(crypto, Some(rows[r.value.id]))
      ensures r.None? ==> forall id :: id in rows ==> DigestOf(kind, rows[id]) != digest
    {
      var found := Ordering.First(Table(), (a: AccountRow) => DigestOf(kind, a) == digest);
      if found.None? then
        assert forall id :: id in rows ==> DigestOf(kind, rows[id]) != digest by {
          forall id | id in rows ensures DigestOf(kind, rows[id]) != digest {
            var k :| 0 <= k < |ids| && ids[k] == id;
            assert Table()[k] == rows[id];
          }
        }
        None
      else
        assert found.value in Table();
        Deserialize(crypto, found)
    }

    /** `Account.findByAccountNumber`: `null` without a lookup when the input is empty. */
    function FindByAccountNumber(value: string): (r: Option<AccountRow>)
      reads this
      requires Valid()
      ensures r.Some? <==> value != "" && exists id :: id in rows && rows[id].accountNumberHash == Hash(crypto, value)
      ensures r.Some? ==> r.value.id in rows && rows[r.value.id].accountNumberHash == Hash(crypto, value)
                          && r == Deserialize(crypto, Some(rows[r.value.id]))
    {
      var digest := Hash(crypto, value);
      if digest.None? then None else FindByDigest(AccountNumber, digest)
    }

    /** `Account.findByIban`: found exactly when some row's `iban_hash` equals the digest of the input. */
    function FindByIban(value: string): (r: Option<AccountRow>)
      reads this
      requires Valid()
      ensures r.Some? <==> value != "" && exists id :: id in rows && rows[id].ibanHash == Hash(crypto, value)
      ensures r.Some? ==> r.value.id in rows && rows[r.value.id].ibanHash == Hash(crypto, value)
                          && r == Deserialize(crypto, Some(rows[r.value.id]))
    {
      var digest := Hash(crypto, value);
      if digest.None? then None else FindByDigest(Iban, digest)
    }

    /** `Account.updateBalance`: overwrites with no sign or funds check; true exactly when the id exists. */
    method UpdateBalance(id: int, balance: int) returns (updated: bool)
      requires Valid()
      modifies this`rows
      ensures Valid()
      ensures updated <==> id in old(rows)
      ensures rows == if updated then old(rows)[id := old(rows)[id].(balance := balance)] else old(rows)
      ensures updated ==> Total() == old(Total()) - old(rows)[id].balance + balance
    {
      updated := id in rows;
      if updated {
        SumAfterUpdate(ids, rows, id, balance);
        rows := rows[id := rows[id].(balance := balance)];
        assert UniqueDigests(rows, AccountNumber) && UniqueDigests(rows, Iban) by {
          assert forall x :: x in rows ==> DigestOf(AccountNumber, rows[x]) == DigestOf(AccountNumber, old(rows)[x]);
          assert forall x :: x in rows ==> DigestOf(Iban, rows[x]) == DigestOf(Iban, old(rows)[x]);
        }
      }
    }

    /** `Account.delete`: true exactly when a row with that id was removed. */
    method Delete(id: int) returns (deleted: bool)
      requires Valid()
      modifies this`rows, this`ids
      ensures Valid()
      ensures deleted <==> id in old(rows)
      ensures rows == old(rows) - {id}
      ensures deleted ==> Total() == old(Total()) - old(rows)[id].balance
    {
      deleted := id in rows;
      if deleted {
        SumAfterRemove(ids, rows, id);
        ids := RemoveId(ids, id);
        rows := rows - {id};
      }
    }
  }
}
