/**
 * The anonymous payment portal of `backend/routes/paymentPortal.js`: HTML
 * escaping for the rendered page, the page's view model, and the POST handler
 * that validates a payer's form, looks the destination up by IBAN and credits it.
 */
module PaymentPortal {
  import opened Wrappers
  import opened Text
  import opened AccountNumbers
  import opened Accounts
  import opened Transactions
  import opened Ledger

  /** `replace(/c/g, rep)`: every occurrence of `c` replaced by `rep`. */
  function ReplaceAll(s: string, c: char, rep: string): string {
    if s == [] then []
    else (if s[0] == c then rep else [s[0]]) + ReplaceAll(s[1..], c, rep)
  }

  lemma {:induction false} ReplaceAllAppend(a: string, b: string, c: char, rep: string)
    ensures ReplaceAll(a + b, c, rep) == ReplaceAll(a, c, rep) + ReplaceAll(b, c, rep)
  {
    if a == [] {
      assert a + b == b;
    } else {
      assert (a + b)[1..] == a[1..] + b;
      ReplaceAllAppend(a[1..], b, c, rep);
    }
  }

  lemma {:induction false} ReplaceAllAbsent(s: string, c: char, rep: string)
    requires c !in s
    ensures ReplaceAll(s, c, rep) == s
  {
    if s != [] {
      ReplaceAllAbsent(s[1..], c, rep);
    }
  }

  /** `escapeHtml`: the five replacements in source order, `&` first. */
  function EscapeHtml(s: string): string {
    var s1 := ReplaceAll(s, '&', "&amp;");
    var s2 := ReplaceAll(s1, '<', "&lt;");
    var s3 := ReplaceAll(s2, '>', "&gt;");
    var s4 := ReplaceAll(s3, '"', "&quot;");
    ReplaceAll(s4, '\'', "&#039;")
  }

  predicate IsHtmlSpecial(c: char) {
    c == '&' || c == '<' || c == '>' || c == '"' || c == '\''
  }

  /** The entity that stands for one character. */
  function EscapeChar(c: char): string {
    if c == '&' then "&amp;"
    else if c == '<' then "&lt;"
    else if c == '>' then "&gt;"
    else if c == '"' then "&quot;"
    else if c == '\'' then "&#039;"
    else [c]
  }

  /** The reference escaper: each character replaced by its entity, independently. */
  function EscapeEach(s: string): string {
    if s == [] then [] else EscapeChar(s[0]) + EscapeEach(s[1..])
  }

  lemma EscapeHtmlAppend(a: string, b: string)
    ensures EscapeHtml(a + b) == EscapeHtml(a) + EscapeHtml(b)
  {
    var a1, b1 := ReplaceAll(a, '&', "&amp;"), ReplaceAll(b, '&', "&amp;");
    ReplaceAllAppend(a, b, '&', "&amp;");
    var a2, b2 := ReplaceAll(a1, '<', "&lt;"), ReplaceAll(b1, '<', "&lt;");
    ReplaceAllAppend(a1, b1, '<', "&lt;");
    var a3, b3 := ReplaceAll(a2, '>', "&gt;"), ReplaceAll(b2, '>', "&gt;");
    ReplaceAllAppend(a2, b2, '>', "&gt;");
    var a4, b4 := ReplaceAll(a3, '"', "&quot;"), ReplaceAll(b3, '"', "&quot;");
    ReplaceAllAppend(a3, b3, '"', "&quot;");
    ReplaceAllAppend(a4, b4, '\'', "&#039;");
  }

  lemma ReplaceOne(c: char, x: char, rep: string)
    ensures ReplaceAll([c], x, rep) == if c == x then rep else [c]
  {
    assert [c][1..] == [];
  }

  /** Replacing characters that a string does not hold leaves it unchanged, pass after pass. */
  lemma PassesAbsent(e: string, from: nat)
    requires from <= 5
    requires from <= 1 ==> '&' !in e
    requires from <= 2 ==> '<' !in e
    requires from <= 3 ==> '>' !in e
    requires from <= 4 ==> '"' !in e
    requires '\'' !in e
    ensures from <= 1 ==> ReplaceAll(e, '&', "&amp;") == e
    ensures from <= 2 ==> ReplaceAll(e, '<', "&lt;") == e
    ensures from <= 3 ==> ReplaceAll(e, '>', "&gt;") == e
    ensures from <= 4 ==> ReplaceAll(e, '"', "&quot;") == e
    ensures ReplaceAll(e, '\'', "&#039;") == e
  {
    if from <= 1 { ReplaceAllAbsent(e, '&', "&amp;"); }
    if from <= 2 { ReplaceAllAbsent(e, '<', "&lt;"); }
    if from <= 3 { ReplaceAllAbsent(e, '>', "&gt;"); }
    if from <= 4 { ReplaceAllAbsent(e, '"', "&quot;"); }
    ReplaceAllAbsent(e, '\'', "&#039;");
  }

  lemma EscapeHtmlChar(c: char)
    ensures EscapeHtml([c]) == EscapeChar(c)
  {
    ReplaceOne(c, '&', "&amp;");
    if c == '&' {
      PassesAbsent("&amp;", 2);
    } else {
      ReplaceOne(c, '<', "&lt;");
      if c == '<' {
        PassesAbsent("&lt;", 3);
      } else {
        ReplaceOne(c, '>', "&gt;");
        if c == '>' {
          PassesAbsent("&gt;", 4);
        } else {
          ReplaceOne(c, '"', "&quot;");
          if c == '"' {
            PassesAbsent("&quot;", 5);
          } else {
            ReplaceOne(c, '\'', "&#039;");
          }
        }
      }
    }
  }

  /** The sequential replacements escape every character independently: `&` going first keeps entities from being escaped twice. */
  lemma {:induction false} EscapeHtmlIsCharwise(s: string)
    ensures EscapeHtml(s) == EscapeEach(s)
  {
    if s == [] {
    } else {
      assert s == [s[0]] + s[1..];
      EscapeHtmlAppend([s[0]], s[1..]);
      EscapeHtmlChar(s[0]);
      EscapeHtmlIsCharwise(s[1..]);
    }
  }

  predicate StartsEntity(t: string) {
    StartsWith(t, "&amp;") || StartsWith(t, "&lt;") || StartsWith(t, "&gt;") || StartsWith(t, "&quot;") || StartsWith(t, "&#039;")
  }

  /** Safe to embed in HTML text or a quoted attribute: no raw markup characters, and every `&` opens an entity. */
  predicate HtmlSafe(r: string) {
    && (forall i :: 0 <= i < |r| ==> r[i] != '<' && r[i] != '>' && r[i] != '"' && r[i] != '\'')
    && (forall i :: 0 <= i < |r| && r[i] == '&' ==> StartsEntity(r[i..]))
  }

  lemma EscapeCharSafe(c: char)
    ensures HtmlSafe(EscapeChar(c))
  {
    var e := EscapeChar(c);
    assert forall i :: 0 < i < |e| ==> e[i] != '&';
    if IsHtmlSpecial(c) {
      assert e[0..] == e;
    }
  }

  lemma {:induction false} SafeAppend(a: string, b: string)
    requires HtmlSafe(a) && HtmlSafe(b)
    ensures HtmlSafe(a + b)
  {
    var r := a + b;
    forall i | 0 <= i < |r| && r[i] == '&' ensures StartsEntity(r[i..]) {
      if i < |a| {
        assert a[i] == '&';
        assert StartsEntity(a[i..]);
        assert r[i..] == a[i..] + b;
        assert forall t: string, u: string, p: string :: StartsWith(t, p) ==> StartsWith(t + u, p) by {
          forall t: string, u: string, p: string | StartsWith(t, p) ensures StartsWith(t + u, p) {
            assert (t + u)[..|p|] == t[..|p|];
          }
        }
      } else {
        assert r[i..] == b[i - |a|..];
        assert b[i - |a|] == '&';
      }
    }
  }

  lemma {:induction false} EscapeEachSafe(s: string)
    ensures HtmlSafe(EscapeEach(s))
  {
    if s != [] {
      EscapeCharSafe(s[0]);
      EscapeEachSafe(s[1..]);
      SafeAppend(EscapeChar(s[0]), EscapeEach(s[1..]));
    }
  }

  /** `escapeHtml` output has no raw `<`, `>`, `"` or `'`, and each `&` in it begins an entity. */
  lemma EscapeHtmlSafe(s: string)
    ensures HtmlSafe(EscapeHtml(s))
  {
    EscapeHtmlIsCharwise(s);
    EscapeEachSafe(s);
  }

  /** `escapeHtml` leaves a string with none of the five special characters as it is. */
  lemma {:induction false} EscapeHtmlIdentity(s: string)
    requires forall i :: 0 <= i < |s| ==> !IsHtmlSpecial(s[i])
    ensures EscapeHtml(s) == s
  {
    EscapeHtmlIsCharwise(s);
    EscapeEachIdentity(s);
  }

  lemma {:induction false} EscapeEachIdentity(s: string)
    requires forall i :: 0 <= i < |s| ==> !IsHtmlSpecial(s[i])
    ensures EscapeEach(s) == s
  {
    if s != [] {
      EscapeEachIdentity(s[1..]);
    }
  }

  /** The details of the credited account shown after a successful payment; amounts in cents. */
  datatype RecentAccount = RecentAccount(iban: Option<string>, accountNumber: Option<string>, amount: int, balance: int)

  /** The page's model; a form field is `None` when the submitted value was `undefined`. */
  datatype ViewModel = ViewModel(
    form: map<string, Option<string>>,
    errors: seq<string>,
    success: Option<string>,
    recentAccount: Option<RecentAccount>)

  /** What a caller may override; `form` holds only the keys it sets. */
  datatype Overrides = Overrides(
    form: map<string, Option<string>>,
    errors: Option<seq<string>>,
    success: Option<string>,
    recentAccount: Option<RecentAccount>)

  const FormFields: seq<string> := ["senderName", "senderEmail", "iban", "amount", "reference"]

  const NoOverrides := Overrides(map[], None, None, None)

  /** `buildViewModel`: empty form fields overlaid with the given ones, no errors, no success, no recent account. */
  function BuildViewModel(overrides: Overrides): (m: ViewModel)
    ensures forall k :: k in m.form <==> k in FormFields || k in overrides.form
    ensures forall k :: k in overrides.form ==> m.form[k] == overrides.form[k]
    ensures forall k :: k in FormFields && k !in overrides.form ==> m.form[k] == Some("")
    ensures m.errors == overrides.errors.GetOr([])
    ensures m.success.Some? <==> overrides.success.Some? && overrides.success.value != ""
    ensures m.success.Some? ==> m.success == overrides.success
    ensures m.recentAccount == overrides.recentAccount
  {
    var defaults := map k | k in FormFields :: Some("");
    ViewModel(
      defaults + overrides.form,
      overrides.errors.GetOr([]),
      if overrides.success.Some? && overrides.success.value != "" then overrides.success else None,
      overrides.recentAccount)
  }

  /** `/^[^\s@]+@[^\s@]+\.[^\s@]+$/`: one `@` with text before it, a dot with text on both sides after it, no whitespace. */
  predicate IsContactEmail(s: string) {
    && (forall k :: 0 <= k < |s| ==> !IsSpace(s[k]))
    && exists at :: 0 < at < |s| && s[at] == '@'
         && (forall k :: 0 <= k < |s| && k != at ==> s[k] != '@')
         && exists dot :: at + 1 < dot < |s| - 1 && s[dot] == '.'
  }

  /** What the pattern admits and refuses, on small cases. */
  lemma ContactEmailExamples()
    ensures IsContactEmail("ann@bank.io")
    ensures !IsContactEmail("ann@bank") && !IsContactEmail("ann@bank.")
    ensures !IsContactEmail("ann@.io") && !IsContactEmail("@bank.io")
    ensures !IsContactEmail("ann@@bank.io") && !IsContactEmail("ann @bank.io")
  {
    var good := "ann@bank.io";
    assert good[3] == '@' && good[8] == '.';
    assert forall k :: 0 <= k < |good| && k != 3 ==> good[k] != '@';
    assert forall k :: 0 <= k < |good| ==> !IsSpace(good[k]);
    var noDot := "ann@bank";
    assert forall k :: 0 <= k < |noDot| && noDot[k] == '@' ==> k == 3;
    var lastDot := "ann@bank.";
    assert forall k :: 0 <= k < |lastDot| && lastDot[k] == '@' ==> k == 3;
    var earlyDot := "ann@.io";
    assert forall k :: 0 <= k < |earlyDot| && earlyDot[k] == '@' ==> k == 3;
    var doubled := "ann@@bank.io";
    assert doubled[3] == '@' && doubled[4] == '@';
    assert IsSpace("ann @bank.io"[3]);
  }

  function TrimOpt(s: Option<string>): Option<string> {
    if s.Some? then Some(Trim(s.value)) else None
  }

  /** The portal's form errors, in the order the checks run. */
  datatype PortalError = MissingName | BadEmail | MissingIban | BadAmount | UnknownIban {
    function Message(): string {
      match this
      case MissingName => "Sender name is required."
      case BadEmail => "A valid contact email is required."
      case MissingIban => "An IBAN is required to locate the destination account."
      case BadAmount => "Amount must be greater than 0."
      case UnknownIban => "We could not find an account with that IBAN."
    }
  }

  function Messages(errors: seq<PortalError>): (r: seq<string>)
    ensures |r| == |errors| && forall i :: 0 <= i < |errors| ==> r[i] == errors[i].Message()
  {
    seq(|errors|, i requires 0 <= i < |errors| => errors[i].Message())
  }

  const Received := "Payment received! The account owner can already see the funds."

  /** `if (!ok) errors.push(e)`, onto a list of distinct errors that does not hold `e` yet. */
  function ReportIf(errors: seq<PortalError>, ok: bool, e: PortalError): (r: seq<PortalError>)
    requires e !in errors
    requires forall i, j :: 0 <= i < j < |errors| ==> errors[i] != errors[j]
    ensures forall x :: x in r <==> x in errors || (!ok && x == e)
    ensures forall i, j :: 0 <= i < j < |r| ==> r[i] != r[j]
  {
    if ok then errors else errors + [e]
  }

  /** The errors of the four checks that failed, in check order. */
  function FailedChecks(nameOk: bool, emailOk: bool, ibanOk: bool, amountOk: bool): (errors: seq<PortalError>)
    ensures MissingName in errors <==> !nameOk
    ensures BadEmail in errors <==> !emailOk
    ensures MissingIban in errors <==> !ibanOk
    ensures BadAmount in errors <==> !amountOk
    ensures UnknownIban !in errors
    ensures forall i, j :: 0 <= i < j < |errors| ==> errors[i] != errors[j]
  {
    var afterName := ReportIf([], nameOk, MissingName);
    assert forall x :: x in afterName ==> x == MissingName;
    var afterEmail := ReportIf(afterName, emailOk, BadEmail);
    assert forall x :: x in afterEmail ==> x == MissingName || x == BadEmail;
    var afterIban := ReportIf(afterEmail, ibanOk, MissingIban);
    assert forall x :: x in afterIban ==> x == MissingName || x == BadEmail || x == MissingIban;
    ReportIf(afterIban, amountOk, BadAmount)
  }

  /**
   * The form checks, in source order: name, email, IBAN, amount. `amount` is the
   * parsed amount in cents, `None` when it did not parse to a finite number.
   */
  function FieldErrors(senderName: Option<string>, senderEmail: Option<string>, iban: Option<string>, amount: Option<int>): (errors: seq<PortalError>)
    ensures MissingName in errors <==> !Truthy(TrimOpt(senderName))
    ensures BadEmail in errors <==> !Truthy(TrimOpt(senderEmail)) || !IsContactEmail(TrimOpt(senderEmail).value)
    ensures MissingIban in errors <==> iban.None? || Normalize(iban.value) == ""
    ensures BadAmount in errors <==> amount.None? || amount.value <= 0
    ensures UnknownIban !in errors
    ensures forall i, j :: 0 <= i < j < |errors| ==> errors[i] != errors[j]
  {
    var trimmedEmail := TrimOpt(senderEmail);
    FailedChecks(
      Truthy(TrimOpt(senderName)),
      Truthy(trimmedEmail) && IsContactEmail(trimmedEmail.value),
      iban.Some? && Normalize(iban.value) != "",
      amount.Some? && amount.value > 0)
  }

  /** The logged description: the non-empty descriptor parts joined with ` | `. */
  function Descriptor(trimmedName: string, trimmedEmail: string, reference: Option<string>): (d: string)
    ensures StartsWith(d, "External payment from ")
  {
    var parts := ["External payment from " + trimmedName]
      + (if trimmedEmail != "" then ["Contact " + trimmedEmail] else [])
      + (if Truthy(TrimOpt(reference)) then ["Reference: " + Trim(reference.value)] else []);
    var joined := Join(parts, " | ");
    assert StartsWith(joined, "External payment from ") by {
      JoinStartsWith(parts, " | ");
      assert joined[..|"External payment from "|] == parts[0][..|"External payment from "|];
    }
    if joined == "" then "External payment portal" else joined
  }

  lemma JoinStartsWith(parts: seq<string>, sep: string)
    requires parts != []
    ensures |parts[0]| <= |Join(parts, sep)| && Join(parts, sep)[..|parts[0]|] == parts[0]
  {
  }

  /** The portal's answer: a status and the page model it renders. */
  datatype PortalReply = PortalReply(code: int, view: ViewModel)

  /** Every error the portal reports; with none, every field is present and the IBAN finds an account. */
  function PortalErrors(accounts: AccountStore, senderName: Option<string>, senderEmail: Option<string>,
                        iban: Option<string>, amount: Option<int>): (errors: seq<PortalError>)
    reads accounts
    requires accounts.Valid()
    ensures errors == [] ==>
      && senderName.Some? && senderEmail.Some? && iban.Some? && amount.Some? && amount.value > 0
      && accounts.FindByIban(Normalize(iban.value)).Some?
  {
    var fieldErrors := FieldErrors(senderName, senderEmail, iban, amount);
    if fieldErrors != [] then fieldErrors
    else
      assert MissingIban !in fieldErrors && BadAmount !in fieldErrors;
      if accounts.FindByIban(Normalize(iban.value)).None? then [UnknownIban] else []
  }

  /**
   * The portal reports the form errors when there are any; only when there are none is
   * the IBAN looked up, and an IBAN that finds no account adds exactly one error.
   */
  lemma PortalErrorsReport(accounts: AccountStore, senderName: Option<string>, senderEmail: Option<string>,
                           iban: Option<string>, amount: Option<int>)
    requires accounts.Valid()
    ensures var fieldErrors, errors := FieldErrors(senderName, senderEmail, iban, amount),
                                       PortalErrors(accounts, senderName, senderEmail, iban, amount);
      && (fieldErrors != [] ==> errors == fieldErrors)
      && (fieldErrors == [] ==> iban.Some? && amount.Some? && amount.value > 0)
      && (fieldErrors == [] ==> (errors == [] <==> accounts.FindByIban(Normalize(iban.value)).Some?))
      && (fieldErrors == [] && errors != [] ==> errors == [UnknownIban])
  {
    var fieldErrors := FieldErrors(senderName, senderEmail, iban, amount);
    if fieldErrors == [] {
      assert MissingIban !in fieldErrors && BadAmount !in fieldErrors;
    }
  }

  /** The form echoed back on a 400: the submitted values as they came. */
  function EchoForm(senderName: Option<string>, senderEmail: Option<string>, iban: Option<string>,
                    amountText: Option<string>, reference: Option<string>): map<string, Option<string>> {
    map["senderName" := senderName, "senderEmail" := senderEmail, "iban" := iban, "amount" := amountText, "reference" := reference]
  }

  /** The page after a payment: the confirmation and the credited account, no errors. */
  function SuccessPage(recent: RecentAccount): (m: ViewModel)
    ensures m.success == Some(Received) && m.errors == [] && m.recentAccount == Some(recent)
  {
    BuildViewModel(NoOverrides.(success := Some(Received), recentAccount := Some(recent)))
  }

  /**
   * What a successful payment leaves behind: the destination credited and nothing else
   * changed, one completed `deposit` from outside the bank logged with the descriptor, and
   * the confirmation page showing the destination's IBAN and number, the amount and the
   * balance now stored.
   */
  predicate Paid(rows: map<int, AccountRow>, rows': map<int, AccountRow>, entries: seq<Entry>, entries': seq<Entry>, nextEntryId: int,
                 destination: AccountRow, amount: int, description: string, now: int, r: PortalReply)
  {
    && destination.id in rows
    && rows' == Credited(rows, destination.id, amount)
    && entries' == entries + [Entry(nextEntryId, None, Some(destination.id), amount, Deposit, "completed", Text(description), now)]
    && r.code == 200 && r.view.success == Some(Received) && r.view.errors == []
    && r.view.recentAccount == Some(RecentAccount(destination.iban, destination.accountNumber, amount, rows[destination.id].balance + amount))
  }

  /** The success path: credits the destination, logs the payment and shows the new balance. */
  method Pay(accounts: AccountStore, log: TransactionLog, destination: AccountRow, amount: int, description: string, now: int)
    returns (r: PortalReply)
    requires Books(accounts, log) && destination.id in accounts.rows && amount > 0
    modifies accounts`rows, log
    ensures Books(accounts, log)
    ensures Paid(old(accounts.rows), accounts.rows, old(log.entries), log.entries, old(log.nextId), destination, amount, description, now, r)
  {
    var newBalance := accounts.rows[destination.id].balance + amount;
    var entry := Credit(accounts, log, destination.id, amount, Deposit, Text(description), now);
    var recent := RecentAccount(destination.iban, destination.accountNumber, amount, newBalance);
    return PortalReply(200, SuccessPage(recent));
  }

  /**
   * `POST /` of the portal: any error answers 400 with the messages and the submitted
   * form and changes nothing; otherwise the destination is credited, one `deposit`
   * from outside the bank is logged with the descriptor, and the page shows the new balance.
   */
  method PostPayment(accounts: AccountStore, log: TransactionLog, senderName: Option<string>, senderEmail: Option<string>,
                     iban: Option<string>, amountText: Option<string>, amount: Option<int>, reference: Option<string>, now: int)
    returns (r: PortalReply)
    requires Books(accounts, log)
    modifies accounts`rows, log
    ensures Books(accounts, log)
    ensures var errors := old(PortalErrors(accounts, senderName, senderEmail, iban, amount));
      && (r.code == 400 <==> errors != [])
      && (r.code == 400 ==> r.view == BuildViewModel(NoOverrides.(errors := Some(Messages(errors)),
                                                                  form := EchoForm(senderName, senderEmail, iban, amountText, reference))))
    ensures r.code == 400 ==> unchanged(accounts, log)
    ensures old(PortalErrors(accounts, senderName, senderEmail, iban, amount)) == [] ==>
      Paid(old(accounts.rows), accounts.rows, old(log.entries), log.entries, old(log.nextId),
           old(accounts.FindByIban(Normalize(iban.value))).value, amount.value,
           Descriptor(Trim(senderName.value), Trim(senderEmail.value), reference), now, r)
  {
    var errors := PortalErrors(accounts, senderName, senderEmail, iban, amount);
    if errors != [] {
      var form := EchoForm(senderName, senderEmail, iban, amountText, reference);
      return PortalReply(400, BuildViewModel(NoOverrides.(errors := Some(Messages(errors)), form := form)));
    }
    var destination := accounts.FindByIban(Normalize(iban.value)).value;
    var description := Descriptor(Trim(senderName.value), Trim(senderEmail.value), reference);
    ghost var before := accounts.rows;
    assert destination == old(accounts.FindByIban(Normalize(iban.value))).value;
    r := Pay(accounts, log, destination, amount.value, description, now);
    assert Paid(before, accounts.rows, old(log.entries), log.entries, old(log.nextId), destination, amount.value, description, now, r);
  }
}
