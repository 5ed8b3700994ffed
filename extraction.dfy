/**
 * `SMSTransactionParser.extract_transaction_info`: classifies one SMS body by
 * trying four extraction rules in a fixed order (money received, payment,
 * transfer, bank deposit); the first rule whose pattern matches fills in the
 * transaction fields, and a body no rule matches comes back as the default
 * record of type `unknown`.
 *
 * The regular-expression engine is not modelled: each rule's pattern is a
 * `Matchers` field that maps a body to the pattern's capture groups, or to None
 * when `re.search` finds no match. `WellFormed` states what the patterns
 * guarantee about the shape of the numeric groups.
 */
module Extraction {
  import opened Wrappers
  import opened PyText

  datatype TxType = Receive | Payment | Transfer | Deposit | Unknown

  /** The `transaction_info` dictionary. */
  datatype TxInfo = TxInfo(
    transactionType: TxType,
    amount: real,
    currency: string,
    sender: string,
    receiver: string,
    referenceNumber: string,
    balance: real,
    fee: real,
    message: string)

  /** The record every extraction starts from; it is returned as is when no rule matches. */
  function DefaultInfo(body: string): TxInfo {
    TxInfo(Unknown, 0.0, "RWF", "", "", "", 0.0, 0.0, body)
  }

  /** Groups 1-7 of the money-received pattern. */
  datatype ReceiveGroups = ReceiveGroups(
    amount: string, currency: string, sender: string, phoneTail: string,
    balance: string, balanceCurrency: string, txId: string)

  /** Groups 1-9 of the payment pattern. */
  datatype PaymentGroups = PaymentGroups(
    txId: string, amount: string, currency: string, receiver: string, receiverCode: string,
    balance: string, balanceCurrency: string, fee: string, feeCurrency: string)

  /** Groups 1-9 of the transfer pattern. */
  datatype TransferGroups = TransferGroups(
    amount: string, currency: string, receiver: string, receiverPhone: string, senderPhone: string,
    fee: string, feeCurrency: string, balance: string, balanceCurrency: string)

  /** Groups 1-4 of the bank-deposit pattern. */
  datatype DepositGroups = DepositGroups(
    amount: string, currency: string, balance: string, balanceCurrency: string)

  /** `re.search` of each of the four patterns against a body. */
  datatype Matchers = Matchers(
    receive: string -> Option<ReceiveGroups>,
    payment: string -> Option<PaymentGroups>,
    transfer: string -> Option<TransferGroups>,
    deposit: string -> Option<DepositGroups>)

  /** `\d+(?:,\d+)*`: digit runs separated by single commas. */
  predicate GroupedDigits(s: string) {
    s != [] && DigitsAndCommas(s) && IsDigit(s[0]) && IsDigit(s[|s| - 1]) &&
    forall i :: 0 <= i < |s| - 1 ==> s[i] == ',' ==> s[i + 1] != ','
  }

  /** `[\d,]+`. */
  predicate DigitCommaRun(s: string) {
    s != [] && DigitsAndCommas(s)
  }

  /** `\d+`. */
  predicate DigitRun(s: string) {
    s != [] && AllDigits(s)
  }

  /** The numeric groups of every match have the shape their sub-pattern admits. */
  ghost predicate WellFormed(m: Matchers) {
    && (forall b :: m.receive(b).Some? ==>
          GroupedDigits(m.receive(b).value.amount) && GroupedDigits(m.receive(b).value.balance))
    && (forall b :: m.payment(b).Some? ==>
          DigitCommaRun(m.payment(b).value.amount) && DigitCommaRun(m.payment(b).value.balance) &&
          DigitRun(m.payment(b).value.fee))
    && (forall b :: m.transfer(b).Some? ==>
          DigitCommaRun(m.transfer(b).value.amount) && DigitCommaRun(m.transfer(b).value.balance) &&
          DigitRun(m.transfer(b).value.fee))
    && (forall b :: m.deposit(b).Some? ==>
          DigitCommaRun(m.deposit(b).value.amount) && DigitCommaRun(m.deposit(b).value.balance))
  }

  /** The amounts of a record are never negative. */
  predicate NonNegative(t: TxInfo) {
    t.amount >= 0.0 && t.balance >= 0.0 && t.fee >= 0.0
  }

  // The field updates of the four rules. Python evaluates the dictionary
  // literal left to right, so the first capture that `float` rejects raises.

  function ApplyReceive(d: TxInfo, g: ReceiveGroups): (r: Result<TxInfo, ValueError>)
    ensures r.Success? ==> r.value.message == d.message && r.value.transactionType == Receive
    ensures r.Success? && d.fee >= 0.0 ==> NonNegative(r.value)
  {
    var amount :- ParseAmount(g.amount);
    var balance :- ParseAmount(g.balance);
    Success(d.(transactionType := Receive, amount := amount, currency := g.currency,
               sender := Strip(g.sender), balance := balance, referenceNumber := g.txId))
  }

  function ApplyPayment(d: TxInfo, g: PaymentGroups): (r: Result<TxInfo, ValueError>)
    ensures r.Success? ==> r.value.message == d.message && r.value.transactionType == Payment
    ensures r.Success? && d.fee >= 0.0 ==> NonNegative(r.value)
  {
    var amount :- ParseAmount(g.amount);
    var balance :- ParseAmount(g.balance);
    var fee :- ParseFloat(g.fee);
    Success(d.(transactionType := Payment, referenceNumber := g.txId, amount := amount,
               currency := g.currency, receiver := Strip(g.receiver), balance := balance, fee := fee))
  }

  function ApplyTransfer(d: TxInfo, g: TransferGroups): (r: Result<TxInfo, ValueError>)
    ensures r.Success? ==> r.value.message == d.message && r.value.transactionType == Transfer
    ensures r.Success? && d.fee >= 0.0 ==> NonNegative(r.value)
  {
    var amount :- ParseAmount(g.amount);
    var fee :- ParseFloat(g.fee);
    var balance :- ParseAmount(g.balance);
    Success(d.(transactionType := Transfer, amount := amount, currency := g.currency,
               receiver := Strip(g.receiver), fee := fee, balance := balance))
  }

  function ApplyDeposit(d: TxInfo, g: DepositGroups): (r: Result<TxInfo, ValueError>)
    ensures r.Success? ==> r.value.message == d.message && r.value.transactionType == Deposit && r.value.sender == "Bank" && r.value.receiver == "Self"
    ensures r.Success? && d.fee >= 0.0 ==> NonNegative(r.value)
  {
    var amount :- ParseAmount(g.amount);
    var balance :- ParseAmount(g.balance);
    Success(d.(transactionType := Deposit, amount := amount, currency := g.currency,
               balance := balance, sender := "Bank", receiver := "Self"))
  }

  function Found(r: Result<TxInfo, ValueError>): Result<Option<TxInfo>, ValueError> {
    match r
    case Success(t) => Success(Some(t))
    case Failure(e) => Failure(e)
  }

  /** No pattern matches the body. */
  predicate NoRuleFires(text: string, m: Matchers) {
    m.receive(text).None? && m.payment(text).None? && m.transfer(text).None? && m.deposit(text).None?
  }

  /**
   * `extract_transaction_info(sms_body)`. A missing (None) or empty body gives
   * None; otherwise the default record, updated by the first rule that matches.
   * A numeric capture that `float` rejects raises ValueError (Failure).
   */
  function ExtractTransactionInfo(body: Option<string>, m: Matchers): (r: Result<Option<TxInfo>, ValueError>)
    ensures r == Success(None) <==> body.None? || body.value == []
    ensures body.Some? && body.value != [] && NoRuleFires(body.value, m) ==>
              r == Success(Some(DefaultInfo(body.value)))
    ensures r.Failure? ==> body.Some? && !NoRuleFires(body.value, m)
    ensures r.Success? && r.value.Some? ==>
              var t := r.value.value;
              && t.message == body.value
              && NonNegative(t)
              && (t.transactionType == Unknown <==> NoRuleFires(body.value, m))
              && (t.transactionType == Deposit ==> t.sender == "Bank" && t.receiver == "Self")
  {
    if body.None? || body.value == [] then Success(None)
    else
      var text := body.value;
      var d := DefaultInfo(text);
      if m.receive(text).Some? then Found(ApplyReceive(d, m.receive(text).value))
      else if m.payment(text).Some? then Found(ApplyPayment(d, m.payment(text).value))
      else if m.transfer(text).Some? then Found(ApplyTransfer(d, m.transfer(text).value))
      else if m.deposit(text).Some? then Found(ApplyDeposit(d, m.deposit(text).value))
      else Success(Some(d))
  }

  // ---------------------------------------------------------------------------
  // The rule cascade as an explicit, ordered list of rules.

  datatype Rule = ReceiveRule | PaymentRule | TransferRule | DepositRule

  /** The priority order of the rules: received, payment, transfer, deposit. */
  const RuleOrder: seq<Rule> := [ReceiveRule, PaymentRule, TransferRule, DepositRule]

  predicate Fires(rule: Rule, text: string, m: Matchers) {
    match rule
    case ReceiveRule => m.receive(text).Some?
    case PaymentRule => m.payment(text).Some?
    case TransferRule => m.transfer(text).Some?
    case DepositRule => m.deposit(text).Some?
  }

  function ApplyRule(rule: Rule, d: TxInfo, text: string, m: Matchers): Result<TxInfo, ValueError>
    requires Fires(rule, text, m)
  {
    match rule
    case ReceiveRule => ApplyReceive(d, m.receive(text).value)
    case PaymentRule => ApplyPayment(d, m.payment(text).value)
    case TransferRule => ApplyTransfer(d, m.transfer(text).value)
    case DepositRule => ApplyDeposit(d, m.deposit(text).value)
  }

  /** The position in `rules` of the first rule that fires on `text`. */
  function FirstFiring(rules: seq<Rule>, text: string, m: Matchers): (r: Option<nat>)
    ensures r.None? <==> forall j :: 0 <= j < |rules| ==> !Fires(rules[j], text, m)
    ensures r.Some? ==> r.value < |rules| && Fires(rules[r.value], text, m)
    ensures r.Some? ==> forall j :: 0 <= j < r.value ==> !Fires(rules[j], text, m)
  {
    if rules == [] then None
    else if Fires(rules[0], text, m) then Some(0)
    else match FirstFiring(rules[1..], text, m)
      case None => None
      case Some(i) => Some(i + 1)
  }

  /** First-match-wins over the rule list: the reference the cascade is checked against. */
  function ExtractByRules(body: Option<string>, m: Matchers): Result<Option<TxInfo>, ValueError> {
    if body.None? || body.value == [] then Success(None)
    else match FirstFiring(RuleOrder, body.value, m)
      case None => Success(Some(DefaultInfo(body.value)))
      case Some(i) => Found(ApplyRule(RuleOrder[i], DefaultInfo(body.value), body.value, m))
  }

  /** The if-ladder is exactly "apply the first rule of RuleOrder that matches". */
  lemma ExtractFollowsRuleOrder(body: Option<string>, m: Matchers)
    ensures ExtractTransactionInfo(body, m) == ExtractByRules(body, m)
  {
    if body.Some? && body.value != [] {
      var text := body.value;
      var f := FirstFiring(RuleOrder, text, m);
      assert Fires(RuleOrder[0], text, m) == m.receive(text).Some?;
      assert Fires(RuleOrder[1], text, m) == m.payment(text).Some?;
      assert Fires(RuleOrder[2], text, m) == m.transfer(text).Some?;
      assert Fires(RuleOrder[3], text, m) == m.deposit(text).Some?;
      if f.Some? {
        assert f.value < 4;
      }
    }
  }

  /** Two matcher sets that return the same groups for `rule` on `text`. */
  predicate SameGroups(rule: Rule, text: string, m1: Matchers, m2: Matchers) {
    match rule
    case ReceiveRule => m1.receive(text) == m2.receive(text)
    case PaymentRule => m1.payment(text) == m2.payment(text)
    case TransferRule => m1.transfer(text) == m2.transfer(text)
    case DepositRule => m1.deposit(text) == m2.deposit(text)
  }

  /**
   * First match wins: once rule `i` matches, the rules after it are never
   * consulted, so matchers that agree up to rule `i` give the same result
   * whatever the later patterns would have matched.
   */
  lemma LaterRulesNeverConsulted(text: string, m1: Matchers, m2: Matchers, i: nat)
    requires text != []
    requires FirstFiring(RuleOrder, text, m1) == Some(i)
    requires forall j :: 0 <= j <= i ==> SameGroups(RuleOrder[j], text, m1, m2)
    ensures ExtractTransactionInfo(Some(text), m1) == ExtractTransactionInfo(Some(text), m2)
  {
    ExtractFollowsRuleOrder(Some(text), m1);
    ExtractFollowsRuleOrder(Some(text), m2);
    forall j | 0 <= j <= i ensures Fires(RuleOrder[j], text, m1) == Fires(RuleOrder[j], text, m2) {
      assert SameGroups(RuleOrder[j], text, m1, m2);
    }
    assert Fires(RuleOrder[i], text, m2);
    assert FirstFiring(RuleOrder, text, m2) == Some(i);
    assert SameGroups(RuleOrder[i], text, m1, m2);
  }

  /**
   * The type of an extracted record tells which rule fired, and the party names
   * come from that rule's captures with surrounding whitespace removed (the
   * deposit rule names the parties itself).
   */
  lemma ExtractedParties(text: string, m: Matchers)
    requires text != []
    ensures var r := ExtractTransactionInfo(Some(text), m);
      r.Success? ==>
        var t := r.value.value;
        && (t.transactionType == Receive ==>
              m.receive(text).Some? && t.sender == Strip(m.receive(text).value.sender) && t.receiver == "")
        && (t.transactionType == Payment ==>
              m.receive(text).None? && m.payment(text).Some? &&
              t.receiver == Strip(m.payment(text).value.receiver) && t.sender == "")
        && (t.transactionType == Transfer ==>
              m.receive(text).None? && m.payment(text).None? && m.transfer(text).Some? &&
              t.receiver == Strip(m.transfer(text).value.receiver) && t.sender == "")
        && (t.transactionType == Deposit ==>
              m.receive(text).None? && m.payment(text).None? && m.transfer(text).None? &&
              m.deposit(text).Some? && t.sender == "Bank" && t.receiver == "Self")
  {
    var d := DefaultInfo(text);
    if m.receive(text).Some? {
      assert ExtractTransactionInfo(Some(text), m) == Found(ApplyReceive(d, m.receive(text).value));
    } else if m.payment(text).Some? {
      assert ExtractTransactionInfo(Some(text), m) == Found(ApplyPayment(d, m.payment(text).value));
    } else if m.transfer(text).Some? {
      assert ExtractTransactionInfo(Some(text), m) == Found(ApplyTransfer(d, m.transfer(text).value));
    } else if m.deposit(text).Some? {
      assert ExtractTransactionInfo(Some(text), m) == Found(ApplyDeposit(d, m.deposit(text).value));
    } else {
      assert ExtractTransactionInfo(Some(text), m) == Success(Some(d));
    }
  }

  /** Nothing but commas: a capture that `float` rejects once the commas are removed. */
  predicate CommasOnly(s: string) {
    s != [] && forall i :: 0 <= i < |s| ==> s[i] == ','
  }

  /**
   * With captures of the shape the patterns admit, extraction raises exactly
   * when the winning rule is not the money-received rule (whose amounts always
   * hold a digit) and one of its `[\d,]+` captures consists of commas only; the
   * error is then about the empty string.
   */
  lemma ConversionFailsOnlyOnCommaCaptures(text: string, m: Matchers)
    requires WellFormed(m) && text != []
    ensures var r := ExtractTransactionInfo(Some(text), m);
      && (r.Failure? ==> r.error == CouldNotConvert(""))
      && (r.Failure? <==>
            if m.receive(text).Some? then false
            else if m.payment(text).Some? then
              CommasOnly(m.payment(text).value.amount) || CommasOnly(m.payment(text).value.balance)
            else if m.transfer(text).Some? then
              CommasOnly(m.transfer(text).value.amount) || CommasOnly(m.transfer(text).value.balance)
            else if m.deposit(text).Some? then
              CommasOnly(m.deposit(text).value.amount) || CommasOnly(m.deposit(text).value.balance)
            else false)
  {
    if m.receive(text).Some? {
      var g := m.receive(text).value;
      ParseAmountFailsIffNoDigit(g.amount);
      ParseAmountFailsIffNoDigit(g.balance);
      assert g.amount[0] != ',' && g.balance[0] != ',';
    } else if m.payment(text).Some? {
      var g := m.payment(text).value;
      ParseAmountFailsIffNoDigit(g.amount);
      ParseAmountFailsIffNoDigit(g.balance);
      StripCommasDigits(g.amount);
      StripCommasDigits(g.balance);
    } else if m.transfer(text).Some? {
      var g := m.transfer(text).value;
      ParseAmountFailsIffNoDigit(g.amount);
      ParseAmountFailsIffNoDigit(g.balance);
      StripCommasDigits(g.amount);
      StripCommasDigits(g.balance);
    } else if m.deposit(text).Some? {
      var g := m.deposit(text).value;
      ParseAmountFailsIffNoDigit(g.amount);
      ParseAmountFailsIffNoDigit(g.balance);
      StripCommasDigits(g.amount);
      StripCommasDigits(g.balance);
    }
  }

  const ReceivedExample: string :=
    "You have received 1,000 RWF from John Doe (*1234)... Your new balance:5,000 RWF... Transaction Id: 56789"

  /**
   * A money-received message: the amount and balance lose their thousands
   * separators, the sender is the captured name and the transaction id becomes
   * the reference number.
   */
  lemma ReceivedExampleExtraction(m: Matchers)
    requires m.receive(ReceivedExample) ==
      Some(ReceiveGroups("1,000", "RWF", "John Doe", "1234", "5,000", "RWF", "56789"))
    ensures ExtractTransactionInfo(Some(ReceivedExample), m) ==
      Success(Some(TxInfo(Receive, 1000.0, "RWF", "John Doe", "", "56789", 5000.0, 0.0, ReceivedExample)))
  {
    ReceivedExampleApplied(m.receive(ReceivedExample).value);
  }

  lemma ReceivedExampleApplied(g: ReceiveGroups)
    requires g == ReceiveGroups("1,000", "RWF", "John Doe", "1234", "5,000", "RWF", "56789")
    ensures ApplyReceive(DefaultInfo(ReceivedExample), g) ==
      Success(TxInfo(Receive, 1000.0, "RWF", "John Doe", "", "56789", 5000.0, 0.0, ReceivedExample))
  {
    ThousandsExample("1", 1000.0);
    assert g.amount == "1" + ",000";
    assert ParseAmount(g.amount) == Success(1000.0);
    ThousandsExample("5", 5000.0);
    assert g.balance == "5" + ",000";
    assert ParseAmount(g.balance) == Success(5000.0);
    NameStripped();
  }

  /** The captured name has no surrounding whitespace, so `strip` keeps it. */
  lemma NameStripped()
    ensures Strip("John Doe") == "John Doe"
  {
    StripUntrimmed("John Doe");
  }

  /** `float("d,000".replace(',', ''))` for a single digit `d`. */
  lemma ThousandsExample(d: string, v: real)
    requires (d == "1" && v == 1000.0) || (d == "5" && v == 5000.0)
    ensures ParseAmount(d + ",000") == Success(v)
  {
    ParseAmountThousands(d, "000");
    assert d + "," + "000" == d + ",000";
  }
}
