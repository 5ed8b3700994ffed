/**
 * `SMSTransactionParser.process_sms_to_transactions`: turns the ingested SMS
 * records, in document order, into transaction records. Only messages from the
 * `M-Money` channel are classified; those the extractor leaves `unknown` (or
 * that have no body) are dropped; every emitted record gets the next id of a
 * counter that starts at 1, a timestamp derived from the message's date, and
 * status `completed`.
 */
module Pipeline {
  import opened Wrappers
  import opened PyText
  import opened Extraction
  import Lookup

  /**
   * The attributes of one `<sms>` element, as `parse_xml` stores them: every key
   * is present, and an attribute missing from the element is stored as None.
   */
  datatype SmsRecord = SmsRecord(
    protocol: Option<string>,
    address: Option<string>,
    date: Option<string>,
    smsType: Option<string>,
    subject: Option<string>,
    body: Option<string>,
    readableDate: Option<string>,
    contactName: Option<string>)

  /** One emitted transaction record. */
  datatype Transaction = Transaction(
    id: int,
    transactionType: TxType,
    amount: real,
    currency: string,
    sender: string,
    receiver: string,
    timestamp: string,
    status: string,
    referenceNumber: string,
    balance: real,
    fee: real,
    message: string)

  function TxId(t: Transaction): int {
    t.id
  }

  /** The channel whose messages are classified. */
  const MoneyChannel: string := "M-Money"

  // ---------------------------------------------------------------------------
  // Timestamps. `toIso` stands for `datetime.fromtimestamp(int(ts) / 1000).isoformat()`
  // and yields None where any of those steps raises; the bare `except` catches it.

  /**
   * The timestamp as the code computes it. Because the record always holds the
   * key `readable_date`, `sms.get('readable_date', default)` returns the stored
   * value and never the default: without a usable date the timestamp is the
   * readable date, or None when that attribute is missing too.
   */
  function TimestampAsWritten(msg: SmsRecord, toIso: string -> Option<string>): Option<string> {
    if msg.date.Some? && msg.date.value != [] then
      match toIso(msg.date.value)
      case Some(iso) => Some(iso)
      case None => msg.readableDate
    else msg.readableDate
  }

  /**
   * The timestamp with the fallbacks the code spells out: the ISO form of the
   * date when it converts; otherwise the readable date, or else the raw date
   * (after a failed conversion) or the empty string (without a date).
   */
  function FormatTimestamp(msg: SmsRecord, toIso: string -> Option<string>): string {
    if msg.date.Some? && msg.date.value != [] then
      match toIso(msg.date.value)
      case Some(iso) => iso
      case None => msg.readableDate.GetOr(msg.date.value)
    else msg.readableDate.GetOr("")
  }

  /**
   * The two agree whenever the message carries a readable date, and whenever
   * the date converts.
   */
  lemma TimestampFallbackAgreement(msg: SmsRecord, toIso: string -> Option<string>)
    requires msg.readableDate.Some? || (msg.date.Some? && msg.date.value != [] && toIso(msg.date.value).Some?)
    ensures TimestampAsWritten(msg, toIso) == Some(FormatTimestamp(msg, toIso))
  {
  }

  /**
   * A message with neither `date` nor `readable_date` gets no timestamp at all
   * (None, written out as JSON null) from the code as written, where the
   * fallback to `''` was meant.
   */
  lemma TimestampAsWrittenCanBeNull(toIso: string -> Option<string>)
    ensures var msg := SmsRecord(None, Some(MoneyChannel), None, None, None, Some("body"), None, None);
      TimestampAsWritten(msg, toIso) == None && FormatTimestamp(msg, toIso) == ""
  {
  }

  /** An unparsable date with no readable date: null instead of the raw date. */
  lemma TimestampAsWrittenDropsRawDate(toIso: string -> Option<string>)
    requires toIso("not-a-number") == None
    ensures var msg := SmsRecord(None, Some(MoneyChannel), Some("not-a-number"), None, None, Some("body"), None, None);
      TimestampAsWritten(msg, toIso) == None && FormatTimestamp(msg, toIso) == "not-a-number"
  {
  }

  // ---------------------------------------------------------------------------
  // One message.

  /**
   * `self.extract_transaction_info` as the loop sees it. The run below is
   * stated for any extractor; `Extract(m)` is the one the parser has.
   */
  type Extractor = Option<string> -> Result<Option<TxInfo>, ValueError>

  function Extract(m: Matchers): Extractor {
    body => ExtractTransactionInfo(body, m)
  }

  /** Every record the extractor returns carries the body it was extracted from. */
  ghost predicate CarriesBody(extract: Extractor) {
    forall body :: extract(body).Success? && extract(body).value.Some? ==>
      body == Some(extract(body).value.value.message)
  }

  lemma ExtractCarriesBody(m: Matchers)
    ensures CarriesBody(Extract(m))
  {
    forall body | Extract(m)(body).Success? && Extract(m)(body).value.Some?
      ensures body == Some(Extract(m)(body).value.value.message)
    {
      assert Extract(m)(body) == ExtractTransactionInfo(body, m);
    }
  }

  /**
   * What the loop does with one message: Some(info) when it emits a record
   * built from `info`, None when it skips the message, Failure when extraction
   * raises.
   */
  function Classify(msg: SmsRecord, extract: Extractor): (r: Result<Option<TxInfo>, ValueError>)
    ensures r.Failure? <==> msg.address == Some(MoneyChannel) && extract(msg.body).Failure?
    ensures r.Success? && r.value.Some? <==>
      && msg.address == Some(MoneyChannel)
      && extract(msg.body).Success?
      && extract(msg.body).value.Some?
      && extract(msg.body).value.value.transactionType != Unknown
    ensures r.Success? && r.value.Some? ==> r.value == extract(msg.body).value
  {
    if msg.address != Some(MoneyChannel) then Success(None)
    else
      var info :- extract(msg.body);
      if info.Some? && info.value.transactionType != Unknown then Success(info) else Success(None)
  }

  predicate Keeps(msg: SmsRecord, extract: Extractor) {
    Classify(msg, extract).Success? && Classify(msg, extract).value.Some?
  }

  /** The record emitted for a message with extracted fields `info`. */
  function Build(id: int, info: TxInfo, msg: SmsRecord, toIso: string -> Option<string>): Transaction {
    Transaction(id, info.transactionType, info.amount, info.currency, info.sender, info.receiver,
                FormatTimestamp(msg, toIso), "completed", info.referenceNumber, info.balance, info.fee,
                info.message)
  }

  // ---------------------------------------------------------------------------
  // The whole run.

  /** The records emitted for `msgs`, numbered from `firstId`; the first error raised, if any. */
  function Emit(msgs: seq<SmsRecord>, extract: Extractor, toIso: string -> Option<string>, firstId: int)
    : Result<seq<Transaction>, ValueError>
  {
    if msgs == [] then Success([])
    else
      var c :- Classify(msgs[0], extract);
      match c
      case None => Emit(msgs[1..], extract, toIso, firstId)
      case Some(info) =>
        var rest :- Emit(msgs[1..], extract, toIso, firstId + 1);
        Success([Build(firstId, info, msgs[0], toIso)] + rest)
  }

  /** The run fails exactly when extracting some `M-Money` message raises. */
  lemma {:induction false} EmitFailsIff(msgs: seq<SmsRecord>, extract: Extractor, toIso: string -> Option<string>, firstId: int)
    ensures Emit(msgs, extract, toIso, firstId).Failure? <==> exists j :: 0 <= j < |msgs| && Classify(msgs[j], extract).Failure?
  {
    if msgs != [] {
      EmitFailsIff(msgs[1..], extract, toIso, firstId);
      EmitFailsIff(msgs[1..], extract, toIso, firstId + 1);
      if exists j :: 0 <= j < |msgs| && Classify(msgs[j], extract).Failure? {
        var j :| 0 <= j < |msgs| && Classify(msgs[j], extract).Failure?;
        if j > 0 {
          assert msgs[1..][j - 1] == msgs[j];
        }
      }
      if exists j :: 0 <= j < |msgs| - 1 && Classify(msgs[1..][j], extract).Failure? {
        var j :| 0 <= j < |msgs| - 1 && Classify(msgs[1..][j], extract).Failure?;
        assert msgs[j + 1] == msgs[1..][j];
      }
    }
  }

  /** Which messages produce a record. */
  function KeepFlags(msgs: seq<SmsRecord>, extract: Extractor): (f: seq<bool>)
    ensures |f| == |msgs| && forall j :: 0 <= j < |msgs| ==> f[j] == Keeps(msgs[j], extract)
  {
    if msgs == [] then [] else KeepFlags(msgs[..|msgs| - 1], extract) + [Keeps(msgs[|msgs| - 1], extract)]
  }

  /** The positions `lo..` whose flag is set, in increasing order. */
  function SetFrom(f: seq<bool>, lo: nat): (k: seq<nat>)
    requires lo <= |f|
    ensures forall i :: 0 <= i < |k| ==> lo <= k[i] < |f| && f[k[i]]
    decreases |f| - lo
  {
    if lo == |f| then []
    else if f[lo] then [lo] + SetFrom(f, lo + 1)
    else SetFrom(f, lo + 1)
  }

  /** They ascend, and every set position from `lo` on is among them. */
  lemma {:induction false} SetFromComplete(f: seq<bool>, lo: nat)
    requires lo <= |f|
    ensures forall i, j :: 0 <= i < j < |SetFrom(f, lo)| ==> SetFrom(f, lo)[i] < SetFrom(f, lo)[j]
    ensures forall j :: lo <= j < |f| && f[j] ==> j in SetFrom(f, lo)
    decreases |f| - lo
  {
    if lo < |f| {
      SetFromComplete(f, lo + 1);
    }
  }

  /** The positions `lo..` of the messages that produce a record, in increasing order. */
  function KeptFrom(msgs: seq<SmsRecord>, extract: Extractor, lo: nat): (k: seq<nat>)
    requires lo <= |msgs|
    ensures forall i :: 0 <= i < |k| ==> lo <= k[i] < |msgs| && Keeps(msgs[k[i]], extract)
  {
    SetFrom(KeepFlags(msgs, extract), lo)
  }

  /** The kept positions ascend, and every message from `lo` on that produces a record is among them. */
  lemma KeptFromComplete(msgs: seq<SmsRecord>, extract: Extractor, lo: nat)
    requires lo <= |msgs|
    ensures forall i, j :: 0 <= i < j < |KeptFrom(msgs, extract, lo)| ==> KeptFrom(msgs, extract, lo)[i] < KeptFrom(msgs, extract, lo)[j]
    ensures forall j :: lo <= j < |msgs| && Keeps(msgs[j], extract) ==> j in KeptFrom(msgs, extract, lo)
  {
    SetFromComplete(KeepFlags(msgs, extract), lo);
  }

  /**
   * A successful run emits exactly one record per kept message, in document
   * order, numbered consecutively from `firstId`, each built from its
   * message's extraction result.
   */
  lemma {:induction false} EmitBuilds(msgs: seq<SmsRecord>, extract: Extractor, toIso: string -> Option<string>,
                                      lo: nat, firstId: int)
    requires lo <= |msgs|
    requires Emit(msgs[lo..], extract, toIso, firstId).Success?
    ensures |Emit(msgs[lo..], extract, toIso, firstId).value| == |KeptFrom(msgs, extract, lo)|
    ensures forall i :: 0 <= i < |KeptFrom(msgs, extract, lo)| ==>
      Emit(msgs[lo..], extract, toIso, firstId).value[i] ==
        Build(firstId + i, Classify(msgs[KeptFrom(msgs, extract, lo)[i]], extract).value.value, msgs[KeptFrom(msgs, extract, lo)[i]], toIso)
    decreases |msgs| - lo
  {
    var s := msgs[lo..];
    var k := KeptFrom(msgs, extract, lo);
    if lo < |msgs| {
      assert s[0] == msgs[lo];
      assert s[1..] == msgs[lo + 1..];
      var c := Classify(msgs[lo], extract);
      if c.value.None? {
        assert !KeepFlags(msgs, extract)[lo];
        EmitBuilds(msgs, extract, toIso, lo + 1, firstId);
      } else {
        EmitBuilds(msgs, extract, toIso, lo + 1, firstId + 1);
        var r := Emit(s, extract, toIso, firstId).value;
        var rest := Emit(msgs[lo + 1..], extract, toIso, firstId + 1).value;
        assert r == [Build(firstId, c.value.value, msgs[lo], toIso)] + rest;
        assert KeepFlags(msgs, extract)[lo];
        assert k == [lo] + KeptFrom(msgs, extract, lo + 1);
        forall i | 0 <= i < |r|
          ensures r[i] == Build(firstId + i, Classify(msgs[k[i]], extract).value.value, msgs[k[i]], toIso)
        {
          if i > 0 {
            assert r[i] == rest[i - 1];
            assert k[i] == KeptFrom(msgs, extract, lo + 1)[i - 1];
          }
        }
      }
    }
  }

  /**
   * Hence each emitted record carries its position as id, status `completed`
   * and a known type, and comes from an `M-Money` message whose body it carries.
   */
  lemma EmitExact(msgs: seq<SmsRecord>, m: Matchers, toIso: string -> Option<string>, lo: nat, firstId: int)
    requires lo <= |msgs|
    requires Emit(msgs[lo..], Extract(m), toIso, firstId).Success?
    ensures var r := Emit(msgs[lo..], Extract(m), toIso, firstId).value;
      var k := KeptFrom(msgs, Extract(m), lo);
      && |r| == |k|
      && forall i :: 0 <= i < |r| ==>
           && r[i].id == firstId + i
           && r[i].status == "completed"
           && r[i].transactionType != Unknown
           && msgs[k[i]].address == Some(MoneyChannel)
           && msgs[k[i]].body == Some(r[i].message)
  {
    var k := KeptFrom(msgs, Extract(m), lo);
    ExtractCarriesBody(m);
    EmitBuilds(msgs, Extract(m), toIso, lo, firstId);
    ExtractedMessagesCarryBody(msgs, Extract(m), k);
  }

  lemma ExtractedMessagesCarryBody(msgs: seq<SmsRecord>, extract: Extractor, k: seq<nat>)
    requires CarriesBody(extract)
    requires forall i :: 0 <= i < |k| ==> k[i] < |msgs| && Keeps(msgs[k[i]], extract)
    ensures forall i :: 0 <= i < |k| ==>
      && Keeps(msgs[k[i]], extract)
      && msgs[k[i]].body == Some(Classify(msgs[k[i]], extract).value.value.message)
      && Classify(msgs[k[i]], extract).value.value.transactionType != Unknown
      && msgs[k[i]].address == Some(MoneyChannel)
  {
  }

  /**
   * The emitted ids are 1, 2, ..., k: so they are unique and ascending, which
   * is what the lookup strategies rely on.
   */
  lemma EmittedIds(msgs: seq<SmsRecord>, extract: Extractor, toIso: string -> Option<string>)
    requires Emit(msgs, extract, toIso, 1).Success?
    ensures var r := Emit(msgs, extract, toIso, 1).value;
      && (forall i :: 0 <= i < |r| ==> r[i].id == i + 1)
      && Lookup.UniqueKeys(r, TxId)
      && Lookup.SortedBy(r, TxId)
  {
    assert msgs[0..] == msgs;
    EmitBuilds(msgs, extract, toIso, 0, 1);
  }

  // ---------------------------------------------------------------------------
  // The parser object.

  function Prepend(acc: seq<Transaction>, r: Result<seq<Transaction>, ValueError>): Result<seq<Transaction>, ValueError> {
    match r
    case Success(v) => Success(acc + v)
    case Failure(e) => Failure(e)
  }

  class SMSTransactionParser {
    var smsRecords: seq<SmsRecord>
    var transactions: seq<Transaction>

    /** `SMSTransactionParser(path)` followed by `parse_xml()`: the ingested records, in document order. */
    constructor (records: seq<SmsRecord>)
      ensures smsRecords == records && transactions == []
    {
      smsRecords := records;
      transactions := [];
    }

    /**
     * `process_sms_to_transactions()`. On success the result is also stored in
     * `transactions`; a ValueError raised by the extractor leaves the object as
     * it was.
     */
    method ProcessSmsToTransactions(m: Matchers, toIso: string -> Option<string>)
      returns (r: Result<seq<Transaction>, ValueError>)
      modifies this`transactions
      ensures r == Emit(smsRecords, Extract(m), toIso, 1)
      ensures transactions == if r.Success? then r.value else old(transactions)
    {
      var out: seq<Transaction> := [];
      var transactionId := 1;
      var i := 0;
      assert smsRecords[0..] == smsRecords;
      ghost var whole := Emit(smsRecords, Extract(m), toIso, 1);
      if whole.Success? {
        assert [] + whole.value == whole.value;
      }
      while i < |smsRecords|
        invariant 0 <= i <= |smsRecords|
        invariant transactionId == |out| + 1
        invariant Emit(smsRecords, Extract(m), toIso, 1) == Prepend(out, Emit(smsRecords[i..], Extract(m), toIso, transactionId))
      {
        var sms := smsRecords[i];
        assert smsRecords[i..][0] == sms && smsRecords[i..][1..] == smsRecords[i + 1..];
        if sms.address == Some(MoneyChannel) {
          var info := ExtractTransactionInfo(sms.body, m);
          if info.Failure? {
            return Failure(info.error);
          }
          if info.value.Some? && info.value.value.transactionType != Unknown {
            var transaction := Build(transactionId, info.value.value, sms, toIso);
            ghost var tail := Emit(smsRecords[i + 1..], Extract(m), toIso, transactionId + 1);
            if tail.Success? {
              assert out + ([transaction] + tail.value) == (out + [transaction]) + tail.value;
            }
            out := out + [transaction];
            transactionId := transactionId + 1;
          }
        }
        i := i + 1;
      }
      assert out + [] == out;
      transactions := out;
      return Success(out);
    }
  }
}
