/**
 * `SMSDataProcessor`, the in-memory transaction store behind the REST API: a
 * list of transaction records and an id -> record dictionary kept in step by
 * `add_transaction`, `update_transaction` and `delete_transaction`, plus the
 * required-field check that `POST /transactions` makes before adding.
 */
module Store {
  import opened Wrappers
  import opened Lookup
  import Extraction
  import Pipeline

  /** A JSON value, as `json.load` produces it. */
  datatype Value =
    | Null
    | Bool(b: bool)
    | Int(n: int)
    | Real(r: real)
    | Str(s: string)
    | Array(items: seq<Value>)
    | Object(members: map<string, Value>)

  /** A stored transaction: its `id` and its other keys. */
  datatype Record = Record(id: int, fields: map<string, Value>)

  function RecordId(r: Record): int {
    r.id
  }

  /** `tx.update(data)`: the given keys are written over the record's, the others kept. */
  function Merge(r: Record, data: map<string, Value>): Record {
    Record(r.id, r.fields + data)
  }

  /** `max([tx['id'] for tx in s], default=0)`. */
  function MaxId(s: seq<Record>): (m: int)
    ensures s == [] ==> m == 0
    ensures forall i :: 0 <= i < |s| ==> s[i].id <= m
    ensures s != [] ==> exists i :: 0 <= i < |s| && s[i].id == m
  {
    if s == [] then 0
    else if |s| == 1 then s[0].id
    else
      var p := s[..|s| - 1];
      var m := MaxId(p);
      assert forall i :: 0 <= i < |p| ==> p[i] == s[i];
      if s[|s| - 1].id > m then s[|s| - 1].id else m
  }

  /** The id `add_transaction` gives the next record. */
  function NextId(s: seq<Record>): int {
    MaxId(s) + 1
  }

  /** The JSON object the parser writes for a transaction. */
  function FromTransaction(t: Pipeline.Transaction): Record {
    Record(t.id, map[
      "transaction_type" := Str(TypeName(t.transactionType)),
      "amount" := Real(t.amount),
      "currency" := Str(t.currency),
      "sender" := Str(t.sender),
      "receiver" := Str(t.receiver),
      "timestamp" := Str(t.timestamp),
      "status" := Str(t.status),
      "reference_number" := Str(t.referenceNumber),
      "balance" := Real(t.balance),
      "fee" := Real(t.fee),
      "message" := Str(t.message)])
  }

  function TypeName(t: Extraction.TxType): string {
    match t
    case Receive => "receive"
    case Payment => "payment"
    case Transfer => "transfer"
    case Deposit => "deposit"
    case Unknown => "unknown"
  }

  /** The snapshot the store loads from the parser's output. */
  function Snapshot(ts: seq<Pipeline.Transaction>): (r: seq<Record>)
    ensures |r| == |ts| && forall i :: 0 <= i < |ts| ==> r[i] == FromTransaction(ts[i])
  {
    if ts == [] then [] else Snapshot(ts[..|ts| - 1]) + [FromTransaction(ts[|ts| - 1])]
  }

  /** A store loaded from the parser's output starts with ids 1..n, so unique ones. */
  lemma ParsedSnapshotIsUnique(msgs: seq<Pipeline.SmsRecord>, m: Extraction.Matchers,
                               toIso: string -> Option<string>)
    requires Pipeline.Emit(msgs, Pipeline.Extract(m), toIso, 1).Success?
    ensures var s := Snapshot(Pipeline.Emit(msgs, Pipeline.Extract(m), toIso, 1).value);
      UniqueKeys(s, RecordId) && forall i :: 0 <= i < |s| ==> s[i].id == i + 1
  {
    Pipeline.EmittedIds(msgs, Pipeline.Extract(m), toIso);
  }

  /**
   * The list after `update_transaction`'s loop: the first record with the id
   * merged with `data`, every other record as it was.
   */
  function UpdateFirst(s: seq<Record>, id: int, data: map<string, Value>): (r: seq<Record>)
    ensures |r| == |s|
  {
    match FirstIndex(s, RecordId, id)
    case None => s
    case Some(i) => s[i := Merge(s[i], data)]
  }

  /** The list loop of `update_transaction`: the first record with the id takes `data`, then the scan stops. */
  method MergeFirst(s: seq<Record>, id: int, data: map<string, Value>) returns (t: seq<Record>)
    ensures t == UpdateFirst(s, id, data)
  {
    var i := 0;
    while i < |s|
      invariant 0 <= i <= |s|
      invariant forall j :: 0 <= j < i ==> s[j].id != id
    {
      if s[i].id == id {
        assert FirstIndex(s, RecordId, id) == Some(i);
        return s[i := Merge(s[i], data)];
      }
      i := i + 1;
    }
    return s;
  }

  /**
   * The list after `update_transaction`. The loop merges the first record
   * with the id; then the dictionary's record is merged, and that record is
   * the very object the list holds last with the id (the dictionary is filled
   * from the list, the last record winning, and `add_transaction` puts one
   * object in both), so the list sees that merge too. With unique ids the two
   * are one record.
   */
  function UpdateShared(s: seq<Record>, id: int, data: map<string, Value>): seq<Record> {
    var t := UpdateFirst(s, id, data);
    match LastIndex(s, RecordId, id)
    case None => t
    case Some(j) => t[j := Merge(s[j], data)]
  }

  /**
   * Merging the first and the last record with a known id leaves the
   * dictionary the list builds equal to the old one with that id's record
   * merged, whether ids repeat or not.
   */
  lemma UpdateSharedIndex(s: seq<Record>, id: int, data: map<string, Value>)
    requires id in IndexBy(s, RecordId)
    ensures IndexBy(UpdateShared(s, id, data), RecordId) ==
      IndexBy(s, RecordId)[id := Merge(IndexBy(s, RecordId)[id], data)]
  {
    IndexByIsLast(s, RecordId, id);
    var j := LastIndex(s, RecordId, id).value;
    var f := FirstIndex(s, RecordId, id).value;
    var y := Merge(s[j], data);
    if f == j {
      IndexByReplaceAt(s, j, y, RecordId);
      assert UpdateShared(s, id, data) == s[j := y];
    } else {
      var t := s[f := Merge(s[f], data)];
      IndexByReplaceAt(s, f, Merge(s[f], data), RecordId);
      LastIndexReplace(s, f, Merge(s[f], data), RecordId, id);
      IndexByReplaceAt(t, j, y, RecordId);
      assert UpdateShared(s, id, data) == t[j := y];
    }
  }

  /** With unique ids only the first record with the id changes, and ids stay unique. */
  lemma UpdateSharedUnique(s: seq<Record>, id: int, data: map<string, Value>)
    requires UniqueKeys(s, RecordId)
    ensures UpdateShared(s, id, data) == UpdateFirst(s, id, data)
    ensures UniqueKeys(UpdateShared(s, id, data), RecordId)
  {
    FirstIsLastWhenUnique(s, RecordId, id);
    match FirstIndex(s, RecordId, id)
    case None =>
    case Some(i) =>
      ReplaceKeepsUnique(s, i, Merge(s[i], data), RecordId);
  }

  /** What `update_transaction` keeps: the dictionary in step, ids unique, and everything on an empty update. */
  lemma UpdateSharedKeeps(s: seq<Record>, m: map<int, Record>, id: int, data: map<string, Value>)
    requires id in m
    ensures m == IndexBy(s, RecordId) ==> IndexBy(UpdateShared(s, id, data), RecordId) == m[id := Merge(m[id], data)]
    ensures UniqueKeys(s, RecordId) ==>
      UpdateShared(s, id, data) == UpdateFirst(s, id, data) && UniqueKeys(UpdateShared(s, id, data), RecordId)
    ensures data == map[] ==> UpdateShared(s, id, data) == s && Merge(m[id], data) == m[id]
  {
    if m == IndexBy(s, RecordId) {
      UpdateSharedIndex(s, id, data);
    }
    if UniqueKeys(s, RecordId) {
      UpdateSharedUnique(s, id, data);
    }
    if data == map[] {
      UpdateWithNothing(s, id);
      assert m[id].fields + data == m[id].fields;
    }
  }

  /**
   * When a loaded list repeats an id, both the first and the last record with
   * it take the update, and a record between them does not.
   */
  lemma UpdateSharedRepeated(a: Record, b: Record, c: Record, data: map<string, Value>)
    requires a.id == c.id && b.id != a.id
    ensures UpdateShared([a, b, c], a.id, data) == [Merge(a, data), b, Merge(c, data)]
  {
    assert FirstIndex([a, b, c], RecordId, a.id) == Some(0);
    assert LastIndex([a, b, c], RecordId, a.id) == Some(2);
  }

  /** An empty update leaves the list as it was. */
  lemma UpdateWithNothing(s: seq<Record>, id: int)
    ensures UpdateShared(s, id, map[]) == s
  {
    match FirstIndex(s, RecordId, id)
    case None =>
    case Some(i) =>
      assert s[i].fields + map[] == s[i].fields;
      var j := LastIndex(s, RecordId, id).value;
      assert s[j].fields + map[] == s[j].fields;
  }

  /** The keys `POST /transactions` requires, in the order it checks them. */
  const RequiredFields: seq<string> := ["transaction_type", "amount", "currency", "sender", "receiver"]

  /** The first of `fields` that `data` lacks. */
  function FirstMissing(fields: seq<string>, data: map<string, Value>): (r: Option<string>)
    ensures r.None? <==> forall i :: 0 <= i < |fields| ==> fields[i] in data
    ensures r.Some? ==> r.value !in data
    ensures r.Some? ==>
      exists i :: 0 <= i < |fields| && fields[i] == r.value && (forall j :: 0 <= j < i ==> fields[j] in data)
  {
    if fields == [] then None
    else if fields[0] !in data then Some(fields[0])
    else
      var r := FirstMissing(fields[1..], data);
      assert forall i :: 1 <= i < |fields| ==> fields[1..][i - 1] == fields[i];
      if r.Some? then
        var i :| 0 <= i < |fields[1..]| && fields[1..][i] == r.value &&
          (forall j :: 0 <= j < i ==> fields[1..][j] in data);
        assert fields[i + 1] == r.value;
        r
      else r
  }

  /** The error `POST /transactions` answers with before touching the store. */
  datatype BadRequest = MissingRequiredField(field: string)

  /** What `get_transaction_by_id` reports, without its timings. */
  datatype ByIdResult = ByIdResult(transaction: Option<Record>, dictionaryFound: bool, linearFound: bool)

  /** Deleting the largest id and then adding never hands out a larger id than the deleted one. */
  lemma {:induction false} NextIdAfterDeletingMax(s: seq<Record>)
    requires s != [] && MaxId(s) >= 1
    ensures NextId(Without(s, RecordId, MaxId(s))) <= MaxId(s)
  {
    var w := Without(s, RecordId, MaxId(s));
    WithoutMembers(s, RecordId, MaxId(s));
    if w != [] {
      var j :| 0 <= j < |w| && w[j].id == MaxId(w);
      assert w[j] in s;
    }
  }

  /**
   * So ids are reused: on the ids 1..n the parser assigns, deleting id n and
   * then adding gives the new record the id n again.
   */
  lemma IdReusedAfterDeletingMax(s: seq<Record>)
    requires s != [] && forall i :: 0 <= i < |s| ==> s[i].id == i + 1
    ensures MaxId(s) == |s|
    ensures NextId(Without(s, RecordId, |s|)) == |s|
  {
    var last := |s| - 1;
    assert s[last].id == |s|;
    NextIdAfterDeletingMax(s);
    var w := Without(s, RecordId, |s|);
    WithoutMembers(s, RecordId, |s|);
    if |s| > 1 {
      assert s[last - 1] in w;
    }
  }

  class SMSDataProcessor {
    var transactions: seq<Record>
    var transactionDict: map<int, Record>

    /** The dictionary is the one a pass over the list builds. */
    predicate Valid()
      reads this
    {
      transactionDict == IndexBy(transactions, RecordId)
    }

    /** No two records of the list share an id. */
    predicate Unique()
      reads this
    {
      UniqueKeys(transactions, RecordId)
    }

    /**
     * `SMSDataProcessor(path)`: the loaded snapshot, or nothing when loading
     * raised, with the dictionary filled record by record.
     */
    constructor (loaded: Option<seq<Record>>)
      ensures transactions == loaded.GetOr([])
      ensures Valid()
    {
      var txs := loaded.GetOr([]);
      var dict: map<int, Record> := map[];
      for i := 0 to |txs|
        invariant dict == IndexBy(txs[..i], RecordId)
      {
        assert txs[..i + 1] == txs[..i] + [txs[i]];
        IndexBySnoc(txs[..i], txs[i], RecordId);
        dict := dict[RecordId(txs[i]) := txs[i]];
      }
      assert txs[..|txs|] == txs;
      transactions := txs;
      transactionDict := dict;
    }

    /** In a valid store the dictionary's keys are the list's ids, each mapped to a record with that id. */
    lemma KeysAreListIds()
      requires Valid()
      ensures forall k :: k in transactionDict <==> exists i :: 0 <= i < |transactions| && transactions[i].id == k
      ensures forall k :: k in transactionDict ==> transactionDict[k].id == k && transactionDict[k] in transactions
    {
      IndexByKeys(transactions, RecordId);
    }

    /** `linear_search`: the first record in list order with the id. */
    method LinearSearch(transactionId: int) returns (r: Option<Record>)
      ensures r == FirstWith(transactions, RecordId, transactionId)
    {
      for i := 0 to |transactions|
        invariant forall j :: 0 <= j < i ==> transactions[j].id != transactionId
      {
        if transactions[i].id == transactionId {
          return Some(transactions[i]);
        }
      }
      return None;
    }

    /**
     * `dictionary_lookup`: in a valid store it finds a record exactly when the
     * list holds the id, namely the last record with it; with unique ids that
     * is the record the scan finds.
     */
    method DictionaryLookup(transactionId: int) returns (r: Option<Record>)
      ensures Valid() ==> (r.None? <==> forall j :: 0 <= j < |transactions| ==> transactions[j].id != transactionId)
      ensures Valid() && r.Some? ==> r.value in transactions && r.value.id == transactionId
      ensures Valid() ==> r == LastWith(transactions, RecordId, transactionId)
      ensures Valid() && Unique() ==> r == FirstWith(transactions, RecordId, transactionId)
    {
      if transactionId in transactionDict {
        r := Some(transactionDict[transactionId]);
      } else {
        r := None;
      }
      if Valid() {
        IndexByKeys(transactions, RecordId);
        IndexByIsLast(transactions, RecordId, transactionId);
        if Unique() {
          IndexAgreesWithScan(transactions, RecordId, transactionId);
        }
      }
    }

    /** `get_all_transactions`: the list, in its order. */
    method GetAllTransactions() returns (r: seq<Record>)
      ensures r == transactions
    {
      return transactions;
    }

    /**
     * `get_transaction_by_id`: the dictionary's answer, and whether each of
     * the two searches found the id; in a valid store the two flags agree.
     */
    method GetTransactionById(transactionId: int) returns (r: ByIdResult)
      ensures r.dictionaryFound == r.transaction.Some?
      ensures r.linearFound == FirstWith(transactions, RecordId, transactionId).Some?
      ensures Valid() ==> r.dictionaryFound == r.linearFound
      ensures Valid() ==> r.transaction == LastWith(transactions, RecordId, transactionId)
      ensures Valid() && Unique() ==> r.transaction == FirstWith(transactions, RecordId, transactionId)
    {
      var resultDict := DictionaryLookup(transactionId);
      var resultLinear := LinearSearch(transactionId);
      r := ByIdResult(resultDict, resultDict.Some?, resultLinear.Some?);
    }

    /**
     * `add_transaction`: the record gets id `max(ids, default=0) + 1`, is
     * appended to the list and entered in the dictionary under that id. The
     * id is new, so the store stays valid and its ids unique.
     */
    method AddTransaction(data: map<string, Value>) returns (r: Record)
      modifies this
      ensures r == Record(NextId(old(transactions)), data - {"id"})
      ensures forall i :: 0 <= i < |old(transactions)| ==> old(transactions)[i].id < r.id
      ensures transactions == old(transactions) + [r]
      ensures transactionDict == old(transactionDict)[r.id := r]
      ensures old(Valid()) ==> Valid() && r.id !in old(transactionDict)
      ensures old(Unique()) ==> Unique()
    {
      var newId := MaxId(transactions) + 1;
      r := Record(newId, data - {"id"});
      if Valid() {
        IndexByKeys(transactions, RecordId);
        IndexBySnoc(transactions, r, RecordId);
      }
      transactions := transactions + [r];
      transactionDict := transactionDict[newId := r];
    }

    /**
     * `update_transaction`: for an id the dictionary lacks, None and nothing
     * changes. Otherwise the first list record with the id and the
     * dictionary's record are merged with `data` (last write wins) and the
     * merged record is returned. The dictionary's record is the list's last
     * record with the id, so the list changes as `UpdateShared` says; with
     * unique ids that is the first record alone. An empty update changes
     * nothing. The update must not carry an `id` key.
     */
    method UpdateTransaction(transactionId: int, data: map<string, Value>) returns (r: Option<Record>)
      requires "id" !in data
      modifies this
      ensures transactionId !in old(transactionDict) ==>
        r == None && transactions == old(transactions) && transactionDict == old(transactionDict)
      ensures transactionId in old(transactionDict) ==>
        && r == Some(Merge(old(transactionDict)[transactionId], data))
        && transactions == UpdateShared(old(transactions), transactionId, data)
        && transactionDict == old(transactionDict)[transactionId := r.value]
      ensures transactionId in old(transactionDict) && old(Unique()) ==>
        transactions == UpdateFirst(old(transactions), transactionId, data)
      ensures data == map[] ==> transactions == old(transactions) && transactionDict == old(transactionDict)
      ensures old(Valid()) ==> Valid()
      ensures old(Unique()) ==> Unique()
    {
      if transactionId !in transactionDict {
        return None;
      }
      var before := transactions;
      var updated := MergeFirst(before, transactionId, data);
      // The dictionary's record is the list's last one with the id: its merge shows in the list.
      var last := LastIndex(before, RecordId, transactionId);
      if last.Some? {
        updated := updated[last.value := Merge(before[last.value], data)];
      }
      assert updated == UpdateShared(before, transactionId, data);
      UpdateSharedKeeps(before, transactionDict, transactionId, data);
      transactions := updated;
      var merged := Merge(transactionDict[transactionId], data);
      transactionDict := transactionDict[transactionId := merged];
      return Some(merged);
    }

    /**
     * `delete_transaction`: for an id the dictionary lacks, None and nothing
     * changes. Otherwise every list record with the id is dropped (the others
     * keep their order), the id leaves the dictionary, and the dictionary's
     * record is returned.
     */
    method DeleteTransaction(transactionId: int) returns (r: Option<Record>)
      modifies this
      ensures transactionId !in old(transactionDict) ==>
        r == None && transactions == old(transactions) && transactionDict == old(transactionDict)
      ensures transactionId in old(transactionDict) ==>
        && r == Some(old(transactionDict)[transactionId])
        && transactions == Without(old(transactions), RecordId, transactionId)
        && transactionDict == old(transactionDict) - {transactionId}
      ensures old(Valid()) ==> Valid()
      ensures old(Unique()) ==> Unique()
    {
      if transactionId !in transactionDict {
        return None;
      }
      IndexByWithout(transactions, RecordId, transactionId);
      if Unique() {
        WithoutUnique(transactions, RecordId, transactionId);
      }
      transactions := Without(transactions, RecordId, transactionId);
      var deleted := transactionDict[transactionId];
      transactionDict := transactionDict - {transactionId};
      return Some(deleted);
    }

    /**
     * `POST /transactions`: a body lacking one of the required keys is
     * rejected with the first missing one and the store is left as it was;
     * any other body is added.
     */
    method CreateTransaction(data: map<string, Value>) returns (r: Result<Record, BadRequest>)
      modifies this
      ensures FirstMissing(RequiredFields, data).Some? ==>
        && r == Failure(MissingRequiredField(FirstMissing(RequiredFields, data).value))
        && transactions == old(transactions) && transactionDict == old(transactionDict)
      ensures FirstMissing(RequiredFields, data).None? ==>
        && r.Success? && r.value == Record(NextId(old(transactions)), data - {"id"})
        && transactions == old(transactions) + [r.value]
        && transactionDict == old(transactionDict)[r.value.id := r.value]
      ensures old(Valid()) ==> Valid()
      ensures old(Unique()) ==> Unique()
    {
      var missing := FirstMissing(RequiredFields, data);
      if missing.Some? {
        return Failure(MissingRequiredField(missing.value));
      }
      var added := AddTransaction(data);
      return Success(added);
    }
  }

}
