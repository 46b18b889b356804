/** The earlier QR script, QRcode_CK.py: one sequential pass that skips records whose
    "QR code" cell is already filled, makes a single download-and-upload attempt per
    record, and then writes back in batches of 500, skipping failed batches. It has no
    exception handler around a record, so an exception while parsing the link or
    building the file name ends the whole call before any write-back. */
module QrLegacy {
  import opened LarkData
  import opened LarkTable
  import opened QrNaming
  import opened QrRetry
  import opened QrPipeline

  /** `download_and_upload_qr`: one attempt; None for an exception, a status other than
      200, or an upload code other than 0. */
  function DownloadAndUpload(a: Attempt): Value {
    match a
    case Errored => Null
    case Answered(status, uploadCode, fileToken) =>
      if status != 200 then Null
      else if uploadCode == 0 then fileToken
      else Null
  }

  /** The single attempt is the retry loop bounded to one attempt. */
  lemma SingleAttemptIsOneRetry(attempts: seq<Attempt>)
    ensures DownloadAndUpload(AttemptAt(attempts, 0)) == RetryToken(attempts, 1)
  {
    assert RetryFrom(attempts, 1, 1) == Null;
  }

  /** The selection of the earlier script adds `fields.get("QR code")` to the skip test. */
  function PrepareLegacy(r: Record, formatDate: int -> string): Preparation {
    if Truthy(Get(r.fields, QrField)) then Skip else Prepare(r, formatDate)
  }

  /** The two selections differ exactly on the records that have a "QR code" already and
      that the later script would process (or fail on). */
  lemma {:induction false} SelectionsDiffer(r: Record, formatDate: int -> string)
    ensures PrepareLegacy(r, formatDate) != Prepare(r, formatDate) <==>
      Truthy(Get(r.fields, QrField)) && Prepare(r, formatDate) != Skip
  {
  }

  /** `r` after its write-back entry with token `token` has been applied. */
  function WrittenBack(r: Record, token: Value): Record {
    Record(r.recordId, r.fields[QrField := QrEntry(r.recordId, token).fields[QrField]])
  }

  /** Re-running the earlier script does not reprocess a record it filled; the later
      script prepares the same work item again. */
  lemma RerunAfterWriteBack(r: Record, token: Value, formatDate: int -> string)
    requires Truthy(token)
    ensures PrepareLegacy(WrittenBack(r, token), formatDate) == Skip
    ensures Prepare(WrittenBack(r, token), formatDate) == Prepare(r, formatDate)
  {
    var r' := WrittenBack(r, token);
    var v := QrEntry(r.recordId, token).fields[QrField];
    assert Get(r'.fields, QrField) == v;
    assert QrField != LinkField by {
      assert QrField[0] != LinkField[0];
    }
    assert QrField != DepotIdField by {
      assert |QrField| != |DepotIdField|;
    }
    assert QrField != DepotNameField by {
      assert |QrField| != |DepotNameField|;
    }
    assert QrField != DateField by {
      assert |QrField| != |DateField|;
    }
    OtherCellKept(r.fields, QrField, v, LinkField, Null);
    OtherCellKept(r.fields, QrField, v, DepotIdField, Str(Unknown));
    OtherCellKept(r.fields, QrField, v, DepotNameField, Str(Unknown));
    OtherCellKept(r.fields, QrField, v, DateField, Null);
    SameCellsSamePreparation(r', r, formatDate);
  }

  /** Writing one cell leaves the lookup of every other cell as it was. */
  lemma OtherCellKept(m: map<string, Value>, k: string, v: Value, key: string, default: Value)
    requires key != k
    ensures GetOr(m[k := v], key, default) == GetOr(m, key, default)
  {
  }

  /** Preparation reads the record id and the link, depot id, depot name and date cells only. */
  lemma SameCellsSamePreparation(r1: Record, r2: Record, formatDate: int -> string)
    requires r1.recordId == r2.recordId
    requires Get(r1.fields, LinkField) == Get(r2.fields, LinkField)
    requires GetOr(r1.fields, DepotIdField, Str(Unknown)) == GetOr(r2.fields, DepotIdField, Str(Unknown))
    requires GetOr(r1.fields, DepotNameField, Str(Unknown)) == GetOr(r2.fields, DepotNameField, Str(Unknown))
    requires Get(r1.fields, DateField) == Get(r2.fields, DateField)
    ensures Prepare(r1, formatDate) == Prepare(r2, formatDate)
  {
  }

  /** The token of the single attempt made for `r`. */
  function LegacyToken(r: Record, w: World): Value {
    DownloadAndUpload(AttemptAt(w.network(r), 0))
  }

  /** The entry of one record, or None when the record raises. */
  function LegacyEntryOf(r: Record, w: World): Option<seq<Payload>> {
    match PrepareLegacy(r, w.formatDate)
    case Skip => Some([])
    case Raise => None
    case Ready(item) =>
      var token := LegacyToken(r, w);
      if Truthy(token) then Some([QrEntry(item.recordId, token)]) else Some([])
  }

  /** The record passes the selection, is prepared, and its attempt returns a truthy token. */
  predicate LegacyWrites(r: Record, w: World) {
    PrepareLegacy(r, w.formatDate).Ready? && Truthy(LegacyToken(r, w))
  }

  /** One record raises exactly when its preparation does; otherwise it contributes at
      most one entry, and exactly one, `{record_id, QR code: [{file_token}]}` with its own
      id and token, when it is written back. */
  lemma LegacyEntryOfSuccess(r: Record, w: World)
    ensures LegacyEntryOf(r, w).None? <==> PrepareLegacy(r, w.formatDate) == Raise
    ensures LegacyEntryOf(r, w).Some? ==> |LegacyEntryOf(r, w).value| <= 1
    ensures LegacyEntryOf(r, w).Some? ==> (|LegacyEntryOf(r, w).value| == 1 <==> LegacyWrites(r, w))
    ensures LegacyWrites(r, w) ==> LegacyEntryOf(r, w) == Some([QrEntry(r.recordId, LegacyToken(r, w))])
  {
    if PrepareLegacy(r, w.formatDate).Ready? {
      ReadyFileName(r, w.formatDate);
    }
  }

  /** Reference definition: the write-back entries of the written records, in input order. */
  function WrittenEntries(s: seq<Record>, w: World): seq<Payload> {
    if s == [] then []
    else
      var x := s[|s| - 1];
      WrittenEntries(s[..|s| - 1], w) + (if LegacyWrites(x, w) then [QrEntry(x.recordId, LegacyToken(x, w))] else [])
  }

  /** The positions of `s` whose element satisfies `p`. */
  function Indices<T>(s: seq<T>, p: T -> bool): set<nat> {
    set k: nat | k < |s| && p(s[k])
  }

  /** Extending the list by one element adds its position when it satisfies `p`. */
  lemma IndicesStep<T>(s: seq<T>, p: T -> bool)
    requires s != []
    ensures |Indices(s, p)| == |Indices(s[..|s| - 1], p)| + (if p(s[|s| - 1]) then 1 else 0)
  {
    var n := |s| - 1;
    var before := Indices(s[..n], p);
    var added: set<nat> := if p(s[n]) then {n} else {};
    forall k: nat | k in Indices(s, p) ensures k in before + added {
      if k < n {
        assert s[..n][k] == s[k];
      }
    }
    forall k: nat | k in before + added ensures k in Indices(s, p) {
      if k < n {
        assert s[..n][k] == s[k];
      }
    }
    assert Indices(s, p) == before + added;
    assert before * added == {};
  }

  function WritesTest(w: World): Record -> bool {
    r => LegacyWrites(r, w)
  }

  /** The positions of the written records. */
  function WrittenIndices(s: seq<Record>, w: World): set<nat> {
    Indices(s, WritesTest(w))
  }

  /** `records_to_update` after the records, in input order, or None when one raises. */
  function LegacyEntries(s: seq<Record>, w: World): Option<seq<Payload>> {
    if s == [] then Some([])
    else match LegacyEntries(s[..|s| - 1], w)
      case None => None
      case Some(es) =>
        match LegacyEntryOf(s[|s| - 1], w)
        case None => None
        case Some(e) => Some(es + e)
  }

  lemma LegacyStep(s: seq<Record>, x: Record, w: World)
    ensures LegacyEntries(s + [x], w) ==
      match LegacyEntries(s, w)
      case None => None
      case Some(es) =>
        match LegacyEntryOf(x, w)
        case None => None
        case Some(e) => Some(es + e)
  {
    assert (s + [x])[..|s|] == s;
  }

  /** Some element of `s` satisfies `p`. */
  predicate Any<T>(s: seq<T>, p: T -> bool) {
    exists k :: 0 <= k < |s| && p(s[k])
  }

  lemma AnyStep<T>(s: seq<T>, p: T -> bool)
    requires s != []
    ensures Any(s, p) <==> Any(s[..|s| - 1], p) || p(s[|s| - 1])
  {
    var n := |s| - 1;
    if Any(s[..n], p) {
      var k :| 0 <= k < n && p(s[..n][k]);
      assert s[k] == s[..n][k];
    }
    if Any(s, p) {
      var k :| 0 <= k < |s| && p(s[k]);
      if k < n {
        assert s[..n][k] == s[k];
      }
    }
  }

  function RaisesTest(w: World): Record -> bool {
    r => PrepareLegacy(r, w.formatDate) == Raise
  }

  /** The pass raises exactly when some record's preparation raises. */
  lemma {:induction false} LegacyRaisesExactly(s: seq<Record>, w: World)
    ensures LegacyEntries(s, w).None? <==> Any(s, RaisesTest(w))
  {
    if s != [] {
      var n := |s| - 1;
      LegacyRaisesExactly(s[..n], w);
      LegacyEntryOfSuccess(s[n], w);
      AnyStep(s, RaisesTest(w));
      assert RaisesTest(w)(s[n]) == (PrepareLegacy(s[n], w.formatDate) == Raise);
    }
  }

  /** When the pass does not raise, `records_to_update` is, in input order, the entries
      of the written records. */
  lemma {:induction false} LegacyEntriesWritten(s: seq<Record>, w: World)
    requires LegacyEntries(s, w).Some?
    ensures LegacyEntries(s, w).value == WrittenEntries(s, w)
  {
    if s != [] {
      var n := |s| - 1;
      var s', x := s[..n], s[n];
      assert LegacyEntries(s', w).Some? && LegacyEntryOf(x, w).Some?;
      LegacyEntriesWritten(s', w);
      LegacyEntryOfSuccess(x, w);
      var e := LegacyEntryOf(x, w).value;
      assert LegacyEntries(s, w).value == LegacyEntries(s', w).value + e;
      assert e == if LegacyWrites(x, w) then [QrEntry(x.recordId, LegacyToken(x, w))] else [];
    }
  }

  /** There is one entry per written record. */
  lemma {:induction false} WrittenCount(s: seq<Record>, w: World)
    ensures |WrittenEntries(s, w)| == |WrittenIndices(s, w)|
  {
    if s != [] {
      var n := |s| - 1;
      WrittenCount(s[..n], w);
      IndicesStep(s, WritesTest(w));
      assert WritesTest(w)(s[n]) == LegacyWrites(s[n], w);
    }
  }

  /** An exception ends the pass: once a prefix raises, the whole list does. */
  lemma {:induction false} RaiseIsFinal(s: seq<Record>, i: nat, w: World)
    requires i <= |s|
    requires LegacyEntries(s[..i], w).None?
    ensures LegacyEntries(s, w).None?
    decreases |s| - i
  {
    if i < |s| {
      assert s[..i + 1][..i] == s[..i];
      RaiseIsFinal(s, i + 1, w);
    } else {
      assert s[..i] == s;
    }
  }

  /** The entries of the earlier script are, in input order, the write-back entries of the
      records that pass its selection and whose single attempt returned a truthy token:
      at most one per record, each of the write-back shape with its record's id. */
  lemma {:induction false} LegacyEntriesShape(s: seq<Record>, w: World)
    requires LegacyEntries(s, w).Some?
    ensures |LegacyEntries(s, w).value| <= |s|
    ensures forall k :: 0 <= k < |LegacyEntries(s, w).value| ==>
      IsQrEntry(LegacyEntries(s, w).value[k]) &&
      exists j :: 0 <= j < |s| && !Truthy(Get(s[j].fields, QrField)) &&
        LegacyEntries(s, w).value[k].recordId == Some(s[j].recordId)
  {
    if s != [] {
      var s' := s[..|s| - 1];
      var x := s[|s| - 1];
      LegacyEntriesShape(s', w);
      var es := LegacyEntries(s', w).value;
      var e := LegacyEntryOf(x, w).value;
      var all := LegacyEntries(s, w).value;
      assert all == es + e;
      if PrepareLegacy(x, w.formatDate).Ready? {
        ReadyFileName(x, w.formatDate);
        var token := DownloadAndUpload(AttemptAt(w.network(x), 0));
        if Truthy(token) {
          QrEntryShape(x.recordId, token);
        }
      }
      forall k | 0 <= k < |all|
        ensures IsQrEntry(all[k]) &&
          exists j :: 0 <= j < |s| && !Truthy(Get(s[j].fields, QrField)) && all[k].recordId == Some(s[j].recordId)
      {
        if k < |es| {
          var j :| 0 <= j < |s'| && !Truthy(Get(s'[j].fields, QrField)) && es[k].recordId == Some(s'[j].recordId);
          assert s'[j] == s[j];
        } else {
          assert s[|s| - 1] == x;
          assert all[k] == e[k - |es|];
          assert e == [QrEntry(x.recordId, LegacyToken(x, w))];
          assert !Truthy(Get(s[|s| - 1].fields, QrField)) && all[k].recordId == Some(s[|s| - 1].recordId);
        }
      }
    }
  }

  /** The result of `update_qr_code_for_records`: the exception that escaped it, or the
      number of records updated with the batches sent. */
  datatype LegacyOutcome = LegacyRaised | LegacyUpdated(total: nat, sent: seq<seq<Payload>>)

  /** `update_qr_code_for_records`. */
  method UpdateQrCodeForRecords(records: seq<Record>, w: World, replies: seq<BatchReply>)
    returns (outcome: LegacyOutcome)
    ensures LegacyEntries(records, w).None? ==> outcome == LegacyRaised
    ensures LegacyEntries(records, w).Some? ==>
      var es := LegacyEntries(records, w).value;
      outcome == LegacyUpdated(SkipTotal(replies, |Chunks(es)|), Chunks(es))
    ensures LegacyEntries(records, w) == Some([]) ==> outcome == LegacyUpdated(0, [])
  {
    var toUpdate: seq<Payload> := [];
    var i := 0;
    while i < |records|
      invariant 0 <= i <= |records|
      invariant LegacyEntries(records[..i], w) == Some(toUpdate)
    {
      var r := records[i];
      assert records[..i + 1] == records[..i] + [r];
      LegacyStep(records[..i], r, w);
      match PrepareLegacy(r, w.formatDate) {
        case Skip =>
          assert toUpdate + [] == toUpdate;
        case Raise =>
          RaiseIsFinal(records, i + 1, w);
          return LegacyRaised;
        case Ready(item) =>
          var token := LegacyToken(r, w);
          assert LegacyEntryOf(r, w) == if Truthy(token) then Some([QrEntry(item.recordId, token)]) else Some([]);
          if Truthy(token) {
            toUpdate := toUpdate + [QrEntry(item.recordId, token)];
          } else {
            assert toUpdate + [] == toUpdate;
          }
      }
      i := i + 1;
    }
    assert records[..i] == records;
    if |toUpdate| == 0 {
      return LegacyUpdated(0, []);
    }
    var total, sent := WriteSkippingFailures(toUpdate, replies);
    return LegacyUpdated(total, sent);
  }
}
