/** The concurrent QR pipeline of QRcode_CK_v2.py: select the eligible records, process
    each one (file name, download and upload with retries, thread-safe counters), and
    collect the write-back entries. The thread pool is modelled as a sequential pass over
    the records in their completion order, which is an input: any permutation of the
    eligible records. */
module QrPipeline {
  import opened LarkData
  import opened QrNaming
  import opened QrRetry

  /** The write-back entry `{"record_id": id, "fields": {"QR code": [{"file_token": token}]}}`. */
  function QrEntry(recordId: Value, token: Value): Payload {
    Payload(Some(recordId), map[QrField := List([Obj(map["file_token" := token])])])
  }

  /** The shape of a write-back entry, read off the payload. */
  predicate IsQrEntry(e: Payload) {
    && e.recordId.Some? && Truthy(e.recordId.value)
    && e.fields.Keys == {QrField}
    && e.fields[QrField].List? && |e.fields[QrField].items| == 1
    && e.fields[QrField].items[0].Obj?
    && e.fields[QrField].items[0].entries.Keys == {"file_token"}
    && Truthy(e.fields[QrField].items[0].entries["file_token"])
  }

  /** The counters `processed`, `success`, `failed`. */
  datatype Tally = Tally(processed: nat, success: nat, failed: nat)

  function Add(a: Tally, b: Tally): Tally {
    Tally(a.processed + b.processed, a.success + b.success, a.failed + b.failed)
  }

  const NoCount := Tally(0, 0, 0)

  // ---------------------------------------------------------------- one record

  /** The token a work item's retries produce. */
  function TokenOf(r: Record, w: World): Value {
    RetryToken(w.network(r), MaxRetries)
  }

  /** `process_single_record` returns an entry or None, or raises. */
  datatype ItemResult = Finished(entry: Option<Payload>) | Crashed

  function ItemOf(r: Record, w: World): ItemResult {
    match Prepare(r, w.formatDate)
    case Skip => Finished(None)
    case Raise => Crashed
    case Ready(item) =>
      if Truthy(TokenOf(r, w)) then Finished(Some(QrEntry(item.recordId, TokenOf(r, w))))
      else Finished(None)
  }

  /** What one record adds to the counters: a record that reaches the lock adds one to
      `processed` and one to `success` (truthy token) or `failed`. */
  function TallyOf(r: Record, w: World): Tally {
    if !Prepare(r, w.formatDate).Ready? then NoCount
    else if Truthy(TokenOf(r, w)) then Tally(1, 1, 0)
    else Tally(1, 0, 1)
  }

  /** What a result adds to `records_to_update`: the returned entry; nothing for None
      or for an exception (caught and logged while collecting). */
  function Contribution(result: ItemResult): seq<Payload> {
    if result.Finished? && result.entry.Some? then [result.entry.value] else []
  }

  /** The entry one record contributes to `records_to_update`. */
  function EntryOf(r: Record, w: World): seq<Payload> {
    Contribution(ItemOf(r, w))
  }

  // ---------------------------------------------------------------- folds

  /** The counters added up over a sequence, in order. */
  function SumTally<T>(s: seq<T>, f: T -> Tally): Tally {
    if s == [] then NoCount else Add(SumTally(s[..|s| - 1], f), f(s[|s| - 1]))
  }

  /** The contributions of a sequence's elements, concatenated in order. */
  function Concat<T, U>(s: seq<T>, f: T -> seq<U>): seq<U> {
    if s == [] then [] else Concat(s[..|s| - 1], f) + f(s[|s| - 1])
  }

  lemma SumStep<T>(s: seq<T>, x: T, f: T -> Tally)
    ensures SumTally(s + [x], f) == Add(SumTally(s, f), f(x))
  {
    assert (s + [x])[..|s + [x]| - 1] == s;
  }

  lemma ConcatStep<T, U>(s: seq<T>, x: T, g: T -> seq<U>)
    ensures Concat(s + [x], g) == Concat(s, g) + g(x)
  {
    assert (s + [x])[..|s + [x]| - 1] == s;
  }

  lemma {:induction false} SumAppend<T>(a: seq<T>, b: seq<T>, f: T -> Tally)
    ensures SumTally(a + b, f) == Add(SumTally(a, f), SumTally(b, f))
    decreases |b|
  {
    if b == [] {
      assert a + b == a;
    } else {
      var b' := b[..|b| - 1];
      var ab := a + b;
      assert ab[..|ab| - 1] == a + b' && ab[|ab| - 1] == b[|b| - 1];
      SumAppend(a, b', f);
    }
  }

  lemma {:induction false} ConcatAppend<T, U>(a: seq<T>, b: seq<T>, g: T -> seq<U>)
    ensures Concat(a + b, g) == Concat(a, g) + Concat(b, g)
    decreases |b|
  {
    if b == [] {
      assert a + b == a;
    } else {
      var b' := b[..|b| - 1];
      var x := b[|b| - 1];
      var ab := a + b;
      assert ab[..|ab| - 1] == a + b' && ab[|ab| - 1] == x;
      ConcatAppend(a, b', g);
      assert Concat(ab, g) == Concat(a + b', g) + g(x);
      assert Concat(b, g) == Concat(b', g) + g(x);
      assert (Concat(a, g) + Concat(b', g)) + g(x) == Concat(a, g) + (Concat(b', g) + g(x));
    }
  }

  lemma RemoveAt<T>(b: seq<T>, j: nat)
    requires j < |b|
    ensures b == b[..j] + [b[j]] + b[j + 1..]
    ensures multiset(b) == multiset(b[..j] + b[j + 1..]) + multiset{b[j]}
  {
    assert b == b[..j] + [b[j]] + b[j + 1..];
  }

  lemma Cancel<T>(m: multiset<T>, n: multiset<T>, x: T)
    requires m + multiset{x} == n + multiset{x}
    ensures m == n
  {
    forall y ensures m[y] == n[y] {
      assert (m + multiset{x})[y] == (n + multiset{x})[y];
    }
  }

  /** The last element of `a` sits at some index `j` of its permutation `b`, and the rest
      of `a` is a permutation of `b` without that element. */
  lemma PermutationSplit<T>(a: seq<T>, b: seq<T>) returns (j: nat)
    requires multiset(a) == multiset(b) && a != []
    ensures j < |b| && b[j] == a[|a| - 1]
    ensures b == b[..j] + [b[j]] + b[j + 1..]
    ensures multiset(a[..|a| - 1]) == multiset(b[..j] + b[j + 1..])
  {
    var x := a[|a| - 1];
    RemoveAt(a, |a| - 1);
    assert a[..|a| - 1] + a[|a|..] == a[..|a| - 1];
    assert x in multiset(b);
    j :| 0 <= j < |b| && b[j] == x;
    RemoveAt(b, j);
    Cancel(multiset(a[..|a| - 1]), multiset(b[..j] + b[j + 1..]), x);
  }

  /** Adding up the counters of a permutation gives the same counters. */
  lemma {:induction false} SumPermutation<T>(a: seq<T>, b: seq<T>, f: T -> Tally)
    requires multiset(a) == multiset(b)
    ensures SumTally(a, f) == SumTally(b, f)
    decreases |a|
  {
    if a == [] {
      assert |b| == |multiset(b)| == 0;
    } else {
      var j := PermutationSplit(a, b);
      var x := a[|a| - 1];
      var b1, b2 := b[..j], b[j + 1..];
      SumPermutation(a[..|a| - 1], b1 + b2, f);
      SumAppend(b1 + [x], b2, f);
      SumAppend(b1, b2, f);
      SumStep(b1, x, f);
    }
  }

  /** The contributions of a permutation form the same multiset. */
  lemma {:induction false} ConcatPermutation<T, U>(a: seq<T>, b: seq<T>, g: T -> seq<U>)
    requires multiset(a) == multiset(b)
    ensures multiset(Concat(a, g)) == multiset(Concat(b, g))
    decreases |a|
  {
    if a == [] {
      assert |b| == |multiset(b)| == 0;
    } else {
      var j := PermutationSplit(a, b);
      var x := a[|a| - 1];
      var b1, b2 := b[..j], b[j + 1..];
      ConcatPermutation(a[..|a| - 1], b1 + b2, g);
      ConcatAppend(b1 + [x], b2, g);
      ConcatAppend(b1, b2, g);
      ConcatStep(b1, x, g);
      var c1, c2 := Concat(b1, g), Concat(b2, g);
      assert multiset(Concat(b, g)) == multiset(c1) + multiset(g(x)) + multiset(c2) by {
        assert Concat(b, g) == c1 + g(x) + c2;
      }
      assert multiset(Concat(a, g)) == multiset(c1 + c2) + multiset(g(x)) by {
        assert Concat(a, g) == Concat(a[..|a| - 1], g) + g(x);
      }
    }
  }

  /** Counters that each balance and count at most one item add up to balanced counters
      that count at most one item per element. */
  lemma {:induction false} SumBalanced<T>(s: seq<T>, f: T -> Tally)
    requires forall x :: f(x).processed == f(x).success + f(x).failed && f(x).processed <= 1
    ensures SumTally(s, f).processed == SumTally(s, f).success + SumTally(s, f).failed
    ensures SumTally(s, f).processed <= |s|
  {
    if s != [] {
      SumBalanced(s[..|s| - 1], f);
    }
  }

  /** When every element contributes as many items as it adds to `success`, the
      contributions number `success`; each contribution comes from some element. */
  lemma {:induction false} ConcatCounts<T, U>(s: seq<T>, f: T -> Tally, g: T -> seq<U>)
    requires forall x :: |g(x)| == f(x).success
    ensures |Concat(s, g)| == SumTally(s, f).success
    ensures forall k :: 0 <= k < |Concat(s, g)| ==>
      exists j :: 0 <= j < |s| && Concat(s, g)[k] in g(s[j])
  {
    if s != [] {
      var s' := s[..|s| - 1];
      ConcatCounts(s', f, g);
      var c := Concat(s, g);
      forall k | 0 <= k < |c|
        ensures exists j :: 0 <= j < |s| && c[k] in g(s[j])
      {
        if k < |Concat(s', g)| {
          var j :| 0 <= j < |s'| && Concat(s', g)[k] in g(s'[j]);
          assert s'[j] == s[j];
        } else {
          assert c[k] in g(s[|s| - 1]);
        }
      }
    }
  }

  function TallyAll(s: seq<Record>, w: World): Tally {
    SumTally(s, r => TallyOf(r, w))
  }

  function EntriesOf(s: seq<Record>, w: World): seq<Payload> {
    Concat(s, r => EntryOf(r, w))
  }

  /** One more completed record adds its counters and its entry. */
  lemma PassStep(s: seq<Record>, x: Record, w: World)
    ensures TallyAll(s + [x], w) == Add(TallyAll(s, w), TallyOf(x, w))
    ensures EntriesOf(s + [x], w) == EntriesOf(s, w) + EntryOf(x, w)
  {
    SumStep(s, x, r => TallyOf(r, w));
    ConcatStep(s, x, r => EntryOf(r, w));
  }

  lemma PassStepAt(s: seq<Record>, i: nat, w: World)
    requires i < |s|
    ensures TallyAll(s[..i + 1], w) == Add(TallyAll(s[..i], w), TallyOf(s[i], w))
    ensures EntriesOf(s[..i + 1], w) == EntriesOf(s[..i], w) + EntryOf(s[i], w)
  {
    assert s[..i + 1] == s[..i] + [s[i]];
    PassStep(s[..i], s[i], w);
  }

  /** `records_to_process`: the eligible records in input order. */
  function EligibleRecords(s: seq<Record>): seq<Record> {
    if s == [] then [] else
      EligibleRecords(s[..|s| - 1]) + (if Eligible(s[|s| - 1]) then [s[|s| - 1]] else [])
  }

  /** The selection of a concatenation is the concatenation of the selections, so the
      eligible records keep their input order. */
  lemma {:induction false} EligibleRecordsAppend(a: seq<Record>, b: seq<Record>)
    ensures EligibleRecords(a + b) == EligibleRecords(a) + EligibleRecords(b)
    decreases |b|
  {
    if b == [] {
      assert a + b == a;
    } else {
      var b' := b[..|b| - 1];
      assert (a + b)[..|a + b| - 1] == a + b';
      EligibleRecordsAppend(a, b');
    }
  }

  /** The eligible list holds exactly the records with a truthy "Link QR" cell and a
      truthy record id, each as often as in the input. The input order is kept too, which
      is what `EligibleRecordsAppend` states. */
  lemma {:induction false} EligibleRecordsExact(s: seq<Record>)
    ensures forall r :: multiset(EligibleRecords(s))[r] == if Eligible(r) then multiset(s)[r] else 0
    ensures forall k :: 0 <= k < |EligibleRecords(s)| ==> Eligible(EligibleRecords(s)[k])
  {
    if s != [] {
      var s' := s[..|s| - 1];
      EligibleRecordsExact(s');
      assert s == s' + [s[|s| - 1]];
    }
  }

  /** The counters and the multiset of entries do not depend on the order in which the
      records complete. */
  lemma OrderIrrelevant(a: seq<Record>, b: seq<Record>, w: World)
    requires multiset(a) == multiset(b)
    ensures TallyAll(a, w) == TallyAll(b, w)
    ensures multiset(EntriesOf(a, w)) == multiset(EntriesOf(b, w))
  {
    SumPermutation(a, b, r => TallyOf(r, w));
    ConcatPermutation(a, b, r => EntryOf(r, w));
  }

  /** After a run, `processed == success + failed`, and `processed` is at most the
      number of records (a record dropped at the link parse is not counted). */
  lemma TallyBalanced(s: seq<Record>, w: World)
    ensures TallyAll(s, w).processed == TallyAll(s, w).success + TallyAll(s, w).failed
    ensures TallyAll(s, w).processed <= |s|
  {
    SumBalanced(s, r => TallyOf(r, w));
  }

  lemma QrEntryShape(recordId: Value, token: Value)
    requires Truthy(recordId) && Truthy(token)
    ensures IsQrEntry(QrEntry(recordId, token))
  {
  }

  /** What one record contributes: an entry exactly when it counts as a success, and that
      entry has the write-back shape with the record's id and its retries' token. */
  lemma EntryOfSuccess(r: Record, w: World)
    ensures |EntryOf(r, w)| == TallyOf(r, w).success
    ensures forall e :: e in EntryOf(r, w) ==>
      IsQrEntry(e) && Prepare(r, w.formatDate).Ready? && e == QrEntry(r.recordId, TokenOf(r, w))
  {
    match Prepare(r, w.formatDate)
    case Skip =>
    case Raise =>
    case Ready(item) =>
      ReadyFileName(r, w.formatDate);
      assert item.recordId == r.recordId && Truthy(r.recordId);
      if Truthy(TokenOf(r, w)) {
        QrEntryShape(r.recordId, TokenOf(r, w));
      }
  }

  /** Write-back entries exist only for successful records: there are `success` of them,
      each of the `{record_id, fields: {"QR code": [{file_token}]}}` shape with a truthy
      token, and each carries the record id of a record whose retries produced that token. */
  lemma EntriesAreSuccesses(s: seq<Record>, w: World)
    ensures |EntriesOf(s, w)| == TallyAll(s, w).success
    ensures forall k :: 0 <= k < |EntriesOf(s, w)| ==>
      IsQrEntry(EntriesOf(s, w)[k]) &&
      exists j :: 0 <= j < |s| && Prepare(s[j], w.formatDate).Ready? &&
        EntriesOf(s, w)[k] == QrEntry(s[j].recordId, TokenOf(s[j], w))
  {
    forall r ensures |EntryOf(r, w)| == TallyOf(r, w).success {
      EntryOfSuccess(r, w);
    }
    ConcatCounts(s, r => TallyOf(r, w), r => EntryOf(r, w));
    var es := EntriesOf(s, w);
    forall k | 0 <= k < |es|
      ensures IsQrEntry(es[k]) &&
        exists j :: 0 <= j < |s| && Prepare(s[j], w.formatDate).Ready? &&
          es[k] == QrEntry(s[j].recordId, TokenOf(s[j], w))
    {
      var j :| 0 <= j < |s| && es[k] in EntryOf(s[j], w);
      EntryOfSuccess(s[j], w);
    }
  }

  // ---------------------------------------------------------------- imperative pipeline

  /** The global `progress_data`, updated under `progress_lock`. */
  class ProgressCounters {
    var processed: nat
    var success: nat
    var failed: nat

    ghost predicate Valid()
      reads this
    {
      processed == success + failed
    }

    function Counts(): Tally
      reads this
    {
      Tally(processed, success, failed)
    }

    constructor ()
      ensures Valid() && Counts() == NoCount
    {
      processed, success, failed := 0, 0, 0;
    }

    /** `progress_data = {"processed": 0, "success": 0, "failed": 0}`. */
    method Reset()
      modifies this
      ensures Valid() && Counts() == NoCount
    {
      processed, success, failed := 0, 0, 0;
    }

    /** The critical section: one more processed, and one more success or failure. */
    method Complete(ok: bool)
      requires Valid()
      modifies this
      ensures Valid()
      ensures Counts() == Add(old(Counts()), if ok then Tally(1, 1, 0) else Tally(1, 0, 1))
    {
      processed := processed + 1;
      if ok {
        success := success + 1;
      } else {
        failed := failed + 1;
      }
    }
  }

  /** The filter loop of `process_records_concurrently`. */
  method SelectEligible(records: seq<Record>) returns (toProcess: seq<Record>)
    ensures toProcess == EligibleRecords(records)
    ensures forall r :: multiset(toProcess)[r] == if Eligible(r) then multiset(records)[r] else 0
  {
    toProcess := [];
    var i := 0;
    while i < |records|
      invariant 0 <= i <= |records|
      invariant toProcess == EligibleRecords(records[..i])
    {
      var r := records[i];
      assert records[..i + 1][..i] == records[..i];
      if Eligible(r) {
        toProcess := toProcess + [r];
      }
      i := i + 1;
    }
    assert records[..i] == records;
    EligibleRecordsExact(records);
  }

  /** `process_single_record`: the entry it returns, and the counters it bumps once the
      work item has been downloaded and uploaded. */
  method ProcessSingleRecord(r: Record, w: World, progress: ProgressCounters) returns (result: ItemResult)
    requires progress.Valid()
    modifies progress
    ensures progress.Valid()
    ensures result == ItemOf(r, w)
    ensures progress.Counts() == Add(old(progress.Counts()), TallyOf(r, w))
  {
    match Prepare(r, w.formatDate)
    case Skip =>
      return Finished(None);
    case Raise =>
      return Crashed;
    case Ready(item) =>
      var token, _, _ := DownloadAndUploadWithRetry(w.network(r), MaxRetries);
      progress.Complete(Truthy(token));
      if Truthy(token) {
        return Finished(Some(QrEntry(item.recordId, token)));
      }
      return Finished(None);
  }

  /** `process_records_concurrently`. With no eligible record it returns [] and leaves the
      counters alone; otherwise it resets them, and afterwards they count the eligible
      records, and the entries are those of the eligible records in some order. */
  method ProcessRecordsConcurrently(records: seq<Record>, completion: seq<Record>, w: World,
                                    progress: ProgressCounters)
    returns (toUpdate: seq<Payload>)
    requires progress.Valid()
    requires multiset(completion) == multiset(EligibleRecords(records))
    modifies progress
    ensures progress.Valid()
    ensures EligibleRecords(records) == [] ==> toUpdate == [] && progress.Counts() == old(progress.Counts())
    ensures EligibleRecords(records) != [] ==> progress.Counts() == TallyAll(EligibleRecords(records), w)
    ensures multiset(toUpdate) == multiset(EntriesOf(EligibleRecords(records), w))
  {
    var toProcess := SelectEligible(records);
    if |toProcess| == 0 {
      return [];
    }
    progress.Reset();
    toUpdate := CollectResults(completion, w, progress);
    OrderIrrelevant(completion, toProcess, w);
  }

  /** The `as_completed` loop: each finished record adds its entry, if any, to
      `records_to_update`; a record that raised adds nothing. */
  method CollectResults(completion: seq<Record>, w: World, progress: ProgressCounters)
    returns (toUpdate: seq<Payload>)
    requires progress.Valid()
    modifies progress
    ensures progress.Valid()
    ensures progress.Counts() == Add(old(progress.Counts()), TallyAll(completion, w))
    ensures toUpdate == EntriesOf(completion, w)
  {
    ghost var start := progress.Counts();
    toUpdate := [];
    var i := 0;
    while i < |completion|
      invariant 0 <= i <= |completion|
      invariant progress.Valid()
      invariant progress.Counts() == Add(start, TallyAll(completion[..i], w))
      invariant toUpdate == EntriesOf(completion[..i], w)
    {
      toUpdate := CollectOne(completion[i], w, progress, toUpdate);
      PassStepAt(completion, i, w);
      i := i + 1;
    }
    assert completion[..i] == completion;
  }

  /** One turn of the `as_completed` loop: the record's result is appended when it is an
      entry; an exception from the record is caught and adds nothing. */
  method CollectOne(r: Record, w: World, progress: ProgressCounters, toUpdate: seq<Payload>)
    returns (toUpdate': seq<Payload>)
    requires progress.Valid()
    modifies progress
    ensures progress.Valid()
    ensures progress.Counts() == Add(old(progress.Counts()), TallyOf(r, w))
    ensures toUpdate' == toUpdate + EntryOf(r, w)
  {
    var result := ProcessSingleRecord(r, w, progress);
    toUpdate' := toUpdate;
    if result.Finished? && result.entry.Some? {
      toUpdate' := toUpdate' + [result.entry.value];
    }
    assert toUpdate' == toUpdate + Contribution(result);
  }

  /** The run's counters balance and bound: `processed == success + failed`, `processed`
      is at most the number of eligible records, and there are `success` write-back entries. */
  method RunAndReport(records: seq<Record>, completion: seq<Record>, w: World)
    returns (toUpdate: seq<Payload>, processed: nat, success: nat, failed: nat)
    requires multiset(completion) == multiset(EligibleRecords(records))
    ensures processed == success + failed
    ensures processed <= |EligibleRecords(records)|
    ensures |toUpdate| == success
    ensures forall k :: 0 <= k < |toUpdate| ==> IsQrEntry(toUpdate[k])
  {
    var progress := new ProgressCounters();
    toUpdate := ProcessRecordsConcurrently(records, completion, w, progress);
    processed, success, failed := progress.processed, progress.success, progress.failed;
    var eligible := EligibleRecords(records);
    TallyBalanced(eligible, w);
    EntriesAreSuccesses(eligible, w);
    assert |toUpdate| == |multiset(toUpdate)| == |EntriesOf(eligible, w)|;
    forall k | 0 <= k < |toUpdate|
      ensures IsQrEntry(toUpdate[k])
    {
      assert toUpdate[k] in multiset(EntriesOf(eligible, w));
    }
  }
}
