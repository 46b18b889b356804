/** The write side of revenue_offline.py: the map from depot id to record id of one date
    partition (`get_existing_records`), the split of the joined rows into updates and
    creates, and `upsert_data_for_date` with its two stop-at-first-failure batch writers. */
module RevenueUpsert {
  import opened LarkData
  import opened LarkTable
  import opened RevenueCalc

  // ---------------------------------------------------------------- existing records

  /** `fields.get("Ngày") == timestamp`, where Python also equates a bool with 0 or 1. */
  predicate InPartition(r: Record, ts: int) {
    var v := Get(r.fields, DateField);
    v == Int(ts) || (v.Bool? && (if v.b then 1 else 0) == ts)
  }

  /** `fields.get("Mã cửa hàng")`. */
  function DepotOf(r: Record): Value {
    Get(r.fields, DepotIdField)
  }

  /** The record is of the partition and has a truthy depot id and record id. */
  predicate Keyed(r: Record, ts: int) {
    InPartition(r, ts) && Truthy(DepotOf(r)) && Truthy(r.recordId)
  }

  /** `record_dict` after the records in order, or None when storing a key raises
      (an unhashable depot id). A later record overwrites an earlier one. */
  function RecordDict(rs: seq<Record>, ts: int): Option<map<Value, Value>> {
    if rs == [] then Some(map[])
    else match RecordDict(rs[..|rs| - 1], ts)
      case None => None
      case Some(m) =>
        var r := rs[|rs| - 1];
        if !Keyed(r, ts) then Some(m)
        else if !Hashable(DepotOf(r)) then None
        else Some(m[DepotOf(r) := r.recordId])
  }

  /** The result of `get_existing_records`: the map, or `{}` when a page request fails
      or building the map raises. */
  function ExistingRecords(pages: seq<PageReply>, ts: int): map<Value, Value> {
    match ListFrom(pages, 0)
    case None => map[]
    case Some(rs) =>
      match RecordDict(rs, ts)
      case None => map[]
      case Some(m) => m
  }

  /** Building the map raises exactly when a keyed record has a list or dict as depot id. */
  lemma {:induction false} RecordDictRaises(rs: seq<Record>, ts: int)
    ensures RecordDict(rs, ts).None? <==>
      exists k :: 0 <= k < |rs| && Keyed(rs[k], ts) && !Hashable(DepotOf(rs[k]))
  {
    if rs != [] {
      var s := rs[..|rs| - 1];
      RecordDictRaises(s, ts);
      if exists k :: 0 <= k < |s| && Keyed(s[k], ts) && !Hashable(DepotOf(s[k])) {
        var k :| 0 <= k < |s| && Keyed(s[k], ts) && !Hashable(DepotOf(s[k]));
        assert rs[k] == s[k];
      }
      if exists k :: 0 <= k < |rs| && Keyed(rs[k], ts) && !Hashable(DepotOf(rs[k])) {
        var k :| 0 <= k < |rs| && Keyed(rs[k], ts) && !Hashable(DepotOf(rs[k]));
        if k < |s| {
          assert s[k] == rs[k];
        }
      }
    }
  }

  /** Once a prefix raises, the whole pass does. */
  lemma {:induction false} RecordDictRaiseIsFinal(rs: seq<Record>, i: nat, ts: int)
    requires i <= |rs|
    requires RecordDict(rs[..i], ts).None?
    ensures RecordDict(rs, ts).None?
    decreases |rs| - i
  {
    if i < |rs| {
      assert rs[..i + 1][..i] == rs[..i];
      RecordDictRaiseIsFinal(rs, i + 1, ts);
    } else {
      assert rs[..i] == rs;
    }
  }

  /** The keys of the map are the depot ids of the keyed records, and every value is a
      truthy record id. */
  lemma {:induction false} RecordDictKeys(rs: seq<Record>, ts: int)
    requires RecordDict(rs, ts).Some?
    ensures forall v :: v in RecordDict(rs, ts).value <==>
      exists k :: 0 <= k < |rs| && Keyed(rs[k], ts) && DepotOf(rs[k]) == v
    ensures forall v :: v in RecordDict(rs, ts).value ==> Truthy(RecordDict(rs, ts).value[v])
  {
    if rs != [] {
      var s := rs[..|rs| - 1];
      var r := rs[|rs| - 1];
      RecordDictKeys(s, ts);
      var m := RecordDict(s, ts).value;
      var m' := RecordDict(rs, ts).value;
      assert m' == if Keyed(r, ts) then m[DepotOf(r) := r.recordId] else m;
      forall v ensures v in m' <==>
        exists k :: 0 <= k < |rs| && Keyed(rs[k], ts) && DepotOf(rs[k]) == v
      {
        if exists k :: 0 <= k < |s| && Keyed(s[k], ts) && DepotOf(s[k]) == v {
          var k :| 0 <= k < |s| && Keyed(s[k], ts) && DepotOf(s[k]) == v;
          assert rs[k] == s[k];
        }
        if exists k :: 0 <= k < |rs| && Keyed(rs[k], ts) && DepotOf(rs[k]) == v {
          var k :| 0 <= k < |rs| && Keyed(rs[k], ts) && DepotOf(rs[k]) == v;
          if k < |s| {
            assert s[k] == rs[k];
          }
        }
      }
    }
  }

  /** For a repeated depot id the last keyed record wins. */
  lemma {:induction false} RecordDictLastWins(rs: seq<Record>, ts: int, k: nat)
    requires RecordDict(rs, ts).Some?
    requires k < |rs| && Keyed(rs[k], ts)
    requires forall j :: k < j < |rs| && Keyed(rs[j], ts) ==> DepotOf(rs[j]) != DepotOf(rs[k])
    ensures DepotOf(rs[k]) in RecordDict(rs, ts).value
    ensures RecordDict(rs, ts).value[DepotOf(rs[k])] == rs[k].recordId
    decreases |rs|
  {
    var s := rs[..|rs| - 1];
    if k < |s| {
      forall j | k < j < |s| && Keyed(s[j], ts) ensures DepotOf(s[j]) != DepotOf(s[k]) {
        assert s[j] == rs[j] && s[k] == rs[k];
      }
      RecordDictLastWins(s, ts, k);
      assert s[k] == rs[k];
    }
  }

  /** A failed request on any page that is fetched yields the empty map. */
  lemma PageFailureGivesEmpty(pages: seq<PageReply>, ts: int, j: nat)
    requires j < |pages|
    requires forall k :: 0 <= k < j ==> pages[k].Page? && pages[k].hasMore
    requires pages[j].PageFailed?
    ensures ExistingRecords(pages, ts) == map[]
  {
    ListFailsOnAnyPage(pages, 0, j);
  }

  function Prepend(xs: seq<Record>, o: Option<seq<Record>>): Option<seq<Record>> {
    match o
    case None => None
    case Some(ys) => Some(xs + ys)
  }

  lemma PrependEmpty(o: Option<seq<Record>>)
    ensures Prepend([], o) == o
  {
    if o.Some? {
      assert [] + o.value == o.value;
    }
  }

  lemma PrependAssoc(xs: seq<Record>, ys: seq<Record>, o: Option<seq<Record>>)
    ensures Prepend(xs, Prepend(ys, o)) == Prepend(xs + ys, o)
  {
    if o.Some? {
      assert xs + (ys + o.value) == (xs + ys) + o.value;
    }
  }

  /** The paging loop of `get_existing_records`: pages are requested until one comes
      back without `has_more`; a failed request ends the loop with nothing. */
  method FetchAllPages(pages: seq<PageReply>) returns (listed: Option<seq<Record>>)
    ensures listed == ListFrom(pages, 0)
  {
    var all: seq<Record> := [];
    var i := 0;
    PrependEmpty(ListFrom(pages, 0));
    while true
      invariant i <= |pages|
      invariant ListFrom(pages, 0) == Prepend(all, ListFrom(pages, i))
      decreases |pages| - i
    {
      if i >= |pages| {
        return None;
      }
      match pages[i] {
        case PageFailed =>
          return None;
        case Page(items, more) =>
          if !more {
            assert ListFrom(pages, i) == Some(items);
            return Some(all + items);
          }
          assert ListFrom(pages, i) == Prepend(items, ListFrom(pages, i + 1));
          PrependAssoc(all, items, ListFrom(pages, i + 1));
          all := all + items;
          i := i + 1;
      }
    }
  }

  /** The loop of `get_existing_records` that builds `record_dict`; None when storing a
      key raises. */
  method BuildRecordDict(all: seq<Record>, ts: int) returns (built: Option<map<Value, Value>>)
    ensures built == RecordDict(all, ts)
  {
    var dict: map<Value, Value> := map[];
    var j := 0;
    while j < |all|
      invariant 0 <= j <= |all|
      invariant RecordDict(all[..j], ts) == Some(dict)
    {
      var record := all[j];
      assert all[..j + 1][..j] == all[..j];
      assert all[..j + 1][j] == record;
      if InPartition(record, ts) {
        var depot := Get(record.fields, DepotIdField);
        if Truthy(depot) && Truthy(record.recordId) {
          if !Hashable(depot) {
            RecordDictRaiseIsFinal(all, j + 1, ts);
            return None;
          }
          dict := dict[depot := record.recordId];
        }
      }
      j := j + 1;
    }
    assert all[..j] == all;
    return Some(dict);
  }

  /** `get_existing_records`: `{}` when a page request fails or a key raises. */
  method GetExistingRecords(pages: seq<PageReply>, ts: int) returns (existing: map<Value, Value>)
    ensures existing == ExistingRecords(pages, ts)
  {
    var listed := FetchAllPages(pages);
    if listed.None? {
      return map[];
    }
    var built := BuildRecordDict(listed.value, ts);
    if built.None? {
      return map[];
    }
    return built.value;
  }

  // ---------------------------------------------------------------- upsert

  const Money1Field := "Doanh thu Type 1"
  const Money2Field := "Doanh thu Type 2"
  const Returnfee1Field := "Phí hoàn trả Type 1"
  const RevenueField := "Doanh thu"

  /** `str(row['depotId'])`, the key looked up in the existing map. */
  function DepotKey(row: DailyRow): string {
    Display(row.depotId)
  }

  /** The `fields` written for one joined row. */
  function FieldsOf(row: DailyRow, ts: int): map<string, Value> {
    map[DateField := Int(ts), DepotIdField := Str(DepotKey(row)),
        DepotNameField := Str(Display(row.depotName)),
        Money1Field := Int(row.money1), Money2Field := Int(row.money2),
        Returnfee1Field := Int(row.returnfee1), RevenueField := Int(row.revenue)]
  }

  predicate IsUpdate(row: DailyRow, existing: map<Value, Value>) {
    Str(DepotKey(row)) in existing
  }

  /** The update entries, in row order. */
  function Updates(rows: seq<DailyRow>, existing: map<Value, Value>, ts: int): seq<Payload> {
    if rows == [] then []
    else
      var row := rows[|rows| - 1];
      Updates(rows[..|rows| - 1], existing, ts) +
        (if IsUpdate(row, existing)
         then [Payload(Some(existing[Str(DepotKey(row))]), FieldsOf(row, ts))]
         else [])
  }

  /** The create entries, in row order. */
  function Creates(rows: seq<DailyRow>, existing: map<Value, Value>, ts: int): seq<Payload> {
    if rows == [] then []
    else
      var row := rows[|rows| - 1];
      Creates(rows[..|rows| - 1], existing, ts) +
        (if IsUpdate(row, existing) then [] else [Payload(None, FieldsOf(row, ts))])
  }

  /** The loop of `upsert_data_for_date` that fills the two lists. */
  method SplitRows(rows: seq<DailyRow>, existing: map<Value, Value>, ts: int)
    returns (toUpdate: seq<Payload>, toCreate: seq<Payload>)
    ensures toUpdate == Updates(rows, existing, ts)
    ensures toCreate == Creates(rows, existing, ts)
  {
    toUpdate, toCreate := [], [];
    var i := 0;
    while i < |rows|
      invariant 0 <= i <= |rows|
      invariant toUpdate == Updates(rows[..i], existing, ts)
      invariant toCreate == Creates(rows[..i], existing, ts)
    {
      var row := rows[i];
      assert rows[..i + 1][..i] == rows[..i];
      assert rows[..i + 1][i] == row;
      var depotId := DepotKey(row);
      var fields := FieldsOf(row, ts);
      if Str(depotId) in existing {
        toUpdate := toUpdate + [Payload(Some(existing[Str(depotId)]), fields)];
      } else {
        toCreate := toCreate + [Payload(None, fields)];
      }
      i := i + 1;
    }
    assert rows[..i] == rows;
  }

  /** Every row lands in exactly one of the two lists. */
  lemma {:induction false} SplitCounts(rows: seq<DailyRow>, existing: map<Value, Value>, ts: int)
    ensures |Updates(rows, existing, ts)| + |Creates(rows, existing, ts)| == |rows|
  {
    if rows != [] {
      SplitCounts(rows[..|rows| - 1], existing, ts);
    }
  }

  /** An update carries the record id found for its row's depot id, a create carries
      none, and each row's entry is in the list its depot id selects. */
  lemma {:induction false} SplitRouting(rows: seq<DailyRow>, existing: map<Value, Value>, ts: int)
    ensures forall p :: p in Updates(rows, existing, ts) ==>
      exists k :: 0 <= k < |rows| && IsUpdate(rows[k], existing) &&
        p == Payload(Some(existing[Str(DepotKey(rows[k]))]), FieldsOf(rows[k], ts))
    ensures forall p :: p in Creates(rows, existing, ts) ==>
      exists k :: 0 <= k < |rows| && !IsUpdate(rows[k], existing) && p == Payload(None, FieldsOf(rows[k], ts))
    ensures forall k :: 0 <= k < |rows| && IsUpdate(rows[k], existing) ==>
      Payload(Some(existing[Str(DepotKey(rows[k]))]), FieldsOf(rows[k], ts)) in Updates(rows, existing, ts)
    ensures forall k :: 0 <= k < |rows| && !IsUpdate(rows[k], existing) ==>
      Payload(None, FieldsOf(rows[k], ts)) in Creates(rows, existing, ts)
  {
    if rows != [] {
      var s := rows[..|rows| - 1];
      var row := rows[|rows| - 1];
      SplitRouting(s, existing, ts);
      forall p | p in Updates(rows, existing, ts)
        ensures exists k :: 0 <= k < |rows| && IsUpdate(rows[k], existing) &&
                            p == Payload(Some(existing[Str(DepotKey(rows[k]))]), FieldsOf(rows[k], ts))
      {
        if p in Updates(s, existing, ts) {
          var k :| 0 <= k < |s| && IsUpdate(s[k], existing) &&
            p == Payload(Some(existing[Str(DepotKey(s[k]))]), FieldsOf(s[k], ts));
          assert rows[k] == s[k];
        } else {
          assert rows[|rows| - 1] == row;
        }
      }
      forall p | p in Creates(rows, existing, ts)
        ensures exists k :: 0 <= k < |rows| && !IsUpdate(rows[k], existing) && p == Payload(None, FieldsOf(rows[k], ts))
      {
        if p in Creates(s, existing, ts) {
          var k :| 0 <= k < |s| && !IsUpdate(s[k], existing) && p == Payload(None, FieldsOf(s[k], ts));
          assert rows[k] == s[k];
        } else {
          assert rows[|rows| - 1] == row;
        }
      }
      forall k | 0 <= k < |rows| - 1 ensures rows[k] == s[k] { }
    }
  }

  /** The fields written for a depot of the join: its depot id as text and the revenue
      formula over the money cells written beside it. */
  lemma FieldsOfDailyRevenue(bills: seq<Bill>, d: Value, ts: int)
    requires d in DailyRevenue(bills)
    ensures var f := FieldsOf(DailyRevenue(bills)[d], ts);
      f[DepotIdField] == Str(Display(d)) && f[DateField] == Int(ts) &&
      f[RevenueField].i == f[Money2Field].i - f[Money1Field].i + f[Returnfee1Field].i
  {
    DailyRevenueFormula(bills, d);
  }

  /** Existing rows {A: id1, B: id2} and source rows for A and C give one update of A with
      id1 and one create of C. */
  lemma ReconcileExample(rowA: DailyRow, rowC: DailyRow, id1: Value, id2: Value, ts: int)
    requires rowA.depotId == Str("A") && rowC.depotId == Str("C")
    ensures var existing := map[Str("A") := id1, Str("B") := id2];
      Updates([rowA, rowC], existing, ts) == [Payload(Some(id1), FieldsOf(rowA, ts))] &&
      Creates([rowA, rowC], existing, ts) == [Payload(None, FieldsOf(rowC, ts))]
  {
    var rows := [rowA, rowC];
    assert rows[..1] == [rowA];
    assert rows[..1][..0] == [];
    assert DepotKey(rowA) == "A" && DepotKey(rowC) == "C";
    assert "C" != "A" by { assert "C"[0] != "A"[0]; }
    assert "C" != "B" by { assert "C"[0] != "B"[0]; }
    assert "A" != "B" by { assert "A"[0] != "B"[0]; }
    var existing := map[Str("A") := id1, Str("B") := id2];
    assert IsUpdate(rowA, existing) && existing[Str(DepotKey(rowA))] == id1;
    assert !IsUpdate(rowC, existing);
    assert Updates([rowA], existing, ts) == [Payload(Some(id1), FieldsOf(rowA, ts))];
    assert Creates([rowA], existing, ts) == [];
  }

  /** `upsert_data_for_date`: the outcome is true exactly when the two writers together
      report a positive count. */
  method UpsertDataForDate(rows: seq<DailyRow>, pages: seq<PageReply>, ts: int,
                           updateReplies: seq<BatchReply>, createReplies: seq<BatchReply>)
    returns (ok: bool, updated: nat, created: nat,
             updateSent: seq<seq<Payload>>, createSent: seq<seq<Payload>>)
    ensures var us := Chunks(Updates(rows, ExistingRecords(pages, ts), ts));
      updated == SkipTotal(updateReplies, FirstRejected(updateReplies, |us|)) &&
      updateSent == us[..StopSent(updateReplies, |us|)]
    ensures var cs := Chunks(Creates(rows, ExistingRecords(pages, ts), ts));
      created == SkipTotal(createReplies, FirstRejected(createReplies, |cs|)) &&
      createSent == cs[..StopSent(createReplies, |cs|)]
    ensures ok <==> updated + created > 0
    ensures ok <==>
      (exists k :: 0 <= k < FirstRejected(updateReplies, |Chunks(Updates(rows, ExistingRecords(pages, ts), ts))|) &&
         AcceptedCount(ReplyAt(updateReplies, k)) > 0) ||
      (exists k :: 0 <= k < FirstRejected(createReplies, |Chunks(Creates(rows, ExistingRecords(pages, ts), ts))|) &&
         AcceptedCount(ReplyAt(createReplies, k)) > 0)
  {
    var existing := GetExistingRecords(pages, ts);
    var toUpdate, toCreate := SplitRows(rows, existing, ts);
    updated, updateSent := 0, [];
    if |toUpdate| > 0 {
      updated, updateSent := WriteStoppingAtFailure(toUpdate, updateReplies);
    }
    created, createSent := 0, [];
    if |toCreate| > 0 {
      created, createSent := WriteStoppingAtFailure(toCreate, createReplies);
    }
    ok := updated + created > 0;
    SkipTotalPositive(updateReplies, FirstRejected(updateReplies, |Chunks(toUpdate)|));
    SkipTotalPositive(createReplies, FirstRejected(createReplies, |Chunks(toCreate)|));
  }
}
