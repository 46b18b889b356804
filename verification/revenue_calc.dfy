/** `calculate_daily_revenue` of revenue_offline.py: the bill rows of one day are split by
    `type`, the type-2 and type-1 subsets are outer-joined on `depotId` with missing cells
    filled with 0, and each depot's revenue is `money_type2 - money_type1 + returnfee_type1`.
    Money is integral, so the final rounding is the identity. */
module RevenueCalc {
  import opened LarkData

  /** One row of the bill query: `depotId, depot_name, type, total_money, total_returnfee`,
      after `total_money` and `total_returnfee` have been coerced to numbers. */
  datatype Bill = Bill(depotId: Value, depotName: Value, kind: int, money: int, returnfee: int)

  /** The cells a subset contributes to the join for one depot. */
  datatype Side = Side(name: Value, money: int, returnfee: int)

  /** One row of the joined result. */
  datatype DailyRow = DailyRow(depotId: Value, depotName: Value, money1: int, money2: int,
                               returnfee1: int, revenue: int)

  /** Some bill of type `kind` has depot id `d`. */
  predicate HasBill(bills: seq<Bill>, kind: int, d: Value) {
    exists k :: 0 <= k < |bills| && bills[k].kind == kind && bills[k].depotId == d
  }

  /** The subset `df[df['type'] == kind]` indexed by depot id; for a depot with several rows
      of that type the last one is kept. */
  function SideOf(bills: seq<Bill>, kind: int): map<Value, Side> {
    if bills == [] then map[]
    else
      var rest := SideOf(bills[..|bills| - 1], kind);
      var b := bills[|bills| - 1];
      if b.kind == kind then rest[b.depotId := Side(b.depotName, b.money, b.returnfee)] else rest
  }

  /** The subset has a row for exactly the depots with a bill of that type. */
  lemma {:induction false} SideOfKeys(bills: seq<Bill>, kind: int)
    ensures forall d :: d in SideOf(bills, kind) <==> HasBill(bills, kind, d)
    decreases |bills|
  {
    if bills != [] {
      var n := |bills| - 1;
      var prefix := bills[..n];
      var b := bills[n];
      SideOfKeys(prefix, kind);
      forall d | HasBill(prefix, kind, d) ensures HasBill(bills, kind, d) {
        var k :| 0 <= k < n && prefix[k].kind == kind && prefix[k].depotId == d;
        assert bills[k] == prefix[k];
      }
      forall d | HasBill(bills, kind, d)
        ensures HasBill(prefix, kind, d) || (b.kind == kind && b.depotId == d)
      {
        var k :| 0 <= k < |bills| && bills[k].kind == kind && bills[k].depotId == d;
        if k < n {
          assert prefix[k] == bills[k];
        }
      }
    }
  }

  /** The joined row of depot `d`: the name and `money_type2` from the type-2 side, the
      money and returnfee of the type-1 side, each 0 where the side (or the cell) is
      missing. `returnfee_type2` is not selected into the join. */
  function JoinRow(d: Value, t1: map<Value, Side>, t2: map<Value, Side>): DailyRow {
    var name := if d in t2 && t2[d].name != Null then t2[d].name else Int(0);
    var money2 := if d in t2 then t2[d].money else 0;
    var money1 := if d in t1 then t1[d].money else 0;
    var returnfee1 := if d in t1 then t1[d].returnfee else 0;
    DailyRow(d, name, money1, money2, returnfee1, money2 - money1 + returnfee1)
  }

  /** The result of `calculate_daily_revenue`, one row per depot id. */
  function DailyRevenue(bills: seq<Bill>): map<Value, DailyRow> {
    var t1 := SideOf(bills, 1);
    var t2 := SideOf(bills, 2);
    map d | d in t1.Keys + t2.Keys :: JoinRow(d, t1, t2)
  }

  /** At most one row per depot and type, the case the join is written for. */
  predicate OneRowPerDepotAndKind(bills: seq<Bill>) {
    forall i, j :: 0 <= i < j < |bills| && bills[i].kind == bills[j].kind ==>
      bills[i].depotId != bills[j].depotId
  }

  /** The only bill of type `kind` for its depot is the one the subset keeps. */
  lemma {:induction false} SideOfUnique(bills: seq<Bill>, kind: int, k: nat)
    requires k < |bills| && bills[k].kind == kind
    requires forall j :: 0 <= j < |bills| && j != k && bills[j].kind == kind ==>
      bills[j].depotId != bills[k].depotId
    ensures bills[k].depotId in SideOf(bills, kind)
    ensures SideOf(bills, kind)[bills[k].depotId] ==
      Side(bills[k].depotName, bills[k].money, bills[k].returnfee)
    decreases |bills|
  {
    var n := |bills| - 1;
    var s := bills[..n];
    if k < n {
      forall j | 0 <= j < |s| && j != k && s[j].kind == kind
        ensures s[j].depotId != s[k].depotId
      {
        assert s[j] == bills[j] && s[k] == bills[k];
      }
      SideOfUnique(s, kind, k);
      assert s[k] == bills[k];
    }
  }

  /** The depots of the result are exactly those with a bill of type 1 or type 2; bills of
      any other type add no depot. */
  lemma DailyRevenueKeys(bills: seq<Bill>, d: Value)
    ensures d in DailyRevenue(bills) <==> HasBill(bills, 1, d) || HasBill(bills, 2, d)
  {
    SideOfKeys(bills, 1);
    SideOfKeys(bills, 2);
  }

  /** Every row carries its depot id and the revenue formula. */
  lemma DailyRevenueFormula(bills: seq<Bill>, d: Value)
    requires d in DailyRevenue(bills)
    ensures DailyRevenue(bills)[d].depotId == d
    ensures DailyRevenue(bills)[d].revenue ==
      DailyRevenue(bills)[d].money2 - DailyRevenue(bills)[d].money1 + DailyRevenue(bills)[d].returnfee1
  {
  }

  /** With one row per depot and type, a depot's type-2 bill gives its name (0 for a
      missing name) and `money_type2`; without one both are 0. */
  lemma TypeTwoSide(bills: seq<Bill>, d: Value)
    requires OneRowPerDepotAndKind(bills)
    requires d in DailyRevenue(bills)
    ensures !HasBill(bills, 2, d) ==>
      DailyRevenue(bills)[d].depotName == Int(0) && DailyRevenue(bills)[d].money2 == 0
    ensures forall k :: 0 <= k < |bills| && bills[k].kind == 2 && bills[k].depotId == d ==>
      DailyRevenue(bills)[d].money2 == bills[k].money &&
      DailyRevenue(bills)[d].depotName == (if bills[k].depotName != Null then bills[k].depotName else Int(0))
  {
    forall k | 0 <= k < |bills| && bills[k].kind == 2 && bills[k].depotId == d
      ensures DailyRevenue(bills)[d].money2 == bills[k].money &&
        DailyRevenue(bills)[d].depotName == (if bills[k].depotName != Null then bills[k].depotName else Int(0))
    {
      UniqueIndex(bills, k);
      SideOfUnique(bills, 2, k);
    }
    SideOfKeys(bills, 2);
  }

  /** With one row per depot and type, a depot's type-1 bill gives `money_type1` and
      `returnfee_type1`; without one both are 0. */
  lemma TypeOneSide(bills: seq<Bill>, d: Value)
    requires OneRowPerDepotAndKind(bills)
    requires d in DailyRevenue(bills)
    ensures !HasBill(bills, 1, d) ==>
      DailyRevenue(bills)[d].money1 == 0 && DailyRevenue(bills)[d].returnfee1 == 0
    ensures forall k :: 0 <= k < |bills| && bills[k].kind == 1 && bills[k].depotId == d ==>
      DailyRevenue(bills)[d].money1 == bills[k].money &&
      DailyRevenue(bills)[d].returnfee1 == bills[k].returnfee
  {
    forall k | 0 <= k < |bills| && bills[k].kind == 1 && bills[k].depotId == d
      ensures DailyRevenue(bills)[d].money1 == bills[k].money &&
        DailyRevenue(bills)[d].returnfee1 == bills[k].returnfee
    {
      UniqueIndex(bills, k);
      SideOfUnique(bills, 1, k);
    }
    SideOfKeys(bills, 1);
  }

  lemma UniqueIndex(bills: seq<Bill>, k: nat)
    requires OneRowPerDepotAndKind(bills)
    requires k < |bills|
    ensures forall j :: 0 <= j < |bills| && j != k && bills[j].kind == bills[k].kind ==>
      bills[j].depotId != bills[k].depotId
  {
    forall j | 0 <= j < |bills| && j != k && bills[j].kind == bills[k].kind
      ensures bills[j].depotId != bills[k].depotId
    {
      if j < k {
        assert bills[j].depotId != bills[k].depotId;
      } else {
        assert bills[k].depotId != bills[j].depotId;
      }
    }
  }

  /** The bills of type 1 and type 2, in order. */
  function KindsOneAndTwo(bills: seq<Bill>): (r: seq<Bill>)
    ensures |r| <= |bills|
    ensures forall k :: 0 <= k < |r| ==> r[k].kind == 1 || r[k].kind == 2
  {
    if bills == [] then []
    else
      var b := bills[|bills| - 1];
      KindsOneAndTwo(bills[..|bills| - 1]) + (if b.kind == 1 || b.kind == 2 then [b] else [])
  }

  /** Dropping the bills of every other type changes neither subset. */
  lemma {:induction false} SideOfKindsOneAndTwo(bills: seq<Bill>, kind: int)
    requires kind == 1 || kind == 2
    ensures SideOf(KindsOneAndTwo(bills), kind) == SideOf(bills, kind)
    decreases |bills|
  {
    if bills != [] {
      var s := bills[..|bills| - 1];
      var b := bills[|bills| - 1];
      SideOfKindsOneAndTwo(s, kind);
      var f := KindsOneAndTwo(s);
      SideOfStep(bills, kind);
      if b.kind == 1 || b.kind == 2 {
        assert KindsOneAndTwo(bills) == f + [b];
        assert (f + [b])[..|f|] == f;
        SideOfStep(f + [b], kind);
      } else {
        assert KindsOneAndTwo(bills) == f;
      }
    }
  }

  /** Only rows of type 1 or 2 contribute: the result is that of the filtered rows. */
  lemma OtherKindsDropped(bills: seq<Bill>)
    ensures DailyRevenue(KindsOneAndTwo(bills)) == DailyRevenue(bills)
  {
    SideOfKindsOneAndTwo(bills, 1);
    SideOfKindsOneAndTwo(bills, 2);
  }

  /** `bills` with the returnfee of every row that is not of type 1 replaced. */
  predicate SameButReturnfeeOutsideTypeOne(a: seq<Bill>, b: seq<Bill>) {
    |a| == |b| &&
    forall k :: 0 <= k < |a| ==>
      a[k].depotId == b[k].depotId && a[k].depotName == b[k].depotName &&
      a[k].kind == b[k].kind && a[k].money == b[k].money &&
      (a[k].kind == 1 ==> a[k].returnfee == b[k].returnfee)
  }

  lemma {:induction false} TypeTwoSideIgnoresReturnfee(a: seq<Bill>, b: seq<Bill>, d: Value)
    requires SameButReturnfeeOutsideTypeOne(a, b)
    requires d in SideOf(a, 2)
    ensures d in SideOf(b, 2)
    ensures SideOf(a, 2)[d].name == SideOf(b, 2)[d].name
    ensures SideOf(a, 2)[d].money == SideOf(b, 2)[d].money
    decreases |a|
  {
    assert a != [];
    var n := |a| - 1;
    var x, y := a[n], b[n];
    assert x.kind == y.kind && x.depotId == y.depotId && x.depotName == y.depotName && x.money == y.money;
    SideOfStep(a, 2);
    SideOfStep(b, 2);
    if !(x.kind == 2 && x.depotId == d) {
      var a', b' := a[..n], b[..n];
      assert SameButReturnfeeOutsideTypeOne(a', b') by {
        forall k | 0 <= k < n ensures a'[k] == a[k] && b'[k] == b[k] { }
      }
      assert d in SideOf(a', 2);
      TypeTwoSideIgnoresReturnfee(a', b', d);
      var mb := SideOf(b', 2);
      assert |b| - 1 == n;
      if y.kind == 2 {
        assert SideOf(b, 2) == mb[y.depotId := Side(y.depotName, y.money, y.returnfee)];
      } else {
        assert SideOf(b, 2) == mb;
      }
    }
  }

  /** One more bill row: the subset of its type is overwritten at its depot. */
  lemma SideOfStep(bills: seq<Bill>, kind: int)
    requires bills != []
    ensures var rest := SideOf(bills[..|bills| - 1], kind);
      var b := bills[|bills| - 1];
      SideOf(bills, kind) == if b.kind == kind then rest[b.depotId := Side(b.depotName, b.money, b.returnfee)] else rest
  {
  }

  lemma {:induction false} TypeOneSideIgnoresOthers(a: seq<Bill>, b: seq<Bill>)
    requires SameButReturnfeeOutsideTypeOne(a, b)
    ensures SideOf(a, 1) == SideOf(b, 1)
    decreases |a|
  {
    if a != [] {
      var n := |a| - 1;
      assert SameButReturnfeeOutsideTypeOne(a[..n], b[..n]) by {
        forall k | 0 <= k < n ensures a[..n][k] == a[k] && b[..n][k] == b[k] { }
      }
      TypeOneSideIgnoresOthers(a[..n], b[..n]);
    }
  }

  /** `returnfee_type2` is never used: changing the returnfee of rows of any type other
      than 1 leaves the result unchanged. */
  lemma ReturnfeeTypeTwoUnused(a: seq<Bill>, b: seq<Bill>)
    requires SameButReturnfeeOutsideTypeOne(a, b)
    ensures DailyRevenue(a) == DailyRevenue(b)
  {
    TypeOneSideIgnoresOthers(a, b);
    SameButReturnfeeSymmetric(a, b);
    var t1, t2a, t2b := SideOf(a, 1), SideOf(a, 2), SideOf(b, 2);
    forall d | d in t2a ensures d in t2b {
      TypeTwoSideIgnoresReturnfee(a, b, d);
    }
    forall d | d in t2b ensures d in t2a {
      TypeTwoSideIgnoresReturnfee(b, a, d);
    }
    forall d | d in t2a ensures t2a[d].name == t2b[d].name && t2a[d].money == t2b[d].money {
      TypeTwoSideIgnoresReturnfee(a, b, d);
    }
    JoinIgnoresTypeTwoReturnfee(t1, t2a, t2b);
  }

  lemma JoinIgnoresTypeTwoReturnfee(t1: map<Value, Side>, t2a: map<Value, Side>, t2b: map<Value, Side>)
    requires t2a.Keys == t2b.Keys
    requires forall d :: d in t2a ==> t2a[d].name == t2b[d].name && t2a[d].money == t2b[d].money
    ensures (map d | d in t1.Keys + t2a.Keys :: JoinRow(d, t1, t2a)) ==
            (map d | d in t1.Keys + t2b.Keys :: JoinRow(d, t1, t2b))
  {
  }

  lemma SameButReturnfeeSymmetric(a: seq<Bill>, b: seq<Bill>)
    requires SameButReturnfeeOutsideTypeOne(a, b)
    ensures SameButReturnfeeOutsideTypeOne(b, a)
  {
  }

  /** A type-1 row with money 100 and returnfee 10 and a type-2 row with money 150 for the
      same depot give a revenue of 150 - 100 + 10 = 60. */
  lemma SixtyExample(id: Value, name: Value, fee2: int)
    requires name != Null
    ensures var bills := [Bill(id, name, 1, 100, 10), Bill(id, name, 2, 150, fee2)];
      DailyRevenue(bills) == map[id := DailyRow(id, name, 100, 150, 10, 60)]
  {
    var bills := [Bill(id, name, 1, 100, 10), Bill(id, name, 2, 150, fee2)];
    var first := [bills[0]];
    assert bills[..1] == first && first[..0] == [];
    assert SideOf(first, 1) == map[id := Side(name, 100, 10)];
    assert SideOf(first, 2) == map[];
    assert SideOf(bills, 1) == map[id := Side(name, 100, 10)];
    assert SideOf(bills, 2) == map[id := Side(name, 150, fee2)];
  }

  /** A depot that only has a type-1 row gets the name 0 and a revenue of
      `returnfee - money`. */
  lemma TypeOneOnlyExample(id: Value, name: Value, money: int, fee: int)
    ensures DailyRevenue([Bill(id, name, 1, money, fee)]) ==
      map[id := DailyRow(id, Int(0), money, 0, fee, fee - money)]
  {
    var bills := [Bill(id, name, 1, money, fee)];
    assert bills[..0] == [];
    assert SideOf(bills, 1) == map[id := Side(name, money, fee)];
    assert SideOf(bills, 2) == map[];
  }
}
