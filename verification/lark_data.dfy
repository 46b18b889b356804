/** Values exchanged with the Lark Bitable API as the Python scripts see them after
    JSON decoding, with Python's truthiness and `dict.get`, and the record shapes
    read from and written to a table. */
module LarkData {

  datatype Option<T> = None | Some(value: T)

  /** A decoded JSON value. Floats are not modelled: numbers are integers. */
  datatype Value =
    | Null
    | Bool(b: bool)
    | Int(i: int)
    | Str(s: string)
    | List(items: seq<Value>)
    | Obj(entries: map<string, Value>)

  /** Python's truth test (`if v:`). */
  predicate Truthy(v: Value) {
    match v
    case Null => false
    case Bool(b) => b
    case Int(i) => i != 0
    case Str(s) => s != ""
    case List(items) => items != []
    case Obj(entries) => entries != map[]
  }

  /** Only scalars may be dictionary keys in Python; a list or a dict raises TypeError. */
  predicate Hashable(v: Value) {
    !v.List? && !v.Obj?
  }

  /** `d.get(key, default)`. */
  function GetOr(d: map<string, Value>, key: string, default: Value): Value {
    if key in d then d[key] else default
  }

  /** `d.get(key)`: None when the key is absent. */
  function Get(d: map<string, Value>, key: string): Value {
    GetOr(d, key, Null)
  }

  function DigitChar(d: nat): char
    requires d < 10
  {
    "0123456789"[d]
  }

  /** Decimal digits of a natural number, most significant first. */
  function NatToString(n: nat): (s: string)
    ensures |s| >= 1
    ensures forall k :: 0 <= k < |s| ==> '0' <= s[k] <= '9'
    decreases n
  {
    if n < 10 then [DigitChar(n)] else NatToString(n / 10) + [DigitChar(n % 10)]
  }

  /** The number a string of decimal digits denotes, as `int(s)` reads it. */
  function DigitsValue(s: string): int
    decreases |s|
  {
    if s == [] then 0 else 10 * DigitsValue(s[..|s| - 1]) + (s[|s| - 1] as int - '0' as int)
  }

  /** Reading back the digits of `n` gives `n`. */
  lemma {:induction false} NatToStringParses(n: nat)
    ensures DigitsValue(NatToString(n)) == n
    decreases n
  {
    var s := NatToString(n);
    if n < 10 {
      assert s == [DigitChar(n)];
      assert s[..0] == [];
      assert "0123456789"[n] as int - '0' as int == n;
    } else {
      NatToStringParses(n / 10);
      var c := DigitChar(n % 10);
      assert s == NatToString(n / 10) + [c];
      assert s[..|s| - 1] == NatToString(n / 10);
      assert "0123456789"[n % 10] as int - '0' as int == n % 10;
    }
  }

  function IntToString(i: int): string {
    if i < 0 then "-" + NatToString(-i) else NatToString(i)
  }

  /** Python's `str(v)`, as used by f-strings. Containers are rendered by a placeholder
      (Python's `repr` of lists and dicts is not reproduced). */
  function Display(v: Value): string {
    match v
    case Null => "None"
    case Bool(b) => if b then "True" else "False"
    case Int(i) => IntToString(i)
    case Str(s) => s
    case List(_) => "[...]"
    case Obj(_) => "{...}"
  }

  /** A string is displayed as itself. */
  lemma DisplayOfStr(s: string)
    ensures Display(Str(s)) == s
  {
  }

  /** A table record as listed by the API: `record.get("record_id")` (Null when absent)
      and `record.get("fields", {})`. */
  datatype Record = Record(recordId: Value, fields: map<string, Value>)

  /** A record sent to `batch_update` (`{"record_id": .., "fields": ..}`) or to
      `batch_create` (`{"fields": ..}`, no record id). */
  datatype Payload = Payload(recordId: Option<Value>, fields: map<string, Value>)

  // Field names of the tables, matched literally.
  const LinkField := "Link QR"
  const QrField := "QR code"
  const DepotIdField := "Mã cửa hàng"
  const DepotNameField := "Tên cửa hàng"
  const DateField := "Ngày"
}
