/** The pure steps of the QR scripts that turn a table record into a work item: the
    eligibility test, parsing the "Link QR" cell, and the deterministic file name
    `{depot_id}_{safe_name}_{date}.png` (QRcode_CK_v2.py and QRcode_CK.py share them). */
module QrNaming {
  import opened LarkData

  /** The default for a missing depot id, depot name or date. */
  const Unknown: string := "unknown"

  /** The longest sanitised depot name kept in a file name. */
  const NameLimit: nat := 30

  /** `s.replace(from, to)` for one-character strings. */
  function Replace(s: string, from: char, to: char): (r: string)
    ensures |r| == |s|
    ensures forall k :: 0 <= k < |s| ==> r[k] == (if s[k] == from then to else s[k])
  {
    if s == [] then [] else [if s[0] == from then to else s[0]] + Replace(s[1..], from, to)
  }

  /** What the three replacements do to one character. */
  function SafeChar(c: char): char {
    if c == '/' || c == '\\' then '-' else if c == ' ' then '_' else c
  }

  /** `name.replace("/", "-").replace("\\", "-").replace(" ", "_")[:30]`. */
  function SafeName(name: string): (r: string)
    ensures |r| == if |name| <= NameLimit then |name| else NameLimit
    ensures forall k :: 0 <= k < |r| ==> r[k] == SafeChar(name[k])
    ensures forall k :: 0 <= k < |r| ==> r[k] != '/' && r[k] != '\\' && r[k] != ' '
  {
    var replaced := Replace(Replace(Replace(name, '/', '-'), '\\', '-'), ' ', '_');
    if |replaced| <= NameLimit then replaced else replaced[..NameLimit]
  }

  /** Sanitising a sanitised name changes nothing. */
  lemma SafeNameIdempotent(name: string)
    ensures SafeName(SafeName(name)) == SafeName(name)
  {
    var once := SafeName(name);
    assert forall k :: 0 <= k < |once| ==> SafeName(once)[k] == once[k];
  }

  /** `date_str`: "unknown" for a falsy timestamp (absent, None, 0), the formatted date
      of a number of milliseconds otherwise, and None where `date_timestamp / 1000`
      raises TypeError (a non-empty string, list or dict). */
  function DateText(stamp: Value, formatDate: int -> string): Option<string> {
    if !Truthy(stamp) then Some(Unknown)
    else match stamp
      case Int(ms) => Some(formatDate(ms))
      case Bool(_) => Some(formatDate(1))
      case _ => None
  }

  /** `f"{depot_id}_{safe_depot_name}_{date_str}.png"`. */
  function FileName(depotId: string, safeName: string, date: string): string {
    depotId + "_" + safeName + "_" + date + ".png"
  }

  /** What `qr_link` ends up as: a value (Null standing for None), or AttributeError when
      the cell is a list whose first element is not a dict. */
  datatype LinkParse = Link(url: Value) | LinkRaises

  function ParseLink(cell: Value): LinkParse {
    match cell
    case List(items) =>
      if |items| == 0 then Link(Null)
      else if items[0].Obj? then Link(Get(items[0].entries, "text"))
      else LinkRaises
    case Str(_) => Link(cell)
    case _ => Link(Null)
  }

  /** A record to download and re-upload, with its derived file name. */
  datatype WorkItem = WorkItem(recordId: Value, link: Value, fileName: string)

  /** The fate of a record before any network call: dropped (`return None` / `continue`),
      an exception raised, or a work item. */
  datatype Preparation = Skip | Raise | Ready(item: WorkItem)

  /** The selection test: a truthy "Link QR" cell and a truthy record id. */
  predicate Eligible(r: Record) {
    Truthy(Get(r.fields, LinkField)) && Truthy(r.recordId)
  }

  /** The file name block of `process_single_record` (lines 148-155): None where
      `date_timestamp / 1000` or `depot_name.replace` raises. */
  function FileNameOf(fields: map<string, Value>, formatDate: int -> string): Option<string> {
    var depotId := GetOr(fields, DepotIdField, Str(Unknown));
    var depotName := GetOr(fields, DepotNameField, Str(Unknown));
    match DateText(Get(fields, DateField), formatDate)
    case None => None
    case Some(date) =>
      if !depotName.Str? then None
      else Some(FileName(Display(depotId), SafeName(depotName.s), date))
  }

  /** Lines 130-155 of `process_single_record` (and 88-110 of the earlier script without
      its "QR code" test): select, parse the link, build the file name. */
  function Prepare(r: Record, formatDate: int -> string): Preparation {
    if !Eligible(r) then Skip
    else match ParseLink(Get(r.fields, LinkField))
      case LinkRaises => Raise
      case Link(url) =>
        if !Truthy(url) then Skip
        else match FileNameOf(r.fields, formatDate)
          case None => Raise
          case Some(name) => Ready(WorkItem(r.recordId, url, name))
  }

  /** The link of a work item is truthy and is the cell itself when the cell is a string,
      or the `text` of the cell's first element when the cell is a list. A cell of any other
      type (a number, a dict, True) yields no work item. */
  lemma ReadyLink(r: Record, formatDate: int -> string)
    ensures Prepare(r, formatDate).Ready? ==>
      var cell := Get(r.fields, LinkField);
      var link := Prepare(r, formatDate).item.link;
      Truthy(link) &&
      ((cell.Str? && link == cell) ||
       (cell.List? && |cell.items| > 0 && cell.items[0].Obj? && link == Get(cell.items[0].entries, "text")))
    ensures !Get(r.fields, LinkField).Str? && !Get(r.fields, LinkField).List? ==> Prepare(r, formatDate) == Skip
  {
  }

  /** The file name of a work item: the depot id (or "unknown") rendered by `str`, the
      sanitised depot name (or "unknown"), and the date ("unknown" for an absent or zero
      timestamp), joined by "_" with the ".png" suffix. The work item carries the record's id. */
  lemma ReadyFileName(r: Record, formatDate: int -> string)
    requires Prepare(r, formatDate).Ready?
    ensures var item := Prepare(r, formatDate).item;
      var name := GetOr(r.fields, DepotNameField, Str(Unknown));
      var stamp := Get(r.fields, DateField);
      name.Str? &&
      item.recordId == r.recordId &&
      item.fileName == FileName(Display(GetOr(r.fields, DepotIdField, Str(Unknown))), SafeName(name.s),
                                if !Truthy(stamp) then Unknown else DateText(stamp, formatDate).value)
  {
  }

  /** A short name without '/', '\\' or ' ' is its own safe name. */
  lemma SafeNameOfPlain(name: string)
    requires |name| <= NameLimit
    requires forall k :: 0 <= k < |name| ==> name[k] != '/' && name[k] != '\\' && name[k] != ' '
    ensures SafeName(name) == name
  {
    var s := SafeName(name);
    assert forall k :: 0 <= k < |s| ==> s[k] == name[k];
  }

  lemma SafeNameOfUnknown()
    ensures SafeName(Unknown) == Unknown
  {
    var u := Unknown;
    assert u[0] == 'u' && u[1] == 'n' && u[2] == 'k' && u[3] == 'n' && u[4] == 'o' && u[5] == 'w' && u[6] == 'n';
    SafeNameOfPlain(u);
  }

  /** An eligible record whose link cell is a string and that has no depot id, no depot
      name and no (or a zero) date becomes a work item on that link named
      "unknown_unknown_unknown.png". */
  lemma DefaultFileName(r: Record, formatDate: int -> string)
    requires Eligible(r) && Get(r.fields, LinkField).Str?
    requires DepotIdField !in r.fields && DepotNameField !in r.fields
    requires DateField !in r.fields || r.fields[DateField] == Int(0)
    ensures Prepare(r, formatDate) ==
      Ready(WorkItem(r.recordId, Get(r.fields, LinkField), "unknown_unknown_unknown.png"))
  {
    ParseLinkCases(Get(r.fields, LinkField));
    DefaultFileNameOf(r.fields, formatDate);
    UnknownFileName();
  }

  /** With the three cells absent (or a zero date) the name is built from the defaults. */
  lemma DefaultFileNameOf(fields: map<string, Value>, formatDate: int -> string)
    requires DepotIdField !in fields && DepotNameField !in fields
    requires DateField !in fields || fields[DateField] == Int(0)
    ensures FileNameOf(fields, formatDate) == Some(FileName(Unknown, Unknown, Unknown))
  {
    SafeNameOfUnknown();
    DisplayOfStr(Unknown);
    DefaultCells(fields);
  }

  lemma DefaultCells(fields: map<string, Value>)
    requires DepotIdField !in fields && DepotNameField !in fields
    requires DateField !in fields || fields[DateField] == Int(0)
    ensures GetOr(fields, DepotIdField, Str(Unknown)) == Str(Unknown)
    ensures GetOr(fields, DepotNameField, Str(Unknown)) == Str(Unknown)
    ensures !Truthy(Get(fields, DateField))
  {
  }

  /** What `qr_link` is for each shape of the "Link QR" cell: a string is the link itself,
      a non-empty list gives the `text` of its first element (AttributeError when that
      element is not a dict), and an empty list or any other value gives None. */
  lemma ParseLinkCases(cell: Value)
    ensures cell.Str? ==> ParseLink(cell) == Link(cell)
    ensures cell.List? && |cell.items| > 0 && cell.items[0].Obj? ==>
      ParseLink(cell) == Link(Get(cell.items[0].entries, "text"))
    ensures cell.List? && |cell.items| > 0 && !cell.items[0].Obj? ==> ParseLink(cell) == LinkRaises
    ensures !cell.Str? && !(cell.List? && |cell.items| > 0) ==> ParseLink(cell) == Link(Null)
  {
  }

  /** The three fates of a record. It is dropped exactly when it is not eligible or its link
      is falsy; it raises exactly when it is eligible and the link cannot be read, or the
      link is truthy and the date cannot be divided or the depot name is not a string;
      otherwise it is the work item on its link with its derived file name. */
  lemma PrepareOutcome(r: Record, formatDate: int -> string)
    ensures var p := ParseLink(Get(r.fields, LinkField));
      Prepare(r, formatDate) == Skip <==> !Eligible(r) || (p.Link? && !Truthy(p.url))
    ensures var p := ParseLink(Get(r.fields, LinkField));
      var name := GetOr(r.fields, DepotNameField, Str(Unknown));
      var date := DateText(Get(r.fields, DateField), formatDate);
      Prepare(r, formatDate) == Raise <==>
        Eligible(r) && (p == LinkRaises || (Truthy(p.url) && (date.None? || !name.Str?)))
    ensures var p := ParseLink(Get(r.fields, LinkField));
      var name := GetOr(r.fields, DepotNameField, Str(Unknown));
      var date := DateText(Get(r.fields, DateField), formatDate);
      Prepare(r, formatDate).Ready? <==>
        Eligible(r) && p.Link? && Truthy(p.url) && date.Some? && name.Str?
    ensures var p := ParseLink(Get(r.fields, LinkField));
      var id := GetOr(r.fields, DepotIdField, Str(Unknown));
      var name := GetOr(r.fields, DepotNameField, Str(Unknown));
      var date := DateText(Get(r.fields, DateField), formatDate);
      Prepare(r, formatDate).Ready? ==>
        Prepare(r, formatDate) == Ready(WorkItem(r.recordId, p.url, FileName(Display(id), SafeName(name.s), date.value)))
  {
  }

  lemma UnknownFileName()
    ensures FileName(Unknown, Unknown, Unknown) == "unknown_unknown_unknown.png"
  {
  }

  /** The file name depends on the depot id, depot name and date cells only. */
  lemma FileNameDependsOnThreeCells(r1: Record, r2: Record, formatDate: int -> string)
    requires Prepare(r1, formatDate).Ready? && Prepare(r2, formatDate).Ready?
    requires GetOr(r1.fields, DepotIdField, Str(Unknown)) == GetOr(r2.fields, DepotIdField, Str(Unknown))
    requires GetOr(r1.fields, DepotNameField, Str(Unknown)) == GetOr(r2.fields, DepotNameField, Str(Unknown))
    requires Get(r1.fields, DateField) == Get(r2.fields, DateField)
    ensures Prepare(r1, formatDate).item.fileName == Prepare(r2, formatDate).item.fileName
  {
  }
}
