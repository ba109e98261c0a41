/** The spreadsheet data layer (`fetchData`): which sheet a request reads, the
    image-column rewrite of project rows and the `data_type` filter of master rows.
    Downloading and parsing the CSV is not modelled: the parsed rows of the two
    sheets are parameters. */
module Sheets {
  import opened Seqs
  import opened Text

  /** A parsed CSV row: column header to cell text. A column the sheet lacks is
      absent from the map (`undefined` in the source). */
  type Row = map<string, string>

  /** `row[key]` is truthy: present and not the empty string. */
  predicate Has(row: Row, key: string)
  {
    key in row && row[key] != ""
  }

  /** `requestedType.toLowerCase().trim()` */
  function NormaliseType(requestedType: string): (t: string)
    ensures NoUpper(t)
    ensures t == [] || (!IsJsWhitespace(t[0]) && !IsJsWhitespace(t[|t| - 1]))
    ensures exists i, j :: 0 <= i <= j <= |requestedType| && t == ToLower(requestedType)[i..j]
                           && (forall k :: 0 <= k < i ==> IsJsWhitespace(ToLower(requestedType)[k]))
                           && (forall k :: j <= k < |requestedType| ==> IsJsWhitespace(ToLower(requestedType)[k]))
  {
    var lower := ToLower(requestedType);
    Trim(lower)
  }

  /** Normalising a type that is already normalised changes nothing. */
  lemma NormaliseTypeIdempotent(requestedType: string)
    ensures NormaliseType(NormaliseType(requestedType)) == NormaliseType(requestedType)
  {
    var t := NormaliseType(requestedType);
    ToLowerFixes(t);
    assert ToLower(t) == t;
  }

  /** A worked case: a padded, capitalised plural still names the project sheet. */
  lemma PaddedTypeNormalises()
    ensures NormaliseType(" Projects\n") == "projects"
    ensures SheetFor(NormaliseType(" Projects\n")) == ProjectSheet
  {
    PaddedLower();
    PaddedTrim(ToLower(" Projects\n"));
  }

  /** The lower-casing step of the worked case. */
  lemma PaddedLower()
    ensures ToLower(" Projects\n") == " projects\n"
  {
    var lower := ToLower(" Projects\n");
    assert |lower| == 10;
    forall k | 0 <= k < 10 ensures lower[k] == " projects\n"[k] {
    }
  }

  /** The trimming step of the worked case. The strings are parameters pinned by
      the preconditions rather than literals, so that the solver does not unfold
      `Trim` and its helpers on literal arguments without bound. */
  lemma PaddedTrim(padded: string)
    requires padded == " projects\n"
    ensures Trim(padded) == "projects"
  {
    PaddedTrimStart(padded);
    PaddedTrimEnd(padded[1..]);
  }

  lemma PaddedTrimStart(padded: string)
    requires padded == " projects\n"
    ensures TrimStart(padded) == padded[1..]
  {
    assert IsJsWhitespace(padded[0]);
    assert !IsJsWhitespace(padded[1..][0]);
  }

  lemma PaddedTrimEnd(front: string)
    requires front == "projects\n"
    ensures TrimEnd(front) == "projects"
  {
    assert IsJsWhitespace(front[|front| - 1]);
    assert front[..|front| - 1] == "projects";
    assert !IsJsWhitespace(front[..|front| - 1][7]);
  }

  datatype Sheet = ProjectSheet | MasterSheet

  /** `isProjectRequest ? PROJECT_CSV_URL : MASTER_CSV_URL` */
  function SheetFor(t: string): (sheet: Sheet)
    ensures sheet == ProjectSheet <==> t == "project" || t == "projects"
  {
    if t == "project" || t == "projects" then ProjectSheet else MasterSheet
  }

  /** `{ ...item, image_url: item.hero_image || item.image_url }` */
  function NormaliseProjectRow(item: Row): (r: Row)
    ensures Has(item, "hero_image") ==> "image_url" in r && r["image_url"] == item["hero_image"]
    ensures !Has(item, "hero_image") ==> r == item
    ensures r.Keys == item.Keys + (if Has(item, "hero_image") then {"image_url"} else {})
    ensures forall k :: k in item && k != "image_url" ==> r[k] == item[k]
  {
    if Has(item, "hero_image") then item["image_url" := item["hero_image"]] else item
  }

  /** The rows of the project sheet, each rewritten, count and order kept. */
  function NormaliseProjectRows(rows: seq<Row>): (r: seq<Row>)
    ensures |r| == |rows|
    ensures forall i :: 0 <= i < |rows| ==> r[i] == NormaliseProjectRow(rows[i])
  {
    seq(|rows|, i requires 0 <= i < |rows| => NormaliseProjectRow(rows[i]))
  }

  /** Singular/plural tolerant comparison of a row's type with the requested one. */
  predicate TypeMatches(sheetType: string, t: string)
  {
    sheetType == t || sheetType + "s" == t || sheetType == t + "s"
  }

  /** The master-sheet filter for the normalised type `t`. */
  function KeepsMasterRow(t: string): Row -> bool
  {
    (item: Row) => Has(item, "data_type") && TypeMatches(NormaliseType(item["data_type"]), t)
  }

  /** CASE B: the master rows whose `data_type` names the requested type. */
  function FilterMasterRows(rows: seq<Row>, t: string): (r: seq<Row>)
    ensures forall item :: item in r <==>
              item in rows && Has(item, "data_type") && TypeMatches(NormaliseType(item["data_type"]), t)
    ensures forall item :: multiset(r)[item] == if KeepsMasterRow(t)(item) then multiset(rows)[item] else 0
    ensures IsSubsequence(r, rows)
  {
    Filter(rows, KeepsMasterRow(t))
  }

  /** The rows a request for the normalised type `t` resolves to, given the parsed
      rows of the project sheet and of the master sheet. */
  function RowsForType(t: string, projectRows: seq<Row>, masterRows: seq<Row>): (r: seq<Row>)
    ensures SheetFor(t) == ProjectSheet ==>
              |r| == |projectRows| && forall i :: 0 <= i < |r| ==> r[i] == NormaliseProjectRow(projectRows[i])
    ensures SheetFor(t) == MasterSheet ==>
              (forall item :: item in r <==>
                 item in masterRows && Has(item, "data_type") && TypeMatches(NormaliseType(item["data_type"]), t))
              && IsSubsequence(r, masterRows)
    ensures SheetFor(t) == MasterSheet ==>
              forall item :: multiset(r)[item] == if KeepsMasterRow(t)(item) then multiset(masterRows)[item] else 0
  {
    match SheetFor(t)
    case ProjectSheet => NormaliseProjectRows(projectRows)
    case MasterSheet => FilterMasterRows(masterRows, t)
  }

  /** What `fetchData(requestedType)` resolves to. */
  function FetchRows(requestedType: string, projectRows: seq<Row>, masterRows: seq<Row>): (r: seq<Row>)
    ensures var t := NormaliseType(requestedType);
            t == "project" || t == "projects" ==>
              |r| == |projectRows| && forall i :: 0 <= i < |r| ==> r[i] == NormaliseProjectRow(projectRows[i])
    ensures var t := NormaliseType(requestedType);
            t != "project" && t != "projects" ==>
              (forall item :: item in r <==>
                 item in masterRows && Has(item, "data_type") && TypeMatches(NormaliseType(item["data_type"]), t))
              && IsSubsequence(r, masterRows)
    ensures var t := NormaliseType(requestedType);
            t != "project" && t != "projects" ==>
              forall item :: multiset(r)[item] == if KeepsMasterRow(t)(item) then multiset(masterRows)[item] else 0
  {
    var t := NormaliseType(requestedType);
    RowsForType(t, projectRows, masterRows)
  }

  /** The requested type is normalised before it is compared with anything: a
      request fetches what its normal form fetches. */
  lemma FetchDependsOnNormalType(requestedType: string, projectRows: seq<Row>, masterRows: seq<Row>)
    ensures FetchRows(requestedType, projectRows, masterRows)
         == FetchRows(NormaliseType(requestedType), projectRows, masterRows)
  {
    NormaliseTypeIdempotent(requestedType);
  }
}
