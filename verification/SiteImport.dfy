/** The site import: rows of the CSV file classified as ready, invalid or repeated. */
module SiteImport {
  import opened Csv
  import opened Common

  datatype Site = Site(url: string, name: string)

  /** The checks that live outside this file: whitespace and case, the URL schema, the site schema. */
  datatype Rules = Rules(
    trim: string -> string,
    lower: string -> string,
    checkUrl: string -> Option<string>,
    checkSite: (string, string) -> Option<Site>
  )

  datatype Status = Ready | Invalid | DuplicateInFile

  datatype ImportRow = ImportRow(line: nat, url: string, name: string, status: Status)

  datatype ImportError = FileTooLarge | BadCsv(error: Csv.Error) | BadHeader | NoSites

  datatype Imported = Imported(rows: seq<ImportRow>) | Refused(reason: ImportError)

  const MAX_BYTES := 512 * 1024

  function StripBom(source: string): string {
    if source != "" && source[0] == '\U{FEFF}' then source[1..] else source
  }

  function JoinCommas(fields: seq<string>): string {
    if fields == [] then ""
    else if |fields| == 1 then fields[0]
    else fields[0] + "," + JoinCommas(fields[1..])
  }

  predicate HeaderOk(row: seq<string>, rules: Rules) {
    JoinCommas(seq(|row|, i requires 0 <= i < |row| => rules.lower(rules.trim(row[i])))) == "url,name"
  }

  /** The fields of a row after trimming, missing ones empty. */
  function Field(fields: seq<string>, i: nat, rules: Rules): string {
    if i < |fields| then rules.trim(fields[i]) else ""
  }

  /** The site a row asks for, if the row is acceptable on its own. */
  function Requested(fields: seq<string>, rules: Rules): Option<Site> {
    var url, name := Field(fields, 0, rules), Field(fields, 1, rules);
    if |fields| != 2 || (url == "" && name == "") then None
    else
      match rules.checkUrl(url)
      case None => None
      case Some(checked) => rules.checkSite(checked, name)
  }

  predicate Repeats(rows: seq<seq<string>>, i: nat, rules: Rules)
    requires i < |rows|
  {
    exists j :: 0 <= j < i && SameUrl(Requested(rows[j], rules), Requested(rows[i], rules))
  }

  predicate SameUrl(a: Option<Site>, b: Option<Site>) {
    a.Some? && b.Some? && a.value.url == b.value.url
  }

  /** What the preview must say about data row `i`. */
  predicate Classified(out: ImportRow, rows: seq<seq<string>>, i: nat, rules: Rules)
    requires i < |rows|
  {
    && out.line == i + 2
    && match Requested(rows[i], rules)
       case None =>
         out.status == Invalid && out.url == Field(rows[i], 0, rules) && out.name == Field(rows[i], 1, rules)
       case Some(site) =>
         && out.url == site.url && out.name == site.name
         && out.status == if Repeats(rows, i, rules) then DuplicateInFile else Ready
  }

  /** The addresses accepted so far. */
  ghost predicate SeenIs(rows: seq<seq<string>>, n: nat, seen: set<string>, rules: Rules)
    requires n <= |rows|
  {
    && (forall j :: 0 <= j < n && Requested(rows[j], rules).Some? ==> Requested(rows[j], rules).value.url in seen)
    && forall u :: u in seen ==>
         exists j :: 0 <= j < n && Requested(rows[j], rules).Some? && Requested(rows[j], rules).value.url == u
  }

  /** The preview of one data row, and the site it asks for if that is acceptable. */
  method Preview(rows: seq<seq<string>>, i: nat, seen: set<string>, rules: Rules) returns (row: ImportRow, site: Option<Site>)
    requires i < |rows| && SeenIs(rows, i, seen, rules)
    ensures site == Requested(rows[i], rules) && Classified(row, rows, i, rules)
  {
    var fields := rows[i];
    var url, name := Field(fields, 0, rules), Field(fields, 1, rules);
    row, site := ImportRow(i + 2, url, name, Invalid), None;
    if |fields| == 2 && (url != "" || name != "") {
      var checked := rules.checkUrl(url);
      if checked.Some? {
        site := rules.checkSite(checked.value, name);
        if site.Some? {
          row := ImportRow(i + 2, site.value.url, site.value.name,
            if site.value.url in seen then DuplicateInFile else Ready);
        }
      }
    }
  }

  method ParseSiteImportCsv(source: string, byteLength: nat, rules: Rules) returns (r: Imported)
    ensures r == Refused(FileTooLarge) <==> byteLength > MAX_BYTES
    ensures byteLength <= MAX_BYTES ==>
      match Read(StripBom(source), START)
      case Rejected(error) => r == Refused(BadCsv(error))
      case Rows(rows) =>
        if rows == [] || !HeaderOk(rows[0], rules) then r == Refused(BadHeader)
        else if |rows| == 1 then r == Refused(NoSites)
        else
          && r.Imported? && |r.rows| == |rows| - 1
          && forall i :: 0 <= i < |r.rows| ==> Classified(r.rows[i], rows[1..], i, rules)
  {
    if byteLength > MAX_BYTES {
      return Refused(FileTooLarge);
    }
    var parsed := ParseCsv(StripBom(source));
    if parsed.Rejected? {
      return Refused(BadCsv(parsed.error));
    }
    var rows := parsed.rows;
    if rows == [] || !HeaderOk(rows[0], rules) {
      return Refused(BadHeader);
    }
    if |rows| <= 1 {
      return Refused(NoSites);
    }
    var data := rows[1..];
    var seen: set<string> := {};
    var out: seq<ImportRow> := [];
    var index := 0;
    while index < |data|
      invariant index <= |data| && |out| == index
      invariant SeenIs(data, index, seen, rules)
      invariant forall j :: 0 <= j < index ==> Classified(out[j], data, j, rules)
    {
      var row, site := Preview(data, index, seen, rules);
      if site.Some? {
        seen := seen + {site.value.url};
      }
      out := out + [row];
      index := index + 1;
    }
    return Imported(out);
  }

  /** Every acceptable URL of the file is ready on exactly one row, its first. */
  lemma {:induction false} EachUrlReadyOnce(out: seq<ImportRow>, rows: seq<seq<string>>, i: nat, rules: Rules) returns (first: nat)
    requires |out| == |rows| && forall k :: 0 <= k < |rows| ==> Classified(out[k], rows, k, rules)
    requires i < |rows| && Requested(rows[i], rules).Some?
    ensures first <= i && out[first].status == Ready && out[first].url == out[i].url
    ensures forall k :: 0 <= k < |out| && out[k].status == Ready && out[k].url == out[i].url ==> k == first
    decreases i
  {
    if Repeats(rows, i, rules) {
      var j :| 0 <= j < i && SameUrl(Requested(rows[j], rules), Requested(rows[i], rules));
      first := EachUrlReadyOnce(out, rows, j, rules);
    } else {
      first := i;
    }
    forall k | 0 <= k < |out| && out[k].status == Ready && out[k].url == out[i].url
      ensures k == first
    {
      var a, b := if k < first then k else first, if k < first then first else k;
      assert SameUrl(Requested(rows[a], rules), Requested(rows[b], rules));
    }
  }
}
