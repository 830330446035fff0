/**
 * The export formatters (`lib/csvGenerator.ts`): the generation result
 * flattened into fifteen-column rows, one per (brand, URL), rendered as
 * quoted CSV or as tab-separated text for pasting into a spreadsheet.
 */
module CsvGenerator {
  import opened Wrappers
  import opened Text
  import opened Types
  import UtmGenerator

  /** `CSV_HEADER`: the fifteen column titles. */
  const CsvHeader: seq<string> := [
    "구분", "Date", "Source", "Medium", "캠페인", "브랜드", "목표", "이슈", "시즌", "프로모션명",
    "UTM캠페인", "소재", "UTM소재", "랜딩URL", "최종URL"
  ]

  /** The names `getRows` gives BrandShop rows, by position. */
  const AreaNames: seq<string> := ["homelink", "brandnews", "mainimage", "maintext", "thum1", "thum2", "thum3", "sub1"]

  /** `RowData`; `utmContent` is None where `content[idx]` is undefined. */
  datatype Row = Row(
    builder: string, date: string, source: string, medium: string, friendlyCampaign: string,
    brand: string, objective: string, issue: string, season: string, promotion: string,
    utmCampaign: string, materialName: string, utmContent: Option<string>,
    landingUrl: string, finalUrl: string)

  /** The label of the `idx`-th URL of a brand: its area name for BrandShop, `img_NN` otherwise. */
  function MaterialName(t: BuilderType, idx: nat): string
  {
    if t == BS then
      if idx < |AreaNames| && AreaNames[idx] != "" then AreaNames[idx] else "area_" + NatToString(idx + 1)
    else "img_" + PadStart(NatToString(idx + 1), 2, '0')
  }

  /** The row of `url`, the `idx`-th URL of `brand` (the `forEach` callback's arguments). */
  function RowOf(p: UtmParams, brand: string, data: BrandResult, url: string, idx: nat): Row
  {
    Row(BuilderTypeName(p.builderType), p.date, p.medium, p.product, p.promotion,
      brand, p.objective, p.issue, p.season, p.promotion,
      data.campaign, MaterialName(p.builderType, idx),
      if idx < |data.content| then Some(data.content[idx]) else None,
      Split(url, '?')[0], url)
  }

  /** How a row is made from the parameters, the brand, its result, the URL and its position. */
  type RowMaker = (UtmParams, string, BrandResult, string, nat) -> Row

  /** The rows `row` makes of the first `n` URLs of one brand, in URL order. */
  function BrandRows(row: RowMaker, p: UtmParams, brand: string, data: BrandResult, n: nat): (rows: seq<Row>)
    requires n <= |data.url|
    ensures |rows| == n
  {
    if n == 0 then [] else BrandRows(row, p, brand, data, n - 1) + [row(p, brand, data, data.url[n - 1], n - 1)]
  }

  /** The number of URLs of the first `m` brands of `result`. */
  function UrlCount(result: UtmResult, m: nat): nat
    requires m <= |result|
  {
    if m == 0 then 0 else UrlCount(result, m - 1) + |result[m - 1].1.url|
  }

  /** The rows of the first `m` brands of `result`, brand after brand. */
  function RowsOf(row: RowMaker, p: UtmParams, result: UtmResult, m: nat): (rows: seq<Row>)
    requires m <= |result|
    ensures |rows| == UrlCount(result, m)
  {
    if m == 0 then []
    else RowsOf(row, p, result, m - 1) + BrandRows(row, p, result[m - 1].0, result[m - 1].1, |result[m - 1].1.url|)
  }

  /** The value of `getRows(params, result)`. */
  function Rows(p: UtmParams, result: UtmResult): seq<Row>
  {
    RowsOf(RowOf, p, result, |result|)
  }

  /** `getRows`: the nested `forEach` over the brands and their URLs. */
  method GetRows(p: UtmParams, result: UtmResult) returns (rows: seq<Row>)
    ensures rows == Rows(p, result)
  {
    rows := [];
    for b := 0 to |result|
      invariant rows == RowsOf(RowOf, p, result, b)
    {
      var (brand, data) := result[b];
      for idx := 0 to |data.url|
        invariant rows == RowsOf(RowOf, p, result, b) + BrandRows(RowOf, p, brand, data, idx)
      {
        var row := MakeRow(p, brand, data, data.url[idx], idx);
        rows := rows + [row];
      }
    }
  }

  /** The body of the inner `forEach`: the row of `url`, the `idx`-th URL of `brand`. */
  method MakeRow(p: UtmParams, brand: string, data: BrandResult, url: string, idx: nat) returns (row: Row)
    ensures row == RowOf(p, brand, data, url, idx)
  {
    var landingUrl := Split(url, '?')[0];
    var materialName := "";
    if p.builderType == BS {
      var bsAreas := AreaNames;
      materialName := if idx < |bsAreas| && bsAreas[idx] != "" then bsAreas[idx] else "area_" + NatToString(idx + 1);
    } else {
      materialName := "img_" + PadStart(NatToString(idx + 1), 2, '0');
    }
    var utmContent := if idx < |data.content| then Some(data.content[idx]) else None;
    row := Row(BuilderTypeName(p.builderType), p.date, p.medium, p.product, p.promotion,
      brand, p.objective, p.issue, p.season, p.promotion,
      data.campaign, materialName, utmContent, landingUrl, url);
  }

  /** The `i`-th row of a brand is the row of its `i`-th URL. */
  lemma {:induction false} BrandRowsAt(row: RowMaker, p: UtmParams, brand: string, data: BrandResult, n: nat, i: nat)
    requires i < n <= |data.url|
    ensures BrandRows(row, p, brand, data, n)[i] == row(p, brand, data, data.url[i], i)
  {
    if i < n - 1 {
      BrandRowsAt(row, p, brand, data, n - 1, i);
    }
  }

  lemma ConcatIndex<T>(a: seq<T>, c: seq<T>, i: nat)
    requires i < |a| + |c|
    ensures (a + c)[i] == if i < |a| then a[i] else c[i - |a|]
  {
  }

  /** Among the rows of the first `m` brands, the rows of brand `b` follow those of the brands before it. */
  lemma {:induction false} RowsOfAt(row: RowMaker, p: UtmParams, result: UtmResult, m: nat, b: nat, idx: nat)
    requires b < m <= |result| && idx < |result[b].1.url|
    ensures UrlCount(result, b) + idx < UrlCount(result, m)
    ensures RowsOf(row, p, result, m)[UrlCount(result, b) + idx]
      == BrandRows(row, p, result[b].0, result[b].1, |result[b].1.url|)[idx]
  {
    var before := RowsOf(row, p, result, m - 1);
    var own := BrandRows(row, p, result[m - 1].0, result[m - 1].1, |result[m - 1].1.url|);
    if b == m - 1 {
      ConcatIndex(before, own, UrlCount(result, b) + idx);
    } else {
      RowsOfAt(row, p, result, m - 1, b, idx);
      ConcatIndex(before, own, UrlCount(result, b) + idx);
    }
  }

  /**
   * Brand-major order: the row of the `idx`-th URL of the `b`-th brand comes
   * after the rows of all earlier brands and the earlier URLs of its own.
   */
  lemma RowsAt(p: UtmParams, result: UtmResult, b: nat, idx: nat)
    requires b < |result| && idx < |result[b].1.url|
    ensures UrlCount(result, b) + idx < |Rows(p, result)|
    ensures Rows(p, result)[UrlCount(result, b) + idx] == RowOf(p, result[b].0, result[b].1, result[b].1.url[idx], idx)
  {
    RowsOfAt(RowOf, p, result, |result|, b, idx);
    BrandRowsAt(RowOf, p, result[b].0, result[b].1, |result[b].1.url|, idx);
  }

  /**
   * What a row holds: the form fields, the brand's campaign, the id at the
   * same position (undefined past the ids), the URL, and as landing URL the
   * text of the URL before its first `?` (all of it when there is none).
   */
  lemma RowFields(p: UtmParams, brand: string, data: BrandResult, url: string, idx: nat)
    ensures var row := RowOf(p, brand, data, url, idx);
      && row.builder == BuilderTypeName(p.builderType) && row.date == p.date
      && row.source == p.medium && row.medium == p.product
      && row.friendlyCampaign == p.promotion && row.promotion == p.promotion
      && row.brand == brand && row.utmCampaign == data.campaign
      && row.utmContent == (if idx < |data.content| then Some(data.content[idx]) else None)
      && row.finalUrl == url
      && '?' !in row.landingUrl
      && ('?' !in row.finalUrl ==> row.landingUrl == row.finalUrl)
      && ('?' in row.finalUrl ==> row.landingUrl + "?" <= row.finalUrl)
  {
    SplitFirstPiece(url, '?');
  }

  /** The BrandShop labels are the generator's area names, position by position. */
  lemma AreaNamesAgree()
    ensures |AreaNames| == |UtmGenerator.BsAreas|
    ensures forall idx :: 0 <= idx < |AreaNames| ==> AreaNames[idx] == UtmGenerator.BsAreas[idx].0 != ""
  {
  }

  /**
   * The BrandShop label of the `idx`-th row is the generator's area name at
   * that position, so it ends the area's id; past the eight areas it is
   * `area_N`.
   */
  lemma AreaLabel(p: UtmParams, brand: string, idx: nat)
    ensures idx < |UtmGenerator.BsAreas| ==>
      UtmGenerator.AreaId(p, brand, UtmGenerator.BsAreas[idx].0)
      == UtmGenerator.IdPrefix(p, brand) + "_01_" + MaterialName(BS, idx)
    ensures idx >= |UtmGenerator.BsAreas| ==> MaterialName(BS, idx) == "area_" + NatToString(idx + 1)
  {
    AreaNamesAgree();
  }

  /** The display/search label `img_NN` of the `idx`-th row ends the id of material `idx + 1`. */
  lemma ImageLabel(p: UtmParams, brand: string, idx: nat)
    requires p.builderType != BS
    ensures UtmGenerator.MaterialId(p, brand, idx + 1) == UtmGenerator.IdPrefix(p, brand) + "_" + MaterialName(p.builderType, idx)
  {
    var pre, digits := UtmGenerator.IdPrefix(p, brand), TwoDigits(idx + 1);
    assert MaterialName(p.builderType, idx) == "img_" + digits;
    LabelSuffix(pre, digits);
  }

  lemma LabelSuffix(pre: string, digits: string)
    ensures pre + "_img_" + digits == pre + "_" + ("img_" + digits)
  {
  }

  /** Every `"` doubled, as `val.replace(/"/g, '""')` does. */
  function DoubleQuotes(s: string): string
  {
    if s == "" then "" else (if s[0] == '"' then "\"\"" else [s[0]]) + DoubleQuotes(s[1..])
  }

  /** One CSV field: `"${val.replace(/"/g, '""')}"`. */
  function Quote(s: string): string
  {
    "\"" + DoubleQuotes(s) + "\""
  }

  function QuoteAll(vs: seq<string>): (qs: seq<string>)
    ensures |qs| == |vs|
  {
    if |vs| == 0 then [] else [Quote(vs[0])] + QuoteAll(vs[1..])
  }

  /** The fifteen values of a row in column order; an undefined id joins as "". */
  function Texts(row: Row): (vs: seq<string>)
    ensures |vs| == |CsvHeader|
  {
    [row.builder, row.date, row.source, row.medium, row.friendlyCampaign,
     row.brand, row.objective, row.issue, row.season, row.promotion,
     row.utmCampaign, row.materialName, if row.utmContent.Some? then row.utmContent.value else "",
     row.landingUrl, row.finalUrl]
  }

  /** A CSV data line: every value quoted, joined by `,`. */
  function CsvLine(row: Row): string
  {
    Join(QuoteAll(Texts(row)), ",")
  }

  /**
   * `generateCSV`: the unquoted header, then one line per row, joined by
   * newlines. None where a row's id is undefined, on which `replace` throws:
   * exactly when some brand has fewer ids than URLs.
   */
  function GenerateCsv(p: UtmParams, result: UtmResult): (r: Option<string>)
    ensures r.Some? <==> forall b :: 0 <= b < |result| ==> |result[b].1.url| <= |result[b].1.content|
  {
    var rows := Rows(p, result);
    IdsCoverUrls(p, result);
    if exists i :: 0 <= i < |rows| && rows[i].utmContent.None? then None
    else Some(CsvText(rows))
  }

  /** The header line and one quoted line per row, joined by newlines. */
  function CsvText(rows: seq<Row>): string
  {
    Join([Join(CsvHeader, ",")] + seq(|rows|, i requires 0 <= i < |rows| => CsvLine(rows[i])), "\n")
  }

  /** A tab-separated line: the values joined by tabs, unquoted. */
  function ExcelLine(row: Row): string
  {
    Join(Texts(row), "\t")
  }

  /**
   * `generateExcelText`: the header and the rows, tab-separated, joined by
   * newlines. It never fails, and its first line is the tab-separated
   * header, whatever the values hold.
   */
  function GenerateExcelText(p: UtmParams, result: UtmResult): (text: string)
    ensures Split(text, '\n')[0] == Join(CsvHeader, "\t")
  {
    var rows := Rows(p, result);
    HeaderPlain();
    JoinFree(CsvHeader, "\t", '\n');
    FirstLine(Join(CsvHeader, "\t"), seq(|rows|, i requires 0 <= i < |rows| => ExcelLine(rows[i])));
    ExcelText(rows)
  }

  /** The first line of a newline-free header followed by any lines is the header. */
  lemma FirstLine(header: string, body: seq<string>)
    requires '\n' !in header
    ensures Split(Join([header] + body, "\n"), '\n')[0] == header
  {
    if body == [] {
      assert [header] + body == [header];
    } else {
      JoinCons(header, body, "\n");
      SplitCons(header, Join(body, "\n"), '\n');
    }
  }

  /** The tab-separated header line and one line per row, joined by newlines. */
  function ExcelText(rows: seq<Row>): string
  {
    Join([Join(CsvHeader, "\t")] + seq(|rows|, i requires 0 <= i < |rows| => ExcelLine(rows[i])), "\n")
  }

  /**
   * Reads the rest of a quoted field after its opening `"`: the value with
   * every `""` undoubled, and the text after the closing `"`.
   */
  function ReadQuoted(s: string): (r: Option<(string, string)>)
    ensures r.Some? ==> |r.value.1| < |s|
    decreases |s|
  {
    if |s| == 0 then None
    else if s[0] == '"' then
      if |s| >= 2 && s[1] == '"' then
        match ReadQuoted(s[2..])
        case Some((v, rest)) => Some(("\"" + v, rest))
        case None => None
      else Some(("", s[1..]))
    else
      match ReadQuoted(s[1..])
      case Some((v, rest)) => Some(([s[0]] + v, rest))
      case None => None
  }

  /**
   * Reads one record of quoted fields separated by `,`, as RFC 4180 does:
   * the fields, and the text from the end of the record on, which is
   * empty or starts with the newline that ends the record. A newline
   * inside quotes belongs to its field.
   */
  function ReadRecord(s: string): (r: Option<(seq<string>, string)>)
    ensures r.Some? ==> |r.value.1| < |s| && (r.value.1 == "" || r.value.1[0] == '\n')
    decreases |s|
  {
    if |s| == 0 || s[0] != '"' then None
    else
      match ReadQuoted(s[1..])
      case None => None
      case Some((v, rest)) =>
        if rest == "" || rest[0] == '\n' then Some(([v], rest))
        else if rest[0] == ',' then
          match ReadRecord(rest[1..])
          case Some((vs, after)) => Some(([v] + vs, after))
          case None => None
        else None
  }

  /** Reads a text that holds exactly one record. */
  function ParseCsvLine(s: string): Option<seq<string>>
  {
    match ReadRecord(s)
    case Some((vs, "")) => Some(vs)
    case _ => None
  }

  /** Reads records separated by newlines, up to the end of the text. */
  function ParseCsvRecords(s: string): Option<seq<seq<string>>>
    decreases |s|
  {
    match ReadRecord(s)
    case None => None
    case Some((vs, after)) =>
      if after == "" then Some([vs])
      else
        match ParseCsvRecords(after[1..])
        case Some(rs) => Some([vs] + rs)
        case None => None
  }

  /**
   * Reads a CSV text as `generateCSV` lays it out: the header line, whose
   * titles are separated by `,` without quotes, then the quoted records.
   */
  function ReadCsv(text: string): Option<(seq<string>, seq<seq<string>>)>
  {
    if '\n' !in text then Some((Split(text, ','), []))
    else
      var i := FirstIndex(text, '\n');
      match ParseCsvRecords(text[i + 1..])
      case Some(rs) => Some((Split(text[..i], ','), rs))
      case None => None
  }

  /** A doubled value and its closing quote read back as the value, up to the text after. */
  lemma {:induction false} ReadDoubled(v: string, rest: string)
    requires rest == "" || rest[0] != '"'
    ensures ReadQuoted(DoubleQuotes(v) + "\"" + rest) == Some((v, rest))
    decreases |v|
  {
    var s := DoubleQuotes(v) + "\"" + rest;
    if v == "" {
      assert s == "\"" + rest;
      assert s[1..] == rest;
    } else {
      ReadDoubled(v[1..], rest);
      var tail := DoubleQuotes(v[1..]) + "\"" + rest;
      if v[0] == '"' {
        assert s == "\"\"" + tail;
        assert s[2..] == tail;
        assert "\"" + v[1..] == v;
      } else {
        assert s == [v[0]] + tail;
        assert s[1..] == tail;
        assert [v[0]] + v[1..] == v;
      }
    }
  }

  /**
   * Quoting round-trips: the quoted values joined by `,`, followed by the
   * end of the text or a newline, read back as the values, for every value.
   */
  lemma {:induction false} ReadRecordQuoted(vs: seq<string>, after: string)
    requires |vs| >= 1
    requires after == "" || after[0] == '\n'
    ensures ReadRecord(Join(QuoteAll(vs), ",") + after) == Some((vs, after))
    decreases |vs|
  {
    var head := Quote(vs[0]);
    assert QuoteAll(vs) == [head] + QuoteAll(vs[1..]);
    if |vs| == 1 {
      assert Join(QuoteAll(vs), ",") == head;
      ReadLastField(vs[0], after);
      assert [vs[0]] == vs;
    } else {
      var tail := Join(QuoteAll(vs[1..]), ",");
      JoinCons(head, QuoteAll(vs[1..]), ",");
      assert Join(QuoteAll(vs), ",") + after == head + "," + (tail + after);
      ReadNextField(vs[0], tail + after);
      ReadRecordQuoted(vs[1..], after);
      assert [vs[0]] + vs[1..] == vs;
    }
  }

  /** A quoted field that ends the record reads as a record of that one value. */
  lemma ReadLastField(v: string, after: string)
    requires after == "" || after[0] == '\n'
    ensures ReadRecord(Quote(v) + after) == Some(([v], after))
  {
    ReadField(v, after);
  }

  /** A quoted field followed by `,` reads as that value in front of the record that follows. */
  lemma ReadNextField(v: string, rest: string)
    ensures ReadRecord(Quote(v) + "," + rest) ==
      match ReadRecord(rest)
      case Some((vs, after)) => Some(([v] + vs, after))
      case None => None
  {
    ReadField(v, "," + rest);
    assert Quote(v) + "," + rest == Quote(v) + ("," + rest);
    assert ("," + rest)[1..] == rest;
  }

  /** A quoted field followed by text that does not start with `"` reads back as its value. */
  lemma ReadField(v: string, after: string)
    requires after == "" || after[0] != '"'
    ensures var s := Quote(v) + after; |s| >= 1 && s[0] == '"' && ReadQuoted(s[1..]) == Some((v, after))
  {
    var s := Quote(v) + after;
    assert s[1..] == DoubleQuotes(v) + "\"" + after;
    ReadDoubled(v, after);
  }

  /** One quoted line parses back to its values. */
  lemma ParseQuoted(vs: seq<string>)
    requires |vs| >= 1
    ensures ParseCsvLine(Join(QuoteAll(vs), ",")) == Some(vs)
  {
    ReadRecordQuoted(vs, "");
    assert Join(QuoteAll(vs), ",") + "" == Join(QuoteAll(vs), ",");
  }

  /** The quoted lines of records. */
  function QuotedLines(records: seq<seq<string>>): (lines: seq<string>)
    ensures |lines| == |records|
  {
    seq(|records|, i requires 0 <= i < |records| => Join(QuoteAll(records[i]), ","))
  }

  /** The quoted lines of records are the first record's line, then the lines of the others. */
  lemma QuotedLinesCons(records: seq<seq<string>>)
    requires |records| >= 1
    ensures QuotedLines(records) == [Join(QuoteAll(records[0]), ",")] + QuotedLines(records[1..])
  {
  }

  /** A record's quoted line, a newline and more text: the record, then what the text reads as. */
  lemma ParseRecordsCons(vs: seq<string>, rest: string)
    requires |vs| >= 1
    ensures ParseCsvRecords(Join(QuoteAll(vs), ",") + "\n" + rest) ==
      match ParseCsvRecords(rest)
      case Some(rs) => Some([vs] + rs)
      case None => None
  {
    var s := Join(QuoteAll(vs), ",") + "\n" + rest;
    ReadRecordQuoted(vs, "\n" + rest);
    assert s == Join(QuoteAll(vs), ",") + ("\n" + rest);
    assert ("\n" + rest)[1..] == rest;
  }

  /**
   * Records of at least one field each, quoted and joined by newlines, read
   * back as those records, whatever characters the values hold.
   */
  lemma {:induction false} ParseRecordsQuoted(records: seq<seq<string>>)
    requires |records| >= 1
    requires forall i :: 0 <= i < |records| ==> |records[i]| >= 1
    ensures ParseCsvRecords(Join(QuotedLines(records), "\n")) == Some(records)
    decreases |records|
  {
    var line := Join(QuoteAll(records[0]), ",");
    QuotedLinesCons(records);
    if |records| == 1 {
      assert Join(QuotedLines(records), "\n") == line + "";
      ReadRecordQuoted(records[0], "");
      assert [records[0]] == records;
    } else {
      var rest := Join(QuotedLines(records[1..]), "\n");
      JoinCons(line, QuotedLines(records[1..]), "\n");
      ParseRecordsCons(records[0], rest);
      ParseRecordsQuoted(records[1..]);
      assert [records[0]] + records[1..] == records;
    }
  }

  /** Doubling quotes adds no character other than `"`. */
  lemma {:induction false} DoubleQuotesFree(s: string, c: char)
    requires c != '"' && c !in s
    ensures c !in DoubleQuotes(s)
    decreases |s|
  {
    if s != "" {
      DoubleQuotesFree(s[1..], c);
    }
  }

  lemma QuoteAllFree(vs: seq<string>, c: char)
    requires c != '"' && forall k :: 0 <= k < |vs| ==> c !in vs[k]
    ensures forall k :: 0 <= k < |vs| ==> c !in QuoteAll(vs)[k]
    decreases |vs|
  {
    if |vs| > 0 {
      DoubleQuotesFree(vs[0], c);
      QuoteAllFree(vs[1..], c);
      assert forall k :: 1 <= k < |vs| ==> QuoteAll(vs)[k] == QuoteAll(vs[1..])[k - 1];
    }
  }

  /** No header title contains a comma, a tab or a newline. */
  lemma HeaderPlain()
    ensures forall k :: 0 <= k < |CsvHeader| ==> ',' !in CsvHeader[k] && '\t' !in CsvHeader[k] && '\n' !in CsvHeader[k]
  {
  }

  /** A row's line parses back to the row's fifteen values. */
  lemma CsvLineReadsBack(row: Row)
    ensures ParseCsvLine(CsvLine(row)) == Some(Texts(row))
  {
    ParseQuoted(Texts(row));
  }

  /** A row's line is a single line when no value holds a newline. */
  lemma CsvLineSingle(row: Row)
    requires forall k :: 0 <= k < 15 ==> '\n' !in Texts(row)[k]
    ensures '\n' !in CsvLine(row)
  {
    QuoteAllFree(Texts(row), '\n');
    JoinFree(QuoteAll(Texts(row)), ",", '\n');
  }

  /** The lines of a text joined by newlines from newline-free lines. */
  lemma LinesOf(header: string, body: seq<string>)
    requires '\n' !in header && forall i :: 0 <= i < |body| ==> '\n' !in body[i]
    ensures Split(Join([header] + body, "\n"), '\n') == [header] + body
  {
    ConsFree(header, body, '\n');
    SplitJoin([header] + body, '\n');
  }

  /** A line list whose every line lacks `c` keeps lacking it with one more line in front. */
  lemma ConsFree(header: string, body: seq<string>, c: char)
    requires c !in header && forall i :: 0 <= i < |body| ==> c !in body[i]
    ensures forall k :: 0 <= k < |[header] + body| ==> c !in ([header] + body)[k]
  {
    var lines := [header] + body;
    forall k | 0 <= k < |lines| ensures c !in lines[k] {
      if k > 0 {
        assert lines[k] == body[k - 1];
      }
    }
  }

  /**
   * The CSV text, read back by a quote-aware reader: the header's fifteen
   * titles, then one record per row holding that row's fifteen values,
   * whatever characters (quotes, commas, newlines) the values hold.
   */
  lemma CsvTextReadsBack(rows: seq<Row>)
    ensures var r := ReadCsv(CsvText(rows));
      && r.Some? && r.value.0 == CsvHeader && |r.value.1| == |rows|
      && forall i :: 0 <= i < |rows| ==> r.value.1[i] == Texts(rows[i])
  {
    var records := seq(|rows|, i requires 0 <= i < |rows| => Texts(rows[i]));
    CsvTextLayout(rows, records);
    HeaderPlain();
    ReadCsvQuoted(CsvHeader, records);
  }

  /**
   * A header of plain titles, alone or followed by a newline and the quoted
   * lines of records, reads back as the titles and the records.
   */
  lemma ReadCsvQuoted(titles: seq<string>, records: seq<seq<string>>)
    requires |titles| >= 1
    requires forall k :: 0 <= k < |titles| ==> ',' !in titles[k] && '\n' !in titles[k]
    requires forall i :: 0 <= i < |records| ==> |records[i]| >= 1
    ensures |records| == 0 ==> ReadCsv(Join(titles, ",")) == Some((titles, []))
    ensures |records| > 0 ==> ReadCsv(Join(titles, ",") + ['\n'] + Join(QuotedLines(records), "\n")) == Some((titles, records))
  {
    var header := Join(titles, ",");
    JoinFree(titles, ",", '\n');
    SplitJoin(titles, ',');
    if |records| > 0 {
      var body := Join(QuotedLines(records), "\n");
      FirstIndexAt(header, body, '\n');
      var text := header + ['\n'] + body;
      assert text[|header| + 1..] == body && text[..|header|] == header;
      ParseRecordsQuoted(records);
    }
  }

  /** The CSV text is the header alone, or the header, a newline and the records' quoted lines. */
  lemma CsvTextLayout(rows: seq<Row>, records: seq<seq<string>>)
    requires records == seq(|rows|, i requires 0 <= i < |rows| => Texts(rows[i]))
    ensures |rows| == 0 ==> CsvText(rows) == Join(CsvHeader, ",")
    ensures |rows| > 0 ==> CsvText(rows) == Join(CsvHeader, ",") + ['\n'] + Join(QuotedLines(records), "\n")
  {
    var body := seq(|rows|, i requires 0 <= i < |rows| => CsvLine(rows[i]));
    assert QuotedLines(records) == body;
    if |rows| == 0 {
      assert [Join(CsvHeader, ",")] + body == [Join(CsvHeader, ",")];
    } else {
      JoinCons(Join(CsvHeader, ","), body, "\n");
    }
  }

  /** `generateCSV`'s text, when it has one, reads back as the header and the rows of `getRows`, for every value. */
  lemma CsvReadsBack(p: UtmParams, result: UtmResult)
    requires GenerateCsv(p, result).Some?
    ensures var rows := Rows(p, result);
      var r := ReadCsv(GenerateCsv(p, result).value);
      && r.Some? && r.value.0 == CsvHeader && |r.value.1| == |rows|
      && forall i :: 0 <= i < |rows| ==> r.value.1[i] == Texts(rows[i])
  {
    CsvTextReadsBack(Rows(p, result));
  }

  /** A row's tab-separated line is newline-free when its values are, and splits at tabs into its values. */
  lemma ExcelLineReadsBack(row: Row)
    requires forall k :: 0 <= k < 15 ==> '\n' !in Texts(row)[k] && '\t' !in Texts(row)[k]
    ensures '\n' !in ExcelLine(row)
    ensures Split(ExcelLine(row), '\t') == Texts(row)
  {
    JoinFree(Texts(row), "\t", '\n');
    SplitJoin(Texts(row), '\t');
  }

  /**
   * The tab-separated text, read back: when no value holds a tab or a
   * newline, its lines are the header and one line per row, and each
   * line's tab-pieces are the fifteen titles or the row's fifteen values.
   */
  lemma ExcelTextReadsBack(rows: seq<Row>)
    requires forall i, k :: 0 <= i < |rows| && 0 <= k < 15 ==>
      '\n' !in Texts(rows[i])[k] && '\t' !in Texts(rows[i])[k]
    ensures var lines := Split(ExcelText(rows), '\n');
      && |lines| == |rows| + 1
      && Split(lines[0], '\t') == CsvHeader
      && forall i :: 0 <= i < |rows| ==> Split(lines[i + 1], '\t') == Texts(rows[i])
  {
    var body := seq(|rows|, i requires 0 <= i < |rows| => ExcelLine(rows[i]));
    HeaderPlain();
    JoinFree(CsvHeader, "\t", '\n');
    forall i | 0 <= i < |rows| ensures '\n' !in body[i] && Split(body[i], '\t') == Texts(rows[i]) {
      ExcelLineReadsBack(rows[i]);
    }
    LinesOf(Join(CsvHeader, "\t"), body);
    SplitJoin(CsvHeader, '\t');
  }

  /** `generateExcelText`'s text reads back to the header and the rows of `getRows`. */
  lemma ExcelReadsBack(p: UtmParams, result: UtmResult)
    requires forall i, k :: 0 <= i < |Rows(p, result)| && 0 <= k < 15 ==>
      '\n' !in Texts(Rows(p, result)[i])[k] && '\t' !in Texts(Rows(p, result)[i])[k]
    ensures var rows := Rows(p, result);
      var lines := Split(GenerateExcelText(p, result), '\n');
      && |lines| == |rows| + 1
      && Split(lines[0], '\t') == CsvHeader
      && forall i :: 0 <= i < |rows| ==> Split(lines[i + 1], '\t') == Texts(rows[i])
  {
    ExcelTextReadsBack(Rows(p, result));
  }

  /** Every row has an id when the row maker gives an id to each URL of each brand. */
  lemma {:induction false} RowsDefined(row: RowMaker, p: UtmParams, result: UtmResult, m: nat)
    requires m <= |result|
    requires forall b, idx :: 0 <= b < |result| && 0 <= idx < |result[b].1.url| ==>
      row(p, result[b].0, result[b].1, result[b].1.url[idx], idx).utmContent.Some?
    ensures forall i :: 0 <= i < |RowsOf(row, p, result, m)| ==> RowsOf(row, p, result, m)[i].utmContent.Some?
  {
    if m > 0 {
      RowsDefined(row, p, result, m - 1);
      var (brand, data) := result[m - 1];
      forall i | 0 <= i < |data.url| ensures BrandRows(row, p, brand, data, |data.url|)[i].utmContent.Some? {
        BrandRowsAt(row, p, brand, data, |data.url|, i);
      }
    }
  }

  /** Every row has an id exactly when every brand has at least as many ids as URLs. */
  lemma IdsCoverUrls(p: UtmParams, result: UtmResult)
    ensures (forall i :: 0 <= i < |Rows(p, result)| ==> Rows(p, result)[i].utmContent.Some?)
      <==> forall b :: 0 <= b < |result| ==> |result[b].1.url| <= |result[b].1.content|
  {
    if forall b :: 0 <= b < |result| ==> |result[b].1.url| <= |result[b].1.content| {
      forall b, idx | 0 <= b < |result| && 0 <= idx < |result[b].1.url|
        ensures RowOf(p, result[b].0, result[b].1, result[b].1.url[idx], idx).utmContent.Some?
      {
      }
      RowsDefined(RowOf, p, result, |result|);
    } else {
      var b :| 0 <= b < |result| && |result[b].1.url| > |result[b].1.content|;
      var idx := |result[b].1.content|;
      RowsAt(p, result, b, idx);
      assert Rows(p, result)[UrlCount(result, b) + idx].utmContent.None?;
    }
  }

  /** `generateCSV` never throws on what `generateUTM` produced. */
  lemma GeneratedCsv(p: UtmParams)
    ensures GenerateCsv(p, UtmGenerator.Generated(p)).Some?
  {
    var result := UtmGenerator.Generated(p);
    forall b | 0 <= b < |result| ensures |result[b].1.url| <= |result[b].1.content| {
      UtmGenerator.GeneratedEntries(p, b);
    }
  }
}
