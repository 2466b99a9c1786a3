/** The CSV export of the upload report: a header record and one record of six
    cells per file row, every cell wrapped in double quotes with inner quotes
    doubled (rules 5 and 7 of section 2 of RFC 4180), cells joined by "," and
    records by a line feed. A reference parser for that format reads the text
    back. */
module UploadReport {
  import opened Common

  /** A row of the report query: `id,name,size,created_at,expires_at,mime_type`. */
  datatype ReportRow = ReportRow(
    id: string,
    name: string,
    size: Option<int>,
    createdAt: string,
    expiresAt: Option<string>,
    mimeType: Option<string>)

  /** The downloaded file. */
  datatype CsvFile = CsvFile(fileName: string, content: string)

  const Header: seq<string> := ["id", "name", "size", "created_at", "expires_at", "mime_type"]

  /** `r.size ?? ""`, printed by `String`. */
  function SizeCell(size: Option<int>): string
  {
    if size.Some? then IntToString(size.value) else ""
  }

  /** The record pushed for one row; `iso` stands for
      `(t) => new Date(t).toISOString()`. */
  function RecordOf(r: ReportRow, iso: string -> string): (cells: seq<string>)
    ensures |cells| == |Header|
    ensures cells[0] == r.id && cells[1] == r.name
    ensures r.size.None? ==> cells[2] == ""
    ensures r.size.Some? ==> cells[2] == IntToString(r.size.value)
    ensures cells[3] == iso(r.createdAt)
    ensures !Truthy(r.expiresAt) ==> cells[4] == ""
    ensures Truthy(r.expiresAt) ==> cells[4] == iso(r.expiresAt.value)
    ensures r.mimeType.None? ==> cells[5] == ""
    ensures r.mimeType.Some? ==> cells[5] == r.mimeType.value
  {
    [ r.id,
      r.name,
      SizeCell(r.size),
      iso(r.createdAt),
      if Truthy(r.expiresAt) then iso(r.expiresAt.value) else "",
      if r.mimeType.Some? then r.mimeType.value else "" ]
  }

  /** The records of `data`, in order. */
  function Records(data: seq<ReportRow>, iso: string -> string): (t: seq<seq<string>>)
    ensures |t| == |data| && forall k :: 0 <= k < |data| ==> t[k] == RecordOf(data[k], iso)
  {
    if |data| == 0 then [] else Records(data[..|data| - 1], iso) + [RecordOf(data[|data| - 1], iso)]
  }

  /** `c.replace(/"/g, '""')`. */
  function Escape(c: string): string
  {
    if |c| == 0 then ""
    else (if c[0] == '"' then "\"\"" else [c[0]]) + Escape(c[1..])
  }

  /** `"${String(c).replace(/"/g, '""')}"`. */
  function QuoteCell(c: string): string
  {
    "\"" + Escape(c) + "\""
  }

  function QuoteAll(cells: seq<string>): (r: seq<string>)
    ensures |r| == |cells|
  {
    if |cells| == 0 then [] else [QuoteCell(cells[0])] + QuoteAll(cells[1..])
  }

  /** One line: the quoted cells joined by ",". */
  function RecordText(cells: seq<string>): string
  {
    Join(",", QuoteAll(cells))
  }

  function RecordTexts(t: seq<seq<string>>): (r: seq<string>)
    ensures |r| == |t|
  {
    if |t| == 0 then [] else [RecordText(t[0])] + RecordTexts(t[1..])
  }

  /** The whole text: the lines joined by "\n". */
  function Serialize(t: seq<seq<string>>): string
  {
    Join("\n", RecordTexts(t))
  }

  /** `onExportCsv`: nothing without data; otherwise the header, one record per
      row, and the file name built from the company id. */
  method ExportCsv(data: Option<seq<ReportRow>>, companyId: string, iso: string -> string)
    returns (file: Option<CsvFile>)
    ensures data.None? ==> file.None?
    ensures data.Some? ==>
              file == Some(CsvFile("relatorio-arquivos-" + companyId + ".csv",
                                   Serialize([Header] + Records(data.value, iso))))
  {
    if data.None? {
      return None;
    }
    var rows := [Header];
    var d := data.value;
    for i := 0 to |d|
      invariant rows == [Header] + Records(d[..i], iso)
    {
      assert d[..i + 1][..i] == d[..i];
      rows := rows + [RecordOf(d[i], iso)];
    }
    assert d[..|d|] == d;
    var csv := Serialize(rows);
    file := Some(CsvFile("relatorio-arquivos-" + companyId + ".csv", csv));
  }

  // ---------------------------------------------------------------------------
  // A reference parser for the fully quoted format

  /** Reads the inside of a quoted field, just after its opening quote: `""`
      stands for one quote and a lone quote closes the field. Gives the field's
      text and what follows the closing quote. */
  function FieldBody(s: string): (r: Option<(string, string)>)
    ensures r.Some? ==> |r.value.1| < |s|
    decreases |s|
  {
    if |s| == 0 then None
    else if s[0] == '"' then
      if |s| >= 2 && s[1] == '"' then
        match FieldBody(s[2..])
        case None => None
        case Some((c, rest)) => Some(("\"" + c, rest))
      else Some(("", s[1..]))
    else
      match FieldBody(s[1..])
      case None => None
      case Some((c, rest)) => Some(([s[0]] + c, rest))
  }

  /** Reads fields and records: after a field, "," starts the next field and
      "\n" the next record. `cur` is the record being read and `done` the
      records read so far. */
  function ParseFrom(s: string, cur: seq<string>, done: seq<seq<string>>): Option<seq<seq<string>>>
    decreases |s|
  {
    if |s| == 0 || s[0] != '"' then None
    else
      match FieldBody(s[1..])
      case None => None
      case Some((cell, rest)) =>
        if |rest| == 0 then Some(done + [cur + [cell]])
        else if rest[0] == ',' then ParseFrom(rest[1..], cur + [cell], done)
        else if rest[0] == '\n' then ParseFrom(rest[1..], [], done + [cur + [cell]])
        else None
  }

  function Parse(s: string): Option<seq<seq<string>>>
  {
    ParseFrom(s, [], [])
  }

  /** An escaped text followed by a closing quote reads back as the text, as
      long as what follows does not start with a quote. */
  lemma {:induction false} FieldBodyEscape(c: string, rest: string)
    requires |rest| == 0 || rest[0] != '"'
    ensures FieldBody(Escape(c) + "\"" + rest) == Some((c, rest))
    decreases |c|
  {
    var s := Escape(c) + "\"" + rest;
    if |c| == 0 {
      assert s == "\"" + rest;
      assert s[1..] == rest;
    } else {
      FieldBodyEscape(c[1..], rest);
      var tail := Escape(c[1..]) + "\"" + rest;
      if c[0] == '"' {
        assert s == "\"\"" + tail;
        assert s[2..] == tail;
        assert "\"" + c[1..] == c;
      } else {
        assert s == [c[0]] + tail;
        assert s[1..] == tail;
        assert [c[0]] + c[1..] == c;
      }
    }
  }

  /** A quoted cell reads back as the cell's text. */
  lemma CellRoundTrip(c: string)
    ensures FieldBody(QuoteCell(c)[1..]) == Some((c, ""))
  {
    FieldBodyEscape(c, "");
    assert QuoteCell(c)[1..] == Escape(c) + "\"" + "";
  }

  /** The last cell of a record: reading it ends the record, and the text or
      the line feed that follows decides what comes next. */
  lemma LastCellRoundTrip(c: string, tail: string, cur: seq<string>, done: seq<seq<string>>)
    requires |tail| == 0 || tail[0] == '\n'
    ensures ParseFrom(QuoteCell(c) + tail, cur, done)
              == if |tail| == 0 then Some(done + [cur + [c]]) else ParseFrom(tail[1..], [], done + [cur + [c]])
  {
    var s := QuoteCell(c) + tail;
    assert s[0] == '"';
    assert s[1..] == Escape(c) + "\"" + tail;
    FieldBodyEscape(c, tail);
  }

  /** A cell followed by "," and more text: the cell joins the record being read. */
  lemma NextCellRoundTrip(c: string, more: string, cur: seq<string>, done: seq<seq<string>>)
    ensures ParseFrom(QuoteCell(c) + "," + more, cur, done) == ParseFrom(more, cur + [c], done)
  {
    var s := QuoteCell(c) + "," + more;
    assert s[0] == '"';
    assert s[1..] == Escape(c) + "\"" + ("," + more);
    FieldBodyEscape(c, "," + more);
    assert ("," + more)[1..] == more;
  }

  /** A record's line is its first quoted cell, then "," and the line of the
      rest when there is more. */
  lemma RecordTextCons(cells: seq<string>)
    requires |cells| > 0
    ensures |cells| == 1 ==> RecordText(cells) == QuoteCell(cells[0])
    ensures |cells| > 1 ==> RecordText(cells) == QuoteCell(cells[0]) + "," + RecordText(cells[1..])
  {
    assert QuoteAll(cells)[1..] == QuoteAll(cells[1..]);
  }

  /** A line of a non-empty record, followed by the end of the text or by a
      line feed, is read as that record. */
  lemma {:induction false} RecordRoundTrip(cells: seq<string>, tail: string, cur: seq<string>, done: seq<seq<string>>)
    requires |cells| > 0
    requires |tail| == 0 || tail[0] == '\n'
    ensures ParseFrom(RecordText(cells) + tail, cur, done)
              == if |tail| == 0 then Some(done + [cur + cells]) else ParseFrom(tail[1..], [], done + [cur + cells])
    decreases |cells|
  {
    var c := cells[0];
    RecordTextCons(cells);
    if |cells| == 1 {
      LastCellRoundTrip(c, tail, cur, done);
      assert cur + [c] == cur + cells;
    } else {
      var more := RecordText(cells[1..]) + tail;
      assert RecordText(cells) + tail == QuoteCell(c) + "," + more;
      NextCellRoundTrip(c, more, cur, done);
      RecordRoundTrip(cells[1..], tail, cur + [c], done);
      assert cur + [c] + cells[1..] == cur + cells;
    }
  }

  /** The serialised text of a non-empty table of non-empty records reads back
      as the table. */
  lemma {:induction false} TableRoundTrip(t: seq<seq<string>>, done: seq<seq<string>>)
    requires |t| > 0 && forall k :: 0 <= k < |t| ==> |t[k]| > 0
    ensures ParseFrom(Serialize(t), [], done) == Some(done + t)
    decreases |t|
  {
    assert RecordTexts(t)[1..] == RecordTexts(t[1..]);
    if |t| == 1 {
      assert Serialize(t) == RecordText(t[0]) + "";
      RecordRoundTrip(t[0], "", [], done);
      assert [] + t[0] == t[0];
      assert done + [t[0]] == done + t;
    } else {
      var tail := "\n" + Serialize(t[1..]);
      assert Serialize(t) == RecordText(t[0]) + tail;
      RecordRoundTrip(t[0], tail, [], done);
      assert tail[1..] == Serialize(t[1..]);
      assert [] + t[0] == t[0];
      TableRoundTrip(t[1..], done + [t[0]]);
      assert done + [t[0]] + t[1..] == done + t;
    }
  }

  /** The exported text parses back into the table it was written from. */
  lemma ExportRoundTrip(data: seq<ReportRow>, iso: string -> string)
    ensures Parse(Serialize([Header] + Records(data, iso))) == Some([Header] + Records(data, iso))
  {
    RecordsNonEmpty(data, iso);
    HeadedRoundTrip(Header, Records(data, iso));
  }

  lemma HeadedRoundTrip(head: seq<string>, body: seq<seq<string>>)
    requires forall k :: 0 <= k < |[head] + body| ==> |([head] + body)[k]| > 0
    ensures Parse(Serialize([head] + body)) == Some([head] + body)
  {
    var t := [head] + body;
    TableRoundTrip(t, []);
    assert [] + t == t;
  }

  /** That table has exactly `|data| + 1` records: the header, then each row's
      six cells in the order of the rows. */
  lemma ExportShape(data: seq<ReportRow>, iso: string -> string)
    ensures var t := [Header] + Records(data, iso);
      && |t| == |data| + 1
      && t[0] == Header
      && forall k :: 0 <= k < |data| ==> t[k + 1] == RecordOf(data[k], iso) && |t[k + 1]| == 6
  {
    var t := [Header] + Records(data, iso);
    forall k | 0 <= k < |data|
      ensures t[k + 1] == RecordOf(data[k], iso) && |t[k + 1]| == 6
    {
      assert t[k + 1] == Records(data, iso)[k];
    }
  }

  lemma RecordsNonEmpty(data: seq<ReportRow>, iso: string -> string)
    ensures var t := [Header] + Records(data, iso);
      forall k :: 0 <= k < |t| ==> |t[k]| > 0
  {
    var t := [Header] + Records(data, iso);
    forall k | 0 <= k < |t|
      ensures |t[k]| > 0
    {
      if k > 0 {
        assert t[k] == RecordOf(data[k - 1], iso);
      }
    }
  }
}
