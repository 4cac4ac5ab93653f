/**
 The audit trail's CSV export, and a reader for it that follows section 2 of RFC 4180 with a bare LF as
 record separator.
 */
module AuditCsv {
  import opened Prelude

  const QUOTE: char := '"'
  const COMMA: char := ','
  const LF: char := '\n'

  // ── The printer ───────────────────────────────────────────────────────────

  predicate Special(c: char) {
    c == QUOTE || c == COMMA || c == LF
  }

  predicate NeedsQuotes(s: string) {
    exists i :: 0 <= i < |s| && Special(s[i])
  }

  /** `s.replace(/"/g, '""')` */
  function Doubled(s: string): string {
    if s == "" then ""
    else (if s[0] == QUOTE then [QUOTE, QUOTE] else [s[0]]) + Doubled(s[1..])
  }

  function Esc(s: string): string {
    if NeedsQuotes(s) then [QUOTE] + Doubled(s) + [QUOTE] else s
  }

  function JoinCells(cells: seq<string>): string {
    if cells == [] then ""
    else if |cells| == 1 then Esc(cells[0])
    else Esc(cells[0]) + [COMMA] + JoinCells(cells[1..])
  }

  function JoinRows(rows: seq<seq<string>>): string {
    if rows == [] then ""
    else if |rows| == 1 then JoinCells(rows[0])
    else JoinCells(rows[0]) + [LF] + JoinRows(rows[1..])
  }

  /** One audit event, as far as it is exported; an absent field prints as the empty cell. */
  datatype Event = Event(
    ts: Option<string>, category: Option<string>, kind: Option<string>, verb: Option<string>, target: Option<string>,
    result: Option<string>, severity: Option<string>, who: Option<string>, ip: Option<string>, service: Option<string>,
    reason: Option<string>, requestId: Option<string>)

  const CSV_COLS: seq<string> :=
    ["ts", "category", "kind", "verb", "target", "result", "severity", "who", "ip", "service", "reason", "requestId"]

  function Cells(e: Event): seq<string> {
    [e.ts.GetOr(""), e.category.GetOr(""), e.kind.GetOr(""), e.verb.GetOr(""), e.target.GetOr(""), e.result.GetOr(""),
     e.severity.GetOr(""), e.who.GetOr(""), e.ip.GetOr(""), e.service.GetOr(""), e.reason.GetOr(""),
         e.requestId.GetOr("")]
  }

  /** The fields by the names of their columns. */
  function Fields(e: Event): seq<(string, Option<string>)> {
    [("ts", e.ts), ("category", e.category), ("kind", e.kind), ("verb", e.verb), ("target", e.target),
     ("result", e.result), ("severity", e.severity), ("who", e.who), ("ip", e.ip), ("service", e.service),
     ("reason", e.reason), ("requestId", e.requestId)]
  }

  /** Every field has its column, its cell stands under the name of the field, and there are no other cells. */
  lemma CellUnderItsName(e: Event, k: nat)
    requires k < |CSV_COLS|
    ensures |Cells(e)| == |CSV_COLS| == |Fields(e)|
    ensures CSV_COLS[k] == Fields(e)[k].0 && Cells(e)[k] == Fields(e)[k].1.GetOr("")
  {
  }

  function Table(events: seq<Event>): seq<seq<string>> {
    [CSV_COLS] + CellRows(events)
  }

  function CellRows(events: seq<Event>): (rows: seq<seq<string>>)
    ensures |rows| == |events| && forall i :: 0 <= i < |events| ==> rows[i] == Cells(events[i])
  {
    seq(|events|, i requires 0 <= i < |events| => Cells(events[i]))
  }

  function ToCsv(events: seq<Event>): string {
    JoinRows(Table(events))
  }

  // ── The reader ────────────────────────────────────────────────────────────

  datatype Read<T> = Read(value: T, rest: string)

  const CR: char := '\r'

  /** After the opening quote: up to the closing one, a doubled quote standing for itself. */
  function ReadQuoted(s: string): (r: Option<Read<string>>)
    ensures r.Some? ==> |r.value.rest| < |s|
  {
    if s == "" then None
    else if s[0] == QUOTE then
      if |s| >= 2 && s[1] == QUOTE then
        match ReadQuoted(s[2..])
        case None => None
        case Some(Read(value, rest)) => Some(Read([QUOTE] + value, rest))
      else Some(Read("", s[1..]))
    else
      match ReadQuoted(s[1..])
      case None => None
      case Some(Read(value, rest)) => Some(Read([s[0]] + value, rest))
  }

  /**
   An unquoted cell ends before a separator and may hold no quote. The grammar allows it no CR either;
   with `lax` the reader puts up with one.
   */
  function ReadPlain(s: string, lax: bool): (r: Option<Read<string>>)
    ensures r.Some? ==> |r.value.rest| <= |s|
  {
    if s == "" || s[0] == COMMA || s[0] == LF then Some(Read("", s))
    else if s[0] == QUOTE || (s[0] == CR && !lax) then None
    else
      match ReadPlain(s[1..], lax)
      case None => None
      case Some(Read(value, rest)) => Some(Read([s[0]] + value, rest))
  }

  function ReadCell(s: string, lax: bool): (r: Option<Read<string>>)
    ensures r.Some? ==> |r.value.rest| <= |s|
  {
    if s != "" && s[0] == QUOTE then ReadQuoted(s[1..]) else ReadPlain(s, lax)
  }

  function ReadRow(s: string, lax: bool): (r: Option<Read<seq<string>>>)
    ensures r.Some? ==> |r.value.rest| <= |s|
    decreases |s|
  {
    match ReadCell(s, lax)
    case None => None
    case Some(Read(cell, rest)) =>
      if rest != "" && rest[0] == COMMA then
        match ReadRow(rest[1..], lax)
        case None => None
        case Some(Read(cells, after)) => Some(Read([cell] + cells, after))
      else if rest == "" || rest[0] == LF then Some(Read([cell], rest))
      else None
  }

  function ReadTable(s: string, lax: bool): Option<seq<seq<string>>>
    decreases |s|
  {
    match ReadRow(s, lax)
    case None => None
    case Some(Read(row, rest)) =>
      if rest == "" then Some([row])
      else
        match ReadTable(rest[1..], lax)
        case None => None
        case Some(rows) => Some([row] + rows)
  }

  // ── Cells ─────────────────────────────────────────────────────────────────

  predicate AtSeparator(rest: string) {
    rest == "" || rest[0] == COMMA || rest[0] == LF
  }

  /** The printed cell is a field of the grammar: quoted, or without a CR. */
  predicate Grammatical(s: string) {
    NeedsQuotes(s) || CR !in s
  }

  lemma {:induction false} QuotedReadsBack(s: string, rest: string)
    requires AtSeparator(rest)
    ensures ReadQuoted(Doubled(s) + [QUOTE] + rest) == Some(Read(s, rest))
  {
    var text := Doubled(s) + [QUOTE] + rest;
    if s == "" {
      assert text == [QUOTE] + rest;
      assert text[1..] == rest;
    } else {
      QuotedReadsBack(s[1..], rest);
      var tail := Doubled(s[1..]) + [QUOTE] + rest;
      if s[0] == QUOTE {
        assert text == [QUOTE, QUOTE] + tail && text[2..] == tail;
      } else {
        assert text == [s[0]] + tail && text[1..] == tail;
      }
      assert s == [s[0]] + s[1..];
    }
  }

  lemma PlainTail(s: string, rest: string)
    requires s != "" && !NeedsQuotes(s)
    ensures !Special(s[0]) && !NeedsQuotes(s[1..]) && (s + rest)[1..] == s[1..] + rest && s == [s[0]] + s[1..]
  {
    assert forall i :: 0 <= i < |s[1..]| ==> s[1..][i] == s[i + 1];
  }

  lemma {:induction false} PlainReadsBack(s: string, rest: string, lax: bool)
    requires !NeedsQuotes(s) && AtSeparator(rest)
    ensures ReadPlain(s + rest, lax) == if lax || CR !in s then Some(Read(s, rest)) else None
  {
    if s == "" {
      assert s + rest == rest;
    } else {
      PlainTail(s, rest);
      PlainReadsBack(s[1..], rest, lax);
    }
  }

  lemma QuotedCellReadsBack(s: string, rest: string, lax: bool)
    requires NeedsQuotes(s) && AtSeparator(rest)
    ensures ReadCell(Esc(s) + rest, lax) == Some(Read(s, rest))
  {
    QuotedReadsBack(s, rest);
    Reassociate(Doubled(s), rest);
    StartsQuoted(Esc(s) + rest, Doubled(s) + [QUOTE] + rest, lax);
  }

  lemma Reassociate(body: string, rest: string)
    ensures [QUOTE] + body + [QUOTE] + rest == [QUOTE] + (body + [QUOTE] + rest)
  {
  }

  lemma StartsQuoted(text: string, tail: string, lax: bool)
    requires text == [QUOTE] + tail
    ensures ReadCell(text, lax) == ReadQuoted(tail)
  {
    assert text[1..] == tail;
  }

  /** A printed cell reads back, except that a strict reader stops at a CR the printer leaves unquoted. */
  lemma CellReadsBack(s: string, rest: string, lax: bool)
    requires AtSeparator(rest)
    ensures ReadCell(Esc(s) + rest, lax) == if lax || Grammatical(s) then Some(Read(s, rest)) else None
  {
    if NeedsQuotes(s) {
      QuotedCellReadsBack(s, rest, lax);
    } else {
      PlainReadsBack(s, rest, lax);
      assert s != "" ==> !Special(s[0]);
    }
  }

  // ── Rows ──────────────────────────────────────────────────────────────────

  predicate RowGrammatical(cells: seq<string>) {
    forall i :: 0 <= i < |cells| ==> Grammatical(cells[i])
  }

  lemma ReadRowMore(text: string, cell: string, tail: string, lax: bool)
    requires ReadCell(text, lax) == Some(Read(cell, [COMMA] + tail))
    ensures ReadRow(text, lax) == match ReadRow(tail, lax)
                                  case None => None
                                  case Some(Read(cells, after)) => Some(Read([cell] + cells, after))
  {
    assert ([COMMA] + tail)[1..] == tail;
  }

  lemma RowText(cells: seq<string>, rest: string)
    requires |cells| > 1
    ensures JoinCells(cells) + rest == Esc(cells[0]) + ([COMMA] + (JoinCells(cells[1..]) + rest))
  {
    Regroup(Esc(cells[0]), COMMA, JoinCells(cells[1..]), rest);
  }

  lemma Regroup(a: string, c: char, b: string, rest: string)
    ensures a + [c] + b + rest == a + ([c] + (b + rest))
    ensures a + [c] + b == a + ([c] + b)
  {
  }

  lemma ReadRowEnds(text: string, cell: string, rest: string, lax: bool)
    requires rest == "" || rest[0] == LF
    ensures ReadCell(text, lax) == Some(Read(cell, rest)) ==> ReadRow(text, lax) == Some(Read([cell], rest))
    ensures ReadCell(text, lax).None? ==> ReadRow(text, lax).None?
  {
  }

  lemma RowGrammaticalTail(cells: seq<string>)
    requires cells != []
    ensures RowGrammatical(cells) <==> Grammatical(cells[0]) && RowGrammatical(cells[1..])
  {
    assert forall i :: 0 <= i < |cells[1..]| ==> cells[1..][i] == cells[i + 1];
    assert forall i :: 0 < i < |cells| ==> cells[i] == cells[1..][i - 1];
  }

  lemma {:induction false} RowReadsBack(cells: seq<string>, rest: string, lax: bool)
    requires cells != [] && (rest == "" || rest[0] == LF)
    ensures ReadRow(JoinCells(cells) + rest, lax) == if lax || RowGrammatical(cells) then Some(Read(cells, rest))
            else None
  {
    RowGrammaticalTail(cells);
    assert cells == [cells[0]] + cells[1..];
    if |cells| == 1 {
      assert cells == [cells[0]] && RowGrammatical(cells[1..]);
      CellReadsBack(cells[0], rest, lax);
      ReadRowEnds(JoinCells(cells) + rest, cells[0], rest, lax);
    } else {
      var tail := JoinCells(cells[1..]) + rest;
      RowReadsBack(cells[1..], rest, lax);
      RowText(cells, rest);
      CellReadsBack(cells[0], [COMMA] + tail, lax);
      if lax || Grammatical(cells[0]) {
        ReadRowMore(JoinCells(cells) + rest, cells[0], tail, lax);
      } else {
        ReadRowEnds(JoinCells(cells) + rest, cells[0], "", lax);
      }
    }
  }

  // ── Tables ────────────────────────────────────────────────────────────────

  predicate TableGrammatical(rows: seq<seq<string>>) {
    forall i :: 0 <= i < |rows| ==> RowGrammatical(rows[i])
  }

  lemma TableGrammaticalTail(rows: seq<seq<string>>)
    requires rows != []
    ensures TableGrammatical(rows) <==> RowGrammatical(rows[0]) && TableGrammatical(rows[1..])
  {
    assert forall i :: 0 <= i < |rows[1..]| ==> rows[1..][i] == rows[i + 1];
    assert forall i :: 0 < i < |rows| ==> rows[i] == rows[1..][i - 1];
  }

  lemma ReadTableMore(text: string, row: seq<string>, tail: string, lax: bool)
    requires ReadRow(text, lax) == Some(Read(row, [LF] + tail))
    ensures ReadTable(text, lax) == match ReadTable(tail, lax)
                                    case None => None
                                    case Some(rows) => Some([row] + rows)
  {
    assert ([LF] + tail)[1..] == tail;
  }

  lemma ReadTableEnds(text: string, row: seq<string>, lax: bool)
    ensures ReadRow(text, lax) == Some(Read(row, "")) ==> ReadTable(text, lax) == Some([row])
    ensures ReadRow(text, lax).None? ==> ReadTable(text, lax).None?
  {
  }

  /**
   Reading what was printed gives the cells back, whatever commas, quotes and line feeds they hold. A
   reader that keeps to the grammar gets them exactly when no cell holds a CR without any of those.
   */
  lemma {:induction false} TableReadsBack(rows: seq<seq<string>>, lax: bool)
    requires rows != [] && forall i :: 0 <= i < |rows| ==> rows[i] != []
    ensures ReadTable(JoinRows(rows), lax) == if lax || TableGrammatical(rows) then Some(rows) else None
  {
    TableGrammaticalTail(rows);
    assert rows == [rows[0]] + rows[1..];
    if |rows| == 1 {
      assert rows == [rows[0]] && TableGrammatical(rows[1..]);
      RowReadsBack(rows[0], "", lax);
      assert JoinCells(rows[0]) + "" == JoinRows(rows);
      ReadTableEnds(JoinRows(rows), rows[0], lax);
    } else {
      var tail := JoinRows(rows[1..]);
      TableReadsBack(rows[1..], lax);
      RowReadsBack(rows[0], [LF] + tail, lax);
      Regroup(JoinCells(rows[0]), LF, tail, "");
      if lax || RowGrammatical(rows[0]) {
        ReadTableMore(JoinRows(rows), rows[0], tail, lax);
      } else {
        ReadTableEnds(JoinRows(rows), rows[0], lax);
      }
    }
  }

  /**
   The export reads back as the header and, event by event, the original cells; for a reader that allows
   no bare CR, if and only if no cell holds one unquoted.
   */
  lemma ExportReadsBack(events: seq<Event>, lax: bool)
    ensures ReadTable(ToCsv(events), lax) == if lax || TableGrammatical(Table(events)) then Some(Table(events))
            else None
  {
    TableReadsBack(Table(events), lax);
  }

  /** So two exports are equal exactly when their cells are. */
  lemma ExportInjective(a: seq<Event>, b: seq<Event>)
    ensures ToCsv(a) == ToCsv(b) <==> |a| == |b| && forall i :: 0 <= i < |a| ==> Cells(a[i]) == Cells(b[i])
  {
    ExportReadsBack(a, true);
    ExportReadsBack(b, true);
    TablesEqual(a, b);
  }

  lemma TablesEqual(a: seq<Event>, b: seq<Event>)
    ensures Table(a) == Table(b) <==> |a| == |b| && forall i :: 0 <= i < |a| ==> Cells(a[i]) == Cells(b[i])
  {
    var ra, rb := CellRows(a), CellRows(b);
    assert Table(a)[1..] == ra && Table(b)[1..] == rb;
    assert ra == rb <==> |a| == |b| && forall i :: 0 <= i < |a| ==> ra[i] == rb[i];
  }
}
