/**
 * CSV text: the quoting and formula neutralisation the exporter applies to one cell, the lines it
 * builds, and a parser written from the grammar in section 2 of RFC 4180. The exporter ends records
 * with LF instead of CRLF, so the parser does too; TEXTDATA is widened to every character but comma,
 * double quote, CR and LF.
 */
module Csv {
  import opened Wrappers
  import opened Text

  // ---- writer ----

  predicate NeedsQuotes(value: string) {
    '"' in value || ',' in value || '\n' in value || '\r' in value
  }

  function DoubleQuotes(value: string): string {
    if value == "" then ""
    else (if value[0] == '"' then "\"\"" else [value[0]]) + DoubleQuotes(value[1..])
  }

  function QuoteCsv(value: string): string {
    if NeedsQuotes(value) then "\"" + DoubleQuotes(value) + "\"" else value
  }

  predicate IsFormula(value: string) {
    |value| > 0 && value[0] in {'=', '+', '-', '@', '\t', '\r'}
  }

  function Neutralise(value: string): string {
    if IsFormula(value) then "'" + value else value
  }

  function CsvText(value: string): string {
    if |value| == 0 then "" else QuoteCsv(Neutralise(value))
  }

  /** One line from cells that are already quoted; the file is its lines, LF after each. */
  function Lines(rows: seq<seq<string>>): string {
    if rows == [] then "" else Join(Quoted(rows[0]), ',') + "\n" + Lines(rows[1..])
  }

  function Quoted(fields: seq<string>): seq<string> {
    seq(|fields|, i requires 0 <= i < |fields| => QuoteCsv(fields[i]))
  }

  // ---- the RFC 4180 parser ----

  predicate TextData(c: char) { c != ',' && c != '"' && c != '\r' && c != '\n' }

  /** escaped = DQUOTE *(TEXTDATA / COMMA / CR / LF / 2DQUOTE) DQUOTE, after the opening quote. */
  function Escaped(s: string): (r: Option<(string, string)>)
    ensures r.Some? ==> |r.value.1| < |s|
  {
    if s == "" then None
    else if s[0] != '"' then
      match Escaped(s[1..]) case None => None case Some((field, rest)) => Some(([s[0]] + field, rest))
    else if |s| > 1 && s[1] == '"' then
      match Escaped(s[2..]) case None => None case Some((field, rest)) => Some(("\"" + field, rest))
    else Some(("", s[1..]))
  }

  /** non-escaped = *TEXTDATA */
  function Bare(s: string): (r: (string, string))
    ensures |r.1| <= |s|
  {
    if s == "" || !TextData(s[0]) then ("", s)
    else var (field, rest) := Bare(s[1..]); ([s[0]] + field, rest)
  }

  /** field = (escaped / non-escaped) */
  function Field(s: string): (r: Option<(string, string)>)
    ensures r.Some? ==> |r.value.1| <= |s|
  {
    if |s| > 0 && s[0] == '"' then Escaped(s[1..]) else Some(Bare(s))
  }

  /** record = field *(COMMA field), up to and including its LF or the end of the input. */
  function Record(s: string): (r: Option<(seq<string>, string)>)
    ensures r.Some? ==> |r.value.1| <= |s| && (|s| > 0 ==> |r.value.1| < |s|)
    decreases |s|
  {
    match Field(s)
    case None => None
    case Some((field, rest)) =>
      if rest == "" then Some(([field], ""))
      else if rest[0] == '\n' then Some(([field], rest[1..]))
      else if rest[0] == ',' then
        match Record(rest[1..]) case None => None case Some((fields, after)) => Some(([field] + fields, after))
      else None
  }

  function ParseFile(s: string): Option<seq<seq<string>>>
    decreases |s|
  {
    if s == "" then Some([])
    else
      match Record(s)
      case None => None
      case Some((fields, rest)) =>
        match ParseFile(rest) case None => None case Some(rows) => Some([fields] + rows)
  }

  // ---- round trip ----

  predicate EndsField(rest: string) { rest == "" || rest[0] == ',' || rest[0] == '\n' }

  lemma {:induction false} EscapedUndoesDoubling(value: string, rest: string)
    requires EndsField(rest)
    ensures Escaped(DoubleQuotes(value) + "\"" + rest) == Some((value, rest))
  {
    var tail := "\"" + rest;
    assert DoubleQuotes(value) + "\"" + rest == DoubleQuotes(value) + tail;
    if value == "" {
      assert DoubleQuotes(value) + tail == tail && tail[1..] == rest;
    } else {
      EscapedUndoesDoubling(value[1..], rest);
      var inner := DoubleQuotes(value[1..]) + "\"" + rest;
      assert value == [value[0]] + value[1..];
      if value[0] == '"' {
        assert DoubleQuotes(value) + tail == "\"\"" + inner;
        assert ("\"\"" + inner)[2..] == inner;
      } else {
        assert DoubleQuotes(value) + tail == [value[0]] + inner;
        assert ([value[0]] + inner)[1..] == inner;
      }
    }
  }

  lemma {:induction false} BareReadsText(value: string, rest: string)
    requires !NeedsQuotes(value) && EndsField(rest)
    ensures Bare(value + rest) == (value, rest)
  {
    if value == "" {
      assert value + rest == rest;
    } else {
      assert (value + rest)[1..] == value[1..] + rest;
      assert value[0] in value && value == [value[0]] + value[1..];
      BareReadsText(value[1..], rest);
    }
  }

  lemma StartsBare(value: string, rest: string)
    requires !NeedsQuotes(value) && EndsField(rest)
    ensures value + rest == "" || (value + rest)[0] != '"'
  {
    if value != "" { assert value[0] in value; }
  }

  lemma FieldUndoesQuoting(value: string, rest: string)
    requires EndsField(rest)
    ensures Field(QuoteCsv(value) + rest) == Some((value, rest))
  {
    hide Escaped, DoubleQuotes, Bare, EndsField;
    if NeedsQuotes(value) {
      var body := DoubleQuotes(value) + "\"" + rest;
      EscapedUndoesDoubling(value, rest);
      assert QuoteCsv(value) + rest == ['"'] + body by { assert "\"" == ['"']; }
      assert (['"'] + body)[1..] == body;
    } else {
      BareReadsText(value, rest);
      StartsBare(value, rest);
    }
  }

  lemma {:induction false} RecordUndoesLine(fields: seq<string>, rest: string)
    requires |fields| > 0
    ensures Record(Join(Quoted(fields), ',') + "\n" + rest) == Some((fields, rest))
  {
    var cells := Quoted(fields);
    var line := Join(cells, ',') + "\n" + rest;
    if |fields| == 1 {
      FieldUndoesQuoting(fields[0], "\n" + rest);
      assert line == QuoteCsv(fields[0]) + ("\n" + rest);
      assert ("\n" + rest)[1..] == rest;
      assert fields == [fields[0]];
    } else {
      assert cells[1..] == Quoted(fields[1..]);
      var inner := Join(cells[1..], ',') + "\n" + rest;
      assert line == QuoteCsv(fields[0]) + ("," + inner);
      FieldUndoesQuoting(fields[0], "," + inner);
      assert ("," + inner)[1..] == inner;
      RecordUndoesLine(fields[1..], rest);
      assert fields == [fields[0]] + fields[1..];
    }
  }

  /** Parsing what the writer wrote gives back every record with exactly its fields. */
  lemma {:induction false} ParseUndoesLines(rows: seq<seq<string>>)
    requires forall row | row in rows :: |row| > 0
    ensures ParseFile(Lines(rows)) == Some(rows)
  {
    if rows != [] {
      RecordUndoesLine(rows[0], Lines(rows[1..]));
      ParseUndoesLines(rows[1..]);
      assert rows == [rows[0]] + rows[1..];
    }
  }

  // ---- formula neutralisation ----

  /** What a spreadsheet reads back from a text cell: never a formula, and exact just for non-formulas. */
  lemma TextCellIsSafe(value: string, rest: string)
    requires EndsField(rest)
    ensures Field(CsvText(value) + rest) == Some((Neutralise(value), rest))
    ensures !IsFormula(Neutralise(value))
    ensures Neutralise(value) == value <==> !IsFormula(value)
  {
    FieldUndoesQuoting(Neutralise(value), rest);
    assert value == "" ==> CsvText(value) == QuoteCsv(Neutralise(value));
  }

  /** Two cells export alike exactly when one is the other with an apostrophe put before a formula. */
  lemma CellsCollide(a: string, b: string)
    ensures (a != b && CsvText(a) == CsvText(b)) <==> (IsFormula(a) && b == "'" + a) || (IsFormula(b) && a == "'" + b)
  {
    TextCellIsSafe(a, "");
    TextCellIsSafe(b, "");
    if IsFormula(a) && IsFormula(b) && Neutralise(a) == Neutralise(b) {
      assert a == ("'" + a)[1..] == ("'" + b)[1..] == b;
    }
    if IsFormula(a) { assert ("'" + a)[1..] == a; }
    if IsFormula(b) { assert ("'" + b)[1..] == b; }
  }
}
