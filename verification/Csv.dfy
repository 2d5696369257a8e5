/** apps/web/src/lib/payments-csv.ts: the CSV export, against a reference parser for the grammar
    in section 2 of RFC 4180 (with TEXTDATA widened from ASCII to any other character). */
module Csv {
  import opened Wrappers
  import opened Text
  import Money

  const CRLF := "\r\n"

  const HEADERS := [
    "Transaction Hash", "Timestamp", "Amount", "Asset", "Asset Identifier", "Payer", "Route", "Method", "Ledger",
    "Refunded"]

  datatype CsvPayment = CsvPayment(
    txHash: string, ledger: Option<int>, payer: string, amount: string, asset: Option<string>, ts: string,
    route: Option<string>, httpMethod: Option<string>, refunded: bool)

  /* ----- writing ----- */

  predicate IsFormula(value: string) {
    value != [] && value[0] in ['=', '+', '-', '@', '\t', '\r']
  }

  function NeutralizeFormula(value: string): string {
    if IsFormula(value) then "'" + value else value
  }

  predicate IsSpecial(c: char) {
    c == '"' || c == ',' || c == '\r' || c == '\n'
  }

  predicate NeedsQuotes(value: string) {
    (exists i :: 0 <= i < |value| && IsSpecial(value[i])) || value != Trim(value)
  }

  /** `value.replace(/"/g, '""')`. */
  function DoubleQuotes(value: string): string {
    if value == [] then [] else (if value[0] == '"' then "\"\"" else [value[0]]) + DoubleQuotes(value[1..])
  }

  function EscapeCsvField(value: string): string {
    if NeedsQuotes(value) then "\"" + DoubleQuotes(value) + "\"" else value
  }

  function Join(parts: seq<string>, separator: string): string {
    if parts == [] then [] else if |parts| == 1 then parts[0] else parts[0] + separator + Join(parts[1..], separator)
  }

  function EscapeAll(cells: seq<string>): seq<string> {
    seq(|cells|, i requires 0 <= i < |cells| => EscapeCsvField(cells[i]))
  }

  function ToCsvRow(cells: seq<string>): string {
    Join(EscapeAll(cells), ",")
  }

  /** `asset.split(':')[0]`. */
  function BeforeColon(s: string): string {
    if s == [] || s[0] == ':' then [] else [s[0]] + BeforeColon(s[1..])
  }

  function AssetLabel(asset: Option<string>): string {
    if asset.None? || asset.value == "" || asset.value == "native" then "XLM" else BeforeColon(asset.value)
  }

  function IntegerText(n: int): string {
    if n < 0 then "-" + Money.Digits(-n) else Money.Digits(n)
  }

  function OrElse(value: Option<string>, default: string): string {
    match value case Some(v) => v case None => default
  }

  function Cells(p: CsvPayment): seq<string> {
    [NeutralizeFormula(p.txHash), p.ts, p.amount, AssetLabel(p.asset), NeutralizeFormula(OrElse(p.asset, "native")),
     NeutralizeFormula(p.payer), NeutralizeFormula(OrElse(p.route, "")), NeutralizeFormula(OrElse(p.httpMethod, "")),
     match p.ledger case None => "" case Some(l) => IntegerText(l),
     if p.refunded then "Yes" else ""]
  }

  function AllCells(payments: seq<CsvPayment>): seq<seq<string>> {
    [HEADERS] + seq(|payments|, i requires 0 <= i < |payments| => Cells(payments[i]))
  }

  function RowTexts(rows: seq<seq<string>>): seq<string> {
    seq(|rows|, i requires 0 <= i < |rows| => ToCsvRow(rows[i]))
  }

  function PaymentsToCsv(payments: seq<CsvPayment>): string {
    Join(RowTexts(AllCells(payments)), CRLF) + CRLF
  }

  /* ----- reading: the grammar of RFC 4180, section 2 ----- */

  /** The rest of an escaped field, after its opening quote: its value and what follows it. */
  function ParseQuoted(s: string): (r: Option<(string, string)>)
    ensures r.Some? ==> |r.value.1| < |s|
  {
    if s == [] then None
    else if s[0] != '"' then
      match ParseQuoted(s[1..])
      case None => None
      case Some((value, rest)) => Some(([s[0]] + value, rest))
    else if |s| > 1 && s[1] == '"' then
      match ParseQuoted(s[2..])
      case None => None
      case Some((value, rest)) => Some(("\"" + value, rest))
    else Some(([], s[1..]))
  }

  function ParsePlain(s: string): (r: (string, string))
    ensures |r.1| <= |s|
  {
    if s == [] || IsSpecial(s[0]) then ([], s)
    else
      var (value, rest) := ParsePlain(s[1..]);
      ([s[0]] + value, rest)
  }

  function ParseField(s: string): (r: Option<(string, string)>)
    ensures r.Some? ==> |r.value.1| <= |s|
  {
    if s != [] && s[0] == '"' then ParseQuoted(s[1..]) else Some(ParsePlain(s))
  }

  function ParseRecord(s: string): (r: Option<(seq<string>, string)>)
    ensures r.Some? ==> |r.value.1| <= |s|
    decreases |s|
  {
    match ParseField(s)
    case None => None
    case Some((field, rest)) =>
      if rest != [] && rest[0] == ',' then
        match ParseRecord(rest[1..])
        case None => None
        case Some((fields, end)) => Some(([field] + fields, end))
      else Some(([field], rest))
  }

  function ParseFile(s: string): Option<seq<seq<string>>>
    decreases |s|
  {
    match ParseRecord(s)
    case None => None
    case Some((fields, rest)) =>
      if rest == [] || rest == CRLF then Some([fields])
      else if CRLF <= rest then
        match ParseFile(rest[2..])
        case None => None
        case Some(records) => Some([fields] + records)
      else None
  }

  /* ----- round trip ----- */

  lemma {:induction false} QuotedRoundTrip(value: string, rest: string)
    requires rest == [] || rest[0] != '"'
    ensures ParseQuoted(DoubleQuotes(value) + "\"" + rest) == Some((value, rest))
  {
    var text := DoubleQuotes(value) + "\"" + rest;
    if value == [] {
      assert text == "\"" + rest;
      assert text[1..] == rest;
    } else {
      QuotedRoundTrip(value[1..], rest);
      var tail := DoubleQuotes(value[1..]) + "\"" + rest;
      if value[0] == '"' {
        assert text == "\"\"" + tail;
        assert text[2..] == tail;
      } else {
        assert text == [value[0]] + tail;
        assert text[1..] == tail;
      }
      assert value == [value[0]] + value[1..];
    }
  }

  lemma {:induction false} PlainRoundTrip(value: string, rest: string)
    requires forall i :: 0 <= i < |value| ==> !IsSpecial(value[i])
    requires rest == [] || IsSpecial(rest[0])
    ensures ParsePlain(value + rest) == (value, rest)
  {
    if value == [] {
      assert value + rest == rest;
    } else {
      assert (value + rest)[0] == value[0] && (value + rest)[1..] == value[1..] + rest;
      PlainRoundTrip(value[1..], rest);
      assert value == [value[0]] + value[1..];
    }
  }

  predicate EndsField(rest: string) {
    rest == [] || rest[0] == ',' || rest[0] == '\r'
  }

  /** Any contents survive quoting, whatever delimiter follows. */
  lemma FieldRoundTrip(value: string, rest: string)
    requires EndsField(rest)
    ensures ParseField(EscapeCsvField(value) + rest) == Some((value, rest))
  {
    hide Trim, ParsePlain, ParseQuoted, DoubleQuotes;
    var text := EscapeCsvField(value) + rest;
    if NeedsQuotes(value) {
      QuotedRoundTrip(value, rest);
      assert text[1..] == DoubleQuotes(value) + "\"" + rest;
    } else {
      PlainRoundTrip(value, rest);
      if value != [] { assert !IsSpecial(value[0]); }
    }
  }

  lemma {:induction false} RecordRoundTrip(cells: seq<string>, rest: string)
    requires cells != [] && (rest == [] || rest[0] == '\r')
    ensures ParseRecord(ToCsvRow(cells) + rest) == Some((cells, rest))
    decreases |cells|
  {
    hide EscapeCsvField, ParseField;
    var first := EscapeCsvField(cells[0]);
    if |cells| == 1 {
      assert ToCsvRow(cells) == first && cells == [cells[0]];
      FieldRoundTrip(cells[0], rest);
    } else {
      assert EscapeAll(cells)[1..] == EscapeAll(cells[1..]);
      var tail := ToCsvRow(cells[1..]) + rest;
      assert ToCsvRow(cells) + rest == first + ("," + tail);
      FieldRoundTrip(cells[0], "," + tail);
      assert ("," + tail)[1..] == tail;
      RecordRoundTrip(cells[1..], rest);
      assert cells == [cells[0]] + cells[1..];
    }
  }

  lemma {:induction false} FileRoundTrip(rows: seq<seq<string>>)
    requires rows != [] && forall i :: 0 <= i < |rows| ==> rows[i] != []
    ensures ParseFile(Join(RowTexts(rows), CRLF) + CRLF) == Some(rows)
    decreases |rows|
  {
    hide ToCsvRow, ParseRecord;
    var row := ToCsvRow(rows[0]);
    var text := Join(RowTexts(rows), CRLF) + CRLF;
    if |rows| == 1 {
      assert text == row + CRLF && rows == [rows[0]];
      RecordRoundTrip(rows[0], CRLF);
    } else {
      assert RowTexts(rows)[1..] == RowTexts(rows[1..]);
      var tail := Join(RowTexts(rows[1..]), CRLF) + CRLF;
      assert text == row + (CRLF + tail);
      RecordRoundTrip(rows[0], CRLF + tail);
      assert (CRLF + tail)[2..] == tail && CRLF <= CRLF + tail;
      FileRoundTrip(rows[1..]);
      assert rows == [rows[0]] + rows[1..];
    }
  }

  /** The export reads back as one header record and one record per payment, cell for cell, ten
      cells each, whatever the fields contain. */
  lemma ExportRoundTrip(payments: seq<CsvPayment>)
    ensures ParseFile(PaymentsToCsv(payments)) == Some(AllCells(payments))
    ensures |AllCells(payments)| == 1 + |payments|
    ensures forall i :: 0 <= i < |AllCells(payments)| ==> |AllCells(payments)[i]| == 10
  {
    hide Join, RowTexts, ToCsvRow, ParseFile, AssetLabel, NeutralizeFormula, IntegerText, OrElse;
    FileRoundTrip(AllCells(payments));
  }

  /** Equal exports have equal cells, so no contents of one cell can pass for another's. */
  lemma ExportIsInjective(a: seq<CsvPayment>, b: seq<CsvPayment>)
    requires PaymentsToCsv(a) == PaymentsToCsv(b)
    ensures AllCells(a) == AllCells(b)
  {
    hide PaymentsToCsv, ParseFile, AllCells;
    ExportRoundTrip(a);
    ExportRoundTrip(b);
  }

  lemma IntegerTextInjective(a: int, b: int)
    requires IntegerText(a) == IntegerText(b)
    ensures a == b
  {
    hide Money.Digits, Money.ParseNat;
    var x, y := Money.Digits(if a < 0 then -a else a), Money.Digits(if b < 0 then -b else b);
    assert IsDigit(x[0]) && IsDigit(y[0]);
    assert a < 0 ==> IntegerText(a)[1..] == x;
    assert b < 0 ==> IntegerText(b)[1..] == y;
  }

  /** What the export tells of each payment, column by column: time, amount, ledger and the refund flag
      exactly, the free texts up to neutralising, and an absent text as an empty one. */
  lemma ExportDetermines(a: seq<CsvPayment>, b: seq<CsvPayment>, i: nat)
    requires PaymentsToCsv(a) == PaymentsToCsv(b) && i < |a|
    ensures |a| == |b|
    ensures a[i].ts == b[i].ts && a[i].amount == b[i].amount && a[i].ledger == b[i].ledger &&
            a[i].refunded == b[i].refunded
    ensures NeutralizeFormula(a[i].txHash) == NeutralizeFormula(b[i].txHash)
    ensures NeutralizeFormula(a[i].payer) == NeutralizeFormula(b[i].payer)
    ensures NeutralizeFormula(OrElse(a[i].asset, "native")) == NeutralizeFormula(OrElse(b[i].asset, "native"))
    ensures NeutralizeFormula(OrElse(a[i].route, "")) == NeutralizeFormula(OrElse(b[i].route, ""))
    ensures NeutralizeFormula(OrElse(a[i].httpMethod, "")) == NeutralizeFormula(OrElse(b[i].httpMethod, ""))
  {
    hide PaymentsToCsv, ParseFile, NeutralizeFormula, AssetLabel, IntegerText;
    ExportIsInjective(a, b);
    assert AllCells(a)[i + 1] == Cells(a[i]) && |AllCells(a)| == |AllCells(b)|;
    assert AllCells(b)[i + 1] == Cells(b[i]);
    CellsDetermine(a[i], b[i]);
  }

  lemma CellsDetermine(p: CsvPayment, q: CsvPayment)
    requires Cells(p) == Cells(q)
    ensures p.ledger == q.ledger && p.refunded == q.refunded
    ensures forall k :: 0 <= k < 10 ==> Cells(p)[k] == Cells(q)[k]
  {
    hide NeutralizeFormula, AssetLabel, OrElse;
    assert Cells(p)[8] == Cells(q)[8] && Cells(p)[9] == Cells(q)[9];
    LedgerCell(p);
    LedgerCell(q);
    if p.ledger.Some? && q.ledger.Some? { IntegerTextInjective(p.ledger.value, q.ledger.value); }
  }

  lemma LedgerCell(p: CsvPayment)
    ensures p.ledger.Some? <==> Cells(p)[8] != ""
    ensures p.ledger.Some? ==> Cells(p)[8] == IntegerText(p.ledger.value)
    ensures p.refunded <==> Cells(p)[9] == "Yes"
  {
  }

  /** The cell under a header. */
  function CellUnder(p: CsvPayment, header: string): string
    requires header in HEADERS
  {
    var i :| 0 <= i < |HEADERS| && HEADERS[i] == header;
    Cells(p)[i]
  }

  lemma HeadersAre(i: nat, j: nat)
    requires i < 10 && j < 10 && HEADERS[i] == HEADERS[j]
    ensures i == j
  {
  }

  /** What stands under which header: the free texts as they are unless they start as a formula, the time and the
      amount as they are, the count of the ledger. */
  lemma ColumnsAre(p: CsvPayment)
    requires !IsFormula(p.txHash) && !IsFormula(p.payer)
    requires forall text :: p.route == Some(text) || p.httpMethod == Some(text) || p.asset == Some(text) ==>
             !IsFormula(text)
    ensures CellUnder(p, "Transaction Hash") == p.txHash && CellUnder(p, "Timestamp") == p.ts
    ensures CellUnder(p, "Amount") == p.amount && CellUnder(p, "Payer") == p.payer
    ensures Some(CellUnder(p, "Asset Identifier")) == if p.asset == None then Some("native") else p.asset
    ensures Some(CellUnder(p, "Route")) == if p.route == None then Some("") else p.route
    ensures Some(CellUnder(p, "Method")) == if p.httpMethod == None then Some("") else p.httpMethod
    ensures if p.ledger.Some? then Money.ParseCount(CellUnder(p, "Ledger")) == p.ledger
            else CellUnder(p, "Ledger") == ""
    ensures CellUnder(p, "Refunded") == if p.refunded then "Yes" else ""
  {
    ColumnPlaces(p);
    if p.ledger.Some? { IntegerTextReads(p.ledger.value); }
    hide CellUnder, Money.ParseCount, IntegerText, AssetLabel;
  }

  lemma ColumnPlaces(p: CsvPayment)
    ensures CellUnder(p, "Transaction Hash") == Cells(p)[0] && CellUnder(p, "Timestamp") == Cells(p)[1]
    ensures CellUnder(p, "Amount") == Cells(p)[2] && CellUnder(p, "Asset") == Cells(p)[3]
    ensures CellUnder(p, "Asset Identifier") == Cells(p)[4] && CellUnder(p, "Payer") == Cells(p)[5]
    ensures CellUnder(p, "Route") == Cells(p)[6] && CellUnder(p, "Method") == Cells(p)[7]
    ensures CellUnder(p, "Ledger") == Cells(p)[8] && CellUnder(p, "Refunded") == Cells(p)[9]
  {
    hide Cells;
    forall i, j | 0 <= i < 10 && 0 <= j < 10 && HEADERS[i] == HEADERS[j] ensures i == j { HeadersAre(i, j); }
  }

  /** An integer's text is the count it is read as. */
  lemma IntegerTextReads(n: int)
    ensures Money.ParseCount(IntegerText(n)) == Some(n)
  {
    var digits := Money.Digits(Money.Abs(n));
    hide Money.ParseCount, Money.Digits, Money.ParseNat;
    TrimNoop(IntegerText(n));
    assert Money.IsCount(IntegerText(n), digits, n);
    Money.CountsExactly(IntegerText(n), n);
  }

  /** The label of an asset: its code, and XLM for the native one. */
  lemma LabelIs(code: string, issuer: string)
    requires ':' !in code
    ensures AssetLabel(None) == AssetLabel(Some("")) == AssetLabel(Some("native")) == "XLM"
    ensures AssetLabel(Some(code + ":" + issuer)) == code
    ensures code != "" && code != "native" ==> AssetLabel(Some(code)) == code
  {
    CodeBeforeColon(code, ":" + issuer);
    CodeBeforeColon(code, "");
    assert code + ":" + issuer == code + (":" + issuer) && code + "" == code;
    assert (code + (":" + issuer))[|code|] == ':';
  }

  lemma {:induction false} CodeBeforeColon(code: string, rest: string)
    requires ':' !in code && (rest == [] || rest[0] == ':')
    ensures BeforeColon(code + rest) == code
  {
    if code != [] {
      assert (code + rest)[1..] == code[1..] + rest;
      CodeBeforeColon(code[1..], rest);
    } else {
      assert code + rest == rest;
    }
  }

  /** Which texts are neutralised, and how: an apostrophe before one that starts with one of six characters. */
  lemma NeutralizedExactly(c: char, rest: string)
    ensures NeutralizeFormula("") == ""
    ensures NeutralizeFormula([c] + rest) == if c in "=+-@\t\r" then ['\'', c] + rest else [c] + rest
  {
  }

  /** Which fields are quoted: those with a delimiter, a quote or a line break in them or a space at either end.
      Every other is written as it is. */
  lemma QuotedExactly(value: string)
    ensures EscapeCsvField(value) == value <==>
            && (forall c :: c in value ==> c !in ",\"\r\n")
            && (value != "" ==> !IsSpace(value[0]) && !IsSpace(value[|value| - 1]))
  {
    var before, after := TrimSplits(value);
    forall c ensures IsSpecial(c) <==> c in ",\"\r\n" { SpecialsAre(c); }
    hide Trim, IsSpace, IsSpecial;
    if value != "" && !IsSpace(value[0]) && !IsSpace(value[|value| - 1]) { TrimNoop(value); }
    assert (exists i :: 0 <= i < |value| && IsSpecial(value[i])) <==> exists c :: c in value && IsSpecial(c) by {
      if c :| c in value && IsSpecial(c) { var i :| 0 <= i < |value| && value[i] == c; }
    }
    if value == "" { assert Trim(value) == value by { TrimNoop(value); } }
    QuotingLengthens(value);
  }

  lemma SpecialsAre(c: char)
    ensures IsSpecial(c) <==> c in ",\"\r\n"
  {
  }

  lemma {:induction false} QuotingLengthens(value: string)
    ensures |DoubleQuotes(value)| >= |value|
  {
    if value != [] { QuotingLengthens(value[1..]); }
  }

  /** Which cells a spreadsheet would evaluate, column by column. The identifier, payer, route, method and
      hash cells never are. The label of the asset is written as it is, so it is one exactly when the
      asset text starts like one; the time and the amount are verbatim; a ledger is one when negative. */
  lemma FormulaCellsExactly(p: CsvPayment, i: nat)
    requires i < 10
    ensures IsFormula(Cells(p)[i]) <==>
            ((i == 1 && IsFormula(p.ts)) || (i == 2 && IsFormula(p.amount)) ||
             (i == 3 && p.asset.Some? && IsFormula(p.asset.value)) ||
             (i == 8 && p.ledger.Some? && p.ledger.value < 0))
  {
  }

  /** For instance the label of this asset, whose identifier in the next column is neutralised. */
  lemma LabelCanBeAFormula(p: CsvPayment)
    requires p.asset == Some("=1+1:GA")
    ensures IsFormula(Cells(p)[3]) && !IsFormula(Cells(p)[4])
  {
  }

  /** What neutralising loses: it identifies a text with its own neutralised form, and nothing else. */
  lemma NeutralizeIdentifies(a: string, b: string)
    ensures NeutralizeFormula(a) == NeutralizeFormula(b) <==>
            a == b || a == NeutralizeFormula(b) || b == NeutralizeFormula(a)
  {
    if IsFormula(a) && IsFormula(b) && NeutralizeFormula(a) == NeutralizeFormula(b) {
      assert NeutralizeFormula(a)[1..] == a && NeutralizeFormula(b)[1..] == b;
    }
  }
}
