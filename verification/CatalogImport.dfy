/**
 Catalog import: rows are parsed first, the bad ones reported by sheet row, then every valid row is upserted
 under its tenant and code. Prices in euros are converted to cents digit by digit.
 */
module CatalogImport {
  import opened Decimals
  import opened Text
  import opened Wrappers

  const MAX_SAFE_INTEGER := 9007199254740991

  /** A cell of a sheet; a column the sheet does not have is Missing, and a number is held as it prints. */
  datatype Cell = Missing | Null | Words(text: string) | Figure(text: string) | Flag(b: bool)

  datatype RawRow = RawRow(
    skuCode: Cell, name: Cell, description: Cell, attributes: Cell, basePriceMinor: Cell, basePriceEur: Cell,
    costMinor: Cell, costEur: Cell, currency: Cell, leadTimeDays: Cell, active: Cell)

  /** The currency is left out: it is always the euro. */
  datatype ParsedSku = ParsedSku(
    code: string, name: string, description: Option<string>, attributes: Option<string>, basePriceMinor: nat,
    costMinor: Option<nat>, leadTimeDays: Option<nat>, active: bool)

  datatype Problem = Required | NotAWholeNumber | NotAnAmount | TooLarge | NotAnObject | NotEuro | NotABoolean

  // ---------- Cells ----------

  predicate IsEmpty(c: Cell) {
    c.Missing? || c.Null? || c == Words("")
  }

  /** String(value ?? ''). */
  function TextOf(c: Cell): string {
    match c
    case Missing => ""
    case Null => ""
    case Words(text) => text
    case Figure(text) => text
    case Flag(b) => if b then "true" else "false"
  }

  function OptionalText(c: Cell): Option<string> {
    var text := Trim(TextOf(c));
    if text == "" then None else Some(text)
  }

  function RequiredText(c: Cell): Result<string, Problem> {
    match OptionalText(c)
    case None => Err(Required)
    case Some(text) => Ok(text)
  }

  function Safe(n: nat): Result<nat, Problem> {
    if n <= MAX_SAFE_INTEGER then Ok(n) else Err(TooLarge)
  }

  function NonNegativeInteger(c: Cell): Result<nat, Problem> {
    var text := Trim(TextOf(c));
    if !IsNumeral(text) then Err(NotAWholeNumber) else Safe(NumeralValue(text))
  }

  /** One decimal counts tens of cents: padEnd(2, '0'). */
  function Cents(decimals: string): nat
    requires IsNumeral(decimals) && |decimals| <= 2
  {
    NumeralValue(if |decimals| == 1 then decimals + "0" else decimals)
  }

  function EurosToMinor(c: Cell): Result<nat, Problem> {
    AmountOf(CommaToDot(Trim(TextOf(c))))
  }

  /** Digits, then optionally a dot and one or two more. */
  function AmountOf(text: string): Result<nat, Problem> {
    var dot := DotIndex(text);
    AmountFrom(text[..dot], if dot == |text| then None else Some(text[dot + 1..]))
  }

  function AmountFrom(euros: string, decimals: Option<string>): Result<nat, Problem> {
    if !IsNumeral(euros) then Err(NotAnAmount)
    else if decimals.None? then Safe(NumeralValue(euros) * 100)
    else if !IsNumeral(decimals.value) || |decimals.value| > 2 then Err(NotAnAmount)
    else Safe(NumeralValue(euros) * 100 + Cents(decimals.value))
  }

  function BooleanValue(c: Cell): Result<bool, Problem> {
    if IsEmpty(c) then Ok(true)
    else if c.Flag? then Ok(c.b)
    else
      var word := ToLower(Trim(TextOf(c)));
      if word in ["true", "1", "sim", "yes"] then Ok(true)
      else if word in ["false", "0", "n\U{E3}o", "nao", "no"] then Ok(false)
      else Err(NotABoolean)
  }

  function OrElse(c: Cell, d: Cell): Cell {
    if c.Missing? || c.Null? then d else c
  }

  function BasePrice(row: RawRow): Result<nat, Problem> {
    var price := OrElse(row.basePriceMinor, row.basePriceEur);
    if !row.basePriceMinor.Missing? then NonNegativeInteger(price) else EurosToMinor(price)
  }

  function Cost(row: RawRow): Result<Option<nat>, Problem> {
    if !IsEmpty(row.costMinor) then
      var n :- NonNegativeInteger(row.costMinor);
      Ok(Some(n))
    else if !IsEmpty(row.costEur) then
      var n :- EurosToMinor(row.costEur);
      Ok(Some(n))
    else Ok(None)
  }

  /** json answers None for a text that is not a JSON object. */
  function Attributes(c: Cell, json: string -> Option<string>): Result<Option<string>, Problem> {
    if IsEmpty(c) then Ok(None)
    else if json(TextOf(c)).None? then Err(NotAnObject) else Ok(json(TextOf(c)))
  }

  function LeadTime(c: Cell): Result<Option<nat>, Problem> {
    if IsEmpty(c) then Ok(None)
    else
      var n :- NonNegativeInteger(c);
      Ok(Some(n))
  }

  function Currency(c: Cell): Result<string, Problem> {
    var currency := ToUpper(if OptionalText(c).Some? then OptionalText(c).value else STRATOS_CURRENCY);
    if IsEuroCurrency(currency) then Ok(currency) else Err(NotEuro)
  }

  function ParseRow(row: RawRow, json: string -> Option<string>): Result<ParsedSku, Problem> {
    var code :- RequiredText(row.skuCode);
    var name :- RequiredText(row.name);
    var price :- BasePrice(row);
    var cost :- Cost(row);
    var attributes :- Attributes(row.attributes, json);
    var _ :- Currency(row.currency);
    var leadTime :- LeadTime(row.leadTimeDays);
    var active :- BooleanValue(row.active);
    Ok(ParsedSku(ToUpper(code), name, OptionalText(row.description), attributes, price, cost, leadTime, active))
  }

  // ---------- Euros to cents ----------

  /** An amount in cents as people write it in euros. */
  function PrintEuros(n: nat, separator: char): string {
    Print(n / 100) + [separator, Digit(n / 10 % 10), Digit(n % 10)]
  }

  lemma TwoDigits(n: nat)
    ensures var decimals := [Digit(n / 10 % 10), Digit(n % 10)];
      IsNumeral(decimals) && NumeralValue(decimals) == n % 100
  {
    PairValue(n / 10 % 10, n % 10);
    TensAndUnits(n);
  }

  lemma PairValue(tens: nat, units: nat)
    requires tens < 10 && units < 10
    ensures IsNumeral([Digit(tens), Digit(units)]) && NumeralValue([Digit(tens), Digit(units)]) == tens * 10 + units
  {
    var pair := [Digit(tens), Digit(units)];
    assert pair[..1] == [Digit(tens)] && pair[..1][..0] == [];
    assert NumeralValue(pair[..1]) == tens;
  }

  lemma TensAndUnits(n: nat)
    ensures n / 10 % 10 * 10 + n % 10 == n % 100
  {
  }

  lemma CommaBecomesDot(euros: string, decimals: string, separator: char)
    requires IsNumeral(euros) && IsNumeral(decimals) && (separator == '.' || separator == ',')
    ensures CommaToDot(euros + ([separator] + decimals)) == euros + (['.'] + decimals)
  {
    var rest := [separator] + decimals;
    CommaToDotBeyond(euros, rest);
    NoComma(decimals);
    assert rest[1..] == decimals;
    assert CommaToDot(rest) == ['.'] + decimals;
  }

  lemma NothingToTrim(euros: string, rest: string)
    requires IsNumeral(euros) && rest != [] && IsNumeral(rest[1..])
    ensures Trim(euros + rest) == euros + rest
  {
    var text := euros + rest;
    assert text[0] == euros[0] && text[|text| - 1] == rest[1..][|rest| - 2];
    TrimOfNumeralEnds(text);
  }

  lemma {:induction false} NoComma(s: string)
    requires forall i :: 0 <= i < |s| ==> IsDigit(s[i])
    ensures CommaToDot(s) == s
  {
    if s != [] {
      NoComma(s[1..]);
    }
  }

  lemma AmountSplit(euros: string, decimals: string, text: string, n: nat)
    requires IsNumeral(euros) && IsNumeral(decimals) && |decimals| == 2
    requires text == euros + (['.'] + decimals) && DotIndex(text) == |euros|
    requires n == NumeralValue(euros) * 100 + NumeralValue(decimals)
    ensures AmountOf(text) == Safe(n)
  {
    assert text[..|euros|] == euros;
    assert text[|euros| + 1..] == decimals;
    assert AmountOf(text) == AmountFrom(euros, Some(decimals));
  }

  lemma ReadAsDotted(euros: string, decimals: string, separator: char)
    requires IsNumeral(euros) && IsNumeral(decimals) && (separator == '.' || separator == ',')
    ensures EurosToMinor(Words(euros + ([separator] + decimals))) == AmountOf(euros + (['.'] + decimals))
  {
    assert ([separator] + decimals)[1..] == decimals;
    NothingToTrim(euros, [separator] + decimals);
    CommaBecomesDot(euros, decimals, separator);
  }

  lemma EurosAndCents(euros: string, decimals: string, separator: char, n: nat)
    requires IsNumeral(euros) && IsNumeral(decimals) && |decimals| == 2 && (separator == '.' || separator == ',')
    requires n == NumeralValue(euros) * 100 + NumeralValue(decimals)
    ensures EurosToMinor(Words(euros + ([separator] + decimals))) == Safe(n)
  {
    ReadAsDotted(euros, decimals, separator);
    DotIndexAt(euros, ['.'] + decimals);
    AmountSplit(euros, decimals, euros + (['.'] + decimals), n);
  }

  /** The conversion inverts printing for every safe amount, with either separator, and refuses every larger one. */
  lemma EurosRoundTrip(n: nat, separator: char)
    requires separator == '.' || separator == ','
    ensures EurosToMinor(Words(PrintEuros(n, separator))) == Safe(n)
  {
    var euros, cents := n / 100, n % 100;
    PrintReads(euros);
    TwoDigits(n);
    EurosAndCents(Print(euros), [Digit(n / 10 % 10), Digit(n % 10)], separator, n);
    Spelled(Print(euros), separator, Digit(n / 10 % 10), Digit(n % 10));
  }

  lemma Spelled(euros: string, separator: char, tens: char, ones: char)
    ensures euros + [separator, tens, ones] == euros + ([separator] + [tens, ones])
  {
    assert [separator, tens, ones] == [separator] + [tens, ones];
  }

  /** Whole euros need no separator. */
  lemma WholeEurosRoundTrip(n: nat)
    ensures EurosToMinor(Words(Print(n))) == Safe(n * 100)
    ensures NonNegativeInteger(Words(Print(n))) == Safe(n)
  {
    PrintReads(n);
    TrimOfNumeralEnds(Print(n));
    NoComma(Print(n));
    DotIndexAt(Print(n), []);
    assert Print(n) + [] == Print(n);
    assert Print(n)[..|Print(n)|] == Print(n);
  }

  /** The price parsed by the rule of the column it is taken from. */
  function PriceByItsColumn(row: RawRow): Result<nat, Problem> {
    if row.basePriceMinor.Missing? || row.basePriceMinor.Null? then EurosToMinor(row.basePriceEur)
    else NonNegativeInteger(row.basePriceMinor)
  }

  predicate SameReading(c: Cell) {
    var text := Trim(TextOf(c));
    IsNumeral(text) && (NumeralValue(text) == 0 || NumeralValue(text) > MAX_SAFE_INTEGER)
  }

  /** The rules for cents and for euros answer the same exactly for zero and for whole numbers beyond the safe range. */
  lemma RulesAgreeIff(c: Cell)
    ensures NonNegativeInteger(c) == EurosToMinor(c) <==> SameReading(c)
    ensures !IsNumeral(Trim(TextOf(c))) ==> NonNegativeInteger(c) == Err(NotAWholeNumber)
  {
    var text := Trim(TextOf(c));
    if IsNumeral(text) {
      NoComma(text);
      DotIndexAt(text, []);
      assert text + [] == text && text[..|text|] == text;
      assert EurosToMinor(c) == Safe(NumeralValue(text) * 100);
    } else {
      NeverNotAWholeNumber(CommaToDot(text));
    }
  }

  lemma NeverNotAWholeNumber(text: string)
    ensures AmountOf(text) != Err(NotAWholeNumber)
  {
  }

  /**
   A price is parsed by the rule of the column it is taken from if and only if the cent cell is not empty in a sheet
   that has the column, or the euro cell holds zero or a whole number beyond the safe range.
   */
  lemma PriceIsByItsColumnIff(row: RawRow)
    ensures BasePrice(row) == PriceByItsColumn(row) <==> !row.basePriceMinor.Null? || SameReading(row.basePriceEur)
  {
    RulesAgreeIff(row.basePriceEur);
  }

  /**
   What goes wrong otherwise, for every amount: whole euros count as cents, and euros with decimals are refused as
   not being a whole number.
   */
  lemma EmptyCentCellReadsEurosAsCents(row: RawRow, n: nat, separator: char)
    requires row.basePriceMinor == Null && (separator == '.' || separator == ',')
    ensures row.basePriceEur == Words(Print(n)) ==> BasePrice(row) == Safe(n) && PriceByItsColumn(row) == Safe(n * 100)
    ensures row.basePriceEur == Words(PrintEuros(n, separator)) ==>
      BasePrice(row) == Err(NotAWholeNumber) && PriceByItsColumn(row) == Safe(n)
  {
    WholeEurosRoundTrip(n);
    if row.basePriceEur == Words(PrintEuros(n, separator)) {
      EurosRoundTrip(n, separator);
      PrintedEurosAreNoNumeral(n, separator);
      RulesAgreeIff(row.basePriceEur);
    }
  }

  lemma PrintedEurosAreNoNumeral(n: nat, separator: char)
    requires separator == '.' || separator == ','
    ensures !IsNumeral(Trim(PrintEuros(n, separator)))
  {
    var euros, text := Print(n / 100), PrintEuros(n, separator);
    PrintReads(n / 100);
    assert text[0] == euros[0] && text[|text| - 1] == Digit(n % 10);
    TrimOfNumeralEnds(text);
    assert text[|euros|] == separator;
  }

  // ---------- The table ----------

  datatype Embedding = Pending | Ready | Unavailable

  datatype Row = Row(id: nat, sku: ParsedSku, embedding: Embedding)

  /** SKU rows under their unique key, tenant and code. */
  datatype Tables = Tables(rows: map<(string, string), Row>, nextId: nat)

  datatype RowError = RowError(row: nat, problem: Problem)

  datatype ImportResult = ImportResult(
    created: nat, updated: nat, rejected: nat, errors: seq<RowError>, ready: nat, pending: nat, unavailable: nat)

  /** How the service is wired: a queue defers embeddings, otherwise the client is asked at once. */
  datatype Wiring = Wiring(json: string -> Option<string>, queued: bool, embeds: ParsedSku -> bool)

  function EmbeddingOf(w: Wiring, sku: ParsedSku): Embedding {
    if w.queued then Pending else if w.embeds(sku) then Ready else Unavailable
  }

  function Upsert(w: Wiring, db: Tables, org: string, sku: ParsedSku): Tables {
    var key := (org, sku.code);
    if key in db.rows then db.(rows := db.rows[key := Row(db.rows[key].id, sku, EmbeddingOf(w, sku))])
    else Tables(db.rows[key := Row(db.nextId, sku, EmbeddingOf(w, sku))], db.nextId + 1)
  }

  function UpsertAll(w: Wiring, db: Tables, org: string, skus: seq<ParsedSku>): Tables {
    if skus == [] then db else Upsert(w, UpsertAll(w, db, org, skus[..|skus| - 1]), org, skus[|skus| - 1])
  }

  /** The rows that parse, in sheet order. */
  function ValidRows(w: Wiring, rows: seq<RawRow>): seq<ParsedSku> {
    if rows == [] then []
    else
      var last := ParseRow(rows[|rows| - 1], w.json);
      ValidRows(w, rows[..|rows| - 1]) + if last.Ok? then [last.value] else []
  }

  /** The rows that do not, by their number in the sheet: the header is row one. */
  function Errors(w: Wiring, rows: seq<RawRow>): seq<RowError> {
    if rows == [] then []
    else
      var last := ParseRow(rows[|rows| - 1], w.json);
      Errors(w, rows[..|rows| - 1]) + if last.Err? then [RowError(|rows| + 1, last.error)] else []
  }

  function CountEmbedded(w: Wiring, skus: seq<ParsedSku>, e: Embedding): nat {
    if skus == [] then 0
    else CountEmbedded(w, skus[..|skus| - 1], e) + if EmbeddingOf(w, skus[|skus| - 1]) == e then 1 else 0
  }

  class CatalogImportService {
    const w: Wiring
    var db: Tables

    constructor (w: Wiring, db: Tables)
      ensures this.w == w && this.db == db
    {
      this.w, this.db := w, db;
    }

    method Import(orgId: string, rows: seq<RawRow>) returns (result: ImportResult)
      modifies this
      ensures db == UpsertAll(w, old(db), orgId, ValidRows(w, rows))
      ensures result.errors == Errors(w, rows) && result.rejected == |result.errors|
      ensures result.created + result.updated + result.rejected == |rows|
      ensures result.created == |db.rows| - |old(db).rows|
      ensures result.ready == CountEmbedded(w, ValidRows(w, rows), Ready)
      ensures result.pending == CountEmbedded(w, ValidRows(w, rows), Pending)
      ensures result.unavailable == CountEmbedded(w, ValidRows(w, rows), Unavailable)
    {
      var validRows;
      validRows, result := ParseRows(rows);
      result := UpsertRows(orgId, validRows, result);
    }

    /** The first loop: nothing is written before every row has been looked at. */
    method ParseRows(rows: seq<RawRow>) returns (validRows: seq<ParsedSku>, result: ImportResult)
      ensures validRows == ValidRows(w, rows)
      ensures result == ImportResult(0, 0, |Errors(w, rows)|, Errors(w, rows), 0, 0, 0)
      ensures |validRows| + result.rejected == |rows|
    {
      validRows, result := [], ImportResult(0, 0, 0, [], 0, 0, 0);
      for index := 0 to |rows|
        invariant validRows == ValidRows(w, rows[..index])
        invariant result == ImportResult(0, 0, |Errors(w, rows[..index])|, Errors(w, rows[..index]), 0, 0, 0)
        invariant |validRows| + result.rejected == index
      {
        var parsed := ParseNext(rows, index);
        if parsed.Ok? {
          validRows := validRows + [parsed.value];
        } else {
          result := result.(
            rejected := result.rejected + 1, errors := result.errors + [RowError(index + 2, parsed.error)]);
        }
      }
      assert rows[..|rows|] == rows;
    }

    /** parseRow, and what its answer adds to what has been read so far. */
    method ParseNext(rows: seq<RawRow>, i: nat) returns (parsed: Result<ParsedSku, Problem>)
      requires i < |rows|
      ensures parsed == ParseRow(rows[i], w.json)
      ensures ValidRows(w, rows[..i + 1]) == ValidRows(w, rows[..i]) + (if parsed.Ok? then [parsed.value] else [])
      ensures Errors(w, rows[..i + 1]) == Errors(w, rows[..i]) +
        (if parsed.Err? then [RowError(i + 2, parsed.error)] else [])
    {
      assert rows[..i + 1][..i] == rows[..i];
      parsed := ParseRow(rows[i], w.json);
    }

    /** The second loop: find, save, count, and embed or defer. */
    method UpsertRows(orgId: string, validRows: seq<ParsedSku>, before: ImportResult) returns (result: ImportResult)
      requires before.created == before.updated == before.ready == before.pending == before.unavailable == 0
      modifies this
      ensures db == UpsertAll(w, old(db), orgId, validRows)
      ensures result.errors == before.errors && result.rejected == before.rejected
      ensures result.created + result.updated == |validRows| && result.created == |db.rows| - |old(db).rows|
      ensures result.ready == CountEmbedded(w, validRows, Ready) &&
        result.pending == CountEmbedded(w, validRows, Pending)
      ensures result.unavailable == CountEmbedded(w, validRows, Unavailable)
    {
      result := before;
      for i := 0 to |validRows|
        invariant db == UpsertAll(w, old(db), orgId, validRows[..i])
        invariant result.errors == before.errors && result.rejected == before.rejected
        invariant result.created + result.updated == i && result.created == |db.rows| - |old(db).rows|
        invariant result.ready == CountEmbedded(w, validRows[..i], Ready)
        invariant result.pending == CountEmbedded(w, validRows[..i], Pending)
        invariant result.unavailable == CountEmbedded(w, validRows[..i], Unavailable)
      {
        assert validRows[..i + 1][..i] == validRows[..i];
        var parsed := validRows[i];
        var key := (orgId, parsed.code);
        if key in db.rows {
          result := result.(updated := result.updated + 1);
        } else {
          result := result.(created := result.created + 1);
        }
        result := Save(key, parsed, result);
      }
      assert validRows[..|validRows|] == validRows;
    }

    method Save(key: (string, string), parsed: ParsedSku, before: ImportResult) returns (result: ImportResult)
      requires key.1 == parsed.code
      modifies this
      ensures db == Upsert(w, old(db), key.0, parsed)
      ensures result == before.(
        ready := result.ready, pending := result.pending, unavailable := result.unavailable)
      ensures result.ready == before.ready + if EmbeddingOf(w, parsed) == Ready then 1 else 0
      ensures result.pending == before.pending + if EmbeddingOf(w, parsed) == Pending then 1 else 0
      ensures result.unavailable == before.unavailable + if EmbeddingOf(w, parsed) == Unavailable then 1 else 0
    {
      var id := if key in db.rows then db.rows[key].id else db.nextId;
      if key !in db.rows {
        db := db.(nextId := db.nextId + 1);
      }
      db := db.(rows := db.rows[key := Row(id, parsed, Pending)]);
      if w.queued {
        result := before.(pending := before.pending + 1);
      } else if w.embeds(parsed) {
        db := db.(rows := db.rows[key := Row(id, parsed, Ready)]);
        result := before.(ready := before.ready + 1);
      } else {
        db := db.(rows := db.rows[key := Row(id, parsed, Unavailable)]);
        result := before.(unavailable := before.unavailable + 1);
      }
    }
  }

  // ---------- What an import leaves ----------

  function LastWith(skus: seq<ParsedSku>, code: string): Option<ParsedSku> {
    if skus == [] then None
    else if skus[|skus| - 1].code == code then Some(skus[|skus| - 1]) else LastWith(skus[..|skus| - 1], code)
  }

  function RowAt(db: Tables, key: (string, string)): Option<Row> {
    if key in db.rows then Some(db.rows[key]) else None
  }

  /**
   The last valid row of a code wins and keeps the id the code had; every other key, and every other tenant's, is
   untouched.
   */
  lemma {:induction false} LastValidRowWins(w: Wiring, db: Tables, org: string, skus: seq<ParsedSku>,
      key: (string, string))
    ensures var before, after := RowAt(db, key), RowAt(UpsertAll(w, db, org, skus), key);
      if key.0 != org || LastWith(skus, key.1).None? then after == before
      else
        && after.Some? && after.value.sku == LastWith(skus, key.1).value
        && after.value.embedding == EmbeddingOf(w, after.value.sku)
        && (before.Some? ==> after.value.id == before.value.id)
  {
    if skus != [] {
      LastValidRowWins(w, db, org, skus[..|skus| - 1], key);
    }
  }

  lemma {:induction false} KnownCodesCreateNothing(w: Wiring, db: Tables, org: string, skus: seq<ParsedSku>)
    requires forall s :: s in skus ==> (org, s.code) in db.rows
    ensures UpsertAll(w, db, org, skus).nextId == db.nextId && UpsertAll(w, db, org, skus).rows.Keys == db.rows.Keys
  {
    if skus != [] {
      KnownCodesCreateNothing(w, db, org, skus[..|skus| - 1]);
    }
  }

  lemma {:induction false} LastWithFinds(skus: seq<ParsedSku>, s: ParsedSku)
    requires s in skus
    ensures LastWith(skus, s.code).Some?
  {
    var last := |skus| - 1;
    if skus[last].code != s.code {
      assert skus == skus[..last] + [skus[last]];
      LastWithFinds(skus[..last], s);
    }
  }

  /** Importing the same sheet again creates nothing and changes nothing. */
  lemma ImportTwiceIsImportOnce(w: Wiring, db: Tables, org: string, rows: seq<RawRow>)
    ensures var skus := ValidRows(w, rows);
      var once := UpsertAll(w, db, org, skus);
      UpsertAll(w, once, org, skus) == once
  {
    var skus := ValidRows(w, rows);
    var once := UpsertAll(w, db, org, skus);
    forall s | s in skus
      ensures (org, s.code) in once.rows
    {
      LastWithFinds(skus, s);
      LastValidRowWins(w, db, org, skus, (org, s.code));
    }
    KnownCodesCreateNothing(w, once, org, skus);
    var twice := UpsertAll(w, once, org, skus);
    forall key | key in once.rows
      ensures twice.rows[key] == once.rows[key]
    {
      LastValidRowWins(w, db, org, skus, key);
      LastValidRowWins(w, once, org, skus, key);
    }
  }
}
