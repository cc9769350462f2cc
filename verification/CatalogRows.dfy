/**
 What a catalog row says, cell by cell and whatever its spacing, letter case and separators, and that this is exactly
 what the import reads from it and stores.
 */
module CatalogRows {
  import opened CatalogImport
  import opened Decimals
  import opened Text
  import opened Wrappers

  // ---------- Space around a text ----------

  predicate Blank(s: string) {
    forall i :: 0 <= i < |s| ==> IsSpace(s[i])
  }

  predicate Bare(t: string) {
    t == "" || (!IsSpace(t[0]) && !IsSpace(t[|t| - 1]))
  }

  ghost predicate Between(text: string, before: string, t: string, after: string) {
    Blank(before) && Blank(after) && text == before + t + after
  }

  /** The text is t, with space before and after it. */
  ghost predicate Padded(text: string, t: string) {
    Bare(t) && exists before, after :: Between(text, before, t, after)
  }

  lemma {:induction false} StartTrimmed(s: string) returns (before: string)
    ensures Blank(before) && s == before + TrimStart(s) && (TrimStart(s) != "" ==> !IsSpace(TrimStart(s)[0]))
  {
    hide IsSpace;
    before := "";
    if s != [] && IsSpace(s[0]) {
      var rest := StartTrimmed(s[1..]);
      before := [s[0]] + rest;
    }
  }

  lemma {:induction false} EndTrimmed(s: string) returns (after: string)
    ensures Blank(after) && s == TrimEnd(s) + after && (TrimEnd(s) != "" ==> !IsSpace(TrimEnd(s)[|TrimEnd(s)| - 1]))
    ensures TrimEnd(s) <= s
  {
    hide IsSpace;
    after := "";
    if s != [] && IsSpace(s[|s| - 1]) {
      var rest := EndTrimmed(s[..|s| - 1]);
      after := rest + [s[|s| - 1]];
    }
  }

  lemma TrimIsPadded(text: string)
    ensures Padded(text, Trim(text))
  {
    hide IsSpace;
    var before := StartTrimmed(text);
    var after := EndTrimmed(TrimStart(text));
    assert text == before + Trim(text) + after;
    assert Between(text, before, Trim(text), after);
  }

  lemma {:induction false} StartOfPadded(before: string, rest: string)
    requires Blank(before) && (rest != "" ==> !IsSpace(rest[0]))
    ensures TrimStart(before + rest) == rest
  {
    hide IsSpace;
    if before == "" {
      assert before + rest == rest;
    } else {
      assert (before + rest)[1..] == before[1..] + rest;
      StartOfPadded(before[1..], rest);
    }
  }

  lemma {:induction false} EndOfPadded(rest: string, after: string)
    requires Blank(after) && (rest != "" ==> !IsSpace(rest[|rest| - 1]))
    ensures TrimEnd(rest + after) == rest
  {
    hide IsSpace;
    if after == "" {
      assert rest + after == rest;
    } else {
      var shorter := after[..|after| - 1];
      assert (rest + after)[..|rest + after| - 1] == rest + shorter;
      EndOfPadded(rest, shorter);
    }
  }

  lemma {:induction false} AllBlank(s: string)
    requires Blank(s)
    ensures TrimStart(s) == ""
  {
    if s != [] {
      AllBlank(s[1..]);
    }
  }

  /** Trimming removes the space around a text, and nothing else. */
  lemma PaddedIff(text: string, t: string)
    ensures Padded(text, t) <==> t == Trim(text)
  {
    hide IsSpace;
    TrimIsPadded(text);
    if Padded(text, t) {
      var before, after :| Between(text, before, t, after);
      if t == "" {
        AllBlank(text);
      } else {
        assert text == before + (t + after);
        StartOfPadded(before, t + after);
        EndOfPadded(t, after);
      }
    }
  }

  // ---------- Letter case ----------

  /** Every letter of the text is that of the lower-case word or its capital. */
  predicate SameButCase(text: string, word: string) {
    |text| == |word| && forall i :: 0 <= i < |word| ==> text[i] == word[i] || IsCapitalOf(text[i], word[i])
  }

  predicate IsCapitalOf(capital: char, letter: char) {
    && capital as int + 32 == letter as int
    && ('a' <= letter <= 'z' || ('\U{E0}' <= letter <= '\U{FE}' && letter != '\U{F7}'))
  }

  /** upper is the text with every letter that has a capital replaced by it. */
  predicate IsUpperOf(upper: string, text: string) {
    |upper| == |text| && forall i :: 0 <= i < |text| ==>
      IsCapitalOf(upper[i], text[i])
      || (upper[i] == text[i] && !('a' <= text[i] <= 'z') && !('\U{E0}' <= text[i] <= '\U{FE}' && text[i] != '\U{F7}'))
  }

  lemma ToUpperIff(upper: string, text: string)
    ensures upper == ToUpper(text) <==> IsUpperOf(upper, text)
  {
    if IsUpperOf(upper, text) {
      forall i | 0 <= i < |text|
        ensures upper[i] == UpperChar(text[i])
      {
      }
    }
  }

  lemma ToLowerIff(text: string, word: string)
    requires forall i :: 0 <= i < |word| ==> !IsUpper(word[i])
    ensures ToLower(text) == word <==> SameButCase(text, word)
  {
    if ToLower(text) == word {
      forall i | 0 <= i < |word|
        ensures text[i] == word[i] || IsCapitalOf(text[i], word[i])
      {
        assert word[i] == LowerChar(text[i]);
      }
    }
    if SameButCase(text, word) {
      forall i | 0 <= i < |word|
        ensures LowerChar(text[i]) == word[i]
      {
      }
    }
  }

  // ---------- What a cell says ----------

  /** How a cell prints; nothing where there is none. */
  function Shown(c: Cell): string {
    match c
    case Words(text) => text
    case Figure(text) => text
    case Flag(true) => "true"
    case Flag(false) => "false"
    case _ => ""
  }

  lemma ShownIsItsText(c: Cell)
    ensures TextOf(c) == Shown(c)
  {
  }

  ghost predicate NotGiven(c: Cell) {
    c == Missing || c == Null || c == Words("")
  }

  ghost predicate SaysText(c: Cell, t: Option<string>) {
    match t
    case None => Padded(Shown(c), "")
    case Some(text) => text != "" && Padded(Shown(c), text)
  }

  ghost predicate SaysWhole(c: Cell, n: nat) {
    exists t :: Padded(Shown(c), t) && IsNumeral(t) && NumeralValue(t) == n && n <= MAX_SAFE_INTEGER
  }

  /** Euros alone, or with a dot or comma and one decimal, tens of cents, or two. */
  ghost predicate SpellsEuros(t: string, euros: string, decimals: string, n: nat) {
    && IsNumeral(euros) && n <= MAX_SAFE_INTEGER
    && match |decimals|
       case 0 => t == euros && n == 100 * NumeralValue(euros)
       case 1 => IsNumeral(decimals) && (t == euros + "." + decimals || t == euros + "," + decimals)
         && n == 100 * NumeralValue(euros) + 10 * NumeralValue(decimals)
       case 2 => IsNumeral(decimals) && (t == euros + "." + decimals || t == euros + "," + decimals)
         && n == 100 * NumeralValue(euros) + NumeralValue(decimals)
       case _ => false
  }

  ghost predicate SaysEuros(c: Cell, n: nat) {
    exists t, euros, decimals :: Padded(Shown(c), t) && SpellsEuros(t, euros, decimals, n)
  }

  /** Nothing, which is true, a truth value, or one of the words for it. */
  ghost predicate SaysTruth(c: Cell, b: bool) {
    || (NotGiven(c) && b)
    || c == Flag(b)
    || (!NotGiven(c) && !c.Flag?
        && exists t :: Padded(Shown(c), t)
             && if b then SameButCase(t, "true") || t == "1" || SameButCase(t, "sim") || SameButCase(t, "yes")
                else SameButCase(t, "false") || t == "0" || SameButCase(t, "n\U{E3}o") || SameButCase(t, "nao")
                     || SameButCase(t, "no"))
  }

  ghost predicate SaysEuro(c: Cell) {
    exists t :: Padded(Shown(c), t) && (t == "" || SameButCase(t, "eur"))
  }

  /** The cent column decides, where the sheet has it; an empty cell of it makes the euro cell count as cents. */
  ghost predicate SaysPrice(row: RawRow, n: nat) {
    match row.basePriceMinor
    case Missing => SaysEuros(row.basePriceEur, n)
    case Null => SaysWhole(row.basePriceEur, n)
    case _ => SaysWhole(row.basePriceMinor, n)
  }

  ghost predicate SaysCost(row: RawRow, cost: Option<nat>) {
    match cost
    case None => NotGiven(row.costMinor) && NotGiven(row.costEur)
    case Some(n) =>
      if NotGiven(row.costMinor) then !NotGiven(row.costEur) && SaysEuros(row.costEur, n)
      else SaysWhole(row.costMinor, n)
  }

  ghost predicate SaysLeadTime(c: Cell, days: Option<nat>) {
    match days
    case None => NotGiven(c)
    case Some(n) => !NotGiven(c) && SaysWhole(c, n)
  }

  ghost predicate SaysAttributes(c: Cell, json: string -> Option<string>, attributes: Option<string>) {
    match attributes
    case None => NotGiven(c)
    case Some(a) => !NotGiven(c) && json(Shown(c)) == Some(a)
  }

  ghost predicate SaysCode(c: Cell, code: string) {
    exists t :: t != "" && Padded(Shown(c), t) && IsUpperOf(code, t)
  }

  /** The row describes this SKU. */
  ghost predicate Says(row: RawRow, json: string -> Option<string>, sku: ParsedSku) {
    && SaysCode(row.skuCode, sku.code) && SaysText(row.name, Some(sku.name))
    && SaysText(row.description, sku.description) && SaysAttributes(row.attributes, json, sku.attributes)
    && SaysPrice(row, sku.basePriceMinor) && SaysCost(row, sku.costMinor) && SaysEuro(row.currency)
    && SaysLeadTime(row.leadTimeDays, sku.leadTimeDays) && SaysTruth(row.active, sku.active)
  }

  // ---------- What is read is what is said ----------

  lemma TextIff(c: Cell, t: Option<string>)
    ensures OptionalText(c) == t <==> SaysText(c, t)
  {
    hide Padded, Trim, TextOf, Shown;
    ShownIsItsText(c);
    PaddedIff(Shown(c), if t.Some? then t.value else "");
  }

  lemma CodeIff(c: Cell, code: string)
    ensures (RequiredText(c).Ok? && ToUpper(RequiredText(c).value) == code) <==> SaysCode(c, code)
  {
    hide Padded, Trim, TextOf, Shown, ToUpper, IsUpperOf;
    ShownIsItsText(c);
    forall t: string {
      PaddedIff(Shown(c), t);
    }
    ToUpperIff(code, Trim(Shown(c)));
  }

  lemma WholeIff(c: Cell, n: nat)
    ensures NonNegativeInteger(c) == Ok(n) <==> SaysWhole(c, n)
  {
    hide Padded, Trim, TextOf, Shown, NumeralValue, IsNumeral;
    ShownIsItsText(c);
    forall t: string {
      PaddedIff(Shown(c), t);
    }
  }

  lemma {:induction false} CommaToDotChanges(s: string)
    ensures |CommaToDot(s)| == |s|
    ensures forall i :: 0 <= i < |s| ==> CommaToDot(s)[i] == s[i] || (s[i] == ',' && CommaToDot(s)[i] == '.')
  {
    if s != [] && s[0] != ',' {
      CommaToDotChanges(s[1..]);
    }
  }

  lemma AmountShape(text: string, n: nat) returns (euros: string, decimals: string)
    requires AmountOf(CommaToDot(text)) == Ok(n)
    ensures SpellsEuros(text, euros, decimals, n)
  {
    hide NumeralValue, CommaToDot, DotIndex;
    var dotted := CommaToDot(text);
    var dot := DotIndex(dotted);
    CommaToDotChanges(text);
    euros := dotted[..dot];
    decimals := if dot == |dotted| then "" else dotted[dot + 1..];
    assert forall i :: 0 <= i < dot ==> text[i] == euros[i];
    if dot == |dotted| {
      assert text == euros;
    } else {
      assert forall i :: dot < i < |text| ==> text[i] == decimals[i - dot - 1];
      assert text == euros + [text[dot]] + decimals;
      CentsOf(decimals);
    }
  }

  lemma CentsOf(decimals: string)
    requires IsNumeral(decimals) && |decimals| <= 2
    ensures Cents(decimals) == if |decimals| == 1 then 10 * NumeralValue(decimals) else NumeralValue(decimals)
  {
    if |decimals| == 1 {
      assert (decimals + "0")[..1] == decimals;
    }
  }

  lemma AmountOfShape(text: string, euros: string, decimals: string, n: nat)
    requires SpellsEuros(text, euros, decimals, n)
    ensures AmountOf(CommaToDot(text)) == Ok(n)
  {
    hide NumeralValue, CommaToDot, DotIndex;
    if decimals == "" {
      NoComma(text);
      DotIndexAt(text, []);
      assert text + [] == text && text[..|text|] == text;
    } else {
      var separator := if text == euros + "." + decimals then '.' else ',';
      assert text == euros + ([separator] + decimals);
      CommaBecomesDot(euros, decimals, separator);
      var dotted := euros + (['.'] + decimals);
      DotIndexAt(euros, ['.'] + decimals);
      assert dotted[..|euros|] == euros && dotted[|euros| + 1..] == decimals;
      CentsOf(decimals);
    }
  }

  lemma EurosIff(c: Cell, n: nat)
    ensures EurosToMinor(c) == Ok(n) <==> SaysEuros(c, n)
  {
    hide Padded, Trim, TextOf, Shown, SpellsEuros, AmountOf, CommaToDot;
    ShownIsItsText(c);
    var text := Trim(Shown(c));
    PaddedIff(Shown(c), text);
    if EurosToMinor(c) == Ok(n) {
      var euros, decimals := AmountShape(text, n);
    }
    if SaysEuros(c, n) {
      var t, euros, decimals :| Padded(Shown(c), t) && SpellsEuros(t, euros, decimals, n);
      PaddedIff(Shown(c), t);
      AmountOfShape(t, euros, decimals, n);
    }
  }

  lemma TruthIff(c: Cell, b: bool)
    ensures BooleanValue(c) == Ok(b) <==> SaysTruth(c, b)
  {
    hide Padded, Trim, ToLower, SameButCase, TextOf, Shown;
    ShownIsItsText(c);
    if !NotGiven(c) && !c.Flag? {
      forall t: string {
        PaddedIff(Shown(c), t);
      }
      WordsOfTruth(Trim(Shown(c)));
    }
  }

  lemma WordsOfTruth(t: string)
    ensures ToLower(t) in ["true", "1", "sim", "yes"] <==>
      SameButCase(t, "true") || t == "1" || SameButCase(t, "sim") || SameButCase(t, "yes")
    ensures ToLower(t) in ["false", "0", "n\U{E3}o", "nao", "no"] <==>
      SameButCase(t, "false") || t == "0" || SameButCase(t, "n\U{E3}o") || SameButCase(t, "nao") || SameButCase(t, "no")
  {
    hide ToLower;
    ToLowerIff(t, "true");
    ToLowerIff(t, "1");
    ToLowerIff(t, "sim");
    ToLowerIff(t, "yes");
    ToLowerIff(t, "false");
    ToLowerIff(t, "0");
    ToLowerIff(t, "n\U{E3}o");
    ToLowerIff(t, "nao");
    ToLowerIff(t, "no");
    DigitsHaveNoCase(t);
  }

  lemma DigitsHaveNoCase(t: string)
    ensures SameButCase(t, "0") <==> t == "0"
    ensures SameButCase(t, "1") <==> t == "1"
  {
  }

  lemma EuroIff(c: Cell)
    ensures Currency(c).Ok? <==> SaysEuro(c)
  {
    hide Padded, Trim, SameButCase, TextOf, Shown, ToUpper, IsEuroCurrency;
    ShownIsItsText(c);
    var t := Trim(Shown(c));
    PaddedIff(Shown(c), t);
    if SaysEuro(c) {
      var u :| Padded(Shown(c), u) && (u == "" || SameButCase(u, "eur"));
      PaddedIff(Shown(c), u);
    }
    if t == "" {
      EuroItself();
    } else {
      TrimIsBare(Shown(c));
      IsEuro(t);
    }
  }

  lemma TrimIsBare(text: string)
    ensures Bare(Trim(text))
  {
    TrimIsPadded(text);
  }

  lemma EuroItself()
    ensures IsEuroCurrency(ToUpper(STRATOS_CURRENCY))
  {
    TrimOfNumeralEnds("EUR");
    assert ToUpper("EUR") == "EUR";
  }

  lemma IsEuro(t: string)
    requires t != "" && Bare(t)
    ensures IsEuroCurrency(ToUpper(t)) <==> SameButCase(t, "eur")
  {
    var u := ToUpper(t);
    UpperIsBare(t);
    assert Trim(u) == u && ToUpper(u) == u;
    if SameButCase(t, "eur") {
      assert forall i :: 0 <= i < 3 ==> u[i] == "EUR"[i];
    }
    if u == "EUR" {
      assert forall i :: 0 <= i < 3 ==> UpperChar(t[i]) == "EUR"[i];
    }
  }

  lemma UpperIsBare(t: string)
    requires t != "" && Bare(t)
    ensures Trim(ToUpper(t)) == ToUpper(t)
  {
    var u := ToUpper(t);
    assert u[0] == UpperChar(t[0]) && u[|u| - 1] == UpperChar(t[|t| - 1]);
    TrimOfNumeralEnds(u);
  }

  lemma CostIff(row: RawRow, cost: Option<nat>)
    ensures Cost(row) == Ok(cost) <==> SaysCost(row, cost)
  {
    hide NonNegativeInteger, EurosToMinor, SaysWhole, SaysEuros;
    if cost.Some? {
      WholeIff(row.costMinor, cost.value);
      EurosIff(row.costEur, cost.value);
    }
  }

  lemma PriceIff(row: RawRow, n: nat)
    ensures BasePrice(row) == Ok(n) <==> SaysPrice(row, n)
  {
    hide NonNegativeInteger, EurosToMinor, SaysWhole, SaysEuros;
    WholeIff(row.basePriceMinor, n);
    WholeIff(row.basePriceEur, n);
    EurosIff(row.basePriceEur, n);
  }

  lemma LeadTimeIff(c: Cell, days: Option<nat>)
    ensures LeadTime(c) == Ok(days) <==> SaysLeadTime(c, days)
  {
    hide NonNegativeInteger, SaysWhole;
    if days.Some? {
      WholeIff(c, days.value);
    }
  }

  lemma AttributesIff(c: Cell, json: string -> Option<string>, attributes: Option<string>)
    ensures Attributes(c, json) == Ok(attributes) <==> SaysAttributes(c, json, attributes)
  {
    ShownIsItsText(c);
  }

  /** A row is read as a SKU if and only if it describes that SKU. */
  lemma ReadIffSaid(row: RawRow, json: string -> Option<string>, sku: ParsedSku)
    ensures ParseRow(row, json) == Ok(sku) <==> Says(row, json, sku)
  {
    hide RequiredText, OptionalText, BasePrice, Cost, Attributes, Currency, LeadTime, BooleanValue, ToUpper;
    hide SaysCode, SaysText, SaysAttributes, SaysPrice, SaysCost, SaysEuro, SaysLeadTime, SaysTruth;
    CodeIff(row.skuCode, sku.code);
    NameIff(row.name, sku.name);
    TextIff(row.description, sku.description);
    AttributesIff(row.attributes, json, sku.attributes);
    PriceIff(row, sku.basePriceMinor);
    CostIff(row, sku.costMinor);
    EuroIff(row.currency);
    LeadTimeIff(row.leadTimeDays, sku.leadTimeDays);
    TruthIff(row.active, sku.active);
  }

  lemma NameIff(c: Cell, name: string)
    ensures RequiredText(c) == Ok(name) <==> SaysText(c, Some(name))
  {
    hide OptionalText, SaysText;
    TextIff(c, Some(name));
  }

  // ---------- A sheet ----------

  /** The row describes some SKU of this code. */
  ghost predicate SaysCodeOf(row: RawRow, json: string -> Option<string>, code: string) {
    exists sku: ParsedSku :: Says(row, json, sku) && sku.code == code
  }

  lemma LastOneMore(w: Wiring, rows: seq<RawRow>, code: string)
    requires rows != []
    ensures var last := ParseRow(rows[|rows| - 1], w.json);
      LastWith(ValidRows(w, rows), code) ==
      if last.Ok? && last.value.code == code then Some(last.value)
      else LastWith(ValidRows(w, rows[..|rows| - 1]), code)
  {
    hide ParseRow;
    var before, last := ValidRows(w, rows[..|rows| - 1]), ParseRow(rows[|rows| - 1], w.json);
    if last.Ok? {
      assert (before + [last.value])[..|before|] == before;
    } else {
      assert before + [] == before;
    }
  }

  lemma {:induction false} LastSaid(w: Wiring, rows: seq<RawRow>, i: nat, sku: ParsedSku)
    requires i < |rows| && Says(rows[i], w.json, sku)
    requires forall j :: i < j < |rows| ==> !SaysCodeOf(rows[j], w.json, sku.code)
    ensures LastWith(ValidRows(w, rows), sku.code) == Some(sku)
  {
    hide ParseRow, Says, ValidRows, LastWith;
    var init, last := rows[..|rows| - 1], rows[|rows| - 1];
    ReadIffSaid(rows[i], w.json, sku);
    LastOneMore(w, rows, sku.code);
    if i < |rows| - 1 {
      LastSaid(w, init, i, sku);
      if ParseRow(last, w.json).Ok? {
        ReadIffSaid(last, w.json, ParseRow(last, w.json).value);
      }
    }
  }

  lemma {:induction false} NeverSaid(w: Wiring, rows: seq<RawRow>, code: string)
    requires forall j :: 0 <= j < |rows| ==> !SaysCodeOf(rows[j], w.json, code)
    ensures LastWith(ValidRows(w, rows), code).None?
  {
    hide ParseRow, Says;
    if rows != [] {
      var last := rows[|rows| - 1];
      NeverSaid(w, rows[..|rows| - 1], code);
      LastOneMore(w, rows, code);
      if ParseRow(last, w.json).Ok? {
        ReadIffSaid(last, w.json, ParseRow(last, w.json).value);
      }
    }
  }

  /**
   After an import the tenant's row of a code is what the last row describing such a SKU describes, under the id it had
   before if it had one, and its embedding is left to the queue where there is one.
   */
  lemma SheetIsStored(w: Wiring, db: Tables, org: string, rows: seq<RawRow>, i: nat, sku: ParsedSku)
    requires i < |rows| && Says(rows[i], w.json, sku)
    requires forall j :: i < j < |rows| ==> !SaysCodeOf(rows[j], w.json, sku.code)
    ensures var before := RowAt(db, (org, sku.code));
      var after := RowAt(UpsertAll(w, db, org, ValidRows(w, rows)), (org, sku.code));
      && after.Some? && after.value.sku == sku && (before.Some? ==> after.value.id == before.value.id)
      && (after.value.embedding == Pending <==> w.queued)
      && (after.value.embedding == Ready <==> !w.queued && w.embeds(sku))
  {
    LastSaid(w, rows, i, sku);
    LastValidRowWins(w, db, org, ValidRows(w, rows), (org, sku.code));
  }

  /** A code that no row describes, and every other tenant's row, is as before. */
  lemma OthersAreKept(w: Wiring, db: Tables, org: string, rows: seq<RawRow>, key: (string, string))
    requires key.0 != org || forall j :: 0 <= j < |rows| ==> !SaysCodeOf(rows[j], w.json, key.1)
    ensures RowAt(UpsertAll(w, db, org, ValidRows(w, rows)), key) == RowAt(db, key)
  {
    if key.0 == org {
      NeverSaid(w, rows, key.1);
    }
    LastValidRowWins(w, db, org, ValidRows(w, rows), key);
  }

  /** With a queue every row waits for its embedding; without one each is embedded at once or found unavailable. */
  lemma {:induction false} EmbeddingsByWiring(w: Wiring, skus: seq<ParsedSku>)
    ensures CountEmbedded(w, skus, Pending) == if w.queued then |skus| else 0
    ensures CountEmbedded(w, skus, Ready) + CountEmbedded(w, skus, Unavailable) == if w.queued then 0 else |skus|
    ensures !w.queued && (forall s :: s in skus ==> w.embeds(s)) ==> CountEmbedded(w, skus, Unavailable) == 0
    ensures (forall s :: s in skus ==> !w.embeds(s)) ==> CountEmbedded(w, skus, Ready) == 0
  {
    if skus != [] {
      EmbeddingsByWiring(w, skus[..|skus| - 1]);
    }
  }

  /** Ids are never shared. */
  ghost predicate IdsAreUnique(db: Tables) {
    && (forall k :: k in db.rows ==> db.rows[k].id < db.nextId)
    && forall k, l :: k in db.rows && l in db.rows && db.rows[k].id == db.rows[l].id ==> k == l
  }

  /** New codes get new ids, so an import keeps the ids unique, however it mixes new and known codes. */
  lemma {:induction false} ImportKeepsIdsUnique(w: Wiring, db: Tables, org: string, skus: seq<ParsedSku>)
    requires IdsAreUnique(db)
    ensures IdsAreUnique(UpsertAll(w, db, org, skus))
  {
    if skus != [] {
      ImportKeepsIdsUnique(w, db, org, skus[..|skus| - 1]);
    }
  }

  /** A row is reported, once and under its number in the sheet, if and only if it describes no SKU. */
  lemma {:induction false} ReportedIffSaysNothing(w: Wiring, rows: seq<RawRow>, i: nat)
    requires i < |rows|
    ensures var reports := multiset(NumbersOf(Errors(w, rows)));
      if exists sku: ParsedSku :: Says(rows[i], w.json, sku) then reports[i + 2] == 0 else reports[i + 2] == 1
    ensures forall n :: n in NumbersOf(Errors(w, rows)) ==> 2 <= n < |rows| + 2
  {
    hide ParseRow, Says;
    var init, last := rows[..|rows| - 1], rows[|rows| - 1];
    NumbersInRange(w, init);
    LastIsReported(w, rows);
    if i < |rows| - 1 {
      ReportedIffSaysNothing(w, init, i);
    } else {
      SaysSomethingIff(last, w.json);
      assert i + 2 !in NumbersOf(Errors(w, init));
    }
  }

  function NumbersOf(errors: seq<RowError>): seq<nat> {
    seq(|errors|, i requires 0 <= i < |errors| => errors[i].row)
  }

  lemma SaysSomethingIff(row: RawRow, json: string -> Option<string>)
    ensures ParseRow(row, json).Ok? <==> exists sku: ParsedSku :: Says(row, json, sku)
  {
    hide ParseRow, Says;
    if ParseRow(row, json).Ok? {
      ReadIffSaid(row, json, ParseRow(row, json).value);
    }
    if exists sku: ParsedSku :: Says(row, json, sku) {
      var sku: ParsedSku :| Says(row, json, sku);
      ReadIffSaid(row, json, sku);
    }
  }

  lemma LastIsReported(w: Wiring, rows: seq<RawRow>)
    requires rows != []
    ensures NumbersOf(Errors(w, rows)) == NumbersOf(Errors(w, rows[..|rows| - 1])) +
      if ParseRow(rows[|rows| - 1], w.json).Err? then [|rows| + 1] else []
  {
    hide ParseRow;
  }

  lemma {:induction false} NumbersInRange(w: Wiring, rows: seq<RawRow>)
    ensures forall n :: n in NumbersOf(Errors(w, rows)) ==> 2 <= n < |rows| + 2
  {
    hide ParseRow;
    if rows != [] {
      NumbersInRange(w, rows[..|rows| - 1]);
      LastIsReported(w, rows);
    }
  }
}
