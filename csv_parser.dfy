/**
  The bank statement parsers: one transaction per accepted CSV row, for the SoFi layout (a signed
  Amount and a Status) and the Capital One layout (separate Debit and Credit columns), the
  header-based detection of the layout, and the parse_csv dispatcher. A row is a DictReader
  record: each column name of the header maps to its cell, or to None when the row is shorter
  than the header (calling strip() on that None raises, so such a row is skipped).
*/
module CsvParser {
  import opened Wrappers
  import opened Text
  import opened Categories
  import opened StoreNormalizer
  import opened Amounts
  import opened Dates
  import opened Collecting
  import opened Detection

  type Row = map<string, Option<string>>

  /** row.get(key, default).strip(): None when the cell is the missing-cell None. */
  function Cell(row: Row, key: string, default: string): Option<string>
  {
    if key in row then
      match row[key]
      case None => None
      case Some(v) => Some(Strip(v))
    else Some(Strip(default))
  }

  /** One parsed transaction, the dictionary both parsers append. */
  datatype Transaction = Transaction(
    date: string,
    store: string,
    description: string,
    originalType: string,
    amount: real,
    txType: TxType,
    suggestedCategory: string)

  // ---------------------------------------------------------------------------
  // SoFi

  const SofiIncomeTypeWords: seq<string> := ["deposit", "credit", "interest", "payroll"]
  const SofiIncomeDescriptionWords: seq<string> := ["salary", "payroll", "interest"]
  const SofiExpenseTypeWords: seq<string> := ["payment", "purchase", "debit", "withdrawal"]

  /** The income/expense decision of categorize_sofi_transaction, from the lower-cased, stripped
      type and description and the suggested category. */
  function SofiKind(typeLower: string, descLower: string, category: string): TxType
  {
    if ContainsAny(SofiIncomeTypeWords, typeLower) then Income
    else if ContainsAny(SofiIncomeDescriptionWords, descLower) then Income
    else if ContainsAny(SofiExpenseTypeWords, typeLower) then Expense
    else if category in IncomeCategories then Income
    else Expense
  }

  /** categorize_sofi_transaction: the suggested category of the normalized description, and the
      income/expense decision. */
  function CategorizeSofiTransaction(transType: string, description: string): (r: (string, TxType))
    ensures r.0 in AllCategories
  {
    var category := SuggestCategory(NormalizedStore(description), description, transType);
    (category, SofiKind(Strip(Lower(transType)), Strip(Lower(description)), category))
  }

  /** The sign rule of parse_sofi_csv: a negative amount is an expense of its absolute value, a
      positive one is income, and zero keeps the categorizer's decision. */
  function ApplySign(amount: real, kind: TxType): (r: (real, TxType))
    ensures r.0 >= 0.0 && (r.0 == amount || r.0 == -amount)
    ensures amount < 0.0 ==> r.1 == Expense
    ensures amount > 0.0 ==> r.1 == Income
    ensures amount == 0.0 ==> r == (0.0, kind)
  {
    if amount < 0.0 then (-amount, Expense)
    else if amount > 0.0 && kind == Expense then (amount, Income)
    else
      assert amount > 0.0 ==> kind.Income?;
      (amount, kind)
  }

  /** The cells parse_sofi_csv reads, stripped. */
  datatype SofiCells = SofiCells(date: string, description: string, transType: string, amount: string, status: string)

  function SofiCellsOf(row: Row): Option<SofiCells>
  {
    var date, description, transType := Cell(row, "Date", ""), Cell(row, "Description", ""), Cell(row, "Type", "");
    var amount, status := Cell(row, "Amount", "0"), Cell(row, "Status", "");
    if date.Some? && description.Some? && transType.Some? && amount.Some? && status.Some? then
      Some(SofiCells(date.value, description.value, transType.value, amount.value, status.value))
    else None
  }

  /** The transaction of one SoFi row, or None when the row is skipped: a missing cell, a status
      other than "posted", an amount float() rejects, or a date no format parses. */
  function SofiRecord(row: Row): Option<Transaction>
  {
    match SofiCellsOf(row)
    case None => None
    case Some(c) =>
      if Lower(c.status) != "posted" then None
      else match ParseAmount(c.amount)
        case None => None
        case Some(parsed) => SofiTransaction(c, parsed)
  }

  /** The transaction of a posted row whose amount parsed. */
  function SofiTransaction(c: SofiCells, parsed: real): Option<Transaction>
  {
    var categorized := CategorizeSofiTransaction(c.transType, c.description);
    var signed := ApplySign(parsed, categorized.1);
    var store := if categorized.0 == "Interest" then "SoFi" else NormalizedStore(c.description);
    match ParsedDate(c.date)
    case Err(_) => None
    case Ok(date) => Some(Transaction(date, store, "", c.transType, signed.0, signed.1, categorized.0))
  }

  /** The body of parse_sofi_csv's loop: read the cells, skip what is not posted, parse the amount. */
  method ParseSofiRow(row: Row) returns (t: Option<Transaction>)
    ensures t == SofiRecord(row)
  {
    var cells := SofiCellsOf(row);
    if cells.None? {
      return None;
    }
    var c := cells.value;
    if Lower(c.status) != "posted" {
      return None;
    }
    var parsed := ParseAmount(c.amount);
    if parsed.None? {
      return None;
    }
    t := BuildSofiTransaction(c, parsed.value);
  }

  /** The rest of the loop body: categorize, apply the sign rule, pick the store, parse the date. */
  method BuildSofiTransaction(c: SofiCells, parsed: real) returns (t: Option<Transaction>)
    ensures t == SofiTransaction(c, parsed)
  {
    var categorized := CategorizeSofiTransaction(c.transType, c.description);
    var category := categorized.0;
    var amount, txType := SignAdjust(parsed, categorized.1);
    var store := NormalizedStore(c.description);
    if category == "Interest" {
      store := "SoFi";
    }
    var date := ParseDate(c.date);
    if date.Err? {
      return None;
    }
    return Some(Transaction(date.value, store, "", c.transType, amount, txType, category));
  }

  /** The sign rule as parse_sofi_csv writes it, reassigning the type and the amount. */
  method SignAdjust(parsed: real, kind: TxType) returns (amount: real, txType: TxType)
    ensures (amount, txType) == ApplySign(parsed, kind)
  {
    amount, txType := parsed, kind;
    if amount < 0.0 {
      txType := Expense;
      amount := -amount;
    } else if amount > 0.0 && txType == Expense {
      txType := Income;
    }
  }

  /** parse_sofi_csv over the rows of the file. */
  method ParseSofiCsv(rows: seq<Row>) returns (transactions: seq<Transaction>)
    ensures transactions == Collect(rows, SofiRecord)
  {
    transactions := [];
    for i := 0 to |rows|
      invariant transactions == Collect(rows[..i], SofiRecord)
    {
      var t := ParseSofiRow(rows[i]);
      assert rows[..i + 1][..i] == rows[..i];
      if t.Some? {
        transactions := transactions + [t.value];
      }
    }
    assert rows[..|rows|] == rows;
  }

  // ---------------------------------------------------------------------------
  // Capital One

  /** categorize_capital_one_transaction: the suggested category of the normalized description,
      always marked as an expense (parse_capital_one_csv discards that mark). */
  function CategorizeCapitalOneTransaction(description: string): (r: (string, TxType))
    ensures r.0 in AllCategories && r.1 == Expense
  {
    (SuggestCategory(NormalizedStore(description), description, ""), Expense)
  }

  /** A Debit or Credit cell: blank is 0, anything else goes through float(). */
  function MoneyCell(cell: string): Option<real>
  {
    if cell == [] then Some(0.0) else ParseAmount(cell)
  }

  /** The cells parse_capital_one_csv reads, stripped. */
  datatype CapitalOneCells = CapitalOneCells(date: string, description: string, debit: string, credit: string, category: string)

  function CapitalOneCellsOf(row: Row): Option<CapitalOneCells>
  {
    var date, description, debit := Cell(row, "Transaction Date", ""), Cell(row, "Description", ""), Cell(row, "Debit", "");
    var credit, category := Cell(row, "Credit", ""), Cell(row, "Category", "");
    if date.Some? && description.Some? && debit.Some? && credit.Some? && category.Some? then
      Some(CapitalOneCells(date.value, description.value, debit.value, credit.value, category.value))
    else None
  }

  /** The transaction of one Capital One row, or None when it is skipped: a missing cell, a Debit
      or Credit float() rejects, neither of them positive, or a date no format parses. */
  function CapitalOneRecord(row: Row): Option<Transaction>
  {
    match CapitalOneCellsOf(row)
    case None => None
    case Some(c) =>
      var debit, credit := MoneyCell(c.debit), MoneyCell(c.credit);
      if debit.None? || credit.None? then None
      else CapitalOneTransaction(c, debit.value, credit.value)
  }

  /** The transaction of a row whose Debit and Credit parsed: the debit when positive, else the
      credit when positive, else none. */
  function CapitalOneTransaction(c: CapitalOneCells, debit: real, credit: real): Option<Transaction>
  {
    if debit <= 0.0 && credit <= 0.0 then None
    else
      var amount := if debit > 0.0 then debit else credit;
      var txType := if debit > 0.0 then Expense else Income;
      var originalType := if c.category != [] then c.category else if debit > 0.0 then "Purchase" else "Payment";
      var category := CategorizeCapitalOneTransaction(c.description).0;
      match ParsedDate(c.date)
      case Err(_) => None
      case Ok(date) => Some(Transaction(date, NormalizedStore(c.description), "", originalType, amount, txType, category))
  }

  /** The body of parse_capital_one_csv's loop. */
  method ParseCapitalOneRow(row: Row) returns (t: Option<Transaction>)
    ensures t == CapitalOneRecord(row)
  {
    var cells := CapitalOneCellsOf(row);
    if cells.None? {
      return None;
    }
    var c := cells.value;
    var debit := MoneyCell(c.debit);
    var credit := MoneyCell(c.credit);
    if debit.None? || credit.None? {
      return None;
    }
    var amount, txType, originalType;
    if debit.value > 0.0 {
      amount, txType := debit.value, Expense;
      originalType := if c.category != [] then c.category else "Purchase";
    } else if credit.value > 0.0 {
      amount, txType := credit.value, Income;
      originalType := if c.category != [] then c.category else "Payment";
    } else {
      return None;
    }
    var (category, _) := CategorizeCapitalOneTransaction(c.description);
    var store := NormalizedStore(c.description);
    var date := ParseDate(c.date);
    if date.Err? {
      return None;
    }
    return Some(Transaction(date.value, store, "", originalType, amount, txType, category));
  }

  /** parse_capital_one_csv over the rows of the file. */
  method ParseCapitalOneCsv(rows: seq<Row>) returns (transactions: seq<Transaction>)
    ensures transactions == Collect(rows, CapitalOneRecord)
  {
    transactions := [];
    for i := 0 to |rows|
      invariant transactions == Collect(rows[..i], CapitalOneRecord)
    {
      var t := ParseCapitalOneRow(rows[i]);
      assert rows[..i + 1][..i] == rows[..i];
      if t.Some? {
        transactions := transactions + [t.value];
      }
    }
    assert rows[..|rows|] == rows;
  }

  // ---------------------------------------------------------------------------
  // Detection and dispatch

  /** A CSV file as csv.DictReader presents it: the header's field names and the records. */
  datatype CsvTable = CsvTable(fieldnames: Option<seq<string>>, rows: seq<Row>)

  /** The tables csv.DictReader can produce: an empty file has no field names and no records, and
      every record is keyed by exactly the header's names. The extra cells of a row longer than
      the header, which DictReader files under the key None, have no place in a Row. */
  predicate ReaderShaped(table: CsvTable)
  {
    match table.fieldnames
    case None => table.rows == []
    case Some(names) => forall row <- table.rows :: row.Keys == set h | h in names
  }

  /** The format parse_csv uses: "sofi" and "capital_one" pin it, any other bank type detects it. */
  function ChosenFormat(table: CsvTable, bankType: string): CsvFormat
  {
    if bankType == "sofi" then Sofi
    else if bankType == "capital_one" then CapitalOne
    else DetectCsvFormat(table.fieldnames)
  }

  const UnrecognizedFormat: string := "Unrecognized CSV format. Please use SoFi or Capital One format."

  /** parse_csv as a value: the format and its transactions, or the unrecognized-format error. */
  function ParsedCsv(table: CsvTable, bankType: string): Result<(CsvFormat, seq<Transaction>)>
  {
    match ChosenFormat(table, bankType)
    case Unknown => Err(UnrecognizedFormat)
    case Sofi => Ok((Sofi, Collect(table.rows, SofiRecord)))
    case CapitalOne => Ok((CapitalOne, Collect(table.rows, CapitalOneRecord)))
  }

  /** parse_csv: choose the format, then run its parser. */
  method ParseCsv(table: CsvTable, bankType: string) returns (r: Result<(CsvFormat, seq<Transaction>)>)
    ensures r == ParsedCsv(table, bankType)
  {
    var format: CsvFormat;
    if bankType == "auto" {
      format := DetectCsvFormat(table.fieldnames);
    } else if bankType == "sofi" {
      format := Sofi;
    } else if bankType == "capital_one" {
      format := CapitalOne;
    } else {
      format := DetectCsvFormat(table.fieldnames);
    }
    if format == Unknown {
      return Err(UnrecognizedFormat);
    }
    var transactions: seq<Transaction>;
    if format == Sofi {
      transactions := ParseSofiCsv(table.rows);
    } else {
      transactions := ParseCapitalOneCsv(table.rows);
    }
    return Ok((format, transactions));
  }

  // ---------------------------------------------------------------------------
  // Properties of the SoFi parser

  /** An income word in the type wins over everything; an income word in the description wins
      over an expense word in the type; with no indicator word at all, the decision is the one
      get_transaction_type makes for the suggested category. */
  lemma SofiKindRules(transType: string, description: string)
    ensures var typeLower, descLower := Strip(Lower(transType)), Strip(Lower(description));
      var r := CategorizeSofiTransaction(transType, description);
      && r.0 in AllCategories
      && (ContainsAny(SofiIncomeTypeWords, typeLower) || ContainsAny(SofiIncomeDescriptionWords, descLower) ==> r.1 == Income)
      && ((!ContainsAny(SofiIncomeTypeWords, typeLower) && !ContainsAny(SofiIncomeDescriptionWords, descLower)
           && ContainsAny(SofiExpenseTypeWords, typeLower)) ==> r.1 == Expense)
      && ((!ContainsAny(SofiIncomeTypeWords, typeLower) && !ContainsAny(SofiIncomeDescriptionWords, descLower)
           && !ContainsAny(SofiExpenseTypeWords, typeLower)) ==> r.1 == GetTransactionType(r.0))
  {
    var category := CategorizeSofiTransaction(transType, description).0;
    NormalizedCategoryOfCanonical(category);
  }

  /** What a SoFi transaction carries: it comes from a posted row whose amount parsed, its amount
      is the absolute value of the signed amount and the sign decides the type, its date is the
      normalized text of the Date cell, and the store is "SoFi" for interest and the normalized
      description otherwise. */
  lemma SofiRecordFields(row: Row)
    requires SofiRecord(row).Some?
    ensures SofiCellsOf(row).Some?
    ensures var c, t := SofiCellsOf(row).value, SofiRecord(row).value;
      && Lower(c.status) == "posted"
      && ParseAmount(c.amount).Some?
      && var signed := ParseAmount(c.amount).value;
      && t.amount >= 0.0 && (t.amount == signed || t.amount == -signed)
      && (signed < 0.0 ==> t.txType == Expense)
      && (signed > 0.0 ==> t.txType == Income)
      && (signed == 0.0 ==> t.txType == CategorizeSofiTransaction(c.transType, c.description).1)
      && ParsedDate(c.date) == Ok(t.date) && IsoShaped(t.date)
      && t.description == "" && t.originalType == c.transType
      && t.suggestedCategory == CategorizeSofiTransaction(c.transType, c.description).0
      && t.suggestedCategory == SuggestCategory(NormalizedStore(c.description), c.description, c.transType)
      && t.suggestedCategory in AllCategories
      && t.store == (if t.suggestedCategory == "Interest" then "SoFi" else NormalizedStore(c.description))
  {
    var c := SofiCellsOf(row).value;
    var k, d := ParsedDateValid(c.date);
    SofiKindRules(c.transType, c.description);
  }

  /** A SoFi row is skipped exactly when a cell is missing, the status is not "posted", the amount
      does not parse, or no date format parses the date. */
  lemma SofiRecordSkipped(row: Row)
    ensures SofiRecord(row).None? <==>
      || SofiCellsOf(row).None?
      || Lower(SofiCellsOf(row).value.status) != "posted"
      || ParseAmount(SofiCellsOf(row).value.amount).None?
      || ParsedDate(SofiCellsOf(row).value.date).Err?
  {
  }

  /** A row without a Status column reads the status as "" and is never posted: a file whose
      headers are spelled in other letter case is detected as SoFi but yields no transaction. */
  lemma SofiWithoutStatusSkipped(row: Row)
    requires "Status" !in row
    ensures SofiRecord(row).None?
  {
    assert Lower([]) == [] && Strip([]) == [];
    assert Cell(row, "Status", "") == Some([]);
  }

  // ---------------------------------------------------------------------------
  // Properties of the Capital One parser

  /** A blank Debit or Credit is zero; a cell in the form of a cents amount reads as that amount. */
  lemma MoneyCellValues(cents: int)
    ensures MoneyCell("") == Some(0.0)
    ensures var r := MoneyCell(FormatCents(cents)); r.Some? && r.value == cents as real / 100.0
  {
    ParseFormatCents(cents);
  }

  /** What a Capital One transaction carries: a positive debit makes an expense of the debit and
      takes precedence; otherwise a positive credit makes income of the credit; the original type
      is the Category cell or, when blank, "Purchase" or "Payment"; the category is suggested from
      the normalized description with no transaction type. */
  lemma CapitalOneRecordFields(row: Row)
    requires CapitalOneRecord(row).Some?
    ensures CapitalOneCellsOf(row).Some?
    ensures var c, t := CapitalOneCellsOf(row).value, CapitalOneRecord(row).value;
      && MoneyCell(c.debit).Some? && MoneyCell(c.credit).Some?
      && var debit, credit := MoneyCell(c.debit).value, MoneyCell(c.credit).value;
      && t.amount > 0.0
      && (debit > 0.0 ==> t.amount == debit && t.txType == Expense && t.originalType == (if c.category == [] then "Purchase" else c.category))
      && (debit <= 0.0 ==> credit > 0.0 && t.amount == credit && t.txType == Income && t.originalType == (if c.category == [] then "Payment" else c.category))
      && ParsedDate(c.date) == Ok(t.date) && IsoShaped(t.date)
      && t.description == "" && t.store == NormalizedStore(c.description)
      && t.suggestedCategory == SuggestCategory(NormalizedStore(c.description), c.description, "")
      && t.suggestedCategory in AllCategories
  {
    var c := CapitalOneCellsOf(row).value;
    var k, d := ParsedDateValid(c.date);
  }

  /** A Capital One row is skipped exactly when a cell is missing, the Debit or the Credit does not
      parse, neither is positive, or no date format parses the date. */
  lemma CapitalOneRecordSkipped(row: Row)
    ensures CapitalOneRecord(row).None? <==>
      || CapitalOneCellsOf(row).None?
      || MoneyCell(CapitalOneCellsOf(row).value.debit).None?
      || MoneyCell(CapitalOneCellsOf(row).value.credit).None?
      || (MoneyCell(CapitalOneCellsOf(row).value.debit).value <= 0.0 && MoneyCell(CapitalOneCellsOf(row).value.credit).value <= 0.0)
      || ParsedDate(CapitalOneCellsOf(row).value.date).Err?
  {
  }

  // ---------------------------------------------------------------------------
  // Properties of detection and dispatch

  /** parse_csv fails exactly when the bank type pins no parser and detection finds no layout. */
  lemma ParsedCsvErr(table: CsvTable, bankType: string)
    ensures ParsedCsv(table, bankType).Err? <==>
      bankType != "sofi" && bankType != "capital_one" && DetectCsvFormat(table.fieldnames) == Unknown
    ensures ParsedCsv(table, bankType).Err? ==> ParsedCsv(table, bankType).message == UnrecognizedFormat
  {
  }

  /** Every transaction parse_csv returns has an ISO date, a non-negative amount (a positive one
      for Capital One), an empty description and a canonical category, and comes from a row of
      the file that the chosen parser accepts, in file order. */
  lemma ParsedCsvWellFormed(table: CsvTable, bankType: string) returns (idx: seq<int>)
    requires ParsedCsv(table, bankType).Ok?
    ensures var (format, txs) := ParsedCsv(table, bankType).value;
      && format == ChosenFormat(table, bankType) && format != Unknown
      && Increasing(idx) && Picks(table.rows, if format == Sofi then SofiRecord else CapitalOneRecord, idx, txs)
      && (forall t <- txs :: IsoShaped(t.date) && t.amount >= 0.0 && t.description == "" && t.suggestedCategory in AllCategories)
      && (format == CapitalOne ==> forall t <- txs :: t.amount > 0.0)
  {
    if ChosenFormat(table, bankType) == Sofi {
      idx := SofiCsvWellFormed(table.rows);
    } else {
      idx := CapitalOneCsvWellFormed(table.rows);
    }
  }

  /** Every SoFi transaction comes from an accepted row, in file order, and is well formed. */
  lemma SofiCsvWellFormed(rows: seq<Row>) returns (idx: seq<int>)
    ensures var txs := Collect(rows, SofiRecord);
      && Increasing(idx) && Picks(rows, SofiRecord, idx, txs)
      && (forall t <- txs :: IsoShaped(t.date) && t.amount >= 0.0 && t.description == "" && t.suggestedCategory in AllCategories)
  {
    var txs := Collect(rows, SofiRecord);
    idx := CollectExactly(rows, SofiRecord);
    forall j | 0 <= j < |txs| ensures IsoShaped(txs[j].date) && txs[j].amount >= 0.0 && txs[j].description == "" && txs[j].suggestedCategory in AllCategories {
      SofiRecordFields(rows[idx[j]]);
    }
  }

  /** Every Capital One transaction comes from an accepted row, in file order, is well formed and
      has a positive amount. */
  lemma CapitalOneCsvWellFormed(rows: seq<Row>) returns (idx: seq<int>)
    ensures var txs := Collect(rows, CapitalOneRecord);
      && Increasing(idx) && Picks(rows, CapitalOneRecord, idx, txs)
      && (forall t <- txs :: IsoShaped(t.date) && t.amount > 0.0 && t.description == "" && t.suggestedCategory in AllCategories)
  {
    var txs := Collect(rows, CapitalOneRecord);
    idx := CollectExactly(rows, CapitalOneRecord);
    forall j | 0 <= j < |txs| ensures IsoShaped(txs[j].date) && txs[j].amount > 0.0 && txs[j].description == "" && txs[j].suggestedCategory in AllCategories {
      CapitalOneRecordFields(rows[idx[j]]);
    }
  }

  /** Detection ignores letter case but the parser reads the cells by their exact names: a file
      detected as SoFi whose rows have no "Status" cell, as when its header is written in lower
      case, yields no transaction at all. */
  lemma SofiWithoutStatusColumnYieldsNothing(table: CsvTable)
    requires DetectCsvFormat(table.fieldnames) == Sofi
    requires forall row <- table.rows :: "Status" !in row
    ensures ParsedCsv(table, "auto") == Ok((Sofi, []))
  {
    var idx := CollectExactly(table.rows, SofiRecord);
    if |idx| > 0 {
      SofiWithoutStatusSkipped(table.rows[idx[0]]);
    }
  }

  /** A file read by DictReader whose header is detected as SoFi but has no exact "Status" name
      (for instance " Status ") yields no transactions. */
  lemma HeaderWithoutStatusYieldsNothing(table: CsvTable)
    requires ReaderShaped(table)
    requires DetectCsvFormat(table.fieldnames) == Sofi
    requires "Status" !in table.fieldnames.value
    ensures ParsedCsv(table, "auto") == Ok((Sofi, []))
  {
    forall row <- table.rows ensures "Status" !in row {
    }
    SofiWithoutStatusColumnYieldsNothing(table);
  }
}
