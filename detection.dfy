/**
  detect_csv_format: which bank layout a CSV header belongs to, decided from the set of its
  stripped, lower-cased column names, SoFi before Capital One.
*/
module Detection {
  import opened Wrappers
  import opened Text

  datatype CsvFormat = Sofi | CapitalOne | Unknown

  /** The name parse_csv reports. */
  function FormatName(f: CsvFormat): string
  {
    match f
    case Sofi => "sofi"
    case CapitalOne => "capital_one"
    case Unknown => "unknown"
  }

  const SofiHeaders: seq<string> := ["date", "description", "type", "amount", "status"]
  const CapitalOneHeaders: seq<string> := ["transaction date", "description", "debit", "credit"]

  /** The header names lower-cased and stripped. */
  function NormalizedHeaders(headers: seq<string>): seq<string>
  {
    seq(|headers|, i requires 0 <= i < |headers| => Strip(Lower(headers[i])))
  }

  /** A name with no whitespace at either end. */
  predicate Trimmed(h: string)
  {
    h == [] || (!IsSpace(h[0]) && !IsSpace(h[|h| - 1]))
  }

  /** There is one normalized name per header, in header order, each already in lower case and
      with no surrounding whitespace. */
  lemma NormalizedHeadersShape(headers: seq<string>)
    ensures |NormalizedHeaders(headers)| == |headers|
    ensures forall i :: 0 <= i < |headers| ==>
      Lower(NormalizedHeaders(headers)[i]) == NormalizedHeaders(headers)[i] && Trimmed(NormalizedHeaders(headers)[i])
  {
    forall i | 0 <= i < |headers|
      ensures Lower(NormalizedHeaders(headers)[i]) == NormalizedHeaders(headers)[i] && Trimmed(NormalizedHeaders(headers)[i])
    {
      NormalizedNameShape(headers[i]);
    }
  }

  /** One header name lower-cased and stripped is lower case and trimmed. */
  lemma NormalizedNameShape(h: string)
    ensures Lower(Strip(Lower(h))) == Strip(Lower(h)) && Trimmed(Strip(Lower(h)))
  {
    StripTrimmed(Lower(h));
    StripOfLowerIsLower(h);
  }

  /** strip() leaves no whitespace at either end. */
  lemma StripTrimmed(s: string)
    ensures Trimmed(Strip(s))
  {
    var left := TrimLeft(s);
    var r := TrimRight(left);
    if r != [] {
      assert r == left[..|r|];
      assert r[0] == left[0];
    }
  }

  /** Every character of a stripped lower-cased name is already lower case. */
  lemma StripOfLowerIsLower(h: string)
    ensures Lower(Strip(Lower(h))) == Strip(Lower(h))
  {
    var low := Lower(h);
    var left := TrimLeft(low);
    var r := TrimRight(left);
    var start := |low| - |left|;
    forall k | 0 <= k < |r| ensures LowerChar(r[k]) == r[k] {
      assert r[k] == left[k] == low[start + k];
      LowerCharOfCase(h[start + k]);
    }
  }

  /** Every required name is among the headers. */
  predicate HasAll(required: seq<string>, headers: seq<string>)
  {
    forall h <- required :: h in headers
  }

  /** detect_csv_format on the reader's field names (None for an empty file, where reading the
      names raises and the answer is "unknown"). */
  function DetectCsvFormat(fieldnames: Option<seq<string>>): CsvFormat
  {
    match fieldnames
    case None => Unknown
    case Some(headers) =>
      var names := NormalizedHeaders(headers);
      if HasAll(SofiHeaders, names) then Sofi
      else if HasAll(CapitalOneHeaders, names) then CapitalOne
      else Unknown
  }

  // ---------------------------------------------------------------------------
  // Properties

  /** Detection looks only at which normalized names occur: header order, repetition, letter case
      and padding do not matter. */
  lemma DetectByNames(a: seq<string>, b: seq<string>)
    requires forall h :: h in NormalizedHeaders(a) <==> h in NormalizedHeaders(b)
    ensures DetectCsvFormat(Some(a)) == DetectCsvFormat(Some(b))
  {
  }

  /** An empty file, or a header without the names of either layout, is of no known layout. */
  lemma DetectUnknown(headers: seq<string>)
    requires !HasAll(SofiHeaders, NormalizedHeaders(headers)) && !HasAll(CapitalOneHeaders, NormalizedHeaders(headers))
    ensures DetectCsvFormat(None) == Unknown && DetectCsvFormat(Some(headers)) == Unknown
    ensures DetectCsvFormat(Some([])) == Unknown
  {
    assert "date" !in NormalizedHeaders([]) && "description" !in NormalizedHeaders([]);
  }

  /** A header carrying the names of both layouts is read as SoFi, which is tested first. */
  lemma DetectSofiFirst(headers: seq<string>)
    requires HasAll(SofiHeaders, NormalizedHeaders(headers)) && HasAll(CapitalOneHeaders, NormalizedHeaders(headers))
    ensures DetectCsvFormat(Some(headers)) == Sofi
  {
  }

  /** Detection does not depend on the letter case of the header names. */
  lemma DetectIgnoresCase(a: seq<string>, b: seq<string>)
    requires |a| == |b| && forall i :: 0 <= i < |a| ==> Lower(a[i]) == Lower(b[i])
    ensures DetectCsvFormat(Some(a)) == DetectCsvFormat(Some(b))
  {
    assert NormalizedHeaders(a) == NormalizedHeaders(b);
  }

  const SofiExport: seq<string> := ["Date", "Description", "Type", "Amount", "Current balance", "Status"]
  const CapitalOneExport: seq<string> := ["Transaction Date", "Posted Date", "Card No.", "Description", "Category", "Debit", "Credit"]

  /** The SoFi export's header is detected as SoFi. */
  lemma SofiExportDetected()
    ensures DetectCsvFormat(Some(SofiExport)) == Sofi
  {
    var names := ["date", "description", "type", "amount", "current balance", "status"];
    SofiExportNormalized();
    assert HasAll(SofiHeaders, names);
  }

  /** The Capital One export's header is detected as Capital One: it has no Type, Amount or
      Status column. */
  lemma CapitalOneExportDetected()
    ensures DetectCsvFormat(Some(CapitalOneExport)) == CapitalOne
  {
    var names := ["transaction date", "posted date", "card no.", "description", "category", "debit", "credit"];
    CapitalOneExportNormalized();
    assert "type" !in names;
    assert HasAll(CapitalOneHeaders, names);
  }

  lemma SofiExportNormalized()
    ensures NormalizedHeaders(SofiExport) == ["date", "description", "type", "amount", "current balance", "status"]
  {
    DateHeader(); DescriptionHeader(); TypeHeader(); AmountHeader(); CurrentBalanceHeader(); StatusHeader();
  }

  lemma CapitalOneExportNormalized()
    ensures NormalizedHeaders(CapitalOneExport) ==
      ["transaction date", "posted date", "card no.", "description", "category", "debit", "credit"]
  {
    var h := CapitalOneExport;
    assert h == ["Transaction Date", "Posted Date"] + ["Card No.", "Description"] + ["Category", "Debit"] + ["Credit"];
    TransactionDateHeader(); PostedDateHeader(); CardNoHeader(); DescriptionHeader();
    CategoryHeader(); DebitHeader(); CreditHeader();
    NormalizedPair("Transaction Date", "Posted Date", "transaction date", "posted date");
    NormalizedPair("Card No.", "Description", "card no.", "description");
    NormalizedPair("Category", "Debit", "category", "debit");
    assert NormalizedHeaders(["Credit"]) == ["credit"];
    NormalizedHeadersAppend(["Transaction Date", "Posted Date"], ["Card No.", "Description"]);
    NormalizedHeadersAppend(["Transaction Date", "Posted Date"] + ["Card No.", "Description"], ["Category", "Debit"]);
    NormalizedHeadersAppend(["Transaction Date", "Posted Date"] + ["Card No.", "Description"] + ["Category", "Debit"], ["Credit"]);
  }

  /** Two headers whose names normalize to x and y. */
  lemma NormalizedPair(a: string, b: string, x: string, y: string)
    requires Strip(Lower(a)) == x && Strip(Lower(b)) == y
    ensures NormalizedHeaders([a, b]) == [x, y]
  {
  }

  /** Headers normalize one by one. */
  lemma NormalizedHeadersAppend(a: seq<string>, b: seq<string>)
    ensures NormalizedHeaders(a + b) == NormalizedHeaders(a) + NormalizedHeaders(b)
  {
  }

  // One lemma per header name of the two exports: the normalized name each one yields.

  lemma DateHeader() ensures Strip(Lower("Date")) == "date" { assert Lower("Date") == "date"; StripOfTrimmed("date"); }
  lemma DescriptionHeader() ensures Strip(Lower("Description")) == "description" { assert Lower("Description") == "description"; StripOfTrimmed("description"); }
  lemma TypeHeader() ensures Strip(Lower("Type")) == "type" { assert Lower("Type") == "type"; StripOfTrimmed("type"); }
  lemma AmountHeader() ensures Strip(Lower("Amount")) == "amount" { assert Lower("Amount") == "amount"; StripOfTrimmed("amount"); }
  lemma CurrentBalanceHeader() ensures Strip(Lower("Current balance")) == "current balance" { assert Lower("Current balance") == "current balance"; StripOfTrimmed("current balance"); }
  lemma StatusHeader() ensures Strip(Lower("Status")) == "status" { assert Lower("Status") == "status"; StripOfTrimmed("status"); }
  lemma TransactionDateHeader() ensures Strip(Lower("Transaction Date")) == "transaction date" { assert Lower("Transaction Date") == "transaction date"; StripOfTrimmed("transaction date"); }
  lemma PostedDateHeader() ensures Strip(Lower("Posted Date")) == "posted date" { assert Lower("Posted Date") == "posted date"; StripOfTrimmed("posted date"); }
  lemma CardNoHeader() ensures Strip(Lower("Card No.")) == "card no." { assert Lower("Card No.") == "card no."; StripOfTrimmed("card no."); }
  lemma CategoryHeader() ensures Strip(Lower("Category")) == "category" { assert Lower("Category") == "category"; StripOfTrimmed("category"); }
  lemma DebitHeader() ensures Strip(Lower("Debit")) == "debit" { assert Lower("Debit") == "debit"; StripOfTrimmed("debit"); }
  lemma CreditHeader() ensures Strip(Lower("Credit")) == "credit" { assert Lower("Credit") == "credit"; StripOfTrimmed("credit"); }
}
