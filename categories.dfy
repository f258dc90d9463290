/**
  The closed category enumerations, the category classifier (store rules, then
  keyword rules, then the "Other Expense" default) and the category normalizer
  (with is_valid_category and get_transaction_type) of the rule engine.
*/
module Categories {
  import opened Wrappers
  import opened Text
  import opened Rules

  /** Whether a transaction adds to or takes from the balance ("income" / "expense"). */
  datatype TxType = Income | Expense

  const ExpenseCategories: seq<string> := [
    "Dining Out", "Entertainment", "Gas & Auto", "Gifts", "Recreation", "Education", "Groceries",
    "Health & Fitness", "Household", "Subscriptions", "Phone", "Rent", "Shopping", "Student Loan",
    "Travel", "Car Payment", "Utilities", "Other Expense"]

  const IncomeCategories: seq<string> := ["Salary", "Interest", "Refund", "Gift", "Other Income"]

  /** sorted(EXPENSE_CATEGORIES + INCOME_CATEGORIES), by code point. */
  const AllCategories: seq<string> := [
    "Car Payment", "Dining Out", "Education", "Entertainment", "Gas & Auto", "Gift", "Gifts",
    "Groceries", "Health & Fitness", "Household", "Interest", "Other Expense", "Other Income",
    "Phone", "Recreation", "Refund", "Rent", "Salary", "Shopping", "Student Loan", "Subscriptions",
    "Travel", "Utilities"]

  /** Old and variant names, keyed in lower case. */
  const CategoryMapping: map<string, string> := map[
    "fun money" := "Entertainment",
    "fun money/entertainment" := "Entertainment",
    "golf" := "Recreation",
    "grad school" := "Education",
    "home & hygiene" := "Household",
    "netflix" := "Subscriptions",
    "spotify" := "Subscriptions",
    "phone storage" := "Subscriptions",
    "other expense" := "Other Expense",
    "other income" := "Other Income"]

  /** categorize_by_store: each rule fires when one of its keywords occurs in the lower-cased store. */
  const StoreCategoryRules: seq<(seq<string>, string)> := [
    (["target", "walmart", "costco", "whole foods", "trader joe", "kroger", "safeway", "aldi", "publix"], "Groceries"),
    (["mcdonald", "burger king", "taco bell", "chipotle", "subway", "kfc", "wendys", "chick-fil-a", "popeyes"], "Dining Out"),
    (["starbucks", "dunkin", "restaurant", "cafe", "coffee", "pizza", "panera"], "Dining Out"),
    (["shell", "chevron", "exxon", "mobil", "bp", "gas", "fuel"], "Gas & Auto"),
    (["netflix", "spotify", "hulu", "disney", "apple music", "icloud", "dropbox"], "Subscriptions"),
    (["amazon", "ebay", "etsy"], "Shopping"),
    (["cvs", "walgreens", "pharmacy", "gym", "fitness"], "Health & Fitness"),
    (["verizon", "at&t", "t-mobile", "sprint", "xfinity", "comcast"], "Phone"),
    (["uber", "lyft"], "Travel")]

  /** categorize_by_keywords after its "interest" test: rules over the lower-cased description. */
  const DescriptionCategoryRules: seq<(seq<string>, string)> := [
    (["payroll", "salary", "direct deposit"], "Salary"),
    (["rent", "apartment", "housing"], "Rent"),
    (["electric", "water", "utility", "gas bill", "internet"], "Utilities"),
    (["student loan", "navient", "great lakes", "fedloan"], "Student Loan"),
    (["auto loan", "car payment", "vehicle loan"], "Car Payment")]

  /** The categories categorize_by_store can produce. */
  const StoreRuleCategories: seq<string> :=
    ["Groceries", "Dining Out", "Gas & Auto", "Subscriptions", "Shopping", "Health & Fitness", "Phone", "Travel"]

  /** The categories categorize_by_keywords can produce. */
  const KeywordCategories: seq<string> := ["Interest", "Salary", "Rent", "Utilities", "Student Loan", "Car Payment"]

  /** The hit test of a keyword rule against a text: any keyword occurs in its lower-cased form. */
  function KeywordHit(text: string): seq<string> -> bool
  {
    keywords => ContainsAny(keywords, Lower(text))
  }

  /** categorize_by_store: the category of the first store rule whose keyword occurs in the store name. */
  function CategorizeByStore(storeName: string): (r: Option<string>)
    ensures r.None? || r.value in StoreRuleCategories
  {
    FirstMatchWithin(StoreCategoryRules, KeywordHit(storeName), StoreRuleCategories);
    FirstMatch(StoreCategoryRules, KeywordHit(storeName))
  }

  /** categorize_by_keywords: "interest" in the description or the type, then the description rules. */
  function CategorizeByKeywords(description: string, transactionType: string): (r: Option<string>)
    ensures r.None? || r.value in KeywordCategories
  {
    if IsSubstring("interest", Lower(description)) || IsSubstring("interest", Lower(transactionType)) then
      Some("Interest")
    else
      FirstMatchWithin(DescriptionCategoryRules, KeywordHit(description), KeywordCategories);
      FirstMatch(DescriptionCategoryRules, KeywordHit(description))
  }

  /** The classifier's categories are expense categories or income categories, every one of them
      is in ALL_CATEGORIES, and the two enumerations are disjoint. */
  lemma ClassifierCategoriesAreCanonical()
    ensures forall c <- StoreRuleCategories :: c in ExpenseCategories && c != "Other Expense"
    ensures "Other Expense" !in KeywordCategories
    ensures forall c <- ExpenseCategories :: c in AllCategories
    ensures forall c <- IncomeCategories :: c in AllCategories && c !in ExpenseCategories
    ensures forall c <- KeywordCategories :: c in AllCategories
  {
    StoreRuleCategoriesAreExpenses();
    ExpenseCategoriesListed();
    IncomeCategoriesListed();
    KeywordCategoriesListed();
  }

  lemma StoreRuleCategoriesAreExpenses()
    ensures forall c <- StoreRuleCategories :: c in ExpenseCategories && c != "Other Expense"
  {
  }

  lemma ExpenseCategoriesListed()
    ensures forall c <- ExpenseCategories :: c in AllCategories
  {
  }

  lemma IncomeCategoriesListed()
    ensures forall c <- IncomeCategories :: c in AllCategories && c !in ExpenseCategories
  {
  }

  lemma KeywordCategoriesListed()
    ensures "Other Expense" !in KeywordCategories
    ensures forall c <- KeywordCategories :: c in AllCategories
  {
  }

  /** suggest_category: store rules, then keyword rules, then "Other Expense"; always a canonical category. */
  function SuggestCategory(store: string, description: string, transactionType: string): (r: string)
    ensures r in AllCategories
  {
    ClassifierCategoriesAreCanonical();
    match CategorizeByStore(store)
    case Some(c) => c
    case None =>
      match CategorizeByKeywords(description, transactionType)
      case Some(c) => c
      case None => "Other Expense"
  }

  /** The first store rule that fires decides the category, whatever the description and type say. */
  lemma SuggestCategoryStoreFirst(store: string, description: string, transactionType: string, k: int)
    requires IsFirstHit(StoreCategoryRules, KeywordHit(store), k)
    ensures SuggestCategory(store, description, transactionType) == StoreCategoryRules[k].1
  {
    FirstMatchAtFirstHit(StoreCategoryRules, KeywordHit(store), k);
  }

  /** No store rule fires exactly when none of the store keywords occurs in the lower-cased store. */
  lemma CategorizeByStoreNone(storeName: string)
    ensures CategorizeByStore(storeName).None? <==>
      forall k | 0 <= k < |StoreCategoryRules| :: !ContainsAny(StoreCategoryRules[k].0, Lower(storeName))
  {
    FirstMatchNone(StoreCategoryRules, KeywordHit(storeName));
  }

  /** The default is used exactly when neither the store rules nor the keyword rules fire. */
  lemma SuggestCategoryDefault(store: string, description: string, transactionType: string)
    ensures SuggestCategory(store, description, transactionType) == "Other Expense" <==>
      CategorizeByStore(store).None? && CategorizeByKeywords(description, transactionType).None?
  {
  }

  /** The first of `cats` that equals `key` once lower-cased. */
  function FindIgnoringCase(cats: seq<string>, key: string): (r: Option<string>)
    ensures r.Some? ==> r.value in cats && Lower(r.value) == key
    ensures r.None? <==> forall c <- cats :: Lower(c) != key
  {
    if cats == [] then None
    else if key == Lower(cats[0]) then Some(cats[0])
    else FindIgnoringCase(cats[1..], key)
  }

  /** normalize_category, as a value. */
  function NormalizedCategory(category: string): string
  {
    if category == [] then "Other Expense"
    else
      var key := Strip(Lower(category));
      if key in CategoryMapping then CategoryMapping[key]
      else match FindIgnoringCase(AllCategories, key)
        case Some(c) => c
        case None => Title(category)
  }

  /** normalize_category: the mapping, then a scan of ALL_CATEGORIES with early return, then title case. */
  method NormalizeCategory(category: string) returns (r: string)
    ensures r == NormalizedCategory(category)
  {
    if category == [] {
      return "Other Expense";
    }
    var key := Strip(Lower(category));
    if key in CategoryMapping {
      return CategoryMapping[key];
    }
    for i := 0 to |AllCategories|
      invariant FindIgnoringCase(AllCategories[i..], key) == FindIgnoringCase(AllCategories, key)
    {
      if key == Lower(AllCategories[i]) {
        return AllCategories[i];
      }
      assert AllCategories[i..][1..] == AllCategories[i + 1..];
    }
    return Title(category);
  }

  /** The literal facts about ALL_CATEGORIES the proofs below rest on: every name starts with an
      upper-case letter, ends with a lower-case one, and no two names share both length and initial. */
  lemma CategoryShapes()
    ensures forall i | 0 <= i < |AllCategories| :: |AllCategories[i]| >= 4 && IsUpper(AllCategories[i][0])
    ensures forall i | 0 <= i < |AllCategories| :: IsLower(AllCategories[i][|AllCategories[i]| - 1])
    ensures forall i, j | 0 <= i < j < |AllCategories| ::
      |AllCategories[i]| != |AllCategories[j]| || AllCategories[i][0] != AllCategories[j][0]
  {
    CategoryLengthsAndInitials();
  }

  lemma CategoryLengthsAndInitials()
    ensures forall i, j | 0 <= i < j < |AllCategories| ::
      |AllCategories[i]| != |AllCategories[j]| || AllCategories[i][0] != AllCategories[j][0]
  {
  }

  /** Every mapped value is canonical. */
  lemma MappingValuesCanonical()
    ensures forall k <- CategoryMapping :: CategoryMapping[k] in AllCategories
  {
  }

  /** A mapping key that shares length and first two letters with a canonical name maps to it. */
  lemma MappingKeyShapes()
    ensures forall k <- CategoryMapping, i | 0 <= i < |AllCategories| ::
      |AllCategories[i]| == |k| && LowerChar(AllCategories[i][0]) == k[0] && LowerChar(AllCategories[i][1]) == k[1]
      ==> CategoryMapping[k] == AllCategories[i]
  {
    MappingKeyShapesBefore();
    MappingKeyShapesFrom();
  }

  lemma MappingKeyShapesBefore()
    ensures forall k <- CategoryMapping, i | 0 <= i < 12 ::
      |AllCategories[i]| == |k| && LowerChar(AllCategories[i][0]) == k[0] && LowerChar(AllCategories[i][1]) == k[1]
      ==> CategoryMapping[k] == AllCategories[i]
  {
  }

  lemma MappingKeyShapesFrom()
    ensures forall k <- CategoryMapping, i | 12 <= i < |AllCategories| ::
      |AllCategories[i]| == |k| && LowerChar(AllCategories[i][0]) == k[0] && LowerChar(AllCategories[i][1]) == k[1]
      ==> CategoryMapping[k] == AllCategories[i]
  {
  }

  /** Two canonical names never differ only in case, so the scan order of ALL_CATEGORIES is irrelevant. */
  lemma CanonicalLowerInjective(i: int, j: int)
    requires 0 <= i < |AllCategories| && 0 <= j < |AllCategories|
    requires Lower(AllCategories[i]) == Lower(AllCategories[j])
    ensures i == j
  {
    CategoryShapes();
    var c, d := AllCategories[i], AllCategories[j];
    assert Lower(c)[0] == LowerChar(c[0]) && Lower(d)[0] == LowerChar(d[0]);
    if i != j {
      assert false;
    }
  }

  /** A canonical name has no whitespace at its ends, nor has its lower case. */
  lemma CanonicalKey(i: int)
    requires 0 <= i < |AllCategories|
    ensures AllCategories[i] != [] && Strip(Lower(AllCategories[i])) == Lower(AllCategories[i])
  {
    CategoryShapes();
    LowerKeepsSpaces(AllCategories[i]);
    StripOfTrimmed(Lower(AllCategories[i]));
  }

  /** The only mapping key that is the lower case of a canonical name maps back to that name. */
  lemma MappingOfCanonical(i: int)
    requires 0 <= i < |AllCategories| && Lower(AllCategories[i]) in CategoryMapping
    ensures CategoryMapping[Lower(AllCategories[i])] == AllCategories[i]
  {
    CategoryShapes();
    MappingKeyShapes();
    var c := AllCategories[i];
    assert Lower(c)[0] == LowerChar(c[0]) && Lower(c)[1] == LowerChar(c[1]);
  }

  /** A name the mapping leaves alone (or maps to itself) and the scan finds is its own normalization. */
  lemma NormalizedWhenFound(category: string)
    requires category != []
    requires Strip(Lower(category)) in CategoryMapping ==> CategoryMapping[Strip(Lower(category))] == category
    requires FindIgnoringCase(AllCategories, Strip(Lower(category))) == Some(category)
    ensures NormalizedCategory(category) == category
  {
  }

  /** normalize_category is the identity on the canonical categories. */
  lemma NormalizedCategoryAt(i: int)
    requires 0 <= i < |AllCategories|
    ensures NormalizedCategory(AllCategories[i]) == AllCategories[i]
  {
    CanonicalKey(i);
    FindAtCanonical(i);
    if Lower(AllCategories[i]) in CategoryMapping {
      MappingOfCanonical(i);
    }
    NormalizedWhenFound(AllCategories[i]);
  }

  lemma FindAtCanonical(i: int)
    requires 0 <= i < |AllCategories|
    ensures FindIgnoringCase(AllCategories, Lower(AllCategories[i])) == Some(AllCategories[i])
  {
    var key := Lower(AllCategories[i]);
    var f := FindIgnoringCase(AllCategories, key);
    assert f.Some? by { assert Lower(AllCategories[i]) == key; }
    var j :| 0 <= j < |AllCategories| && AllCategories[j] == f.value;
    CanonicalLowerInjective(i, j);
  }

  lemma NormalizedCategoryOfCanonical(c: string)
    requires c in AllCategories
    ensures NormalizedCategory(c) == c
  {
    var i :| 0 <= i < |AllCategories| && AllCategories[i] == c;
    NormalizedCategoryAt(i);
  }

  /** Every classifier result is left unchanged by normalize_category. */
  lemma SuggestedCategoryIsNormal(store: string, description: string, transactionType: string)
    ensures NormalizedCategory(SuggestCategory(store, description, transactionType))
         == SuggestCategory(store, description, transactionType)
  {
    NormalizedCategoryOfCanonical(SuggestCategory(store, description, transactionType));
  }

  /** normalize_category is idempotent. */
  lemma NormalizedCategoryIdempotent(category: string)
    ensures NormalizedCategory(NormalizedCategory(category)) == NormalizedCategory(category)
  {
    MappingValuesCanonical();
    if category == [] {
      NormalizedCategoryOfCanonical("Other Expense");
    } else {
      var key := Strip(Lower(category));
      if key in CategoryMapping {
        NormalizedCategoryOfCanonical(CategoryMapping[key]);
      } else if FindIgnoringCase(AllCategories, key).Some? {
        NormalizedCategoryOfCanonical(FindIgnoringCase(AllCategories, key).value);
      } else {
        LowerOfTitle(category);
        TitleIdempotent(category);
        assert |Title(category)| == |category|;
      }
    }
  }

  /** is_valid_category */
  function IsValidCategory(category: string): bool
  {
    if category == [] then false else NormalizedCategory(category) in AllCategories
  }

  /** A category is valid exactly when it is non-empty and, once lower-cased and stripped, either a
      mapping key or the lower case of a canonical name: the title-cased fallback is never canonical. */
  lemma IsValidCategoryIff(category: string)
    ensures IsValidCategory(category) <==>
      category != [] &&
      (Strip(Lower(category)) in CategoryMapping || exists c <- AllCategories :: Lower(c) == Strip(Lower(category)))
  {
    MappingValuesCanonical();
    if category != [] {
      var key := Strip(Lower(category));
      if key !in CategoryMapping && FindIgnoringCase(AllCategories, key).None? && Title(category) in AllCategories {
        var d := Title(category);
        CategoryShapes();
        var i :| 0 <= i < |AllCategories| && AllCategories[i] == d;
        TitleKeepsSpaces(category);
        LowerOfTitle(category);
        CanonicalKey(i);
        assert false;
      }
    }
  }

  /** get_transaction_type */
  function GetTransactionType(category: string): TxType
  {
    if NormalizedCategory(category) in IncomeCategories then Income else Expense
  }

  /** Income categories are income, expense categories and everything invalid are expense. */
  lemma TransactionTypeOfCategories(category: string)
    ensures category in IncomeCategories ==> GetTransactionType(category) == Income
    ensures category in ExpenseCategories ==> GetTransactionType(category) == Expense
    ensures !IsValidCategory(category) ==> GetTransactionType(category) == Expense
  {
    ClassifierCategoriesAreCanonical();
    if category in AllCategories {
      NormalizedCategoryOfCanonical(category);
    }
  }

  /** An unknown name such as "xyz" is not a valid category, and neither is "": both count as
      expenses. */
  lemma UnknownCategoryInvalid()
    ensures !IsValidCategory("xyz") && GetTransactionType("xyz") == Expense
    ensures !IsValidCategory("") && GetTransactionType("") == Expense
  {
    var key := Strip(Lower("xyz"));
    assert Lower("xyz") == "xyz";
    StripOfTrimmed("xyz");
    CategoryShapes();
    forall c <- AllCategories ensures Lower(c) != key {
      assert |Lower(c)| == |c|;
    }
    IsValidCategoryIff("xyz");
    TransactionTypeOfCategories("xyz");
    TransactionTypeOfCategories("");
  }
}
