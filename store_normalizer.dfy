/**
  normalize_store: maps a raw merchant string to a display name. The exact table is
  consulted first, then the ordered pattern table (first pattern contained in the
  lower-cased name wins), and otherwise the cleaned name is title-cased.
*/
module StoreNormalizer {
  import opened Wrappers
  import opened Text
  import opened Rules
  import opened Cleanup

  /** Groceries & Retail */
  const GroceriesAndRetail: seq<(string, string)> := [
    ("target", "Target"),
    ("walmart", "Walmart"),
    ("costco", "Costco"),
    ("sam's club", "Sam's Club"),
    ("sams club", "Sam's Club"),
    ("whole foods", "Whole Foods"),
    ("trader joe", "Trader Joe's"),
    ("aldi", "Aldi"),
    ("kroger", "Kroger"),
    ("publix", "Publix"),
    ("safeway", "Safeway")]

  /** Online Shopping */
  const OnlineShopping: seq<(string, string)> := [
    ("amazon", "Amazon"),
    ("amzn", "Amazon"),
    ("ebay", "eBay"),
    ("etsy", "Etsy")]

  /** Dining - Fast Food */
  const FastFood: seq<(string, string)> := [
    ("mcdonald", "McDonald's"),
    ("mcdonalds", "McDonald's"),
    ("burger king", "Burger King"),
    ("wendy", "Wendy's"),
    ("taco bell", "Taco Bell"),
    ("chipotle", "Chipotle"),
    ("subway", "Subway"),
    ("panera", "Panera Bread"),
    ("chick-fil-a", "Chick-fil-A"),
    ("chick fil a", "Chick-fil-A"),
    ("kfc", "KFC"),
    ("popeyes", "Popeyes")]

  /** Dining - Fast Casual & Restaurants */
  const FastCasualAndRestaurants: seq<(string, string)> := [
    ("starbucks", "Starbucks"),
    ("dunkin", "Dunkin'"),
    ("panda express", "Panda Express"),
    ("olive garden", "Olive Garden"),
    ("applebee", "Applebee's"),
    ("red lobster", "Red Lobster"),
    ("buffalo wild", "Buffalo Wild Wings")]

  /** Gas Stations */
  const GasStations: seq<(string, string)> := [
    ("shell", "Shell"),
    ("chevron", "Chevron"),
    ("exxon", "Exxon"),
    ("mobil", "Mobil"),
    ("bp", "BP"),
    ("texaco", "Texaco"),
    ("circle k", "Circle K"),
    ("7-eleven", "7-Eleven"),
    ("7 eleven", "7-Eleven")]

  /** Subscriptions & Services */
  const SubscriptionsAndServices: seq<(string, string)> := [
    ("netflix", "Netflix"),
    ("spotify", "Spotify"),
    ("hulu", "Hulu"),
    ("disney", "Disney+"),
    ("apple.com/bill", "Apple"),
    ("apple music", "Apple Music"),
    ("icloud", "iCloud"),
    ("dropbox", "Dropbox"),
    ("google storage", "Google One")]

  /** Transportation */
  const Transportation: seq<(string, string)> := [
    ("uber", "Uber"),
    ("lyft", "Lyft"),
    ("uber eats", "Uber Eats"),
    ("doordash", "DoorDash"),
    ("grubhub", "GrubHub")]

  /** Phone/Internet/Utilities */
  const PhoneInternetUtilities: seq<(string, string)> := [
    ("verizon", "Verizon"),
    ("at&t", "AT&T"),
    ("t-mobile", "T-Mobile"),
    ("sprint", "Sprint"),
    ("xfinity", "Xfinity"),
    ("comcast", "Comcast")]

  /** Pharmacies & Health */
  const PharmaciesAndHealth: seq<(string, string)> := [
    ("cvs", "CVS"),
    ("walgreens", "Walgreens"),
    ("rite aid", "Rite Aid"),
    ("pharmacy", "Pharmacy")]

  /** Fitness */
  const Fitness: seq<(string, string)> := [
    ("planet fitness", "Planet Fitness"),
    ("la fitness", "LA Fitness"),
    ("24 hour", "24 Hour Fitness")]

  /** STORE_PATTERNS in declaration order: (substring of the lower-cased name, display name). */
  const StorePatterns: seq<(string, string)> :=
    GroceriesAndRetail + OnlineShopping + FastFood + FastCasualAndRestaurants + GasStations
    + SubscriptionsAndServices + Transportation + PhoneInternetUtilities + PharmaciesAndHealth + Fitness

  /** STORE_EXACT_MATCH: the whole stripped, lower-cased name. */
  const StoreExactMatch: map<string, string> := map[
    "tsq" := "Times Square",
    "sq" := "Square",
    "pypl" := "PayPal",
    "amzn" := "Amazon"]

  /** The hit test of a pattern against the lower-cased name: `pattern in store_lower`. */
  function PatternHit(storeLower: string): string -> bool
  {
    pattern => IsSubstring(pattern, storeLower)
  }

  /** normalize_store, as a value. */
  function NormalizedStore(store: string): string
  {
    if store == [] then []
    else
      var original := Strip(store);
      var storeLower := Lower(original);
      if storeLower in StoreExactMatch then StoreExactMatch[storeLower]
      else match FirstMatch(StorePatterns, PatternHit(storeLower))
        case Some(name) => name
        case None =>
          var cleaned := Cleaned(original);
          if cleaned != [] then Title(cleaned) else Title(original)
  }

  /** Step 2 of normalize_store: the scan of STORE_PATTERNS in order, returning at the first
      pattern contained in the lower-cased name. */
  method MatchStorePattern(storeLower: string) returns (matched: Option<string>)
    ensures matched == FirstMatch(StorePatterns, PatternHit(storeLower))
  {
    for i := 0 to |StorePatterns|
      invariant FirstMatch(StorePatterns[i..], PatternHit(storeLower)) == FirstMatch(StorePatterns, PatternHit(storeLower))
    {
      var (pattern, cleanName) := StorePatterns[i];
      if IsSubstring(pattern, storeLower) {
        return Some(cleanName);
      }
      FirstMatchSkip(StorePatterns, PatternHit(storeLower), i);
    }
    return None;
  }

  /** Step 3 of normalize_store: the removal chain and the suffix loop, reassigning `cleaned`. */
  method CleanStore(original: string) returns (cleaned: string)
    ensures cleaned == Cleaned(original)
  {
    cleaned := original;
    cleaned := RemoveStarCodes(cleaned);
    cleaned := RemoveHashCodes(cleaned);
    cleaned := RemoveLongNumbers(cleaned);
    cleaned := RemoveMarketplace(cleaned);
    cleaned := RemovePayment(cleaned);
    ghost var beforeSuffixes := cleaned;
    for i := 0 to |Suffixes|
      invariant StripSuffixes(cleaned, Suffixes[i..]) == StripSuffixes(beforeSuffixes, Suffixes)
    {
      cleaned := StripSuffix(cleaned, Suffixes[i]);
      assert Suffixes[i..][1..] == Suffixes[i + 1..];
    }
    cleaned := CollapseSpaces(cleaned);
    cleaned := Strip(cleaned);
  }

  /** normalize_store: the exact table, the pattern scan with early return, then the cleanup. */
  method NormalizeStore(store: string) returns (r: string)
    ensures r == NormalizedStore(store)
  {
    if store == [] {
      return "";
    }
    var original := Strip(store);
    var storeLower := Lower(original);
    if storeLower in StoreExactMatch {
      return StoreExactMatch[storeLower];
    }
    var matched := MatchStorePattern(storeLower);
    if matched.Some? {
      return matched.value;
    }
    var cleaned := CleanStore(original);
    if cleaned != [] {
      return Title(cleaned);
    }
    return Title(original);
  }

  /** The empty name has the empty key. */
  lemma BlankKey()
    ensures Lower(Strip([])) == []
  {
  }

  /** No pattern and no display name of a table is empty. */
  ghost predicate NonEmptyEntries(table: seq<(string, string)>)
  {
    forall i | 0 <= i < |table| :: table[i].0 != [] && table[i].1 != []
  }

  /** No entry of a table has display name `name`. */
  ghost predicate Avoids(table: seq<(string, string)>, name: string)
  {
    forall i | 0 <= i < |table| :: table[i].1 != name
  }

  /** No pattern of a table occurs in the lower-cased name `s`. */
  ghost predicate Misses(table: seq<(string, string)>, s: string)
  {
    forall i | 0 <= i < |table| :: !IsSubstring(table[i].0, s)
  }

  lemma AppendEntries(a: seq<(string, string)>, b: seq<(string, string)>, name: string)
    ensures NonEmptyEntries(a) && NonEmptyEntries(b) ==> NonEmptyEntries(a + b)
    ensures Avoids(a, name) && Avoids(b, name) ==> Avoids(a + b, name)
    ensures Misses(a, name) && Misses(b, name) ==> Misses(a + b, name)
  {
    assert forall i | |a| <= i < |a + b| :: (a + b)[i] == b[i - |a|];
  }

  lemma GroupsNonEmpty()
    ensures NonEmptyEntries(GroceriesAndRetail) && NonEmptyEntries(OnlineShopping) && NonEmptyEntries(FastFood)
    ensures NonEmptyEntries(FastCasualAndRestaurants) && NonEmptyEntries(GasStations)
    ensures NonEmptyEntries(SubscriptionsAndServices) && NonEmptyEntries(Transportation)
    ensures NonEmptyEntries(PhoneInternetUtilities) && NonEmptyEntries(PharmaciesAndHealth) && NonEmptyEntries(Fitness)
  {
    FirstGroupsNonEmpty();
  }

  lemma FirstGroupsNonEmpty()
    ensures NonEmptyEntries(GroceriesAndRetail) && NonEmptyEntries(OnlineShopping) && NonEmptyEntries(FastFood)
    ensures NonEmptyEntries(FastCasualAndRestaurants) && NonEmptyEntries(GasStations)
  {
  }

  lemma StorePatternsNonEmpty()
    ensures NonEmptyEntries(StorePatterns)
    ensures forall k <- StoreExactMatch :: k != [] && StoreExactMatch[k] != []
  {
    GroupsNonEmpty();
    var t := GroceriesAndRetail;
    AppendEntries(t, OnlineShopping, ""); t := t + OnlineShopping;
    AppendEntries(t, FastFood, ""); t := t + FastFood;
    AppendEntries(t, FastCasualAndRestaurants, ""); t := t + FastCasualAndRestaurants;
    AppendEntries(t, GasStations, ""); t := t + GasStations;
    AppendEntries(t, SubscriptionsAndServices, ""); t := t + SubscriptionsAndServices;
    AppendEntries(t, Transportation, ""); t := t + Transportation;
    AppendEntries(t, PhoneInternetUtilities, ""); t := t + PhoneInternetUtilities;
    AppendEntries(t, PharmaciesAndHealth, ""); t := t + PharmaciesAndHealth;
    AppendEntries(t, Fitness, ""); t := t + Fitness;
  }

  lemma GroupsAvoidUberEats()
    ensures Avoids(GroceriesAndRetail, "Uber Eats") && Avoids(OnlineShopping, "Uber Eats") && Avoids(FastFood, "Uber Eats")
    ensures Avoids(FastCasualAndRestaurants, "Uber Eats") && Avoids(GasStations, "Uber Eats")
    ensures Avoids(SubscriptionsAndServices, "Uber Eats")
  {
  }

  /** "uber" is entry 52 and "uber eats" entry 54; no entry up to "uber" is named "Uber Eats". */
  lemma UberEatsEntry()
    ensures StorePatterns[52] == ("uber", "Uber") && StorePatterns[54] == ("uber eats", "Uber Eats")
    ensures forall i | 0 <= i <= 52 :: StorePatterns[i].1 != "Uber Eats"
  {
    var t := UberEatsPrefix();
    var u := t + Transportation;
    assert StorePatterns == u + PhoneInternetUtilities + PharmaciesAndHealth + Fitness;
    forall i | 0 <= i < |u| ensures StorePatterns[i] == u[i] {
      PrefixIndex(u, PhoneInternetUtilities, i);
      PrefixIndex(u + PhoneInternetUtilities, PharmaciesAndHealth, i);
      PrefixIndex(u + PhoneInternetUtilities + PharmaciesAndHealth, Fitness, i);
    }
    assert u[52] == Transportation[0] && u[54] == Transportation[2];
  }

  /** The groups before Transportation: 52 entries, none named "Uber Eats". */
  lemma UberEatsPrefix() returns (t: seq<(string, string)>)
    ensures t == GroceriesAndRetail + OnlineShopping + FastFood + FastCasualAndRestaurants + GasStations + SubscriptionsAndServices
    ensures |t| == 52 && Avoids(t, "Uber Eats")
  {
    var name := "Uber Eats";
    GroupsAvoidUberEats();
    t := GroceriesAndRetail;
    AppendEntries(t, OnlineShopping, name); t := t + OnlineShopping;
    AppendEntries(t, FastFood, name); t := t + FastFood;
    AppendEntries(t, FastCasualAndRestaurants, name); t := t + FastCasualAndRestaurants;
    AppendEntries(t, GasStations, name); t := t + GasStations;
    AppendEntries(t, SubscriptionsAndServices, name); t := t + SubscriptionsAndServices;
  }

  lemma PrefixIndex<T>(a: seq<T>, b: seq<T>, i: int)
    requires 0 <= i < |a|
    ensures (a + b)[i] == a[i]
  {
  }

  /** A non-blank name never normalizes to "": only "" and all-whitespace input give "". */
  lemma NormalizedStoreBlank(store: string)
    ensures NormalizedStore(store) == [] <==> Strip(store) == []
  {
    if store != [] {
      if Strip(store) == [] {
        BlankStoreEmpty(store);
      } else {
        FilledStoreNonEmpty(store);
      }
    }
  }

  /** An all-whitespace name matches nothing and cleans to nothing. */
  lemma BlankStoreEmpty(store: string)
    requires store != [] && Strip(store) == []
    ensures NormalizedStore(store) == []
  {
    var storeLower := Lower(Strip(store));
    assert storeLower == [];
    StorePatternsNonEmpty();
    forall k | 0 <= k < |StorePatterns| ensures !PatternHit(storeLower)(StorePatterns[k].0) {
      NothingInEmpty(StorePatterns[k].0);
    }
    FirstMatchNone(StorePatterns, PatternHit(storeLower));
    CleanedEmpty();
  }

  /** Every branch of normalize_store gives a non-empty name for a name that is not blank. */
  lemma FilledStoreNonEmpty(store: string)
    requires Strip(store) != []
    ensures NormalizedStore(store) != []
  {
    var original := Strip(store);
    var storeLower := Lower(original);
    StorePatternsNonEmpty();
    if storeLower in StoreExactMatch {
    } else if FirstMatch(StorePatterns, PatternHit(storeLower)).Some? {
      var k := FirstMatchSome(StorePatterns, PatternHit(storeLower));
    } else {
      assert |Title(original)| == |original|;
    }
  }

  /** The exact table is keyed on the stripped, lower-cased name and short-circuits the patterns. */
  lemma NormalizedStoreExact(store: string)
    requires Lower(Strip(store)) in StoreExactMatch
    ensures NormalizedStore(store) == StoreExactMatch[Lower(Strip(store))]
  {
    StorePatternsNonEmpty();
    if store == [] {
      BlankKey();
      assert false;
    }
  }

  /** " PYPL " is an exact-table name once stripped and lower-cased. */
  lemma PaddedPaypal()
    ensures NormalizedStore(" PYPL ") == "PayPal"
  {
    PaddedPaypalKey();
    NormalizedStoreExact(" PYPL ");
  }

  lemma PaddedPaypalKey()
    ensures Lower(Strip(" PYPL ")) == "pypl"
  {
    PaddedPaypalStripped();
    PaypalLower();
  }

  lemma PaypalLower()
    ensures Lower("PYPL") == "pypl"
  {
    var s := "PYPL";
    assert s[0] == 'P' && s[1] == 'Y' && s[2] == 'P' && s[3] == 'L';
    forall i | 0 <= i < 4 ensures Lower(s)[i] == "pypl"[i] {
    }
  }

  lemma PaddedPaypalStripped()
    ensures Strip(" PYPL ") == "PYPL"
  {
    StripPadded(" ", "PYPL", " ");
    assert " PYPL " == " " + "PYPL" + " ";
  }

  /** Otherwise the first pattern in declaration order that occurs in the lower-cased name decides. */
  lemma NormalizedStoreFirstPattern(store: string, k: int)
    requires Lower(Strip(store)) !in StoreExactMatch
    requires IsFirstHit(StorePatterns, PatternHit(Lower(Strip(store))), k)
    ensures NormalizedStore(store) == StorePatterns[k].1
  {
    StorePatternsNonEmpty();
    FirstMatchAtFirstHit(StorePatterns, PatternHit(Lower(Strip(store))), k);
    if store == [] {
      NothingInEmpty(StorePatterns[k].0);
      assert false;
    }
  }

  /** The exact table holds only abbreviations of at most four letters. */
  lemma LongNameNotExact(storeLower: string)
    requires |storeLower| > 4
    ensures storeLower !in StoreExactMatch
  {
  }

  /** "uber" precedes "uber eats" and is a prefix of it, so a name containing "uber eats" is decided
      no later than the "uber" pattern and never comes out as "Uber Eats". */

  lemma UberEatsShadowed(store: string)
    requires IsSubstring("uber eats", Lower(Strip(store)))
    ensures exists k | 0 <= k <= 52 :: NormalizedStore(store) == StorePatterns[k].1
    ensures NormalizedStore(store) != "Uber Eats"
  {
    var storeLower := Lower(Strip(store));
    UberEatsEntry();
    PrefixOfSubstring("uber", "uber eats", storeLower);
    var k := FirstHitAtMost(StorePatterns, PatternHit(storeLower), 52);
    assert |storeLower| >= 9;
    LongNameNotExact(storeLower);
    NormalizedStoreFirstPattern(store, k);
  }

  /** When no table entry applies, the result is the cleaned name title-cased: well spaced, in title
      case and equal to the cleaned name up to letter case; or the title-cased input when cleanup
      leaves nothing. */
  lemma NormalizedStoreCleanup(store: string)
    requires store != [] && Lower(Strip(store)) !in StoreExactMatch
    requires FirstMatch(StorePatterns, PatternHit(Lower(Strip(store)))).None?
    ensures Cleaned(Strip(store)) != [] ==>
      var r := NormalizedStore(store);
      r == Title(Cleaned(Strip(store))) && WellSpaced(r) && Title(r) == r && Lower(r) == Lower(Cleaned(Strip(store)))
    ensures Cleaned(Strip(store)) == [] ==> NormalizedStore(store) == Title(Strip(store))
  {
    var cleaned := Cleaned(Strip(store));
    CleanedWellSpaced(Strip(store));
    TitleKeepsWellSpaced(cleaned);
    TitleIdempotent(cleaned);
    LowerOfTitle(cleaned);
  }

  /** "SOME RANDOM STORE LLC" matches no table entry, so it is cleaned and title-cased. */
  lemma RandomStoreNormalized()
    ensures NormalizedStore("SOME RANDOM STORE LLC") == "Some Random Store"
  {
    RandomStoreNoRule();
    RandomStoreCleaned();
    RandomStoreTitle();
    NormalizedStoreCleanup("SOME RANDOM STORE LLC");
  }

  lemma RandomStoreNoRule()
    ensures Strip("SOME RANDOM STORE LLC") == "SOME RANDOM STORE LLC"
    ensures Lower(Strip("SOME RANDOM STORE LLC")) !in StoreExactMatch
    ensures FirstMatch(StorePatterns, PatternHit(Lower(Strip("SOME RANDOM STORE LLC")))).None?
  {
    RandomStoreKey();
    LongNameNotExact("some random store llc");
    RandomStoreNoPattern();
  }

  lemma RandomStoreNoPattern()
    ensures FirstMatch(StorePatterns, PatternHit("some random store llc")).None?
  {
    RandomStoreMisses();
    FirstMatchNone(StorePatterns, PatternHit("some random store llc"));
  }

  lemma RandomStoreKey()
    ensures Strip("SOME RANDOM STORE LLC") == "SOME RANDOM STORE LLC"
    ensures Lower("SOME RANDOM STORE LLC") == "some random store llc"
  {
    StripOfTrimmed("SOME RANDOM STORE LLC");
    RandomStoreLower();
  }

  lemma RandomStoreLower()
    ensures Lower("SOME RANDOM STORE LLC") == "some random store llc"
  {
  }

  lemma RandomStoreTitle()
    ensures Title("SOME RANDOM STORE") == "Some Random Store"
  {
  }

  /** The characters of "some random store llc", and those before its final "c". */
  const RandomStoreChars: set<char> := {' ', 'a', 'c', 'd', 'e', 'l', 'm', 'n', 'o', 'r', 's', 't'}
  const RandomStoreCharsBeforeEnd: set<char> := {' ', 'a', 'd', 'e', 'l', 'm', 'n', 'o', 'r', 's', 't'}

  lemma RandomStoreAlphabet()
    ensures forall i | 0 <= i < |"some random store llc"| :: "some random store llc"[i] in RandomStoreChars
    ensures forall i | 0 <= i < |"some random store llc"| - 1 :: "some random store llc"[i] in RandomStoreCharsBeforeEnd
  {
  }

  /** No pattern of STORE_PATTERNS occurs in "some random store llc". */
  lemma RandomStoreMisses()
    ensures Misses(StorePatterns, "some random store llc")
  {
    var s := "some random store llc";
    RandomStoreAlphabet();
    RandomStoreMissesGroceriesAndRetail(s);
    RandomStoreMissesOnlineShopping(s);
    RandomStoreMissesFastFood(s);
    RandomStoreMissesFastCasualAndRestaurants(s);
    RandomStoreMissesGasStations(s);
    RandomStoreMissesSubscriptionsAndServices(s);
    RandomStoreMissesTransportation(s);
    RandomStoreMissesPhoneInternetUtilities(s);
    RandomStoreMissesPharmaciesAndHealth(s);
    RandomStoreMissesFitness(s);
    var t := GroceriesAndRetail;
    AppendEntries(t, OnlineShopping, s); t := t + OnlineShopping;
    AppendEntries(t, FastFood, s); t := t + FastFood;
    AppendEntries(t, FastCasualAndRestaurants, s); t := t + FastCasualAndRestaurants;
    AppendEntries(t, GasStations, s); t := t + GasStations;
    AppendEntries(t, SubscriptionsAndServices, s); t := t + SubscriptionsAndServices;
    AppendEntries(t, Transportation, s); t := t + Transportation;
    AppendEntries(t, PhoneInternetUtilities, s); t := t + PhoneInternetUtilities;
    AppendEntries(t, PharmaciesAndHealth, s); t := t + PharmaciesAndHealth;
    AppendEntries(t, Fitness, s); t := t + Fitness;
  }

  lemma RandomStoreMissesGroceriesAndRetail(s: string)
    requires forall i | 0 <= i < |s| :: s[i] in RandomStoreChars
    requires forall i | 0 <= i < |s| - 1 :: s[i] in RandomStoreCharsBeforeEnd
    ensures Misses(GroceriesAndRetail, s)
  {
    SomeCharOutside("target", s, RandomStoreChars, 3);
    SomeCharOutside("walmart", s, RandomStoreChars, 0);
    SomeCharOutsideBeforeEnd("costco", s, RandomStoreCharsBeforeEnd, 0);
    SomeCharOutside("sam's club", s, RandomStoreChars, 3);
    SomeCharOutside("sams club", s, RandomStoreChars, 7);
    SomeCharOutside("whole foods", s, RandomStoreChars, 0);
    SomeCharOutside("trader joe", s, RandomStoreChars, 7);
    SomeCharOutside("aldi", s, RandomStoreChars, 3);
    SomeCharOutside("kroger", s, RandomStoreChars, 0);
    SomeCharOutside("publix", s, RandomStoreChars, 0);
    SomeCharOutside("safeway", s, RandomStoreChars, 2);
  }

  lemma RandomStoreMissesOnlineShopping(s: string)
    requires forall i | 0 <= i < |s| :: s[i] in RandomStoreChars
    requires forall i | 0 <= i < |s| - 1 :: s[i] in RandomStoreCharsBeforeEnd
    ensures Misses(OnlineShopping, s)
  {
    SomeCharOutside("amazon", s, RandomStoreChars, 3);
    SomeCharOutside("amzn", s, RandomStoreChars, 2);
    SomeCharOutside("ebay", s, RandomStoreChars, 1);
    SomeCharOutside("etsy", s, RandomStoreChars, 3);
  }

  lemma RandomStoreMissesFastFood(s: string)
    requires forall i | 0 <= i < |s| :: s[i] in RandomStoreChars
    requires forall i | 0 <= i < |s| - 1 :: s[i] in RandomStoreCharsBeforeEnd
    ensures Misses(FastFood, s)
  {
    SomeCharOutsideBeforeEnd("mcdonald", s, RandomStoreCharsBeforeEnd, 1);
    SomeCharOutsideBeforeEnd("mcdonalds", s, RandomStoreCharsBeforeEnd, 1);
    SomeCharOutside("burger king", s, RandomStoreChars, 0);
    SomeCharOutside("wendy", s, RandomStoreChars, 0);
    SomeCharOutside("taco bell", s, RandomStoreChars, 5);
    SomeCharOutside("chipotle", s, RandomStoreChars, 1);
    SomeCharOutside("subway", s, RandomStoreChars, 1);
    SomeCharOutside("panera", s, RandomStoreChars, 0);
    SomeCharOutside("chick-fil-a", s, RandomStoreChars, 1);
    SomeCharOutside("chick fil a", s, RandomStoreChars, 1);
    SomeCharOutside("kfc", s, RandomStoreChars, 0);
    SomeCharOutside("popeyes", s, RandomStoreChars, 0);
  }

  lemma RandomStoreMissesFastCasualAndRestaurants(s: string)
    requires forall i | 0 <= i < |s| :: s[i] in RandomStoreChars
    requires forall i | 0 <= i < |s| - 1 :: s[i] in RandomStoreCharsBeforeEnd
    ensures Misses(FastCasualAndRestaurants, s)
  {
    SomeCharOutside("starbucks", s, RandomStoreChars, 4);
    SomeCharOutside("dunkin", s, RandomStoreChars, 1);
    SomeCharOutside("panda express", s, RandomStoreChars, 0);
    SomeCharOutside("olive garden", s, RandomStoreChars, 2);
    SomeCharOutside("applebee", s, RandomStoreChars, 1);
    SomeCharOutside("red lobster", s, RandomStoreChars, 6);
    SomeCharOutside("buffalo wild", s, RandomStoreChars, 0);
  }

  lemma RandomStoreMissesGasStations(s: string)
    requires forall i | 0 <= i < |s| :: s[i] in RandomStoreChars
    requires forall i | 0 <= i < |s| - 1 :: s[i] in RandomStoreCharsBeforeEnd
    ensures Misses(GasStations, s)
  {
    SomeCharOutside("shell", s, RandomStoreChars, 1);
    SomeCharOutside("chevron", s, RandomStoreChars, 1);
    SomeCharOutside("exxon", s, RandomStoreChars, 1);
    SomeCharOutside("mobil", s, RandomStoreChars, 2);
    SomeCharOutside("bp", s, RandomStoreChars, 0);
    SomeCharOutside("texaco", s, RandomStoreChars, 2);
    SomeCharOutside("circle k", s, RandomStoreChars, 1);
    SomeCharOutside("7-eleven", s, RandomStoreChars, 0);
    SomeCharOutside("7 eleven", s, RandomStoreChars, 0);
  }

  lemma RandomStoreMissesSubscriptionsAndServices(s: string)
    requires forall i | 0 <= i < |s| :: s[i] in RandomStoreChars
    requires forall i | 0 <= i < |s| - 1 :: s[i] in RandomStoreCharsBeforeEnd
    ensures Misses(SubscriptionsAndServices, s)
  {
    SomeCharOutside("netflix", s, RandomStoreChars, 3);
    SomeCharOutside("spotify", s, RandomStoreChars, 1);
    SomeCharOutside("hulu", s, RandomStoreChars, 0);
    SomeCharOutside("disney", s, RandomStoreChars, 1);
    SomeCharOutside("apple.com/bill", s, RandomStoreChars, 1);
    SomeCharOutside("apple music", s, RandomStoreChars, 1);
    SomeCharOutside("icloud", s, RandomStoreChars, 0);
    SomeCharOutside("dropbox", s, RandomStoreChars, 3);
    SomeCharOutside("google storage", s, RandomStoreChars, 0);
  }

  lemma RandomStoreMissesTransportation(s: string)
    requires forall i | 0 <= i < |s| :: s[i] in RandomStoreChars
    requires forall i | 0 <= i < |s| - 1 :: s[i] in RandomStoreCharsBeforeEnd
    ensures Misses(Transportation, s)
  {
    SomeCharOutside("uber", s, RandomStoreChars, 0);
    SomeCharOutside("lyft", s, RandomStoreChars, 1);
    SomeCharOutside("uber eats", s, RandomStoreChars, 0);
    SomeCharOutside("doordash", s, RandomStoreChars, 7);
    SomeCharOutside("grubhub", s, RandomStoreChars, 0);
  }

  lemma RandomStoreMissesPhoneInternetUtilities(s: string)
    requires forall i | 0 <= i < |s| :: s[i] in RandomStoreChars
    requires forall i | 0 <= i < |s| - 1 :: s[i] in RandomStoreCharsBeforeEnd
    ensures Misses(PhoneInternetUtilities, s)
  {
    SomeCharOutside("verizon", s, RandomStoreChars, 0);
    SomeCharOutside("at&t", s, RandomStoreChars, 2);
    SomeCharOutside("t-mobile", s, RandomStoreChars, 1);
    SomeCharOutside("sprint", s, RandomStoreChars, 1);
    SomeCharOutside("xfinity", s, RandomStoreChars, 0);
    SomeCharOutsideBeforeEnd("comcast", s, RandomStoreCharsBeforeEnd, 0);
  }

  lemma RandomStoreMissesPharmaciesAndHealth(s: string)
    requires forall i | 0 <= i < |s| :: s[i] in RandomStoreChars
    requires forall i | 0 <= i < |s| - 1 :: s[i] in RandomStoreCharsBeforeEnd
    ensures Misses(PharmaciesAndHealth, s)
  {
    SomeCharOutside("cvs", s, RandomStoreChars, 1);
    SomeCharOutside("walgreens", s, RandomStoreChars, 0);
    SomeCharOutside("rite aid", s, RandomStoreChars, 1);
    SomeCharOutside("pharmacy", s, RandomStoreChars, 0);
  }

  lemma RandomStoreMissesFitness(s: string)
    requires forall i | 0 <= i < |s| :: s[i] in RandomStoreChars
    requires forall i | 0 <= i < |s| - 1 :: s[i] in RandomStoreCharsBeforeEnd
    ensures Misses(Fitness, s)
  {
    SomeCharOutside("planet fitness", s, RandomStoreChars, 0);
    SomeCharOutside("la fitness", s, RandomStoreChars, 3);
    SomeCharOutside("24 hour", s, RandomStoreChars, 0);
  }
}
