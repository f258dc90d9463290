/**
  The tag rules of the rule engine: get_automatic_tags, which applies tags without user input,
  and suggest_tags, which offers the first tags listed for a category plus two store-based ones.
*/
module Tags {
  import opened Text

  /** The tags get_automatic_tags can apply, in the order of its rules. */
  const AutomaticTagOrder: seq<string> := ["recurring", "housing", "golf", "vacation", "large", "weekly"]

  /** The position of a tag in AutomaticTagOrder, or 6 for any other string. */
  function TagRank(tag: string): (r: nat)
    ensures r <= 6 && (r < 6 <==> tag in AutomaticTagOrder)
    ensures r < 6 ==> AutomaticTagOrder[r] == tag
  {
    if tag == "recurring" then 0
    else if tag == "housing" then 1
    else if tag == "golf" then 2
    else if tag == "vacation" then 3
    else if tag == "large" then 4
    else if tag == "weekly" then 5
    else 6
  }

  /** Every tag is an automatic tag and the tags appear in strictly increasing rule order, so none
      appears twice. */
  ghost predicate InRuleOrder(tags: seq<string>)
  {
    && (forall i | 0 <= i < |tags| :: TagRank(tags[i]) < 6)
    && (forall i, j | 0 <= i < j < |tags| :: TagRank(tags[i]) < TagRank(tags[j]))
  }

  /** Every tag ranks below `bound`. */
  ghost predicate RanksBelow(tags: seq<string>, bound: nat)
  {
    forall i | 0 <= i < |tags| :: TagRank(tags[i]) < bound
  }

  /** The step of get_automatic_tags: appending a tag of a later rule keeps the rule order. */
  lemma AppendInOrder(tags: seq<string>, tag: string)
    requires InRuleOrder(tags) && RanksBelow(tags, TagRank(tag)) && TagRank(tag) < 6
    ensures InRuleOrder(tags + [tag]) && RanksBelow(tags + [tag], TagRank(tag) + 1)
  {
    var t := tags + [tag];
    assert forall i | 0 <= i < |tags| :: t[i] == tags[i];
  }

  /** The golf rule: a golf word in the store, or a golf word in the description. */
  predicate GolfHit(store: string, description: string)
  {
    ContainsAny(["golf", "pga", "course"], Lower(store)) || ContainsAny(["golf", "tee time"], Lower(description))
  }

  /** The vacation rule: a travel word in the store. */
  predicate VacationHit(store: string)
  {
    ContainsAny(["airline", "hotel", "airbnb", "booking.com", "expedia"], Lower(store))
  }

  /** The tags a rule contributes: its tags when it fires, nothing otherwise. */
  function RuleTags(fires: bool, tags: seq<string>): seq<string>
  {
    if fires then tags else []
  }

  /** The tags of the six rules in order, given which of them fire. */
  function TagsFor(subscriptions: bool, rent: bool, golf: bool, vacation: bool, large: bool, groceries: bool): seq<string>
  {
    RuleTags(subscriptions, ["recurring"])
    + RuleTags(rent, ["recurring", "housing"])
    + RuleTags(golf, ["golf"])
    + RuleTags(vacation, ["vacation"])
    + RuleTags(large, ["large"])
    + RuleTags(groceries, ["weekly"])
  }

  /** get_automatic_tags, as a value. */
  function AutomaticTags(store: string, category: string, amount: real, description: string): seq<string>
  {
    TagsFor(category == "Subscriptions", category == "Rent", GolfHit(store, description), VacationHit(store),
            amount > 500.0, category == "Groceries")
  }

  /** get_automatic_tags: each rule that fires appends its tags to the list. */
  method GetAutomaticTags(store: string, category: string, amount: real, description: string) returns (tags: seq<string>)
    ensures tags == AutomaticTags(store, category, amount, description)
  {
    tags := [];
    if category == "Subscriptions" {
      tags := tags + ["recurring"];
    }
    assert tags == RuleTags(category == "Subscriptions", ["recurring"]);
    ghost var before := tags;
    if category == "Rent" {
      tags := tags + ["recurring"];
      tags := tags + ["housing"];
    }
    assert tags == before + RuleTags(category == "Rent", ["recurring", "housing"]);
    before := tags;
    if GolfHit(store, description) {
      tags := tags + ["golf"];
    }
    assert tags == before + RuleTags(GolfHit(store, description), ["golf"]);
    before := tags;
    if VacationHit(store) {
      tags := tags + ["vacation"];
    }
    assert tags == before + RuleTags(VacationHit(store), ["vacation"]);
    before := tags;
    if amount > 500.0 {
      tags := tags + ["large"];
    }
    assert tags == before + RuleTags(amount > 500.0, ["large"]);
    before := tags;
    if category == "Groceries" {
      tags := tags + ["weekly"];
    }
    assert tags == before + RuleTags(category == "Groceries", ["weekly"]);
  }

  /** A rule with one tag of a later rank keeps the list in rule order, whether or not it fires. */
  lemma AppendRule(tags: seq<string>, fires: bool, tag: string)
    requires InRuleOrder(tags) && RanksBelow(tags, TagRank(tag)) && TagRank(tag) < 6
    ensures InRuleOrder(tags + RuleTags(fires, [tag])) && RanksBelow(tags + RuleTags(fires, [tag]), TagRank(tag) + 1)
  {
    if fires {
      AppendInOrder(tags, tag);
    } else {
      assert tags + RuleTags(fires, [tag]) == tags;
    }
  }

  /** The Subscriptions and Rent rules, which cannot both fire, give "recurring" at most once. */
  lemma FirstTwoRules(subscriptions: bool, rent: bool)
    requires !(subscriptions && rent)
    ensures var tags := RuleTags(subscriptions, ["recurring"]) + RuleTags(rent, ["recurring", "housing"]);
      InRuleOrder(tags) && RanksBelow(tags, 2)
  {
    if rent {
      RentTags();
      assert RuleTags(subscriptions, ["recurring"]) + RuleTags(rent, ["recurring", "housing"]) == ["recurring", "housing"];
    } else if subscriptions {
      AppendInOrder([], "recurring");
      assert RuleTags(subscriptions, ["recurring"]) + RuleTags(rent, ["recurring", "housing"]) == [] + ["recurring"];
    } else {
      assert RuleTags(subscriptions, ["recurring"]) + RuleTags(rent, ["recurring", "housing"]) == [];
    }
  }

  /** The two tags of the Rent rule are in rule order. */
  lemma RentTags()
    ensures InRuleOrder(["recurring", "housing"]) && RanksBelow(["recurring", "housing"], 2)
  {
    AppendInOrder([], "recurring");
    assert [] + ["recurring"] == ["recurring"];
    AppendInOrder(["recurring"], "housing");
    assert ["recurring"] + ["housing"] == ["recurring", "housing"];
  }

  /** When the two rules that both give "recurring" do not both fire, the tags come in strictly
      increasing rule order, so none appears twice. */
  lemma TagsForInRuleOrder(subscriptions: bool, rent: bool, golf: bool, vacation: bool, large: bool, groceries: bool)
    requires !(subscriptions && rent)
    ensures InRuleOrder(TagsFor(subscriptions, rent, golf, vacation, large, groceries))
  {
    FirstTwoRules(subscriptions, rent);
    var tags := RuleTags(subscriptions, ["recurring"]) + RuleTags(rent, ["recurring", "housing"]);
    AppendRule(tags, golf, "golf");
    tags := tags + RuleTags(golf, ["golf"]);
    AppendRule(tags, vacation, "vacation");
    tags := tags + RuleTags(vacation, ["vacation"]);
    AppendRule(tags, large, "large");
    tags := tags + RuleTags(large, ["large"]);
    AppendRule(tags, groceries, "weekly");
    tags := tags + RuleTags(groceries, ["weekly"]);
    assert tags == TagsFor(subscriptions, rent, golf, vacation, large, groceries);
  }

  /** Each tag is present exactly when a rule giving it fires. */
  lemma TagsForMembership(subscriptions: bool, rent: bool, golf: bool, vacation: bool, large: bool, groceries: bool)
    ensures var tags := TagsFor(subscriptions, rent, golf, vacation, large, groceries);
      && ("recurring" in tags <==> subscriptions || rent)
      && ("housing" in tags <==> rent)
      && ("golf" in tags <==> golf)
      && ("vacation" in tags <==> vacation)
      && ("large" in tags <==> large)
      && ("weekly" in tags <==> groceries)
  {
    MemberOfTagsFor("recurring", subscriptions, rent, golf, vacation, large, groceries);
    MemberOfTagsFor("housing", subscriptions, rent, golf, vacation, large, groceries);
    MemberOfTagsFor("golf", subscriptions, rent, golf, vacation, large, groceries);
    MemberOfTagsFor("vacation", subscriptions, rent, golf, vacation, large, groceries);
    MemberOfTagsFor("large", subscriptions, rent, golf, vacation, large, groceries);
    MemberOfTagsFor("weekly", subscriptions, rent, golf, vacation, large, groceries);
  }

  /** A tag is in the concatenation exactly when some firing rule gives it. */
  lemma MemberOfTagsFor(x: string, subscriptions: bool, rent: bool, golf: bool, vacation: bool, large: bool, groceries: bool)
    ensures x in TagsFor(subscriptions, rent, golf, vacation, large, groceries) <==>
      || (subscriptions && x == "recurring") || (rent && (x == "recurring" || x == "housing"))
      || (golf && x == "golf") || (vacation && x == "vacation") || (large && x == "large") || (groceries && x == "weekly")
  {
    var r1, r2 := RuleTags(subscriptions, ["recurring"]), RuleTags(rent, ["recurring", "housing"]);
    var r3, r4 := RuleTags(golf, ["golf"]), RuleTags(vacation, ["vacation"]);
    var r5, r6 := RuleTags(large, ["large"]), RuleTags(groceries, ["weekly"]);
    assert TagsFor(subscriptions, rent, golf, vacation, large, groceries) == r1 + r2 + r3 + r4 + r5 + r6;
    MemberOfRule(x, subscriptions, ["recurring"]);
    MemberOfRule(x, rent, ["recurring", "housing"]);
    MemberOfRule(x, golf, ["golf"]);
    MemberOfRule(x, vacation, ["vacation"]);
    MemberOfRule(x, large, ["large"]);
    MemberOfRule(x, groceries, ["weekly"]);
  }

  lemma MemberOfRule(x: string, fires: bool, tags: seq<string>)
    ensures x in RuleTags(fires, tags) <==> fires && x in tags
  {
  }

  /** get_automatic_tags returns its tags in rule order without repeats, and each tag exactly when
      its rule fires: recurring for Subscriptions or Rent, housing for Rent, golf and vacation on
      their words, large above 500 and weekly for Groceries. */
  lemma AutomaticTagsRules(store: string, category: string, amount: real, description: string)
    ensures var tags := AutomaticTags(store, category, amount, description);
      && InRuleOrder(tags)
      && ("recurring" in tags <==> category == "Subscriptions" || category == "Rent")
      && ("housing" in tags <==> category == "Rent")
      && ("golf" in tags <==> GolfHit(store, description))
      && ("vacation" in tags <==> VacationHit(store))
      && ("large" in tags <==> amount > 500.0)
      && ("weekly" in tags <==> category == "Groceries")
  {
    var subscriptions, rent := category == "Subscriptions", category == "Rent";
    var golf, vacation := GolfHit(store, description), VacationHit(store);
    var large, groceries := amount > 500.0, category == "Groceries";
    TagsForInRuleOrder(subscriptions, rent, golf, vacation, large, groceries);
    TagsForMembership(subscriptions, rent, golf, vacation, large, groceries);
  }

  /** CATEGORY_TAGS: suggested tags per category, most relevant first. */
  const CategoryTags: map<string, seq<string>> := map[
    "Dining Out" := ["restaurant", "food", "lunch", "dinner", "breakfast"],
    "Entertainment" := ["movie", "concert", "show", "game", "fun"],
    "Gas & Auto" := ["fuel", "gas", "car", "maintenance", "auto"],
    "Gifts" := ["birthday", "holiday", "anniversary", "present"],
    "Recreation" := ["golf", "sports", "hobby", "activity", "game"],
    "Education" := ["school", "tuition", "books", "course", "learning"],
    "Groceries" := ["food", "household", "weekly", "shopping"],
    "Health & Fitness" := ["gym", "health", "medical", "fitness", "doctor"],
    "Household" := ["home", "supplies", "cleaning", "hygiene"],
    "Subscriptions" := ["monthly", "streaming", "app", "service"],
    "Phone" := ["mobile", "cellular", "phone", "plan"],
    "Rent" := ["housing", "apartment", "home", "monthly"],
    "Shopping" := ["retail", "online", "clothes", "amazon"],
    "Student Loan" := ["loan", "education", "debt", "payment"],
    "Travel" := ["trip", "vacation", "flight", "hotel", "airbnb"],
    "Car Payment" := ["auto", "vehicle", "loan", "car"],
    "Utilities" := ["electric", "water", "gas", "internet", "bill"],
    "Salary" := ["income", "paycheck", "work", "employment"],
    "Interest" := ["bank", "savings", "investment"],
    "Refund" := ["return", "reimbursement"],
    "Gift" := ["present", "money"]]

  /** CATEGORY_TAGS[category][:3]: the three most relevant suggestions, or all of a shorter list. */
  function Top3(tags: seq<string>): (r: seq<string>)
    ensures r <= tags && |r| == if |tags| < 3 then |tags| else 3
  {
    if |tags| <= 3 then tags else tags[..3]
  }

  /** The dining suggestion fires on "restaurant" or "cafe" in the lower-cased store. */
  predicate DiningStore(store: string)
  {
    IsSubstring("restaurant", Lower(store)) || IsSubstring("cafe", Lower(store))
  }

  /** The fitness suggestion fires on "gym" or "fitness" in the lower-cased store. */
  predicate FitnessStore(store: string)
  {
    IsSubstring("gym", Lower(store)) || IsSubstring("fitness", Lower(store))
  }

  /** The tag set suggest_tags offers: the category's top suggestions, then dining and fitness. */
  function SuggestedTags(category: string, store: string): set<string>
  {
    (if category in CategoryTags then set t | t in Top3(CategoryTags[category]) else {})
    + (if DiningStore(store) then {"dining"} else {})
    + (if FitnessStore(store) then {"fitness"} else {})
  }

  /** suggest_tags: extends the list with the category's top suggestions, appends the store-based
      ones for a non-empty store, and returns the distinct tags. */
  method SuggestTags(category: string, store: string) returns (r: set<string>)
    ensures r == SuggestedTags(category, store)
  {
    var suggestions: seq<string> := [];
    if category in CategoryTags {
      suggestions := suggestions + Top3(CategoryTags[category]);
    }
    if store != [] {
      var storeLower := Lower(store);
      if IsSubstring("restaurant", storeLower) || IsSubstring("cafe", storeLower) {
        suggestions := suggestions + ["dining"];
      }
      if IsSubstring("gym", storeLower) || IsSubstring("fitness", storeLower) {
        suggestions := suggestions + ["fitness"];
      }
    } else {
      assert !DiningStore(store) && !FitnessStore(store);
    }
    r := set t | t in suggestions;
  }

  /** No category's top suggestions include "dining" or "fitness" ("fitness" is only the fourth
      suggestion of Health & Fitness). */
  lemma TopSuggestionsAvoidStoreTags(category: string)
    requires category in CategoryTags
    ensures "dining" !in Top3(CategoryTags[category]) && "fitness" !in Top3(CategoryTags[category])
  {
  }

  /** suggest_tags offers only the category's top suggestions and the two store-based tags; it offers
      "dining" exactly for a restaurant or cafe and "fitness" exactly for a gym or fitness store; and
      it offers nothing for an unlisted category and an empty store. */
  lemma SuggestedTagsRules(category: string, store: string)
    ensures var r := SuggestedTags(category, store);
      && (forall t <- r :: t == "dining" || t == "fitness" || (category in CategoryTags && t in Top3(CategoryTags[category])))
      && ("dining" in r <==> DiningStore(store))
      && ("fitness" in r <==> FitnessStore(store))
      && (category !in CategoryTags && store == [] ==> r == {})
  {
    if category in CategoryTags {
      TopSuggestionsAvoidStoreTags(category);
    }
    if store == [] {
      assert !DiningStore(store) && !FitnessStore(store);
    }
  }
}
