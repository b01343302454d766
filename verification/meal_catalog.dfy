/**
 * The static table from meal type to relevant category names, and the
 * case-insensitive, two-way substring test that decides whether a product's
 * category belongs to a meal type.
 */
module MealCatalog {
  import opened Wrappers
  import opened Text

  /** The seven keys of the table, in declaration order. */
  const MealTypes: seq<string> :=
    ["breakfast", "lunch", "dinner", "snack", "baking", "drinks", "healthy"]

  /** `MEAL_CATEGORY_MAPPINGS[mealType]`: the category names of a meal type, `None` for any other key. */
  function CategoriesFor(mealType: string): Option<seq<string>>
  {
    if mealType == "breakfast" then
      Some(["Pekárna", "Mléko a mléčné nápoje", "Müsli a cereálie", "Džemy a pomazánky",
            "Ovoce", "Med", "Máslo a tuky", "Vejce"])
    else if mealType == "lunch" then
      Some(["Maso a drůbež", "Zelenina", "Přílohy", "Těstoviny",
            "Rýže", "Omáčky a dresinky", "Polévky", "Luštěniny"])
    else if mealType == "dinner" then
      Some(["Maso a drůbež", "Ryby a mořské plody", "Zelenina", "Přílohy",
            "Těstoviny", "Rýže", "Brambory", "Omáčky a dresinky"])
    else if mealType == "snack" then
      Some(["Sladkosti", "Ovoce", "Ořechy a semínka", "Jogurty",
            "Sýry", "Chipsy a krekry", "Tyčinky"])
    else if mealType == "baking" then
      Some(["Mouka a směsi", "Cukr a sladidla", "Pečení a vaření", "Čokoláda a kakao",
            "Ořechy a semínka", "Vejce", "Máslo a tuky", "Droždí a kypřidla"])
    else if mealType == "drinks" then
      Some(["Nápoje", "Káva", "Čaj", "Mléko a mléčné nápoje",
            "Džusy a smoothies", "Minerální vody", "Pivo", "Víno"])
    else if mealType == "healthy" then
      Some(["Bio produkty", "Zdravá výživa", "Bezlepkové", "Veganské",
            "Ovoce", "Zelenina", "Ořechy a semínka", "Luštěniny"])
    else
      None
  }

  /** A meal type has a mapping exactly when it is one of the seven keys, and no mapping is empty. */
  lemma CategoriesForKnownTypes(mealType: string)
    ensures CategoriesFor(mealType).Some? <==> mealType in MealTypes
    ensures CategoriesFor(mealType).Some? ==> |CategoriesFor(mealType).value| >= 7
  {
  }

  /** The list of valid meal types quoted by the error message. */
  const AvailableTypes: string :=
    "breakfast" + ", " + "lunch" + ", " + "dinner" + ", " + "snack" + ", "
    + "baking" + ", " + "drinks" + ", " + "healthy"

  /** The error text for a meal type that has no mapping. */
  function UnknownMealTypeMessage(mealType: string): (msg: string)
    ensures StartsWith(msg, "Unknown meal type: ")
    ensures Contains(msg, mealType)
    ensures forall k :: 0 <= k < |MealTypes| ==> Contains(msg, MealTypes[k])
  {
    var prefix := "Unknown meal type: ";
    var lead := prefix + mealType + ". Available types: ";
    var msg := lead + AvailableTypes;
    assert msg[..|prefix|] == prefix;
    ContainsMiddle(prefix, mealType, ". Available types: " + AvailableTypes);
    assert prefix + mealType + (". Available types: " + AvailableTypes) == msg;
    forall k | 0 <= k < |MealTypes|
      ensures Contains(msg, MealTypes[k])
    {
      AvailableTypesNameEveryType(k);
      ContainsInSuffix(lead, AvailableTypes, MealTypes[k]);
    }
    msg
  }

  /** Each of the seven keys is spelled out in the quoted list. */
  lemma AvailableTypesNameEveryType(k: nat)
    requires k < |MealTypes|
    ensures Contains(AvailableTypes, MealTypes[k])
  {
    JoinMealTypes();
    JoinContains(MealTypes, ", ", k);
  }

  /** The quoted list is the seven keys joined with ", ". */
  lemma JoinMealTypes()
    ensures AvailableTypes == Join(MealTypes, ", ")
  {
    var sep := ", ";
    assert MealTypes[6..] == ["healthy"];
    var j6 := Join(MealTypes[6..], sep);
    assert MealTypes[5..][1..] == MealTypes[6..];
    var j5 := Join(MealTypes[5..], sep);
    assert j5 == "drinks" + sep + j6;
    assert MealTypes[4..][1..] == MealTypes[5..];
    var j4 := Join(MealTypes[4..], sep);
    assert j4 == "baking" + sep + j5;
    assert MealTypes[3..][1..] == MealTypes[4..];
    var j3 := Join(MealTypes[3..], sep);
    assert j3 == "snack" + sep + j4;
    assert MealTypes[2..][1..] == MealTypes[3..];
    var j2 := Join(MealTypes[2..], sep);
    assert j2 == "dinner" + sep + j3;
    assert MealTypes[1..][1..] == MealTypes[2..];
    var j1 := Join(MealTypes[1..], sep);
    assert j1 == "lunch" + sep + j2;
    assert Join(MealTypes, sep) == "breakfast" + sep + j1;
  }

  /** One mapped name matches a category name when either lower-cased text contains the other. */
  predicate Matches(categoryName: string, mapped: string)
  {
    Contains(Lower(categoryName), Lower(mapped)) || Contains(Lower(mapped), Lower(categoryName))
  }

  /** `relevantCategories.some(...)`: the category name matches some mapped name. */
  predicate IsRelevant(categoryName: string, mapped: seq<string>)
  {
    mapped != [] && (Matches(categoryName, mapped[0]) || IsRelevant(categoryName, mapped[1..]))
  }

  /** Relevance is exactly: some mapped name matches, in either direction, ignoring case. */
  lemma {:induction false} RelevantIff(categoryName: string, mapped: seq<string>)
    ensures IsRelevant(categoryName, mapped) <==>
      exists i :: 0 <= i < |mapped| && Matches(categoryName, mapped[i])
  {
    if mapped != [] {
      RelevantIff(categoryName, mapped[1..]);
      if exists i :: 0 <= i < |mapped| && Matches(categoryName, mapped[i]) {
        var i :| 0 <= i < |mapped| && Matches(categoryName, mapped[i]);
        if i > 0 {
          assert mapped[1..][i - 1] == mapped[i];
        }
      }
    }
  }

  /** Relevance sees a category name only through its lower-cased form. */
  lemma {:induction false} RelevanceIgnoresCase(a: string, b: string, mapped: seq<string>)
    requires Lower(a) == Lower(b)
    ensures IsRelevant(a, mapped) <==> IsRelevant(b, mapped)
  {
    if mapped != [] {
      RelevanceIgnoresCase(a, b, mapped[1..]);
    }
  }

  /** Lower-casing a category name before the test changes nothing: the test already ignores case. */
  lemma LoweredNameIsEquallyRelevant(name: string, mapped: seq<string>)
    ensures IsRelevant(Lower(name), mapped) <==> IsRelevant(name, mapped)
  {
    LowerIdempotent(name);
    RelevanceIgnoresCase(Lower(name), name, mapped);
  }

  /** A product without a category name counts as relevant to every meal type. */
  lemma EmptyCategoryIsRelevant(mealType: string)
    requires CategoriesFor(mealType).Some?
    ensures IsRelevant("", CategoriesFor(mealType).value)
  {
    var mapped := CategoriesFor(mealType).value;
    ContainsEmpty(Lower(mapped[0]));
  }

  /** An upper-cased dairy category still belongs to breakfast. */
  lemma UpperCaseDairyIsBreakfast()
    ensures IsRelevant("MLÉKO A MLÉČNÉ NÁPOJE", CategoriesFor("breakfast").value)
  {
    var upper := "MLÉKO A MLÉČNÉ NÁPOJE";
    var mapped := CategoriesFor("breakfast").value;
    forall i | 0 <= i < |upper|
      ensures LowerChar(upper[i]) == LowerChar(mapped[1][i])
    {
    }
    assert Lower(upper) == Lower(mapped[1]);
    assert StartsWith(Lower(upper), Lower(mapped[1]));
    assert Matches(upper, mapped[1]);
    RelevantIff(upper, mapped);
  }
}
