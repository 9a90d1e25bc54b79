/**
 * The vendor classifier of server/server.js: `categoryMap`, an ordered table of
 * lower-case keywords and their category labels, and `detectCategory`, which
 * returns the label of the first keyword, in declaration order, that occurs in
 * the lower-cased vendor text.
 */
module Categories {
  import opened Text

  /** `categoryMap` in declaration order, which is also the order `for...in` visits it
      (no key is an array index). It is written in the source's ten groups. The unquoted
      key `1mg` is the string "1mg"; keys written in mixed case are kept as written. */
  const CategoryMap: seq<(string, string)> :=
    ShoppingKeys + FoodKeys + GroceryKeys + TravelKeys + BillKeys
    + EntertainmentKeys + WalletKeys + SavingsKeys + MedicalKeys + MiscKeys

  /** Shopping, lines 37-53 of server/server.js. */
  const ShoppingKeys: seq<(string, string)> := [
      ("myntra", "Shopping"),
      ("amazon", "Shopping"),
      ("flipkart", "Shopping"),
      ("ajio", "Shopping"),
      ("meesho", "Shopping"),
      ("reliance", "Shopping"),
      ("shopperstop", "Shopping"),
      ("nykaa", "Shopping"),
      ("tatacliq", "Shopping"),
      ("paytmMall", "Shopping"),
      ("snapdeal", "Shopping"),
      ("firstcry", "Shopping"),
      ("decathlon", "Shopping"),
      ("lifestyle", "Shopping"),
      ("maxfashion", "Shopping"),
      ("pepperfry", "Shopping"),
      ("ikea", "Shopping")
    ]

  /** Food & Cafe, lines 56-72 of server/server.js. */
  const FoodKeys: seq<(string, string)> := [
      ("swiggy", "Food"),
      ("zomato", "Food"),
      ("dominos", "Food"),
      ("pizzaHut", "Food"),
      ("kfc", "Food"),
      ("mcdonalds", "Food"),
      ("burgerking", "Food"),
      ("subway", "Food"),
      ("bbq", "Food"),
      ("eatfit", "Food"),
      ("cafe", "Cafe"),
      ("starbucks", "Cafe"),
      ("barista", "Cafe"),
      ("costa", "Cafe"),
      ("chaayos", "Cafe"),
      ("cool", "Cafe"),
      ("sweets", "Food")
    ]

  /** Groceries, lines 75-84 of server/server.js. */
  const GroceryKeys: seq<(string, string)> := [
      ("blinkit", "Groceries"),
      ("bigbasket", "Groceries"),
      ("grofers", "Groceries"),
      ("dmart", "Groceries"),
      ("reliancefresh", "Groceries"),
      ("more", "Groceries"),
      ("spencers", "Groceries"),
      ("naturebasket", "Groceries"),
      ("dairy", "Groceries"),
      ("groceries", "Groceries")
    ]

  /** Travel, lines 87-100 of server/server.js. */
  const TravelKeys: seq<(string, string)> := [
      ("ola", "Travel"),
      ("uber", "Travel"),
      ("redbus", "Travel"),
      ("irctc", "Travel"),
      ("yatra", "Travel"),
      ("makemytrip", "Travel"),
      ("cleartrip", "Travel"),
      ("ixigo", "Travel"),
      ("goibibo", "Travel"),
      ("indigo", "Travel"),
      ("spicejet", "Travel"),
      ("airindia", "Travel"),
      ("vistara", "Travel"),
      ("travel", "Travel")
    ]

  /** Bills & Utilities, lines 103-113 of server/server.js. */
  const BillKeys: seq<(string, string)> := [
      ("jio", "Bill Payments"),
      ("airtel", "Bill Payments"),
      ("vodafone", "Bill Payments"),
      ("idea", "Bill Payments"),
      ("bsnl", "Bill Payments"),
      ("electricity", "Bill Payments"),
      ("gas", "Bill Payments"),
      ("water", "Bill Payments"),
      ("tataPower", "Bill Payments"),
      ("adanipower", "Bill Payments"),
      ("mseb", "Bill Payments")
    ]

  /** Entertainment, lines 116-129 of server/server.js. */
  const EntertainmentKeys: seq<(string, string)> := [
      ("hudle", "Entertainment"),
      ("bookmyshow", "Entertainment"),
      ("hotstar", "Entertainment"),
      ("netflix", "Entertainment"),
      ("sony", "Entertainment"),
      ("prime", "Entertainment"),
      ("zee", "Entertainment"),
      ("voot", "Entertainment"),
      ("sunNxt", "Entertainment"),
      ("erosnow", "Entertainment"),
      ("gaana", "Entertainment"),
      ("spotify", "Entertainment"),
      ("wynk", "Entertainment"),
      ("youtube", "Entertainment")
    ]

  /** Wallets / Banks, lines 132-146 of server/server.js. */
  const WalletKeys: seq<(string, string)> := [
      ("bank", "Wallet Top-up"),
      ("icici", "Wallet Top-up"),
      ("sbi", "Wallet Top-up"),
      ("hdfc", "Wallet Top-up"),
      ("axis", "Wallet Top-up"),
      ("kotak", "Wallet Top-up"),
      ("yesbank", "Wallet Top-up"),
      ("idfc", "Wallet Top-up"),
      ("federal", "Wallet Top-up"),
      ("bob", "Wallet Top-up"),
      ("paytm", "Wallet Top-up"),
      ("phonepe", "Wallet Top-up"),
      ("googlepay", "Wallet Top-up"),
      ("freecharge", "Wallet Top-up"),
      ("mobikwik", "Wallet Top-up")
    ]

  /** Savings & Investments, lines 149-157 of server/server.js. */
  const SavingsKeys: seq<(string, string)> := [
      ("jar", "Savings"),
      ("automatic", "Savings"),
      ("payment", "Savings"),
      ("sip", "Investments"),
      ("mutualfund", "Investments"),
      ("zerodha", "Investments"),
      ("groww", "Investments"),
      ("upstox", "Investments"),
      ("sharekhan", "Investments")
    ]

  /** Medical & Health, lines 160-171 of server/server.js. */
  const MedicalKeys: seq<(string, string)> := [
      ("nursing", "Hospital"),
      ("hospital", "Medical"),
      ("apollo", "Medical"),
      ("fortis", "Medical"),
      ("max", "Medical"),
      ("aiims", "Medical"),
      ("medplus", "Medical"),
      ("pharmeasy", "Medical"),
      ("1mg", "Medical"),
      ("netmeds", "Medical"),
      ("pharmacy", "Medical"),
      ("medical", "Medical")
    ]

  /** Misc, lines 174-182 of server/server.js. */
  const MiscKeys: seq<(string, string)> := [
      ("cash", "Cash"),
      ("recharge", "Recharges"),
      ("dth", "Recharges"),
      ("fastag", "Toll/Transport"),
      ("insurance", "Insurance"),
      ("lic", "Insurance"),
      ("bajaj", "Insurance"),
      ("tataAig", "Insurance"),
      ("iciciPrudential", "Insurance")
    ]

  /** What `detectCategory` returns when no keyword occurs. */
  const Fallback: string := "Miscellaneous"

  /** A keyword table: keyword and label pairs, searched in order. */
  type Table = seq<(string, string)>

  /** No keyword of `table` at an index in `[from, to)` occurs in `lower`. */
  predicate NoKeyIn(table: Table, lower: string, from: int, to: int)
    requires 0 <= from <= to <= |table|
  {
    forall j :: from <= j < to ==> !Contains(lower, table[j].0)
  }

  /** The keyword at index `k` is the first one of `table` that occurs in `lower`. */
  predicate FirstMatch(table: Table, lower: string, k: int) {
    0 <= k < |table| && Contains(lower, table[k].0) && NoKeyIn(table, lower, 0, k)
  }

  /** Index of the first keyword at or after `from` that occurs in `lower`;
      `|table|` when there is none. */
  function FirstKeyFrom(table: Table, lower: string, from: int): (k: int)
    requires 0 <= from <= |table|
    ensures from <= k <= |table|
    ensures NoKeyIn(table, lower, from, k)
    ensures k < |table| ==> Contains(lower, table[k].0)
    decreases |table| - from
  {
    if from == |table| then from
    else if Contains(lower, table[from].0) then from
    else FirstKeyFrom(table, lower, from + 1)
  }

  /** The label of the first keyword of `table` occurring in the lower-cased vendor,
      or the fallback when none occurs. */
  function Classify(table: Table, vendor: string): (category: string)
    ensures var lower := ToLower(vendor);
      || (exists k :: FirstMatch(table, lower, k) && category == table[k].1)
      || (NoKeyIn(table, lower, 0, |table|) && category == Fallback)
  {
    var k := FirstKeyFrom(table, ToLower(vendor), 0);
    if k < |table| then table[k].1 else Fallback
  }

  /** What `detectCategory(vendor)` returns. */
  function CategoryOf(vendor: string): string {
    Classify(CategoryMap, vendor)
  }

  /** The early-return scan of `detectCategory`, over any table. */
  method DetectIn(table: Table, vendor: string) returns (category: string)
    ensures category == Classify(table, vendor)
  {
    var lower := ToLower(vendor);
    for i := 0 to |table|
      invariant NoKeyIn(table, lower, 0, i)
    {
      if Contains(lower, table[i].0) {
        ClassifyFirstMatch(table, vendor, i);
        return table[i].1;
      }
    }
    return Fallback;
  }

  /** `detectCategory(vendor)` */
  method DetectCategory(vendor: string) returns (category: string)
    ensures category == CategoryOf(vendor)
  {
    category := DetectIn(CategoryMap, vendor);
  }

  /** The first match is unique, so it determines the answer. */
  lemma ClassifyFirstMatch(table: Table, vendor: string, k: int)
    requires FirstMatch(table, ToLower(vendor), k)
    ensures Classify(table, vendor) == table[k].1
  {
    var lower := ToLower(vendor);
    var r := FirstKeyFrom(table, lower, 0);
    assert r <= k;
    assert r >= k by {
      assert forall j :: 0 <= j < k ==> !Contains(lower, table[j].0);
    }
  }

  /** When no keyword occurs, the answer is "Miscellaneous". */
  lemma ClassifyNoMatch(table: Table, vendor: string)
    requires NoKeyIn(table, ToLower(vendor), 0, |table|)
    ensures Classify(table, vendor) == Fallback
  {
  }

  /** Every answer is a label of the table or the fallback. */
  lemma ClassifyIsLabel(table: Table, vendor: string)
    ensures Classify(table, vendor) == Fallback
         || exists k :: 0 <= k < |table| && Classify(table, vendor) == table[k].1
  {
  }

  /** A keyword holding an upper-case letter never occurs in lower-cased text, so it
      never decides the category. */
  lemma MixedCaseKeyNeverMatches(table: Table, vendor: string, k: int, j: int)
    requires 0 <= k < |table| && 0 <= j < |table[k].0|
    requires IsAsciiUpper(table[k].0[j])
    ensures !FirstMatch(table, ToLower(vendor), k)
  {
    ToLowerHasNoUpper(vendor);
    UpperCharNeverContained(ToLower(vendor), table[k].0, j);
  }

  /** Six keys of `categoryMap` are written in mixed case (lines 46, 59, 111, 124, 181
      and 182), so `paytmMall`, `pizzaHut`, `tataPower`, `sunNxt`, `tataAig` and
      `iciciPrudential` can never be the deciding keyword. */
  lemma MixedCaseKeysOfCategoryMap(vendor: string)
    ensures forall k :: k in {9, 20, 66, 77, 126, 127} ==> !FirstMatch(CategoryMap, ToLower(vendor), k)
  {
    assert CategoryMap[9].0 == "paytmMall";
    MixedCaseKeyNeverMatches(CategoryMap, vendor, 9, 5);
    assert CategoryMap[20].0 == "pizzaHut";
    MixedCaseKeyNeverMatches(CategoryMap, vendor, 20, 5);
    assert CategoryMap[66].0 == "tataPower";
    MixedCaseKeyNeverMatches(CategoryMap, vendor, 66, 4);
    assert CategoryMap[77].0 == "sunNxt";
    MixedCaseKeyNeverMatches(CategoryMap, vendor, 77, 3);
    assert CategoryMap[126].0 == "tataAig";
    MixedCaseKeyNeverMatches(CategoryMap, vendor, 126, 4);
    assert CategoryMap[127].0 == "iciciPrudential";
    MixedCaseKeyNeverMatches(CategoryMap, vendor, 127, 5);
  }

  lemma RelianceFreshLower()
    ensures ToLower("Reliance Fresh") == "reliance fresh"
  {
  }

  /** "Reliance Fresh" is Shopping: `reliance` (line 42) comes before `reliancefresh` (line 79). */
  lemma RelianceFreshIsShopping()
    ensures CategoryOf("Reliance Fresh") == "Shopping"
  {
    RelianceFreshLower();
    var lower := "reliance fresh";
    assert CategoryMap[0].0 == "myntra";
    MissingCharNotContained(lower, CategoryMap[0].0, 0);
    assert CategoryMap[1].0 == "amazon";
    MissingCharNotContained(lower, CategoryMap[1].0, 1);
    assert CategoryMap[2].0 == "flipkart";
    MissingCharNotContained(lower, CategoryMap[2].0, 3);
    assert CategoryMap[3].0 == "ajio";
    MissingCharNotContained(lower, CategoryMap[3].0, 1);
    assert CategoryMap[4].0 == "meesho";
    MissingCharNotContained(lower, CategoryMap[4].0, 0);
    assert CategoryMap[5] == ("reliance", "Shopping");
    assert OccursAt(lower, CategoryMap[5].0, 0);
    ClassifyFirstMatch(CategoryMap, "Reliance Fresh", 5);
  }
}
