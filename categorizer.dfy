/** Keyword categoriser of `ExpenseAI` (ai_features.py): the keyword table
    built by `__init__` and `categorize_expense`. */
module Categorizer {
  import opened Wrappers
  import opened Strings

  const OTHER := "Other"

  /** `ExpenseAI.__init__`'s `category_keywords`, in declaration order (the
      order a Python dict iterates in). The `ExpenseAI` object holds nothing
      else and never changes it, so it is a constant here. */
  const KEYWORD_TABLE: seq<(string, seq<string>)> := [
    ("Food", FOOD_KEYWORDS),
    ("Transportation", TRANSPORTATION_KEYWORDS),
    ("Shopping", SHOPPING_KEYWORDS),
    ("Entertainment", ENTERTAINMENT_KEYWORDS),
    ("Bills", BILLS_KEYWORDS),
    ("Healthcare", HEALTHCARE_KEYWORDS),
    ("Education", EDUCATION_KEYWORDS),
    ("Travel", TRAVEL_KEYWORDS)
  ]

  /** The keywords of each category, in the order `__init__` lists them. */
  const FOOD_KEYWORDS: seq<string> := [
    "restaurant", "food", "lunch", "dinner", "breakfast", "snack", "coffee", "pizza", "burger",
    "sandwich", "takeout", "delivery", "grocery", "supermarket", "cafe", "mcdonalds", "starbucks",
    "subway", "kfc", "dominos", "uber eats", "doordash"
  ]

  const TRANSPORTATION_KEYWORDS: seq<string> := [
    "gas", "fuel", "uber", "taxi", "bus", "train", "metro", "parking", "toll", "car", "vehicle",
    "maintenance", "repair", "lyft", "transport"
  ]

  const SHOPPING_KEYWORDS: seq<string> := [
    "amazon", "store", "shop", "retail", "clothes", "clothing", "shoes", "electronics", "gadget",
    "online", "purchase", "buy", "walmart", "target"
  ]

  const ENTERTAINMENT_KEYWORDS: seq<string> := [
    "movie", "cinema", "theater", "concert", "game", "sport", "gym", "netflix", "spotify",
    "entertainment", "subscription", "hobby"
  ]

  const BILLS_KEYWORDS: seq<string> := [
    "electric", "water", "internet", "phone", "rent", "mortgage", "insurance", "utility", "bill",
    "payment", "subscription", "service"
  ]

  const HEALTHCARE_KEYWORDS: seq<string> := [
    "doctor", "hospital", "medicine", "pharmacy", "medical", "health", "dentist", "clinic",
    "prescription", "treatment"
  ]

  const EDUCATION_KEYWORDS: seq<string> := [
    "school", "college", "university", "course", "book", "education", "learning", "tuition",
    "fees", "class"
  ]

  const TRAVEL_KEYWORDS: seq<string> := [
    "hotel", "flight", "vacation", "trip", "travel", "booking", "airbnb", "resort", "cruise",
    "tour"
  ]

  /** The table's category names, in table order. */
  function Names(table: seq<(string, seq<string>)>): (r: seq<string>)
    ensures |r| == |table|
    ensures forall i :: 0 <= i < |table| ==> r[i] == table[i].0
  {
    seq(|table|, i requires 0 <= i < |table| => table[i].0)
  }

  /** What one keyword adds to its category's score for `text`. */
  function Points(text: string, keyword: string): nat {
    if Contains(text, keyword) then |keyword| else 0
  }

  /** A category's score: the lengths of its listed keywords that occur in
      `text`, each listed keyword counted once however often it occurs. */
  function Score(keywords: seq<string>, text: string): nat {
    if keywords == [] then 0 else Points(text, keywords[0]) + Score(keywords[1..], text)
  }

  /** `category_scores`: the score of every category, in table order. */
  function Scores(table: seq<(string, seq<string>)>, text: string): (r: seq<nat>)
    ensures |r| == |table|
    ensures forall i :: 0 <= i < |table| ==> r[i] == Score(table[i].1, text)
  {
    seq(|table|, i requires 0 <= i < |table| => Score(table[i].1, text))
  }

  /** Python's `max(d, key=d.get)`: the first position of a largest value. */
  function FirstMaxIndex(s: seq<nat>): (r: nat)
    requires |s| > 0
    ensures r < |s|
    ensures forall i :: 0 <= i < |s| ==> s[i] <= s[r]
    ensures forall i :: 0 <= i < r ==> s[i] < s[r]
  {
    if |s| == 1 then 0
    else
      var j := FirstMaxIndex(s[..|s| - 1]);
      if s[|s| - 1] > s[j] then |s| - 1 else j
  }

  /** The category `categorize_expense` gives `description` under `table`;
      `None` is Python's `None`. */
  function Categorize(table: seq<(string, seq<string>)>, description: Option<string>): (r: string)
    ensures r == OTHER || r in Names(table)
  {
    if description.None? || description.value == [] then OTHER
    else
      var scores := Scores(table, Lower(description.value));
      if |scores| > 0 && scores[FirstMaxIndex(scores)] > 0 then table[FirstMaxIndex(scores)].0
      else OTHER
  }

  /** `ExpenseAI.categorize_expense`: score every category of the table in
      order, then take the first category with the largest score when that
      score is positive. `table` is the object's `category_keywords`, which
      is `KEYWORD_TABLE` for every `ExpenseAI`. */
  method CategorizeExpense(table: seq<(string, seq<string>)>, description: Option<string>)
    returns (category: string)
    ensures category == Categorize(table, description)
  {
    if description.None? || description.value == [] {
      return OTHER;
    }
    var lowered := Lower(description.value);
    var categoryScores := ScoreCategories(table, lowered);
    if categoryScores == [] {
      return OTHER;
    }
    var best := BestCategory(categoryScores);
    if categoryScores[best] > 0 {
      category := table[best].0;
    } else {
      category := OTHER;
    }
  }

  /** The outer loop of `categorize_expense`: `category_scores` built one
      category at a time. */
  method ScoreCategories(table: seq<(string, seq<string>)>, lowered: string)
    returns (categoryScores: seq<nat>)
    ensures categoryScores == Scores(table, lowered)
  {
    categoryScores := [];
    for c := 0 to |table|
      invariant |categoryScores| == c
      invariant forall i :: 0 <= i < c ==> categoryScores[i] == Score(table[i].1, lowered)
    {
      var score := ScoreCategory(table[c].1, lowered);
      categoryScores := categoryScores + [score];
    }
  }

  /** The inner loop of `categorize_expense`: the lengths of the keywords
      that occur in `lowered`, added up. */
  method ScoreCategory(keywords: seq<string>, lowered: string) returns (score: nat)
    ensures score == Score(keywords, lowered)
  {
    score := 0;
    for k := 0 to |keywords|
      invariant score + Score(keywords[k..], lowered) == Score(keywords, lowered)
    {
      if Contains(lowered, keywords[k]) {
        score := score + |keywords[k]|;
      }
    }
  }

  /** `max(category_scores, key=category_scores.get)`: a scan that keeps the
      first position of the largest score seen so far. */
  method BestCategory(categoryScores: seq<nat>) returns (best: nat)
    requires |categoryScores| > 0
    ensures best == FirstMaxIndex(categoryScores)
  {
    best := 0;
    for c := 1 to |categoryScores|
      invariant best == FirstMaxIndex(categoryScores[..c])
    {
      assert categoryScores[..c + 1][..c] == categoryScores[..c];
      if categoryScores[c] > categoryScores[best] {
        best := c;
      }
    }
    assert categoryScores[..|categoryScores|] == categoryScores;
  }

  /** The eight category names of the table, in table order. */
  const CATEGORY_NAMES: seq<string> :=
    ["Food", "Transportation", "Shopping", "Entertainment", "Bills", "Healthcare", "Education", "Travel"]

  /** Every keyword is non-empty and starts with a lower-case ASCII letter. */
  predicate LetterLed(keywords: seq<string>) {
    forall k :: 0 <= k < |keywords| ==> |keywords[k]| > 0 && 'a' <= keywords[k][0] <= 'z'
  }

  /** Facts about `ExpenseAI.__init__`'s table that the properties below use. */
  lemma KeywordTableFacts()
    ensures Names(KEYWORD_TABLE) == CATEGORY_NAMES
    ensures OTHER !in CATEGORY_NAMES
    ensures forall c :: 0 <= c < |KEYWORD_TABLE| ==> LetterLed(KEYWORD_TABLE[c].1)
  {
    KeywordTableNames();
    KeywordTableLetterLed();
  }

  lemma KeywordTableNames()
    ensures Names(KEYWORD_TABLE) == CATEGORY_NAMES
    ensures OTHER !in CATEGORY_NAMES
  {
    var names := Names(KEYWORD_TABLE);
    forall i | 0 <= i < 8 ensures names[i] == CATEGORY_NAMES[i] {
      assert names[i] == KEYWORD_TABLE[i].0;
    }
  }

  lemma KeywordTableLetterLed()
    ensures forall c :: 0 <= c < |KEYWORD_TABLE| ==> LetterLed(KEYWORD_TABLE[c].1)
  {
    FirstKeywordsLetterLed();
    LastKeywordsLetterLed();
  }

  lemma FirstKeywordsLetterLed()
    ensures LetterLed(FOOD_KEYWORDS) && LetterLed(TRANSPORTATION_KEYWORDS)
    ensures LetterLed(SHOPPING_KEYWORDS) && LetterLed(ENTERTAINMENT_KEYWORDS)
  {
  }

  lemma LastKeywordsLetterLed()
    ensures LetterLed(BILLS_KEYWORDS) && LetterLed(HEALTHCARE_KEYWORDS)
    ensures LetterLed(EDUCATION_KEYWORDS) && LetterLed(TRAVEL_KEYWORDS)
  {
  }

  /** No keyword of `table` occurs in `text`. */
  ghost predicate NoKeywordOccurs(table: seq<(string, seq<string>)>, text: string) {
    forall c, k :: 0 <= c < |table| && 0 <= k < |table[c].1| ==> !Contains(text, table[c].1[k])
  }

  /** A score is 0 exactly when none of the (non-empty) keywords occurs. */
  lemma {:induction false} ScoreZeroIff(keywords: seq<string>, text: string)
    requires forall k :: 0 <= k < |keywords| ==> |keywords[k]| > 0
    ensures Score(keywords, text) == 0 <==> forall k :: 0 <= k < |keywords| ==> !Contains(text, keywords[k])
  {
    if keywords != [] {
      ScoreZeroIff(keywords[1..], text);
      assert forall k :: 1 <= k < |keywords| ==> keywords[k] == keywords[1..][k - 1];
    }
  }

  /** Position `i` holds a largest score and every earlier position a
      strictly smaller one. */
  predicate FirstBest(scores: seq<nat>, i: int) {
    && 0 <= i < |scores|
    && (forall c :: 0 <= c < |scores| ==> scores[c] <= scores[i])
    && (forall c :: 0 <= c < i ==> scores[c] < scores[i])
  }

  /** The winner rule: a category other than `Other` comes out exactly when
      some category scores above 0, and then it is the first category in
      table order whose score is the largest. */
  lemma CategorizeWinner(table: seq<(string, seq<string>)>, description: string)
    requires description != []
    requires OTHER !in Names(table)
    ensures Categorize(table, Some(description)) != OTHER
      <==> exists c :: 0 <= c < |table| && Scores(table, Lower(description))[c] > 0
    ensures Categorize(table, Some(description)) != OTHER ==>
      exists i :: && FirstBest(Scores(table, Lower(description)), i)
                  && Scores(table, Lower(description))[i] > 0
                  && Categorize(table, Some(description)) == table[i].0
  {
    var scores := Scores(table, Lower(description));
    var r := Categorize(table, Some(description));
    if |scores| > 0 {
      var i := FirstMaxIndex(scores);
      assert r == (if scores[i] > 0 then table[i].0 else OTHER);
      assert Names(table)[i] == table[i].0;
      if scores[i] > 0 {
        assert Names(table)[i] in Names(table);
        assert FirstBest(scores, i);
        assert Categorize(table, Some(description)) != OTHER;
        assert exists c :: 0 <= c < |table| && Scores(table, Lower(description))[c] > 0;
      } else {
        assert forall c :: 0 <= c < |table| ==> scores[c] <= scores[i];
      }
    }
  }

  /** With the source's table: the result is `Other` exactly for a missing or
      empty description and for one in which no keyword occurs after
      lower-casing; otherwise it is one of the eight table categories. */
  lemma CategorizeOtherIff(description: Option<string>)
    ensures var r := Categorize(KEYWORD_TABLE, description);
      && (r == OTHER <==> description.None? || description.value == []
                          || NoKeywordOccurs(KEYWORD_TABLE, Lower(description.value)))
      && (r == OTHER || r in CATEGORY_NAMES)
  {
    KeywordTableFacts();
    if description.Some? && description.value != [] {
      var text := Lower(description.value);
      var scores := Scores(KEYWORD_TABLE, text);
      CategorizeWinner(KEYWORD_TABLE, description.value);
      forall c | 0 <= c < |KEYWORD_TABLE|
        ensures scores[c] == 0 <==> forall k :: 0 <= k < |KEYWORD_TABLE[c].1| ==> !Contains(text, KEYWORD_TABLE[c].1[k])
      {
        assert LetterLed(KEYWORD_TABLE[c].1);
        ScoreZeroIff(KEYWORD_TABLE[c].1, text);
      }
    }
  }

  /** A description naming keywords of one category only gets that category. */
  lemma OnlyOneCategoryMatches(description: string, c: int)
    requires 0 <= c < |KEYWORD_TABLE| && description != []
    requires forall d :: 0 <= d < |KEYWORD_TABLE| && d != c ==>
      forall k :: 0 <= k < |KEYWORD_TABLE[d].1| ==> !Contains(Lower(description), KEYWORD_TABLE[d].1[k])
    requires exists k :: 0 <= k < |KEYWORD_TABLE[c].1| && Contains(Lower(description), KEYWORD_TABLE[c].1[k])
    ensures Categorize(KEYWORD_TABLE, Some(description)) == CATEGORY_NAMES[c]
  {
    KeywordTableFacts();
    var text := Lower(description);
    var scores := Scores(KEYWORD_TABLE, text);
    forall d | 0 <= d < |KEYWORD_TABLE| ensures (scores[d] == 0 <==> d != c) {
      assert LetterLed(KEYWORD_TABLE[d].1);
      ScoreZeroIff(KEYWORD_TABLE[d].1, text);
    }
    CategorizeWinner(KEYWORD_TABLE, description);
    assert Names(KEYWORD_TABLE)[c] == KEYWORD_TABLE[c].0;
  }

  /** A keyword that occurs in `text` has its first character in `text`. */
  lemma {:induction false} ContainsFirstChar(text: string, pat: string)
    requires |pat| > 0 && Contains(text, pat)
    ensures pat[0] in text
  {
    if !StartsWith(text, pat) {
      ContainsFirstChar(text[1..], pat);
    }
  }

  /** A description made only of whitespace (spaces, tabs, ...) is `Other`:
      no keyword can occur in it, since every keyword starts with a letter. */
  lemma BlankDescriptionIsOther(description: string)
    requires forall i :: 0 <= i < |description| ==> IsSpace(description[i])
    ensures Categorize(KEYWORD_TABLE, Some(description)) == OTHER
  {
    KeywordTableFacts();
    var text := Lower(description);
    forall c, k | 0 <= c < |KEYWORD_TABLE| && 0 <= k < |KEYWORD_TABLE[c].1|
      ensures !Contains(text, KEYWORD_TABLE[c].1[k])
    {
      var pat := KEYWORD_TABLE[c].1[k];
      assert LetterLed(KEYWORD_TABLE[c].1);
      if Contains(text, pat) {
        ContainsFirstChar(text, pat);
        assert false;
      }
    }
    CategorizeOtherIff(Some(description));
  }
}
