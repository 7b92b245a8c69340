/** The helpers of `utils.py` that the expense form and the reports use:
    validation and clean-up of typed input, amount buckets, month names,
    percentage change, display truncation, the category whitelist and the
    currency text of a missing amount. */
module Utils {
  import opened Wrappers
  import opened Strings
  import Calendar
  import Categorizer
  import MonthlySpending

  // ---------------------------------------------------------------------
  // format_currency

  /** `format_currency(amount)`. A missing amount reads as zero dollars;
      any other amount is a dollar sign followed by Python's
      `format(amount, ",.2f")`, which `grouped` stands for. */
  function FormatCurrency(amount: Option<real>, grouped: real -> string): (r: string)
    ensures amount.None? ==> r == "$0.00"
    ensures amount.Some? ==> r == "$" + grouped(amount.value)
    ensures r != [] && r[0] == '$'
  {
    match amount
    case None => "$0.00"
    case Some(a) => "$" + grouped(a)
  }

  // ---------------------------------------------------------------------
  // str.strip()

  /** The length of the leading run of whitespace. */
  function LeadingSpaces(s: string): (n: nat)
    ensures n <= |s|
  {
    if s != [] && IsSpace(s[0]) then 1 + LeadingSpaces(s[1..]) else 0
  }

  /** The length of the trailing run of whitespace. */
  function TrailingSpaces(s: string): (n: nat)
    ensures n <= |s|
  {
    if s != [] && IsSpace(s[|s| - 1]) then 1 + TrailingSpaces(s[..|s| - 1]) else 0
  }

  lemma {:induction false} LeadingSpacesSpec(s: string)
    ensures forall i :: 0 <= i < LeadingSpaces(s) ==> IsSpace(s[i])
    ensures LeadingSpaces(s) < |s| ==> !IsSpace(s[LeadingSpaces(s)])
  {
    if s != [] && IsSpace(s[0]) {
      var n := LeadingSpaces(s[1..]);
      LeadingSpacesSpec(s[1..]);
      forall i | 0 < i < 1 + n ensures IsSpace(s[i]) {
        assert s[i] == s[1..][i - 1];
      }
      if 1 + n < |s| {
        assert s[1 + n] == s[1..][n];
      }
    }
  }

  lemma {:induction false} TrailingSpacesSpec(s: string)
    ensures forall i :: |s| - TrailingSpaces(s) <= i < |s| ==> IsSpace(s[i])
    ensures TrailingSpaces(s) < |s| ==> !IsSpace(s[|s| - 1 - TrailingSpaces(s)])
  {
    if s != [] && IsSpace(s[|s| - 1]) {
      var init := s[..|s| - 1];
      TrailingSpacesSpec(init);
      forall i | |s| - TrailingSpaces(s) <= i < |s| - 1 ensures IsSpace(s[i]) {
        assert s[i] == init[i];
      }
    }
  }

  /** `s.lstrip()`. */
  function TrimStart(s: string): (r: string)
    ensures |r| <= |s|
  {
    s[LeadingSpaces(s)..]
  }

  /** `s.rstrip()`. */
  function TrimEnd(s: string): string {
    s[..|s| - TrailingSpaces(s)]
  }

  /** `s.strip()`. */
  function Strip(s: string): (r: string)
    ensures |r| <= |s|
  {
    TrimEnd(TrimStart(s))
  }

  /** The stripped text is empty exactly when `s` is all whitespace;
      otherwise it begins and ends with non-whitespace. Stripping adds no
      character, a NUL in particular. */
  lemma StripSpec(s: string)
    ensures Strip(s) == [] <==> forall i :: 0 <= i < |s| ==> IsSpace(s[i])
    ensures Strip(s) != [] ==> !IsSpace(Strip(s)[0]) && !IsSpace(Strip(s)[|Strip(s)| - 1])
    ensures '\0' !in s ==> '\0' !in Strip(s)
  {
    var n := LeadingSpaces(s);
    var t := s[n..];
    var m := TrailingSpaces(t);
    var r := t[..|t| - m];
    LeadingSpacesSpec(s);
    TrailingSpacesSpec(t);
    assert Strip(s) == r;
    if r != [] {
      assert r[0] == s[n];
      assert r[|r| - 1] == t[|t| - 1 - m];
    }
    if '\0' in r {
      var k :| 0 <= k < |r| && r[k] == '\0';
      assert s[n + k] == '\0';
    }
  }

  /** Whitespace around the text never changes its stripped form. */
  lemma StripPadding(s: string, c: char)
    requires IsSpace(c)
    ensures Strip([c] + s) == Strip(s)
    ensures Strip(s + [c]) == Strip(s)
  {
    assert ([c] + s)[1..] == s;
    assert TrimStart([c] + s) == TrimStart(s);
    LeadingSpacesSpec(s);
    var n := LeadingSpaces(s);
    if n == |s| {
      assert LeadingSpaces(s + [c]) == |s| + 1 by {
        LeadingSpacesOfPrefix(s, c);
      }
    } else {
      LeadingSpacesOfPrefix(s, c);
      var t := s[n..];
      assert TrimStart(s + [c]) == t + [c];
      assert (t + [c])[..|t|] == t;
      assert TrailingSpaces(t + [c]) == 1 + TrailingSpaces(t);
    }
  }

  /** Appending a character changes the leading run only when the whole
      text is whitespace. */
  lemma {:induction false} LeadingSpacesOfPrefix(s: string, c: char)
    requires IsSpace(c) || LeadingSpaces(s) < |s|
    ensures LeadingSpaces(s + [c]) == if LeadingSpaces(s) == |s| then |s| + 1 else LeadingSpaces(s)
  {
    if s == [] {
      assert ([c])[1..] == [];
    } else {
      assert (s + [c])[0] == s[0];
      assert (s + [c])[1..] == s[1..] + [c];
      if IsSpace(s[0]) {
        LeadingSpacesOfPrefix(s[1..], c);
      }
    }
  }

  // ---------------------------------------------------------------------
  // validate_expense_input

  /** The longest stripped description the form accepts. */
  const MAX_DESCRIPTION_LENGTH := 200

  /** `validate_expense_input(description, amount)`; `None` is Python's
      `None`. The input is accepted exactly when the description has a
      non-whitespace character and at most 200 characters once stripped,
      and the amount is present and positive. */
  function ValidateExpenseInput(description: Option<string>, amount: Option<real>): (r: bool)
    ensures r <==>
      && description.Some?
      && (exists i :: 0 <= i < |description.value| && !IsSpace(description.value[i]))
      && amount.Some? && amount.value > 0.0
      && |Strip(description.value)| <= MAX_DESCRIPTION_LENGTH
  {
    if description.None? then false
    else
      StripSpec(description.value);
      if description.value == [] || Strip(description.value) == [] then false
      else if amount.None? || amount.value <= 0.0 then false
      else if |Strip(description.value)| > MAX_DESCRIPTION_LENGTH then false
      else true
  }

  /** Padding a description with whitespace never changes the verdict. */
  lemma ValidationIgnoresPadding(description: string, c: char, amount: Option<real>)
    requires IsSpace(c)
    ensures ValidateExpenseInput(Some([c] + description), amount) == ValidateExpenseInput(Some(description), amount)
    ensures ValidateExpenseInput(Some(description + [c]), amount) == ValidateExpenseInput(Some(description), amount)
  {
    StripPadding(description, c);
  }

  /** A description the form rejects for being blank is one the categorizer
      files under `Other`. */
  lemma BlankDescriptionRejected(description: string, amount: Option<real>)
    requires forall i :: 0 <= i < |description| ==> IsSpace(description[i])
    ensures !ValidateExpenseInput(Some(description), amount)
    ensures Categorizer.Categorize(Categorizer.KEYWORD_TABLE, Some(description)) == Categorizer.OTHER
  {
    Categorizer.BlankDescriptionIsOther(description);
  }

  // ---------------------------------------------------------------------
  // sanitize_input

  /** `re.sub(r'\s+', ' ', s)`: every maximal run of whitespace becomes one
      space. */
  function CollapseSpaces(s: string): (r: string)
    decreases |s|
    ensures |r| <= |s|
  {
    if s == [] then []
    else if IsSpace(s[0]) then " " + CollapseSpaces(TrimStart(s[1..]))
    else [s[0]] + CollapseSpaces(s[1..])
  }

  /** Whitespace occurs only as single spaces. */
  predicate SingleSpaced(r: string) {
    && (forall i :: 0 <= i < |r| && IsSpace(r[i]) ==> r[i] == ' ')
    && (forall i :: 0 <= i < |r| - 1 ==> !(IsSpace(r[i]) && IsSpace(r[i + 1])))
  }

  /** What `lstrip` keeps of `u`: a text that starts with non-whitespace,
      ends like `u` when `u` ends with non-whitespace, and holds no NUL
      when `u` holds none. */
  lemma TrimStartKeeps(u: string)
    ensures TrimStart(u) == [] || !IsSpace(TrimStart(u)[0])
    ensures u != [] && !IsSpace(u[|u| - 1]) ==>
      TrimStart(u) != [] && TrimStart(u)[|TrimStart(u)| - 1] == u[|u| - 1]
    ensures '\0' !in u ==> '\0' !in TrimStart(u)
  {
    var n := LeadingSpaces(u);
    var t := TrimStart(u);
    LeadingSpacesSpec(u);
    if t != [] {
      assert t[0] == u[n];
    }
    if '\0' in t {
      var k :| 0 <= k < |t| && t[k] == '\0';
      assert u[n + k] == '\0';
    }
  }

  /** Collapsing leaves whitespace only as single spaces. */
  lemma {:induction false} CollapseSingleSpaced(s: string)
    decreases |s|
    ensures SingleSpaced(CollapseSpaces(s))
  {
    if s == [] {
    } else if IsSpace(s[0]) {
      var t := TrimStart(s[1..]);
      TrimStartKeeps(s[1..]);
      CollapseSingleSpaced(t);
      CollapseFirst(t);
      var rest := CollapseSpaces(t);
      assert CollapseSpaces(s) == " " + rest;
      assert rest != [] ==> !IsSpace(rest[0]);
    } else {
      CollapseSingleSpaced(s[1..]);
      assert CollapseSpaces(s) == [s[0]] + CollapseSpaces(s[1..]);
    }
  }

  /** A non-whitespace first character stays first. */
  lemma CollapseFirst(s: string)
    ensures s != [] && !IsSpace(s[0]) ==> CollapseSpaces(s) != [] && CollapseSpaces(s)[0] == s[0]
  {
  }

  /** A non-whitespace last character stays last. */
  lemma {:induction false} CollapseLast(s: string)
    decreases |s|
    ensures s != [] && !IsSpace(s[|s| - 1]) ==>
      CollapseSpaces(s) != [] && CollapseSpaces(s)[|CollapseSpaces(s)| - 1] == s[|s| - 1]
  {
    if s != [] && !IsSpace(s[|s| - 1]) {
      if IsSpace(s[0]) {
        var t := TrimStart(s[1..]);
        assert s[1..][|s| - 2] == s[|s| - 1];
        TrimStartKeeps(s[1..]);
        CollapseLast(t);
        assert CollapseSpaces(s) == " " + CollapseSpaces(t);
      } else {
        CollapseLast(s[1..]);
        assert CollapseSpaces(s) == [s[0]] + CollapseSpaces(s[1..]);
      }
    }
  }

  /** Collapsing adds no NUL. */
  lemma {:induction false} CollapseNoNul(s: string)
    decreases |s|
    ensures '\0' !in s ==> '\0' !in CollapseSpaces(s)
  {
    if s != [] && '\0' !in s {
      if IsSpace(s[0]) {
        var t := TrimStart(s[1..]);
        TrimStartKeeps(s[1..]);
        CollapseNoNul(t);
        assert CollapseSpaces(s) == " " + CollapseSpaces(t);
      } else {
        CollapseNoNul(s[1..]);
        assert CollapseSpaces(s) == [s[0]] + CollapseSpaces(s[1..]);
      }
    }
  }

  /** `s.replace('\x00', '')`: every NUL removed, everything else kept in order. */
  function RemoveNul(s: string): (r: string)
    ensures |r| <= |s|
  {
    if s == [] then [] else (if s[0] == '\0' then [] else [s[0]]) + RemoveNul(s[1..])
  }

  lemma {:induction false} RemoveNulSpec(s: string)
    ensures '\0' !in RemoveNul(s)
  {
    if s != [] {
      RemoveNulSpec(s[1..]);
    }
  }

  /** `sanitize_input(text)` as written: strip, collapse whitespace runs,
      then remove NULs. `None` stands for any argument that is not a `str`. */
  function SanitizeInput(text: Option<string>): (r: string)
    ensures text.None? ==> r == []
    ensures '\0' !in r
  {
    match text
    case None => ""
    case Some(s) =>
      RemoveNulSpec(CollapseSpaces(Strip(s)));
      RemoveNul(CollapseSpaces(Strip(s)))
  }

  /** `sanitize_input` with the NULs removed first, so that the whitespace
      clean-up sees the text the caller will store. */
  function SanitizeInputNulFirst(text: Option<string>): string
  {
    match text
    case None => ""
    case Some(s) => CollapseSpaces(Strip(RemoveNul(s)))
  }

  /** The characters that carry content: everything but whitespace and NUL. */
  function Visible(s: string): string {
    if s == [] then [] else (if IsSpace(s[0]) || s[0] == '\0' then [] else [s[0]]) + Visible(s[1..])
  }

  /** Text in the stored form: no NUL, no whitespace at either end, no
      whitespace other than single spaces. */
  predicate Tidy(r: string) {
    && '\0' !in r
    && (r != [] ==> !IsSpace(r[0]) && !IsSpace(r[|r| - 1]))
    && SingleSpaced(r)
  }

  lemma {:induction false} VisibleAppend(a: string, b: string)
    ensures Visible(a + b) == Visible(a) + Visible(b)
  {
    if a != [] {
      var head := if IsSpace(a[0]) || a[0] == '\0' then [] else [a[0]];
      assert (a + b)[0] == a[0];
      assert (a + b)[1..] == a[1..] + b;
      VisibleAppend(a[1..], b);
      calc {
        Visible(a + b);
        head + Visible(a[1..] + b);
        head + (Visible(a[1..]) + Visible(b));
        (head + Visible(a[1..])) + Visible(b);
      }
    } else {
      assert a + b == b;
    }
  }

  lemma {:induction false} VisibleTrimStart(s: string)
    ensures Visible(TrimStart(s)) == Visible(s)
  {
    if s != [] && IsSpace(s[0]) {
      VisibleTrimStart(s[1..]);
      assert TrimStart(s) == TrimStart(s[1..]);
    }
  }

  lemma {:induction false} VisibleTrimEnd(s: string)
    ensures Visible(TrimEnd(s)) == Visible(s)
  {
    if s != [] && IsSpace(s[|s| - 1]) {
      var init := s[..|s| - 1];
      VisibleTrimEnd(init);
      assert TrimEnd(s) == TrimEnd(init);
      assert s == init + [s[|s| - 1]];
      VisibleAppend(init, [s[|s| - 1]]);
      assert Visible([s[|s| - 1]]) == [] by {
        assert [s[|s| - 1]][1..] == [];
      }
    } else {
      assert TrimEnd(s) == s;
    }
  }

  lemma VisibleStrip(s: string)
    ensures Visible(Strip(s)) == Visible(s)
  {
    VisibleTrimStart(s);
    VisibleTrimEnd(TrimStart(s));
  }

  lemma {:induction false} VisibleCollapse(s: string)
    ensures Visible(CollapseSpaces(s)) == Visible(s)
    decreases |s|
  {
    if s != [] {
      if IsSpace(s[0]) {
        var t := TrimStart(s[1..]);
        VisibleCollapse(t);
        VisibleTrimStart(s[1..]);
        assert (" " + CollapseSpaces(t))[1..] == CollapseSpaces(t);
      } else {
        VisibleCollapse(s[1..]);
        assert ([s[0]] + CollapseSpaces(s[1..]))[1..] == CollapseSpaces(s[1..]);
      }
    }
  }

  lemma {:induction false} VisibleRemoveNul(s: string)
    ensures Visible(RemoveNul(s)) == Visible(s)
  {
    if s != [] {
      VisibleRemoveNul(s[1..]);
      var head := if s[0] == '\0' then [] else [s[0]];
      VisibleAppend(head, RemoveNul(s[1..]));
    }
  }

  /** Sanitising keeps every content character, in order, and drops only
      whitespace and NULs; the result never holds a NUL. */
  lemma SanitizeKeepsContent(s: string)
    ensures Visible(SanitizeInput(Some(s))) == Visible(s)
    ensures Visible(SanitizeInputNulFirst(Some(s))) == Visible(s)
  {
    VisibleStrip(s);
    VisibleCollapse(Strip(s));
    VisibleRemoveNul(CollapseSpaces(Strip(s)));
    VisibleRemoveNul(s);
    VisibleStrip(RemoveNul(s));
    VisibleCollapse(Strip(RemoveNul(s)));
  }

  /** With the NULs removed first, the result is always in the stored form. */
  lemma SanitizeNulFirstIsTidy(text: Option<string>)
    ensures Tidy(SanitizeInputNulFirst(text))
  {
    if text.Some? {
      var clean := RemoveNul(text.value);
      var stripped := Strip(clean);
      var r := CollapseSpaces(stripped);
      assert r == SanitizeInputNulFirst(text);
      assert '\0' !in r by {
        RemoveNulSpec(text.value);
        StripSpec(clean);
        CollapseNoNul(stripped);
      }
      assert r != [] ==> !IsSpace(r[0]) && !IsSpace(r[|r| - 1]) by {
        StripSpec(clean);
        CollapseFirst(stripped);
        CollapseLast(stripped);
      }
      CollapseSingleSpaced(stripped);
    }
  }

  /** Text without NUL is sanitised the same either way, so the code as
      written puts such text in the stored form. */
  lemma SanitizeWithoutNul(s: string)
    requires '\0' !in s
    ensures SanitizeInput(Some(s)) == SanitizeInputNulFirst(Some(s))
    ensures Tidy(SanitizeInput(Some(s)))
  {
    RemoveNulNoop(s);
    StripSpec(s);
    CollapseNoNul(Strip(s));
    RemoveNulNoop(CollapseSpaces(Strip(s)));
    SanitizeNulFirstIsTidy(Some(s));
  }

  lemma {:induction false} RemoveNulNoop(s: string)
    requires '\0' !in s
    ensures RemoveNul(s) == s
  {
    if s != [] {
      assert s[0] != '\0';
      RemoveNulNoop(s[1..]);
      assert s == [s[0]] + s[1..];
    }
  }

  /** The code as written keeps whitespace that a NUL separated from the
      rest of its run: a leading space, and a double space inside. */
  lemma SanitizeInputKeepsSpacesBesideNul()
    ensures SanitizeInput(Some("\0 a")) == " a"
    ensures !Tidy(SanitizeInput(Some("\0 a")))
    ensures SanitizeInputNulFirst(Some("\0 a")) == "a"
    ensures SanitizeInput(Some("a \0 b")) == "a  b"
  {
    LeadingNulKeepsSpace();
    InnerNulKeepsDoubleSpace();
  }

  /** A NUL before a space: the space survives at the front, where removing
      the NUL first would have stripped it. */
  lemma LeadingNulKeepsSpace()
    ensures SanitizeInput(Some("\0 a")) == " a"
    ensures !Tidy(SanitizeInput(Some("\0 a")))
    ensures SanitizeInputNulFirst(Some("\0 a")) == "a"
  {
    StripNonBlankEnds("\0 a");
    CollapseExample();
    RemoveNulExample();
    NulFirstExample();
  }

  /** A NUL between two spaces: both spaces survive. */
  lemma InnerNulKeepsDoubleSpace()
    ensures SanitizeInput(Some("a \0 b")) == "a  b"
  {
    StripNonBlankEnds("a \0 b");
    CollapseInnerExample();
    RemoveNulInnerExample();
  }

  /** Text that begins and ends with non-whitespace strips to itself. */
  lemma StripNonBlankEnds(s: string)
    requires s != [] && !IsSpace(s[0]) && !IsSpace(s[|s| - 1])
    ensures Strip(s) == s
  {
  }

  lemma CollapseKeeps(c: char, s: string)
    requires !IsSpace(c)
    ensures CollapseSpaces([c] + s) == [c] + CollapseSpaces(s)
  {
    assert ([c] + s)[1..] == s;
  }

  lemma CollapseRun(c: char, s: string)
    requires IsSpace(c) && (s == [] || !IsSpace(s[0]))
    ensures CollapseSpaces([c] + s) == [' '] + CollapseSpaces(s)
  {
    assert ([c] + s)[1..] == s;
  }

  lemma RemoveNulCons(c: char, s: string)
    ensures RemoveNul([c] + s) == (if c == '\0' then [] else [c]) + RemoveNul(s)
  {
    assert ([c] + s)[1..] == s;
  }

  lemma CollapseExample()
    ensures CollapseSpaces("\0 a") == "\0 a"
  {
    CollapseKeeps('a', []);
    CollapseRun(' ', "a");
    CollapseKeeps('\0', " a");
    assert "\0 a" == ['\0'] + " a" && " a" == [' '] + "a" && "a" == ['a'] + [];
  }

  lemma RemoveNulExample()
    ensures RemoveNul("\0 a") == " a"
  {
    RemoveNulCons('a', []);
    RemoveNulCons(' ', "a");
    RemoveNulCons('\0', " a");
    assert "\0 a" == ['\0'] + " a" && " a" == [' '] + "a" && "a" == ['a'] + [];
  }

  lemma NulFirstExample()
    ensures CollapseSpaces(Strip(RemoveNul("\0 a"))) == "a"
  {
    RemoveNulExample();
    assert " a"[1..] == "a";
    assert TrimStart(" a") == "a";
    CollapseKeeps('a', []);
    assert "a" == ['a'] + [];
  }

  lemma CollapseInnerExample()
    ensures CollapseSpaces("a \0 b") == "a \0 b"
  {
    CollapseKeeps('b', []);
    CollapseRun(' ', "b");
    CollapseKeeps('\0', " b");
    CollapseRun(' ', "\0 b");
    CollapseKeeps('a', " \0 b");
    assert "a \0 b" == ['a'] + " \0 b" && " \0 b" == [' '] + "\0 b";
    assert "\0 b" == ['\0'] + " b" && " b" == [' '] + "b" && "b" == ['b'] + [];
  }

  lemma RemoveNulInnerExample()
    ensures RemoveNul("a \0 b") == "a  b"
  {
    RemoveNulCons('b', []);
    RemoveNulCons(' ', "b");
    RemoveNulCons('\0', " b");
    RemoveNulCons(' ', "\0 b");
    RemoveNulCons('a', " \0 b");
    assert "a \0 b" == ['a'] + " \0 b" && " \0 b" == [' '] + "\0 b";
    assert "\0 b" == ['\0'] + " b" && " b" == [' '] + "b" && "b" == ['b'] + [];
  }

  // ---------------------------------------------------------------------
  // categorize_amount

  /** The four amount ranges of the spending reports, cheapest first. */
  datatype AmountBucket = Small | Medium | Large | VeryLarge {

    /** The label the reports print for the bucket. */
    function Label(): string {
      match this
      case Small => "Small (≤$10)"
      case Medium => "Medium ($10-$50)"
      case Large => "Large ($50-$200)"
      case VeryLarge => "Very Large (>$200)"
    }

    /** Position of the bucket from cheapest to dearest. */
    function Rank(): nat {
      match this
      case Small => 0
      case Medium => 1
      case Large => 2
      case VeryLarge => 3
    }
  }

  /** `categorize_amount(amount)`: the bucket whose range holds the amount,
      with the upper bounds 10, 50 and 200 inclusive. */
  function CategorizeAmount(amount: real): (r: AmountBucket)
    ensures r == Small <==> amount <= 10.0
    ensures r == Medium <==> 10.0 < amount <= 50.0
    ensures r == Large <==> 50.0 < amount <= 200.0
    ensures r == VeryLarge <==> 200.0 < amount
  {
    if amount <= 10.0 then Small
    else if amount <= 50.0 then Medium
    else if amount <= 200.0 then Large
    else VeryLarge
  }

  /** A larger amount never lands in a cheaper bucket. */
  lemma CategorizeAmountMonotone(a: real, b: real)
    requires a <= b
    ensures CategorizeAmount(a).Rank() <= CategorizeAmount(b).Rank()
  {
  }

  /** Different buckets print different labels. */
  lemma AmountLabelsDistinct(x: AmountBucket, y: AmountBucket)
    requires x != y
    ensures x.Label() != y.Label()
  {
    assert x.Label()[0] != y.Label()[0] || |x.Label()| != |y.Label()|;
  }

  // ---------------------------------------------------------------------
  // get_month_name

  const MONTH_NAMES: seq<string> := [
    "January", "February", "March", "April", "May", "June",
    "July", "August", "September", "October", "November", "December"
  ]

  const UNKNOWN_MONTH := "Unknown"

  /** `get_month_name(month_number)`: the English name of months 1 to 12,
      and "Unknown" for any other number. */
  function GetMonthName(monthNumber: int): (r: string)
    ensures r == UNKNOWN_MONTH <==> !(1 <= monthNumber <= 12)
    ensures 1 <= monthNumber <= 12 ==> r in MONTH_NAMES
  {
    if 1 <= monthNumber <= 12 then MONTH_NAMES[monthNumber - 1] else UNKNOWN_MONTH
  }

  /** The twelve months have twelve different names, so the name gives the
      month back. */
  lemma MonthNamesDistinct(a: int, b: int)
    requires 1 <= a <= 12 && 1 <= b <= 12 && a != b
    ensures GetMonthName(a) != GetMonthName(b)
  {
    var x, y := MONTH_NAMES[a - 1], MONTH_NAMES[b - 1];
    assert x[0] != y[0] || x[1] != y[1] || x[2] != y[2] || |x| != |y|;
  }

  /** Every date the analytical engine accepts has a month name. */
  lemma ValidDateHasMonthName(d: Calendar.Date)
    requires Calendar.ValidDate(d)
    ensures GetMonthName(d.month) != UNKNOWN_MONTH
  {
  }

  // ---------------------------------------------------------------------
  // calculate_percentage_change

  /** `calculate_percentage_change(current, previous)`. With a nonzero
      baseline the result is the relative change in percent; with a zero
      baseline it is 100 for a positive current value and 0 otherwise. */
  function CalculatePercentageChange(current: real, previous: real): (r: real)
    ensures previous != 0.0 ==> r * previous == (current - previous) * 100.0
    ensures previous == 0.0 ==> (r == 100.0 <==> current > 0.0) && (r == 0.0 <==> current <= 0.0)
  {
    if previous == 0.0 then (if current > 0.0 then 100.0 else 0.0)
    else (current - previous) / previous * 100.0
  }

  /** For a positive baseline, and for a zero baseline with a non-negative
      current value, this helper agrees with the month-on-month change of
      `analyze_monthly_spending`. */
  lemma AgreesWithMonthlyChange(current: real, previous: real)
    requires previous > 0.0 || (previous == 0.0 && current >= 0.0)
    ensures CalculatePercentageChange(current, previous) == MonthlySpending.PercentageChange(current, previous)
  {
  }

  /** The two disagree for a zero baseline and a negative current value. */
  lemma DisagreesOnNegativeCurrent()
    ensures CalculatePercentageChange(-5.0, 0.0) == 0.0
    ensures MonthlySpending.PercentageChange(-5.0, 0.0) == 100.0
  {
  }

  // ---------------------------------------------------------------------
  // truncate_text

  const ELLIPSIS := "..."

  /** Python's `text[:stop]`: a negative `stop` counts back from the end,
      and both kinds are clamped to the text. */
  function PrefixSlice(text: string, stop: int): (r: string)
    ensures r <= text
    ensures stop >= 0 ==> |r| == if stop <= |text| then stop else |text|
    ensures stop < 0 ==> |r| == if |text| + stop > 0 then |text| + stop else 0
  {
    var n := if stop >= 0 then (if stop <= |text| then stop else |text|)
             else (if |text| + stop > 0 then |text| + stop else 0);
    text[..n]
  }

  /** `truncate_text(text, max_length)`: the text itself when it fits,
      otherwise the slice `text[:max_length-3]` followed by "...". */
  function TruncateText(text: string, maxLength: int): (r: string)
    ensures |text| <= maxLength ==> r == text
    ensures |text| > maxLength ==>
      |r| >= 3 && r[|r| - 3..] == ELLIPSIS && r[..|r| - 3] <= text
    ensures |text| > maxLength && maxLength >= 3 ==>
      |r| == maxLength && r[..maxLength - 3] == text[..maxLength - 3]
    ensures |text| > maxLength && maxLength < 3 ==>
      |r| == 3 + (if |text| + maxLength - 3 > 0 then |text| + maxLength - 3 else 0)
  {
    if |text| <= maxLength then text
    else
      var p := PrefixSlice(text, maxLength - 3);
      var r := p + ELLIPSIS;
      assert r[..|r| - 3] == p && r[|r| - 3..] == ELLIPSIS;
      r
  }

  /** With a limit of at least three, the result fits the limit, and
      truncating it again changes nothing. */
  lemma TruncateTextIdempotent(text: string, maxLength: int)
    requires maxLength >= 3
    ensures |TruncateText(text, maxLength)| <= maxLength
    ensures TruncateText(TruncateText(text, maxLength), maxLength) == TruncateText(text, maxLength)
  {
  }

  /** A limit below three returns more than the limit allows: the slice
      bound turns negative and counts back from the end of the text. */
  lemma TruncateTextShortLimit()
    ensures TruncateText("abcdef", 2) == "abcde..."
  {
    assert PrefixSlice("abcdef", -1) == "abcde";
  }

  // ---------------------------------------------------------------------
  // is_valid_category

  const VALID_CATEGORIES: seq<string> := [
    "Food", "Transportation", "Shopping", "Entertainment",
    "Bills", "Healthcare", "Education", "Travel", "Other"
  ]

  /** `truncate_text`'s default `max_length`. */
  const DEFAULT_MAX_LENGTH := 50

  /** `truncate_text(text)` with the default limit: at most 50 characters,
      the text itself when it fits and otherwise its first 47 followed by
      "...". */
  function TruncateTextDefault(text: string): (r: string)
    ensures |r| <= DEFAULT_MAX_LENGTH
    ensures |text| <= DEFAULT_MAX_LENGTH ==> r == text
    ensures |text| > DEFAULT_MAX_LENGTH ==> r == text[..DEFAULT_MAX_LENGTH - 3] + ELLIPSIS
  {
    TruncateText(text, DEFAULT_MAX_LENGTH)
  }

  /** `is_valid_category(category)`: membership in the whitelist. */
  predicate IsValidCategory(category: string) {
    category in VALID_CATEGORIES
  }

  /** The whitelist is exactly the categorizer's eight categories and `Other`. */
  lemma ValidCategoriesAreCategorizerOutputs(category: string)
    ensures IsValidCategory(category) <==> category in Categorizer.CATEGORY_NAMES || category == Categorizer.OTHER
  {
    assert VALID_CATEGORIES == Categorizer.CATEGORY_NAMES + [Categorizer.OTHER];
  }

  /** Every category the categorizer suggests passes the whitelist. */
  lemma SuggestedCategoryIsValid(description: Option<string>)
    ensures IsValidCategory(Categorizer.Categorize(Categorizer.KEYWORD_TABLE, description))
  {
    var r := Categorizer.Categorize(Categorizer.KEYWORD_TABLE, description);
    Categorizer.CategorizeOtherIff(description);
    ValidCategoriesAreCategorizerOutputs(r);
  }
}
