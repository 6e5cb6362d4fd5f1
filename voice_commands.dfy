/**
  `VoiceCommandService` text parsing: intent detection by keyword groups in
  priority order, and the field extractors for an "add expense" command
  (amount, category, description, merchant) and a "show" command (filters).
  Amounts are in cents. The two regular expressions are hand-written scanners
  that reproduce Python's leftmost-match search.
*/
module VoiceCommands {
  import opened Text
  import opened Dates
  import opened Wrappers

  // ----- intent -----

  datatype Intent = AddExpense | ShowExpenses | BudgetInfo | Query

  /** Some keyword of `ks` occurs in `t`. */
  predicate AnyContained(t: string, ks: seq<string>)
    ensures AnyContained(t, ks) <==> exists i :: 0 <= i < |ks| && Contains(t, ks[i])
  {
    if ks == [] then false
    else
      assert forall i :: 1 <= i < |ks| ==> ks[i] == ks[1..][i - 1];
      Contains(t, ks[0]) || AnyContained(t, ks[1..])
  }

  const AddWords: seq<string> := ["add", "create", "new"]
  const ShowWords: seq<string> := ["show", "list", "view"]
  const BudgetWords: seq<string> := ["budget", "limit"]

  /** The intent of `_parse_command_text`: the first keyword group with a member in the
      lower-cased, stripped text wins. */
  function DetectIntent(text: string): (r: Intent)
    ensures var t := Strip(Lower(text));
      (r == AddExpense <==> AnyContained(t, AddWords)) &&
      (r == ShowExpenses <==> !AnyContained(t, AddWords) && AnyContained(t, ShowWords)) &&
      (r == BudgetInfo <==> !AnyContained(t, AddWords) && !AnyContained(t, ShowWords) && AnyContained(t, BudgetWords))
  {
    var t := Strip(Lower(text));
    if AnyContained(t, AddWords) then AddExpense
    else if AnyContained(t, ShowWords) then ShowExpenses
    else if AnyContained(t, BudgetWords) then BudgetInfo
    else Query
  }

  /** The confidence each parsed command carries. */
  function IntentConfidence(i: Intent): real {
    match i
    case AddExpense => 0.9
    case ShowExpenses => 0.8
    case BudgetInfo => 0.8
    case Query => 0.7
  }

  /** Case does not matter to the intent: upper-casing letters never changes it. */
  lemma IntentIgnoresCase(text: string)
    ensures DetectIntent(Lower(text)) == DetectIntent(text)
  {
    assert Lower(Lower(text)) == Lower(text);
  }

  // ----- amount -----

  /** `s[e..]` starts with a point and two digits, the optional `(?:\.\d{2})` group. */
  predicate CentsAt(s: string, e: nat) {
    e + 3 <= |s| && s[e] == '.' && IsDigit(s[e + 1]) && IsDigit(s[e + 2])
  }

  function CentsValue(s: string, e: nat): (v: nat)
    requires CentsAt(s, e)
    ensures v < 100
  {
    10 * DigitValue(s[e + 1]) + DigitValue(s[e + 2])
  }

  /** `\d+(?:\.\d{2})?` matched greedily at `j`: its value in cents and the index where it ends. */
  function NumberAt(s: string, j: nat): (r: (nat, nat))
    requires j < |s| && IsDigit(s[j])
    ensures j < r.1 <= |s|
  {
    var n := DigitRun(s, j);
    var ds := s[j..j + n];
    assert forall k :: 0 <= k < |ds| ==> IsDigit(ds[k]);
    var whole := DigitsValue(ds);
    if CentsAt(s, j + n) then (whole * 100 + CentsValue(s, j + n), j + n + 3) else (whole * 100, j + n)
  }

  /** The first index at or after `k` that is not whitespace (`\s*`). */
  function SkipSpaces(s: string, k: nat): (r: nat)
    requires k <= |s|
    ensures k <= r <= |s|
    ensures forall m :: k <= m < r ==> IsSpace(s[m])
    ensures r < |s| ==> !IsSpace(s[r])
    decreases |s| - k
  {
    if k < |s| && IsSpace(s[k]) then SkipSpaces(s, k + 1) else k
  }

  /** `dollar`, in any case, at `k`. */
  predicate DollarWordAt(s: string, k: nat) {
    k + 6 <= |s| && Lower(s[k..k + 6]) == "dollar"
  }

  /**
    A match of `\$(\d+(?:\.\d{2})?)|(\d+(?:\.\d{2})?)\s*dollars?` starting at `i`, and the
    amount its group holds, in cents. A shorter run of digits or leaving out the
    optional cents never helps the second branch: the character after the number
    would be a digit or a point, where `\s*dollar` cannot start.
  */
  function DollarMatchAt(s: string, i: nat): (r: Option<nat>)
    requires i < |s|
    ensures r.Some? ==> IsDigit(s[i]) || (s[i] == '$' && i + 1 < |s| && IsDigit(s[i + 1]))
  {
    if s[i] == '$' && i + 1 < |s| && IsDigit(s[i + 1]) then Some(NumberAt(s, i + 1).0)
    else if IsDigit(s[i]) && DollarWordAt(s, SkipSpaces(s, NumberAt(s, i).1)) then Some(NumberAt(s, i).0)
    else None
  }

  /** The leftmost position at or after `i` where a match starts, or `|s|` when there is none. */
  function FirstDollarIndex(s: string, i: nat): (k: nat)
    requires i <= |s|
    ensures i <= k <= |s|
    ensures forall m :: i <= m < k ==> DollarMatchAt(s, m).None?
    ensures k < |s| ==> DollarMatchAt(s, k).Some?
    decreases |s| - i
  {
    if i == |s| || DollarMatchAt(s, i).Some? then i else FirstDollarIndex(s, i + 1)
  }

  /** The leftmost match at or after `i`: the first element of `re.findall`. */
  function FirstDollarMatch(s: string, i: nat): (r: Option<nat>)
    requires i <= |s|
    ensures r.None? <==> forall k :: i <= k < |s| ==> DollarMatchAt(s, k).None?
    ensures r.Some? ==>
      (exists k :: i <= k < |s| && DollarMatchAt(s, k) == r &&
         forall m :: i <= m < k ==> DollarMatchAt(s, m).None?)
  {
    var k := FirstDollarIndex(s, i);
    if k < |s| then DollarMatchAt(s, k) else None
  }

  const NumberWords: map<string, nat> := map[
    "one" := 1, "two" := 2, "three" := 3, "four" := 4, "five" := 5,
    "six" := 6, "seven" := 7, "eight" := 8, "nine" := 9, "ten" := 10,
    "eleven" := 11, "twelve" := 12, "thirteen" := 13, "fourteen" := 14, "fifteen" := 15,
    "sixteen" := 16, "seventeen" := 17, "eighteen" := 18, "nineteen" := 19, "twenty" := 20,
    "thirty" := 30, "forty" := 40, "fifty" := 50, "sixty" := 60, "seventy" := 70,
    "eighty" := 80, "ninety" := 90, "hundred" := 100]

  /** The value of the first word that is a number word. */
  function FirstNumberWord(words: seq<string>): (r: Option<nat>)
    ensures r.None? <==> forall w :: w in words ==> w !in NumberWords
    ensures r.Some? ==>
      (exists k :: 0 <= k < |words| && words[k] in NumberWords && r.value == NumberWords[words[k]] &&
         forall m :: 0 <= m < k ==> words[m] !in NumberWords)
  {
    if words == [] then None
    else if words[0] in NumberWords then Some(NumberWords[words[0]])
    else
      var r := FirstNumberWord(words[1..]);
      assert forall m :: 1 <= m < |words| ==> words[m] == words[1..][m - 1];
      r
  }

  /** `_extract_amount`, in cents: the leftmost dollar match; failing that, the first
      number word among the lower-cased words; failing that, 0. */
  function ExtractAmount(text: string): (cents: nat)
    ensures FirstDollarMatch(text, 0).Some? ==> cents == FirstDollarMatch(text, 0).value
    ensures FirstDollarMatch(text, 0).None? && FirstNumberWord(Words(Lower(text))).Some? ==>
      cents == 100 * FirstNumberWord(Words(Lower(text))).value
    ensures FirstDollarMatch(text, 0).None? && FirstNumberWord(Words(Lower(text))).None? ==> cents == 0
  {
    match FirstDollarMatch(text, 0)
    case Some(v) => v
    case None =>
      match FirstNumberWord(Words(Lower(text)))
      case Some(n) => 100 * n
      case None => 0
  }

  /** Text without digits has no dollar match. */
  lemma NoDigitsNoDollarMatch(s: string)
    requires forall k :: 0 <= k < |s| ==> !IsDigit(s[k])
    ensures FirstDollarMatch(s, 0).None?
  {
  }

  /** Text with no upper-case letter is its own lower-case form. */
  lemma LowerOfLower(s: string)
    requires forall k :: 0 <= k < |s| ==> !IsUpper(s[k])
    ensures Lower(s) == s
  {
  }

  /** A word followed by a space is exactly one word long. */
  lemma {:induction false} WordLengthOf(w: string, rest: string)
    requires forall k :: 0 <= k < |w| ==> !IsSpace(w[k])
    ensures WordLength(w + " " + rest) == |w|
  {
    if w != [] {
      assert (w + " " + rest)[1..] == w[1..] + " " + rest;
      WordLengthOf(w[1..], rest);
    }
  }

  /** A word followed by a space is the first of the words. */
  lemma WordsOf(w: string, rest: string)
    requires |w| > 0 && forall k :: 0 <= k < |w| ==> !IsSpace(w[k])
    ensures Words(w + " " + rest) == [w] + Words(" " + rest)
  {
    WordLengthOf(w, rest);
    var s := w + " " + rest;
    assert s[0] == w[0] && !IsSpace(s[0]);
    assert s[..|w|] == w;
    assert s[|w|..] == " " + rest;
    assert Words(s) == [s[..WordLength(s)]] + Words(s[WordLength(s)..]);
  }

  /** Without digits the amount comes from the first word alone, when it is a number word. */
  lemma NumberWordFallback(text: string)
    requires forall k :: 0 <= k < |text| ==> !IsDigit(text[k])
    requires |Words(Lower(text))| > 0 && Words(Lower(text))[0] in NumberWords
    ensures ExtractAmount(text) == 100 * NumberWords[Words(Lower(text))[0]]
  {
    NoDigitsNoDollarMatch(text);
  }

  /** The first word of text made of a word, a space and more text, none of it upper case. */
  lemma FirstWordOf(s: string, w: string, rest: string)
    requires s == w + " " + rest && |w| > 0
    requires forall k :: 0 <= k < |w| ==> !IsSpace(w[k])
    requires forall k :: 0 <= k < |s| ==> !IsUpper(s[k])
    ensures |Words(Lower(s))| > 0 && Words(Lower(s))[0] == w
  {
    LowerOfLower(s);
    WordsOf(w, rest);
  }

  /** "twenty five dollars" is worth 20 dollars: only the first number word counts. */
  lemma TwentyFiveDollarsExample(s: string)
    requires s == "twenty five dollars"
    ensures ExtractAmount(s) == 2000
  {
    TwentyFiveDollarsWords(s);
    TwentyFiveDollarsNoDigits(s);
    NumberWordFallback(s);
  }

  lemma TwentyFiveDollarsWords(s: string)
    requires s == "twenty five dollars"
    ensures |Words(Lower(s))| > 0 && Words(Lower(s))[0] == "twenty"
  {
    var w := s[..6];
    assert w == "twenty";
    assert forall k :: 0 <= k < |w| ==> !IsSpace(w[k]);
    assert forall k :: 0 <= k < |s| ==> !IsUpper(s[k]);
    assert s == w + " " + s[7..];
    FirstWordOf(s, w, s[7..]);
  }

  lemma TwentyFiveDollarsNoDigits(s: string)
    requires s == "twenty five dollars"
    ensures forall k :: 0 <= k < |s| ==> !IsDigit(s[k])
  {
  }

  /** "$12.50" is worth 1250 cents; a "$" match wins over a later "dollars" match. */
  lemma DollarSignExample(s: string)
    requires s == "$12.50 or 3 dollars"
    ensures ExtractAmount(s) == 1250
  {
    assert DigitRun(s, 3) == 0 && DigitRun(s, 2) == 1 && DigitRun(s, 1) == 2;
    assert s[1..3] == "12";
    assert DigitsValue("12") == 12 by {
      assert "12"[..1] == "1";
    }
    assert CentsAt(s, 3);
    assert DollarMatchAt(s, 0) == Some(1250);
  }

  /** "12.5 dollars" is worth 5 dollars: "12" cannot be followed by ".5", so the leftmost
      match is "5 dollars". */
  lemma OneDecimalExample(s: string)
    requires s == "12.5 dollars"
    ensures ExtractAmount(s) == 500
  {
    OneDecimalNoEarlyMatch(s);
    OneDecimalMatch(s);
    assert FirstDollarIndex(s, 0) == 3;
  }

  /** Neither "12" nor "2" is followed by optional whitespace and "dollar", and "." starts
      no match. */
  lemma OneDecimalNoEarlyMatch(s: string)
    requires s == "12.5 dollars"
    ensures DollarMatchAt(s, 0).None? && DollarMatchAt(s, 1).None? && DollarMatchAt(s, 2).None?
  {
    assert DigitRun(s, 2) == 0 && DigitRun(s, 1) == 1 && DigitRun(s, 0) == 2;
    assert !CentsAt(s, 2) && SkipSpaces(s, 2) == 2;
  }

  lemma OneDecimalMatch(s: string)
    requires s == "12.5 dollars"
    ensures DollarMatchAt(s, 3) == Some(500)
  {
    assert DigitRun(s, 4) == 0 && DigitRun(s, 3) == 1;
    assert !CentsAt(s, 4) && SkipSpaces(s, 4) == 5;
    assert s[3..4] == "5" && DigitsValue("5") == 5;
    assert s[5..11] == "dollar" && Lower("dollar") == "dollar";
  }

  // ----- category -----

  const CategoryTable: seq<(string, seq<string>)> := [
    ("food", ["lunch", "dinner", "breakfast", "restaurant", "cafe", "food", "meal"]),
    ("transport", ["gas", "uber", "taxi", "bus", "train", "transport", "travel"]),
    ("shopping", ["amazon", "store", "shopping", "clothes", "electronics"]),
    ("entertainment", ["movie", "concert", "entertainment", "fun", "leisure"]),
    ("utilities", ["electricity", "water", "internet", "phone", "utilities"]),
    ("health", ["doctor", "pharmacy", "medicine", "health", "medical"])]

  /** The index of the first entry of `table` with a keyword in `t`, or `|table|`. */
  function FirstMatching(t: string, table: seq<(string, seq<string>)>): (k: nat)
    ensures k <= |table|
    ensures forall m :: 0 <= m < k ==> !AnyContained(t, table[m].1)
    ensures k < |table| ==> AnyContained(t, table[k].1)
  {
    if table == [] || AnyContained(t, table[0].1) then 0
    else
      assert forall m :: 1 <= m < |table| ==> table[m] == table[1..][m - 1];
      1 + FirstMatching(t, table[1..])
  }

  /** `_extract_category`: the first table entry, in table order, with a keyword in the
      lower-cased text, or "other". */
  function ExtractCategory(text: string): (r: string)
    ensures r == "other" <==> forall i :: 0 <= i < |CategoryTable| ==> !AnyContained(Lower(text), CategoryTable[i].1)
    ensures r != "other" ==>
      (exists i :: 0 <= i < |CategoryTable| && CategoryTable[i].0 == r &&
         AnyContained(Lower(text), CategoryTable[i].1) &&
         forall m :: 0 <= m < i ==> !AnyContained(Lower(text), CategoryTable[m].1))
  {
    var k := FirstMatching(Lower(text), CategoryTable);
    if k < |CategoryTable| then CategoryTable[k].0 else "other"
  }

  /** The category is always one of the six table names or "other". */
  lemma CategoryIsKnown(text: string)
    ensures ExtractCategory(text) in ["food", "transport", "shopping", "entertainment", "utilities", "health", "other"]
  {
    var r := ExtractCategory(text);
    if r != "other" {
      var i :| 0 <= i < |CategoryTable| && CategoryTable[i].0 == r;
    }
  }

  // ----- description -----

  const Phrases: seq<string> := ["add expense", "create expense", "new expense", "for"]

  /** Each phrase of `ps` removed in turn, first phrase first. */
  function RemovePhrases(s: string, ps: seq<string>): (r: string)
    requires forall p :: p in ps ==> |p| > 0
    ensures |r| <= |s|
  {
    if ps == [] then s
    else RemoveAll(RemovePhrases(s, ps[..|ps| - 1]), ps[|ps| - 1])
  }

  /** What `_extract_description` returns. */
  function Description(text: string): string {
    Strip(RemovePhrases(text, Phrases))
  }

  /** `_extract_description`: every occurrence of each phrase is deleted, in list order and
      case-sensitively, and the surrounding whitespace is stripped. */
  method ExtractDescription(text: string) returns (description: string)
    ensures description == Description(text)
    ensures |description| <= |text|
    ensures forall c :: c in description ==> c in text
  {
    description := text;
    for i := 0 to |Phrases|
      invariant description == RemovePhrases(text, Phrases[..i])
      invariant forall c :: c in description ==> c in text
    {
      assert Phrases[..i + 1][..i] == Phrases[..i];
      forall c | c in RemoveAll(description, Phrases[i]) ensures c in text {
        RemoveAllKeeps(description, Phrases[i], c);
      }
      description := RemoveAll(description, Phrases[i]);
    }
    assert Phrases[..|Phrases|] == Phrases;
    var stripped := Strip(description);
    StripTrims(description);
    if stripped != [] {
      var k := LeadingSpaces(description);
      forall c | c in stripped ensures c in description {
        var m :| 0 <= m < |stripped| && stripped[m] == c;
        assert description[k + m] == c;
      }
    }
    description := stripped;
  }

  /** Deleting scans left to right without looking back, so what is left can hold the
      phrase again: "foforr" loses its "for" and becomes "for". */
  lemma ReplaceDoesNotRescan()
    ensures RemoveAll("foforr", "for") == "for"
  {
    assert "foforr"[2] != "for"[2] && !("for" <= "foforr");
    assert "oforr"[0] != "for"[0] && !("for" <= "oforr");
    assert "forr"[..3] == "for" && "for" <= "forr";
    assert "foforr"[1..] == "oforr" && "oforr"[1..] == "forr" && "forr"[3..] == "r";
    assert RemoveAll("r", "for") == "r";
  }

  // ----- merchant -----

  /** The first word that starts with an upper-case letter and is longer than three characters. */
  function FirstMerchant(words: seq<string>): (r: string)
    requires forall w :: w in words ==> |w| > 0
    ensures r == "" || (r in words && IsUpper(r[0]) && |r| > 3)
    ensures r == "" <==> forall w :: w in words ==> !(IsUpper(w[0]) && |w| > 3)
    ensures r != "" ==>
      (exists k :: 0 <= k < |words| && words[k] == r &&
         forall m :: 0 <= m < k ==> !(IsUpper(words[m][0]) && |words[m]| > 3))
  {
    if words == [] then ""
    else if IsUpper(words[0][0]) && |words[0]| > 3 then words[0]
    else
      var r := FirstMerchant(words[1..]);
      assert forall m :: 1 <= m < |words| ==> words[m] == words[1..][m - 1];
      r
  }

  /** `_extract_merchant` over the whitespace-separated words of the original text. */
  function ExtractMerchant(text: string): string {
    FirstMerchant(Words(text))
  }

  // ----- filters -----

  datatype FilterValue = OnDate(date: Date) | Named(name: string)

  /** The dictionary `_extract_filters` fills: a time filter from the first of "today",
      "this week", "this month" found in the lower-cased text, then a category when one is
      recognised. */
  method ExtractFilters(text: string, today: Date) returns (filters: map<string, FilterValue>)
    ensures filters == FiltersFor(text, today)
    ensures filters.Keys <= {"date", "date_range", "category"}
    ensures !("date" in filters && "date_range" in filters)
    ensures "date" in filters <==> Contains(Lower(text), "today")
    ensures "date" in filters ==> filters["date"] == OnDate(today)
    ensures "date_range" in filters ==>
      filters["date_range"] == Named(if Contains(Lower(text), "this week") then "week" else "month")
    ensures "category" in filters <==> ExtractCategory(text) != "other"
    ensures "category" in filters ==> filters["category"] == Named(ExtractCategory(text))
  {
    filters := map[];
    var lowered := Lower(text);
    if Contains(lowered, "today") {
      filters := filters["date" := OnDate(today)];
    } else if Contains(lowered, "this week") {
      filters := filters["date_range" := Named("week")];
    } else if Contains(lowered, "this month") {
      filters := filters["date_range" := Named("month")];
    }
    var category := ExtractCategory(text);
    if category != "other" {
      filters := filters["category" := Named(category)];
    }
  }

  /** The filters as a value, for the parsed command. */
  function FiltersFor(text: string, today: Date): map<string, FilterValue> {
    var lowered := Lower(text);
    var time: map<string, FilterValue> :=
      if Contains(lowered, "today") then map["date" := OnDate(today)]
      else if Contains(lowered, "this week") then map["date_range" := Named("week")]
      else if Contains(lowered, "this month") then map["date_range" := Named("month")]
      else map[];
    var category := ExtractCategory(text);
    if category != "other" then time["category" := Named(category)] else time
  }

  // ----- the parsed command -----

  /** A parsed command; each carries the confidence the parser reports with it. */
  datatype ParsedCommand =
    | AddExpenseCommand(amount: nat, category: string, description: string, merchant: string, confidence: real)
    | ShowCommand(filters: map<string, FilterValue>, confidence: real)
    | BudgetCommand(category: string, confidence: real)
    | QueryCommand(message: string, confidence: real)

  function CommandIntent(c: ParsedCommand): Intent {
    match c
    case AddExpenseCommand(_, _, _, _, _) => AddExpense
    case ShowCommand(_, _) => ShowExpenses
    case BudgetCommand(_, _) => BudgetInfo
    case QueryCommand(_, _) => Query
  }

  /** `_parse_command_text`: the detected intent decides which fields are extracted; every
      extractor reads the original text, and a query carries that text unchanged. An add
      command is reported with confidence 0.9, a show or budget command with 0.8 and a
      query with 0.7. */
  function ParseCommandText(text: string, today: Date): (r: ParsedCommand)
    ensures CommandIntent(r) == DetectIntent(text)
    ensures r.AddExpenseCommand? ==> (r.amount == ExtractAmount(text) && r.category == ExtractCategory(text) &&
      r.description == Description(text) && r.merchant == ExtractMerchant(text) && r.confidence == 0.9)
    ensures r.ShowCommand? ==> r.filters == FiltersFor(text, today) && r.confidence == 0.8
    ensures r.BudgetCommand? ==> r.category == ExtractCategory(text) && r.confidence == 0.8
    ensures r.QueryCommand? ==> r.message == text && r.confidence == 0.7
  {
    var confidence := IntentConfidence(DetectIntent(text));
    match DetectIntent(text)
    case AddExpense =>
      AddExpenseCommand(ExtractAmount(text), ExtractCategory(text), Description(text), ExtractMerchant(text), confidence)
    case ShowExpenses => ShowCommand(FiltersFor(text, today), confidence)
    case BudgetInfo => BudgetCommand(ExtractCategory(text), confidence)
    case Query => QueryCommand(text, confidence)
  }

  /** A command with an intent is reported with more confidence than a bare query. */
  lemma QueryLeastConfident(text: string, today: Date)
    ensures !ParseCommandText(text, today).QueryCommand? ==> ParseCommandText(text, today).confidence > 0.7
    ensures ParseCommandText(text, today).confidence == 0.9 <==> DetectIntent(text) == AddExpense
  {
  }
}
