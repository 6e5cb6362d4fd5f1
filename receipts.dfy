/**
  `OCRService._parse_receipt_text`: the fields read from the text OCR produced.
  The merchant is picked from the first three lines, the amount is the largest
  of all `\$?\d+\.\d{2}` prices, the date is the first `\d{1,2}/\d{1,2}/\d{2,4}`
  that `strptime('%m/%d/%Y')` accepts, and item lines are lines naming an item,
  product or service that carry a price. Prices are in cents.
*/
module Receipts {
  import opened Text
  import opened Dates
  import opened Wrappers
  import opened VoiceCommands

  datatype ReceiptItem = ReceiptItem(description: string, amount: nat)

  datatype ReceiptData = ReceiptData(
    merchant: string,
    amount: nat,
    date: Option<Date>,
    items: seq<ReceiptItem>,
    confidence: real)

  // ----- prices -----

  /** A match of `\$?\d+\.\d{2}` starting at `i`: its value in cents and where it ends. The
      digit run is taken whole: giving a digit back would put a digit, not a point, after it. */
  function PriceAt(s: string, i: nat): (r: Option<(nat, nat)>)
    requires i < |s|
    ensures r.Some? ==> i + 4 <= r.value.1 <= |s| && s[r.value.1 - 3] == '.'
  {
    var j := if s[i] == '$' then i + 1 else i;
    if j < |s| && IsDigit(s[j]) then
      var n := DigitRun(s, j);
      var ds := s[j..j + n];
      assert forall k :: 0 <= k < |ds| ==> IsDigit(ds[k]);
      if CentsAt(s, j + n) then Some((DigitsValue(ds) * 100 + CentsValue(s, j + n), j + n + 3)) else None
    else None
  }

  /** `re.findall` from `i` on: the leftmost match, then the matches after its end. */
  function Prices(s: string, i: nat): (ps: seq<nat>)
    requires i <= |s|
    ensures forall v :: v in ps ==> exists k :: i <= k < |s| && PriceAt(s, k).Some? && PriceAt(s, k).value.0 == v
    ensures (forall k :: i <= k < |s| ==> PriceAt(s, k).None?) ==> ps == []
    decreases |s| - i
  {
    if i == |s| then []
    else
      match PriceAt(s, i)
      case Some((v, e)) => [v] + Prices(s, e)
      case None => Prices(s, i + 1)
  }

  /** Text without a decimal point has no price. */
  lemma {:induction false} NoPointNoPrices(s: string, i: nat)
    requires i <= |s| && forall k :: i <= k < |s| ==> s[k] != '.'
    ensures Prices(s, i) == []
    decreases |s| - i
  {
    if i < |s| {
      assert PriceAt(s, i).None?;
      NoPointNoPrices(s, i + 1);
    }
  }

  /** The largest element. */
  function MaxOf(xs: seq<nat>): (m: nat)
    requires |xs| > 0
    ensures m in xs && forall x :: x in xs ==> x <= m
  {
    if |xs| == 1 then xs[0]
    else
      var rest := MaxOf(xs[1..]);
      assert forall x :: x in xs ==> x == xs[0] || x in xs[1..];
      if xs[0] >= rest then xs[0] else rest
  }

  /** `max` of the prices, or 0 when there are none. */
  function ReceiptAmount(text: string): (amount: nat)
    ensures Prices(text, 0) == [] ==> amount == 0
    ensures Prices(text, 0) != [] ==> amount in Prices(text, 0)
    ensures forall p :: p in Prices(text, 0) ==> p <= amount
  {
    var ps := Prices(text, 0);
    if ps == [] then 0 else MaxOf(ps)
  }

  // ----- date -----

  /** `\d{1,2}/` at `i`: the number and the index after the slash. Two digits are tried
      first; one digit is then only possible if the next character is the slash. */
  function SlashNumberAt(s: string, i: nat): (r: Option<(nat, nat)>)
    requires i <= |s|
    ensures r.Some? ==> i + 2 <= r.value.1 <= i + 3 && r.value.1 <= |s| && r.value.0 < 100
  {
    if i < |s| && IsDigit(s[i]) then
      if i + 1 < |s| && IsDigit(s[i + 1]) then
        if i + 2 < |s| && s[i + 2] == '/' then Some((10 * DigitValue(s[i]) + DigitValue(s[i + 1]), i + 3)) else None
      else if i + 1 < |s| && s[i + 1] == '/' then Some((DigitValue(s[i]), i + 2))
      else None
    else None
  }

  /** `\d{2,4}` at `j`, greedy: the number and how many digits it has. */
  function YearAt(s: string, j: nat): (r: Option<(nat, nat)>)
    requires j <= |s|
    ensures r.Some? ==> 2 <= r.value.1 <= 4
  {
    var n := DigitRun(s, j);
    if n < 2 then None
    else
      var k := if n > 4 then 4 else n;
      var ds := s[j..j + k];
      assert forall m :: 0 <= m < |ds| ==> IsDigit(ds[m]);
      Some((DigitsValue(ds), k))
  }

  /** The three numbers of a date match, and how many digits the year was written with. */
  datatype DateText = DateText(month: nat, day: nat, year: nat, yearDigits: nat)

  function DateMatchAt(s: string, i: nat): (r: Option<DateText>)
    requires i < |s|
    ensures r.Some? ==> 2 <= r.value.yearDigits <= 4
  {
    match SlashNumberAt(s, i)
    case None => None
    case Some((m, j)) =>
      match SlashNumberAt(s, j)
      case None => None
      case Some((d, k)) =>
        match YearAt(s, k)
        case None => None
        case Some((y, n)) => Some(DateText(m, d, y, n))
  }

  /** `re.search` from `i` on: the index of the leftmost date match, or `|s|`. */
  function FirstDateIndex(s: string, i: nat): (k: nat)
    requires i <= |s|
    ensures i <= k <= |s|
    ensures forall m :: i <= m < k ==> DateMatchAt(s, m).None?
    ensures k < |s| ==> DateMatchAt(s, k).Some?
    decreases |s| - i
  {
    if i == |s| || DateMatchAt(s, i).Some? then i else FirstDateIndex(s, i + 1)
  }

  /** The leftmost date match, if any. */
  function FirstDateMatch(s: string): (r: Option<DateText>)
    ensures r.None? <==> forall k :: 0 <= k < |s| ==> DateMatchAt(s, k).None?
    ensures r.Some? ==>
      (exists k :: 0 <= k < |s| && DateMatchAt(s, k) == r &&
         forall m :: 0 <= m < k ==> DateMatchAt(s, m).None?)
  {
    var k := FirstDateIndex(s, 0);
    if k < |s| then DateMatchAt(s, k) else None
  }

  /** `datetime.strptime(match, '%m/%d/%Y').date()`, or `None` where it raises: the year must
      have exactly four digits and the day must exist in that month and year. */
  function Strptime(t: DateText): (r: Option<Date>)
    ensures r.Some? <==> t.yearDigits == 4 && t.year >= 1 && Valid(Date(t.year, t.month, t.day))
    ensures r.Some? ==> r.value == Date(t.year, t.month, t.day)
  {
    if t.yearDigits == 4 && t.year >= 1 && Valid(Date(t.year, t.month, t.day))
    then Some(Date(t.year, t.month, t.day))
    else None
  }

  /** Only the first date-like text is tried; if it does not parse, there is no date. */
  function ReceiptDate(text: string): (r: Option<Date>)
    ensures r.Some? ==> Valid(r.value) && r.value.year >= 1
    ensures FirstDateMatch(text).None? ==> r.None?
    ensures FirstDateMatch(text).Some? ==> r == Strptime(FirstDateMatch(text).value)
    ensures r.Some? ==>
      (exists k :: 0 <= k < |text| && DateMatchAt(text, k).Some? &&
         r.value == Date(DateMatchAt(text, k).value.year, DateMatchAt(text, k).value.month, DateMatchAt(text, k).value.day) &&
         forall m :: 0 <= m < k ==> DateMatchAt(text, m).None?)
  {
    match FirstDateMatch(text)
    case None => None
    case Some(t) => Strptime(t)
  }

  /** A date written with a two-digit year is found by the search but refused by the parse. */
  lemma TwoDigitYearDropped(text: string)
    requires FirstDateMatch(text).Some? && FirstDateMatch(text).value.yearDigits == 2
    ensures ReceiptDate(text).None?
  {
  }

  // ----- merchant and items -----

  /** A stripped line that can be the merchant: non-empty, longer than three characters and
      not starting with "$". */
  predicate MerchantLine(line: string) {
    |line| > 3 && line[0] != '$'
  }

  /** Each line stripped. */
  function StripAll(lines: seq<string>): (r: seq<string>)
    ensures |r| == |lines|
  {
    if lines == [] then [] else [Strip(lines[0])] + StripAll(lines[1..])
  }

  /** The `i`-th stripped line is the `i`-th line stripped. */
  lemma {:induction false} StripAllAt(lines: seq<string>, i: nat)
    requires i < |lines|
    ensures StripAll(lines)[i] == Strip(lines[i])
  {
    if i > 0 {
      StripAllAt(lines[1..], i - 1);
    }
  }

  /** The index of the first stripped line that can be the merchant, or `|lines|`. */
  function FirstCandidate(lines: seq<string>): (k: nat)
    ensures k <= |lines|
    ensures forall j :: 0 <= j < k ==> !MerchantLine(lines[j])
    ensures k < |lines| ==> MerchantLine(lines[k])
  {
    if lines == [] || MerchantLine(lines[0]) then 0
    else
      assert forall j :: 1 <= j < |lines| ==> lines[j] == lines[1..][j - 1];
      1 + FirstCandidate(lines[1..])
  }

  /** The first three lines. */
  function Head(lines: seq<string>): (head: seq<string>)
    ensures |head| <= 3
    ensures |lines| >= 3 ==> |head| == 3
  {
    lines[..if |lines| < 3 then |lines| else 3]
  }

  /** The merchant: the first of the first three lines that, stripped, can be the merchant;
      "" if there is none. */
  function ReceiptMerchant(lines: seq<string>): (r: string)
    ensures r == "" || MerchantLine(r)
  {
    var head := StripAll(Head(lines));
    var k := FirstCandidate(head);
    if k < |head| then head[k] else ""
  }

  /** The merchant is the first of the first three lines that qualifies once stripped. */
  lemma ReceiptMerchantFirst(lines: seq<string>, i: nat)
    requires i < |Head(lines)| && MerchantLine(Strip(Head(lines)[i]))
    requires forall j :: 0 <= j < i ==> !MerchantLine(Strip(Head(lines)[j]))
    ensures ReceiptMerchant(lines) == Strip(Head(lines)[i])
  {
    var head := Head(lines);
    var st := StripAll(head);
    var k := FirstCandidate(st);
    StripAllAt(head, i);
    forall j | 0 <= j < i ensures !MerchantLine(st[j]) {
      StripAllAt(head, j);
    }
  }

  /** No merchant exactly when none of the first three lines qualifies once stripped. */
  lemma ReceiptMerchantNone(lines: seq<string>)
    ensures ReceiptMerchant(lines) == "" <==> forall j :: 0 <= j < |Head(lines)| ==> !MerchantLine(Strip(Head(lines)[j]))
  {
    var head := Head(lines);
    var st := StripAll(head);
    var k := FirstCandidate(st);
    if k < |st| {
      StripAllAt(head, k);
    }
    forall j | 0 <= j < |head| && MerchantLine(Strip(head[j])) ensures k < |st| {
      StripAllAt(head, j);
    }
  }

  const ItemWords: seq<string> := ["item", "product", "service"]

  /** The item a stripped line gives, if any: the line and its first price. */
  function ItemOf(line: string): (r: Option<ReceiptItem>)
    ensures r.Some? ==> r.value.description == line && AnyContained(Lower(line), ItemWords)
    ensures r.Some? ==> Prices(line, 0) != [] && r.value.amount == Prices(line, 0)[0]
    ensures r.None? <==> !AnyContained(Lower(line), ItemWords) || Prices(line, 0) == []
  {
    if AnyContained(Lower(line), ItemWords) then
      var ps := Prices(line, 0);
      if ps != [] then Some(ReceiptItem(line, ps[0])) else None
    else None
  }

  /** The items of the stripped lines `ls`, in line order. */
  function ReceiptItems(ls: seq<string>): seq<ReceiptItem>
  {
    if ls == [] then []
    else
      var front := ReceiptItems(ls[..|ls| - 1]);
      match ItemOf(ls[|ls| - 1])
      case None => front
      case Some(item) => front + [item]
  }

  /** One more line adds its item, if it gives one. */
  lemma ReceiptItemsStep(ls: seq<string>, k: nat)
    requires k < |ls|
    ensures ReceiptItems(ls[..k + 1]) ==
      ReceiptItems(ls[..k]) + (if ItemOf(ls[k]).Some? then [ItemOf(ls[k]).value] else [])
  {
    assert ls[..k + 1][..k] == ls[..k];
  }

  /** Every item comes from a line, and every line with a keyword and a price gives one. */
  lemma {:induction false} ReceiptItemsExactly(ls: seq<string>)
    ensures forall item :: item in ReceiptItems(ls) <==> exists l :: l in ls && ItemOf(l) == Some(item)
    decreases |ls|
  {
    if ls != [] {
      var front := ls[..|ls| - 1];
      var last := ls[|ls| - 1];
      assert ls == front + [last];
      ReceiptItemsExactly(front);
      ReceiptItemsStep(ls, |ls| - 1);
      assert ls[..|ls| - 1 + 1] == ls;
      forall item ensures item in ReceiptItems(ls) <==> exists l :: l in ls && ItemOf(l) == Some(item) {
        if exists l :: l in ls && ItemOf(l) == Some(item) {
          var l :| l in ls && ItemOf(l) == Some(item);
          if l != last {
            assert l in front;
          }
        }
      }
    }
  }

  // ----- the parser -----

  /** The merchant loop: the first three lines are stripped in turn, stopping at the first
      that can be the merchant. */
  method PickMerchant(lines: seq<string>) returns (merchant: string)
    ensures merchant == ReceiptMerchant(lines)
  {
    var head := Head(lines);
    ghost var stripped := StripAll(head);
    var i := 0;
    while i < |head|
      invariant 0 <= i <= |head|
      invariant forall j :: 0 <= j < i ==> !MerchantLine(stripped[j])
      decreases |head| - i
    {
      var line := Strip(head[i]);
      StripAllAt(head, i);
      if |line| > 0 && |line| > 3 && line[0] != '$' {
        assert FirstCandidate(stripped) == i;
        return line;
      }
      i := i + 1;
    }
    return "";
  }

  /** The item loop: every line is stripped, and each one naming an item, product or
      service with a price adds an item. */
  method CollectItems(lines: seq<string>) returns (items: seq<ReceiptItem>)
    ensures items == ReceiptItems(StripAll(lines))
  {
    ghost var stripped := StripAll(lines);
    items := [];
    for k := 0 to |lines|
      invariant items == ReceiptItems(stripped[..k])
    {
      var line := Strip(lines[k]);
      StripAllAt(lines, k);
      ReceiptItemsStep(stripped, k);
      var item := ItemOf(line);
      if item.Some? {
        items := items + [item.value];
      }
    }
    assert stripped[..|lines|] == stripped;
  }

  /** `_parse_receipt_text`: the result dictionary starts with the defaults and each step
      overwrites its own field. */
  method ParseReceiptText(text: string) returns (data: ReceiptData)
    ensures data.merchant == ReceiptMerchant(SplitOn(text, '\n'))
    ensures data.amount == ReceiptAmount(text)
    ensures data.date == ReceiptDate(text)
    ensures data.items == ReceiptItems(StripAll(SplitOn(text, '\n')))
    ensures data.confidence == 0.8
  {
    var lines := SplitOn(text, '\n');
    data := ReceiptData("", 0, None, [], 0.8);
    var merchant := PickMerchant(lines);
    if merchant != "" {
      data := data.(merchant := merchant);
    }
    var amounts := Prices(text, 0);
    if amounts != [] {
      data := data.(amount := MaxOf(amounts));
    }
    var found := FirstDateMatch(text);
    if found.Some? {
      data := data.(date := Strptime(found.value));
    }
    var items := CollectItems(lines);
    data := data.(items := items);
  }
}
