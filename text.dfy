/**
  The Python string operations the voice and receipt parsers rely on, over
  `seq<char>`: character classes, `lower()`, `in` (substring test), `split()`,
  `split('\n')`, `strip()`, `replace(p, '')` and reading a run of decimal digits.
  Character classes follow Python for the ASCII range only.
*/
module Text {

  /** `c.isspace()`: tab, line feed, vertical tab, form feed, carriage return,
      the separators 0x1C-0x1F and space. */
  predicate IsSpace(c: char) {
    var k := c as int;
    (9 <= k <= 13) || (28 <= k <= 32)
  }

  predicate IsDigit(c: char) {
    '0' <= c <= '9'
  }

  /** `c.isupper()` for a single character. */
  predicate IsUpper(c: char) {
    'A' <= c <= 'Z'
  }

  function ToLower(c: char): (r: char)
    ensures !IsUpper(r)
    ensures !IsUpper(c) ==> r == c
  {
    if IsUpper(c) then (c as int + 32) as char else c
  }

  /** `s.lower()`. */
  function Lower(s: string): (r: string)
    ensures |r| == |s|
    ensures forall i :: 0 <= i < |s| ==> r[i] == ToLower(s[i])
  {
    if s == [] then [] else [ToLower(s[0])] + Lower(s[1..])
  }

  /** `p in s`: `p` occurs in `s` as a contiguous substring. */
  predicate Contains(s: string, p: string)
    decreases |s|
  {
    p <= s || (|s| > 0 && Contains(s[1..], p))
  }

  /** `Contains` is exactly "some suffix of `s` starts with `p`". */
  lemma {:induction false} ContainsAt(s: string, p: string)
    ensures Contains(s, p) <==> exists i :: 0 <= i <= |s| && p <= s[i..]
    decreases |s|
  {
    if |s| > 0 {
      ContainsAt(s[1..], p);
      if Contains(s[1..], p) {
        var i :| 0 <= i <= |s[1..]| && p <= s[1..][i..];
        assert s[1..][i..] == s[i + 1..];
      }
      if exists i :: 0 <= i <= |s| && p <= s[i..] {
        var i :| 0 <= i <= |s| && p <= s[i..];
        if i > 0 {
          assert s[i..] == s[1..][i - 1..];
          assert 0 <= i - 1 <= |s[1..]| && p <= s[1..][i - 1..];
          assert Contains(s[1..], p);
        } else {
          assert s[i..] == s;
          assert p <= s;
        }
      }
    } else {
      if exists i :: 0 <= i <= |s| && p <= s[i..] {
        var i :| 0 <= i <= |s| && p <= s[i..];
        assert s[i..] == s;
      }
    }
  }

  /** Number of leading non-whitespace characters. */
  function WordLength(s: string): (n: nat)
    ensures n <= |s|
    ensures forall k :: 0 <= k < n ==> !IsSpace(s[k])
    ensures n < |s| ==> IsSpace(s[n])
  {
    if s == [] || IsSpace(s[0]) then 0 else 1 + WordLength(s[1..])
  }

  /** `s.split()`: the maximal runs of non-whitespace characters, in order. */
  function Words(s: string): (ws: seq<string>)
    ensures forall w :: w in ws ==> |w| > 0
    ensures forall w :: w in ws ==> forall c :: c in w ==> !IsSpace(c)
    decreases |s|
  {
    if s == [] then []
    else if IsSpace(s[0]) then Words(s[1..])
    else
      var n := WordLength(s);
      assert forall c :: c in s[..n] ==> !IsSpace(c);
      [s[..n]] + Words(s[n..])
  }

  /** A text with no whitespace is a single word. */
  lemma {:induction false} WordsOfWord(w: string)
    requires |w| > 0 && forall k :: 0 <= k < |w| ==> !IsSpace(w[k])
    ensures Words(w) == [w]
  {
    assert !IsSpace(w[0]);
    assert WordLength(w) == |w|;
    assert w[..|w|] == w && w[|w|..] == [];
  }

  /** Cutting at a whitespace character splits the words: `Words(s + [c] + t)` is the words of
      `s` followed by those of `t`. With `WordsOfWord` and `Words([]) == []` this determines
      `Words` on every text. */
  lemma {:induction false} WordsAtSpace(s: string, c: char, t: string)
    requires IsSpace(c)
    ensures Words(s + [c] + t) == Words(s) + Words(t)
    decreases |s|
  {
    var u := s + [c] + t;
    if s == [] {
      assert u == [c] + t && u[1..] == t;
      WordsSkip(u);
    } else if IsSpace(s[0]) {
      TailOfConcat(s, [c], t);
      WordsSkip(u);
      WordsSkip(s);
      WordsAtSpace(s[1..], c, t);
    } else {
      var m := WordLength(s);
      WordLengthPrefix(s, c, t);
      TailOfConcat(s, [c], t);
      WordsFirst(u);
      WordsFirst(s);
      if m < |s| {
        CutConcat(s, [c], t, m);
        WordsAtSpace(s[m..], c, t);
        ConsAppend(s[..m], Words(s[m..]), Words(t));
      } else {
        CutConcat(s, [c], t, m);
        assert s[m..] == [] && u[m..] == [c] + t && ([c] + t)[1..] == t;
        WordsSkip(u[m..]);
      }
    }
  }

  lemma {:induction false} WordsSkip(u: string)
    requires u != [] && IsSpace(u[0])
    ensures Words(u) == Words(u[1..])
  {
  }

  lemma {:induction false} WordsFirst(u: string)
    requires u != [] && !IsSpace(u[0])
    ensures Words(u) == [u[..WordLength(u)]] + Words(u[WordLength(u)..])
  {
  }

  lemma {:induction false} CutConcat(s: string, q: string, t: string, m: nat)
    requires m <= |s|
    ensures (s + q + t)[..m] == s[..m] && (s + q + t)[m..] == s[m..] + q + t
  {
  }

  lemma {:induction false} ConsAppend(w: string, ws: seq<string>, vs: seq<string>)
    ensures [w] + (ws + vs) == [w] + ws + vs
  {
  }

  /** The leading word of `s + [c] + t` is that of `s`: it stops at `c` at the latest. */
  lemma {:induction false} WordLengthPrefix(s: string, c: char, t: string)
    requires IsSpace(c)
    ensures WordLength(s + [c] + t) == WordLength(s)
  {
    var u := s + [c] + t;
    var m, n := WordLength(s), WordLength(u);
    assert u[m] == if m < |s| then s[m] else c;
    assert IsSpace(u[m]);
    forall k | 0 <= k < m ensures !IsSpace(u[k]) {
      assert u[k] == s[k];
    }
  }

  /** The number of whitespace characters `s.lstrip()` drops. */
  function LeadingSpaces(s: string): (n: nat)
    ensures n <= |s|
  {
    if s != [] && IsSpace(s[0]) then 1 + LeadingSpaces(s[1..]) else 0
  }

  /** The number of whitespace characters `s.rstrip()` drops. */
  function TrailingSpaces(s: string): (n: nat)
    ensures n <= |s|
  {
    if s != [] && IsSpace(s[|s| - 1]) then 1 + TrailingSpaces(s[..|s| - 1]) else 0
  }

  /** The leading whitespace run is exactly that: whitespace, then a non-whitespace character. */
  lemma {:induction false} LeadingSpacesAre(s: string)
    ensures forall k :: 0 <= k < LeadingSpaces(s) ==> IsSpace(s[k])
    ensures LeadingSpaces(s) < |s| ==> !IsSpace(s[LeadingSpaces(s)])
  {
    if s != [] && IsSpace(s[0]) {
      LeadingSpacesAre(s[1..]);
    }
  }

  /** The trailing whitespace run is exactly that: a non-whitespace character, then whitespace. */
  lemma {:induction false} TrailingSpacesAre(s: string)
    ensures forall k :: |s| - TrailingSpaces(s) <= k < |s| ==> IsSpace(s[k])
    ensures TrailingSpaces(s) < |s| ==> !IsSpace(s[|s| - 1 - TrailingSpaces(s)])
  {
    if s != [] && IsSpace(s[|s| - 1]) {
      TrailingSpacesAre(s[..|s| - 1]);
    }
  }

  /** `s.strip()`: the slice left once the leading and the trailing whitespace are dropped. */
  function Strip(s: string): (r: string)
    ensures |r| <= |s|
  {
    var i := LeadingSpaces(s);
    var n := TrailingSpaces(s);
    if i + n >= |s| then [] else s[i..|s| - n]
  }

  /** What `Strip` keeps is a slice of `s` with only whitespace around it, and it neither
      starts nor ends with whitespace. */
  lemma {:induction false} StripTrims(s: string)
    ensures TrimmedAt(s, Strip(s), LeadingSpaces(s)) || (Strip(s) == [] && forall k :: 0 <= k < |s| ==> IsSpace(s[k]))
    ensures var r := Strip(s); r == [] || (!IsSpace(r[0]) && !IsSpace(r[|r| - 1]))
  {
    LeadingSpacesAre(s);
    TrailingSpacesAre(s);
  }

  /** `r` is the slice of `s` starting at `i`, with only whitespace around it. */
  predicate TrimmedAt(s: string, r: string, i: nat) {
    i + |r| <= |s| && r == s[i..i + |r|]
    && (forall k :: 0 <= k < i ==> IsSpace(s[k]))
    && (forall k :: i + |r| <= k < |s| ==> IsSpace(s[k]))
  }

  /** Position of the first `sep` in `s`, or `|s|` when there is none. */
  function IndexOf(s: string, sep: char): (i: nat)
    ensures i <= |s|
    ensures forall k :: 0 <= k < i ==> s[k] != sep
    ensures i < |s| ==> s[i] == sep
  {
    if s == [] || s[0] == sep then 0 else 1 + IndexOf(s[1..], sep)
  }

  /** `s.split(sep)` with an explicit one-character separator: empty pieces are kept. */
  function SplitOn(s: string, sep: char): (parts: seq<string>)
    ensures |parts| >= 1
    ensures forall p :: p in parts ==> sep !in p
    decreases |s|
  {
    var i := IndexOf(s, sep);
    if i == |s| then [s]
    else [s[..i]] + SplitOn(s[i + 1..], sep)
  }

  /** `sep.join(parts)`. */
  function Join(parts: seq<string>, sep: char): string
  {
    if |parts| <= 1 then (if parts == [] then [] else parts[0])
    else parts[0] + [sep] + Join(parts[1..], sep)
  }

  /** Splitting on a separator and joining again gives back the text. */
  lemma {:induction false} JoinSplit(s: string, sep: char)
    ensures Join(SplitOn(s, sep), sep) == s
    decreases |s|
  {
    var i := IndexOf(s, sep);
    if i < |s| {
      var rest := s[i + 1..];
      JoinSplit(rest, sep);
      var parts := SplitOn(rest, sep);
      assert SplitOn(s, sep) == [s[..i]] + parts;
      assert Join([s[..i]] + parts, sep) == s[..i] + [sep] + Join(parts, sep) by {
        assert ([s[..i]] + parts)[1..] == parts;
      }
      assert s == s[..i] + [sep] + rest;
    }
  }

  /** `s.replace(p, '')` for a non-empty `p`: scanning left to right, every
      non-overlapping occurrence of `p` is deleted. */
  function RemoveAll(s: string, p: string): (r: string)
    requires |p| > 0
    ensures |r| <= |s|
    decreases |s|
  {
    if s == [] then []
    else if p <= s then RemoveAll(s[|p|..], p)
    else [s[0]] + RemoveAll(s[1..], p)
  }

  /** Where `p` does not occur, nothing is removed. */
  lemma {:induction false} RemoveAllAbsent(s: string, p: string)
    requires |p| > 0
    ensures !Contains(s, p) ==> RemoveAll(s, p) == s
    decreases |s|
  {
    if s != [] && !Contains(s, p) {
      RemoveAllAbsent(s[1..], p);
    }
  }

  /** `RemoveAll` deletes the leftmost occurrence of `p`, keeps what precedes it and goes on
      after it: in `a + p + b`, where no occurrence of `p` starts inside `a` (one would lie
      within `a` and all of `p` but its last character), the result is `a` followed by the
      result on `b`. With `RemoveAllAbsent` this determines `RemoveAll`. */
  lemma {:induction false} RemoveAllAtFirst(a: string, p: string, b: string)
    requires |p| > 0 && !Contains(a + p[..|p| - 1], p)
    ensures RemoveAll(a + p + b, p) == a + RemoveAll(b, p)
    decreases |a|
  {
    if a == [] {
      RemoveAllOccurrenceFirst(p, b);
    } else {
      NoOccurrenceInTail(a, p);
      RemoveAllAtFirst(a[1..], p, b);
      NotAtHead(a, p, b);
      RemoveAllKeepsHead(a, p, b);
    }
  }

  lemma {:induction false} RemoveAllOccurrenceFirst(p: string, b: string)
    requires |p| > 0
    ensures RemoveAll([] + p + b, p) == [] + RemoveAll(b, p)
  {
    var s := [] + p + b;
    assert s[..|p|] == p;
    RemoveAllAtStart(s, p);
    assert s[|p|..] == b;
  }

  lemma {:induction false} NoOccurrenceInTail(a: string, p: string)
    requires |p| > 0 && a != [] && !Contains(a + p[..|p| - 1], p)
    ensures !Contains(a[1..] + p[..|p| - 1], p)
  {
    var x := a + p[..|p| - 1];
    assert x[1..] == a[1..] + p[..|p| - 1];
  }

  lemma {:induction false} NotAtHead(a: string, p: string, b: string)
    requires |p| > 0 && a != [] && !Contains(a + p[..|p| - 1], p)
    ensures !(p <= a + p + b)
  {
    var s := a + p + b;
    var x := a + p[..|p| - 1];
    assert !(p <= x);
    assert s[..|p|] == x[..|p|];
  }

  lemma {:induction false} RemoveAllKeepsHead(a: string, p: string, b: string)
    requires |p| > 0 && a != [] && !(p <= a + p + b)
    requires RemoveAll(a[1..] + p + b, p) == a[1..] + RemoveAll(b, p)
    ensures RemoveAll(a + p + b, p) == a + RemoveAll(b, p)
  {
    var s := a + p + b;
    RemoveAllSkip(s, p);
    TailOfConcat(a, p, b);
    ConsConcat(a, RemoveAll(b, p));
  }

  lemma {:induction false} TailOfConcat(a: string, p: string, b: string)
    requires a != []
    ensures (a + p + b)[0] == a[0] && (a + p + b)[1..] == a[1..] + p + b
  {
  }

  lemma {:induction false} ConsConcat(a: string, r: string)
    requires a != []
    ensures [a[0]] + (a[1..] + r) == a + r
  {
    assert [a[0]] + a[1..] == a;
  }

  /** Where `p` starts, it is dropped. */
  lemma {:induction false} RemoveAllAtStart(s: string, p: string)
    requires |p| > 0 && |p| <= |s| && s[..|p|] == p
    ensures RemoveAll(s, p) == RemoveAll(s[|p|..], p)
  {
    assert p <= s;
  }

  /** Where `p` does not start, the first character is kept. */
  lemma {:induction false} RemoveAllSkip(s: string, p: string)
    requires |p| > 0 && s != [] && !(p <= s)
    ensures RemoveAll(s, p) == [s[0]] + RemoveAll(s[1..], p)
  {
  }

  /** Every character `RemoveAll` keeps comes from `s`. */
  lemma {:induction false} RemoveAllKeeps(s: string, p: string, c: char)
    requires |p| > 0
    ensures c in RemoveAll(s, p) ==> c in s
    decreases |s|
  {
    if s != [] {
      if p <= s {
        RemoveAllKeeps(s[|p|..], p, c);
      } else {
        RemoveAllKeeps(s[1..], p, c);
      }
    }
  }

  function DigitValue(c: char): (v: nat)
    requires IsDigit(c)
    ensures v <= 9
  {
    c as int - '0' as int
  }

  /** Length of the run of decimal digits starting at `s[i]`. */
  function DigitRun(s: string, i: nat): (n: nat)
    requires i <= |s|
    ensures i + n <= |s|
    ensures forall k :: i <= k < i + n ==> IsDigit(s[k])
    ensures i + n < |s| ==> !IsDigit(s[i + n])
    decreases |s| - i
  {
    if i < |s| && IsDigit(s[i]) then 1 + DigitRun(s, i + 1) else 0
  }

  /** `int(ds)` for a string of decimal digits. */
  function DigitsValue(ds: string): (v: nat)
    requires forall k :: 0 <= k < |ds| ==> IsDigit(ds[k])
  {
    if ds == [] then 0 else 10 * DigitsValue(ds[..|ds| - 1]) + DigitValue(ds[|ds| - 1])
  }
}
