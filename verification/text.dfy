/** The Python `str` operations the core relies on, on `seq<char>`:
    `pat in s`, `s.startswith(p)`, `s.split(sep)`, `sep.join(parts)`,
    `s.strip()`, `s.upper()`, `s.lower()`, `s.replace(c, "")` and `int(s)`. */
module Text {
  import opened Wrappers

  /** `pat` occurs in `s` starting at index `j`. */
  predicate OccursAt(s: string, pat: string, j: nat) {
    j + |pat| <= |s| && s[j..j + |pat|] == pat
  }

  /** Index of the first occurrence of `pat` in `s` (Python's `s.find(pat)`). */
  function Find(s: string, pat: string): (r: Option<nat>)
    ensures r.Some? ==> OccursAt(s, pat, r.value)
  {
    FindFrom(s, pat, 0)
  }

  /** Index of the first occurrence of `pat` in `s` at or after `start`. */
  function FindFrom(s: string, pat: string, start: nat): (r: Option<nat>)
    ensures r.Some? ==> start <= r.value && OccursAt(s, pat, r.value)
    decreases |s| - start
  {
    if start + |pat| > |s| then None
    else if OccursAt(s, pat, start) then Some(start)
    else FindFrom(s, pat, start + 1)
  }

  lemma {:induction false} FindFromIsFirst(s: string, pat: string, start: nat)
    ensures FindFrom(s, pat, start).Some? ==>
              forall j :: start <= j < FindFrom(s, pat, start).value ==> !OccursAt(s, pat, j)
    ensures FindFrom(s, pat, start).None? ==> forall j :: start <= j ==> !OccursAt(s, pat, j)
    decreases |s| - start
  {
    if start + |pat| <= |s| && !OccursAt(s, pat, start) {
      FindFromIsFirst(s, pat, start + 1);
    }
  }

  /** `Find` reports the first occurrence, and `None` only when there is none. */
  lemma FindIsFirst(s: string, pat: string)
    ensures Find(s, pat).Some? ==> forall j :: 0 <= j < Find(s, pat).value ==> !OccursAt(s, pat, j)
    ensures Find(s, pat).None? ==> forall j :: 0 <= j ==> !OccursAt(s, pat, j)
  {
    FindFromIsFirst(s, pat, 0);
  }

  /** An occurrence anywhere means `pat in s`. */
  lemma OccursContains(s: string, pat: string, j: nat)
    requires OccursAt(s, pat, j)
    ensures Find(s, pat).Some? && Find(s, pat).value <= j
  {
    FindIsFirst(s, pat);
  }

  lemma PrefixOfSuffix<T>(s: seq<T>, a: nat, l: seq<T>, n: nat)
    requires a <= |s| && l == s[a..] && n <= |l|
    ensures l[..n] == s[a..a + n]
  {
    forall k | 0 <= k < n ensures l[k] == s[a + k] { }
  }

  /** Python's `pat in s`. */
  predicate Contains(s: string, pat: string) {
    Find(s, pat).Some?
  }

  /** Python's `s.startswith(p)`. */
  predicate StartsWith(s: string, p: string) {
    |p| <= |s| && s[..|p|] == p
  }

  /** Python's `s.split(sep)` for a non-empty separator. */
  function Split(s: string, sep: string): (parts: seq<string>)
    requires |sep| > 0
    ensures |parts| >= 1
    decreases |s|
  {
    match Find(s, sep)
    case None => [s]
    case Some(i) => [s[..i]] + Split(s[i + |sep|..], sep)
  }

  /** One step of `Split` at the first occurrence of `sep`. */
  lemma SplitStep(s: string, sep: string)
    requires |sep| > 0 && Find(s, sep).Some?
    ensures var i := Find(s, sep).value;
            Split(s, sep) == [s[..i]] + Split(s[i + |sep|..], sep)
  {
    var i := Find(s, sep).value;
    assert Find(s, sep) == Some(i);
  }

  lemma Recompose(s: string, i: nat, n: nat)
    requires i + n <= |s|
    ensures s == s[..i] + s[i..i + n] + s[i + n..]
  {
  }

  lemma ConsIndex<T>(x: T, xs: seq<T>, k: nat)
    requires 0 < k <= |xs|
    ensures ([x] + xs)[k] == xs[k - 1]
  {
  }

  /** Python's `sep.join(parts)`. */
  function Join(parts: seq<string>, sep: string): string {
    if |parts| == 0 then ""
    else if |parts| == 1 then parts[0]
    else parts[0] + sep + Join(parts[1..], sep)
  }

  /** Splitting and joining again gives back the original text. */
  lemma {:induction false} JoinSplit(s: string, sep: string)
    requires |sep| > 0
    ensures Join(Split(s, sep), sep) == s
    decreases |s|
  {
    var f := Find(s, sep);
    if f.Some? {
      var i := f.value;
      var rest := s[i + |sep|..];
      var parts := Split(rest, sep);
      JoinSplit(rest, sep);
      SplitStep(s, sep);
      assert ([s[..i]] + parts)[1..] == parts;
      assert Join([s[..i]] + parts, sep) == s[..i] + sep + Join(parts, sep);
      assert s[i..i + |sep|] == sep;
      Recompose(s, i, |sep|);
    }
  }

  /** No piece of a split holds the separator. */
  lemma {:induction false} SplitPartsFree(s: string, sep: string)
    requires |sep| > 0
    ensures forall k :: 0 <= k < |Split(s, sep)| ==> !Contains(Split(s, sep)[k], sep)
    decreases |s|
  {
    match Find(s, sep)
    case None =>
    case Some(i) =>
      var rest := s[i + |sep|..];
      SplitPartsFree(rest, sep);
      SplitStep(s, sep);
      BeforeFirstIsFree(s, sep);
  }

  /** The text before the first occurrence of `sep` does not contain it. */
  lemma BeforeFirstIsFree(s: string, sep: string)
    requires |sep| > 0 && Find(s, sep).Some?
    ensures !Contains(s[..Find(s, sep).value], sep)
  {
    var i := Find(s, sep).value;
    if Contains(s[..i], sep) {
      var j := Find(s[..i], sep).value;
      SliceOfPrefix(s, i, j, |sep|);
      assert OccursAt(s, sep, j);
      FindIsFirst(s, sep);
      assert false;
    }
  }

  lemma SliceOfPrefix<T>(s: seq<T>, i: nat, j: nat, n: nat)
    requires i <= |s| && j + n <= i
    ensures s[..i][j..j + n] == s[j..j + n]
  {
    forall k | j <= k < j + n ensures s[..i][k] == s[k] { }
  }

  /** `s.split(sep)[0]` does not contain `sep`. */
  lemma SplitHeadFree(s: string, sep: string)
    requires |sep| > 0
    ensures !Contains(Split(s, sep)[0], sep)
  {
    if Find(s, sep).Some? {
      SplitStep(s, sep);
      BeforeFirstIsFree(s, sep);
    }
  }

  /** When `sep` occurs, `s.split(sep)[1]` is the text that follows the first
      occurrence, up to the second occurrence or the end of `s`. */
  lemma SplitSecond(s: string, sep: string)
    requires |sep| > 0 && Contains(s, sep)
    ensures |Split(s, sep)| >= 2
    ensures var i := Find(s, sep).value;
            StartsWith(s[i + |sep|..], Split(s, sep)[1])
    ensures !Contains(Split(s, sep)[1], sep)
  {
    var i := Find(s, sep).value;
    var rest := s[i + |sep|..];
    SplitSecondIsNextHead(s, sep);
    SplitHeadFree(rest, sep);
    SplitHeadIsPrefix(rest, sep);
  }

  /** When `sep` occurs there are at least two pieces. */
  lemma SplitHasSecond(s: string, sep: string)
    requires |sep| > 0 && Contains(s, sep)
    ensures |Split(s, sep)| >= 2
  {
    SplitStep(s, sep);
  }

  /** `s.split(sep)[1]` is the first piece of what follows the first `sep`. */
  lemma SplitSecondIsNextHead(s: string, sep: string)
    requires |sep| > 0 && Contains(s, sep)
    ensures var i := Find(s, sep).value;
            |Split(s, sep)| >= 2 && Split(s, sep)[1] == Split(s[i + |sep|..], sep)[0]
  {
    var i := Find(s, sep).value;
    SplitStep(s, sep);
    ConsIndex(s[..i], Split(s[i + |sep|..], sep), 1);
  }

  /** `s.split(sep)[0]` is a prefix of `s`. */
  lemma SplitHeadIsPrefix(s: string, sep: string)
    requires |sep| > 0
    ensures StartsWith(s, Split(s, sep)[0])
  {
  }

  /** Python's `str.isspace` for one character (the characters `str.strip()`
      removes). */
  predicate IsSpace(c: char) {
    c == ' ' || ('\t' <= c <= '\r') || ('\U{1C}' <= c <= '\U{1F}') ||
    c == '\U{85}' || c == '\U{A0}' || c == '\U{1680}' ||
    ('\U{2000}' <= c <= '\U{200A}') || c == '\U{2028}' || c == '\U{2029}' ||
    c == '\U{202F}' || c == '\U{205F}' || c == '\U{3000}'
  }

  /** The end of the run of white space that starts at `i`. */
  function SpaceRunEnd(s: string, i: nat): (k: nat)
    requires i <= |s|
    ensures i <= k <= |s| && (k == |s| || !IsSpace(s[k]))
    ensures forall j :: i <= j < k ==> IsSpace(s[j])
    decreases |s| - i
  {
    if i < |s| && IsSpace(s[i]) then SpaceRunEnd(s, i + 1) else i
  }

  /** The start of the run of white space that ends at `i`. */
  function SpaceRunStart(s: string, i: nat): (k: nat)
    requires i <= |s|
    ensures k <= i && (k == 0 || !IsSpace(s[k - 1]))
    ensures forall j :: k <= j < i ==> IsSpace(s[j])
  {
    if i > 0 && IsSpace(s[i - 1]) then SpaceRunStart(s, i - 1) else i
  }

  /** Python's `s.lstrip()`. */
  function StripLeft(s: string): (r: string)
    ensures |r| <= |s| && r == s[|s| - |r|..]
    ensures r == [] || !IsSpace(r[0])
    ensures forall i :: 0 <= i < |s| - |r| ==> IsSpace(s[i])
  {
    s[SpaceRunEnd(s, 0)..]
  }

  /** Python's `s.rstrip()`. */
  function StripRight(s: string): (r: string)
    ensures |r| <= |s| && r == s[..|r|]
    ensures r == [] || !IsSpace(r[|r| - 1])
    ensures forall i :: |r| <= i < |s| ==> IsSpace(s[i])
  {
    s[..SpaceRunStart(s, |s|)]
  }

  /** Python's `s.strip()`: the text without leading and trailing white space. */
  function Strip(s: string): (r: string) {
    StripRight(StripLeft(s))
  }

  /** `strip()` leaves no white space at either end. */
  lemma StripEnds(s: string)
    ensures var r := Strip(s);
            r == [] || (!IsSpace(r[0]) && !IsSpace(r[|r| - 1]))
  {
    var l := StripLeft(s);
    var r := StripRight(l);
    assert r == l[..|r|];
    assert r != [] ==> r[0] == l[0];
  }

  /** `strip()` keeps a contiguous piece of `s`. */
  lemma StripInfix(s: string)
    ensures var r, a := Strip(s), |s| - |StripLeft(s)|;
            a + |r| <= |s| && s[a..a + |r|] == r
  {
    var l := StripLeft(s);
    var r := StripRight(l);
    PrefixOfSuffix(s, |s| - |l|, l, |r|);
  }

  /** What `strip()` removes after the kept piece is white space. */
  lemma StripTail(s: string)
    ensures var r, a := Strip(s), |s| - |StripLeft(s)|;
            forall i :: a + |r| <= i < |s| ==> IsSpace(s[i])
  {
    var l := StripLeft(s);
    var r := StripRight(l);
    SpaceShift(s, |s| - |l|, l, |r|);
  }

  lemma SpaceShift(s: string, a: nat, l: string, n: nat)
    requires a <= |s| && l == s[a..] && n <= |l|
    requires forall i :: n <= i < |l| ==> IsSpace(l[i])
    ensures forall i :: a + n <= i < |s| ==> IsSpace(s[i])
  {
    forall i | a + n <= i < |s| ensures IsSpace(s[i]) {
      assert s[i] == l[i - a];
    }
  }

  /** `strip()` keeps a contiguous piece of `s` that neither begins nor ends in
      white space, and removes only white space around it. */
  lemma StripIsTrimmedInfix(s: string)
    ensures var r := Strip(s);
            r == [] || (!IsSpace(r[0]) && !IsSpace(r[|r| - 1]))
    ensures var r, a := Strip(s), |s| - |StripLeft(s)|;
            a + |r| <= |s| && s[a..a + |r|] == r &&
            (forall i :: 0 <= i < a ==> IsSpace(s[i])) &&
            (forall i :: a + |r| <= i < |s| ==> IsSpace(s[i]))
  {
    StripEnds(s);
    StripInfix(s);
    StripTail(s);
  }

  /** Stripping twice is stripping once. */
  lemma StripIdempotent(s: string)
    ensures Strip(Strip(s)) == Strip(s)
  {
    var r := Strip(s);
    StripIsTrimmedInfix(s);
    assert StripLeft(r) == r;
  }

  function UpperChar(c: char): char {
    if 'a' <= c <= 'z' then (c as int - 32) as char else c
  }

  function LowerChar(c: char): char {
    if 'A' <= c <= 'Z' then (c as int + 32) as char else c
  }

  /** Python's `s.upper()` on ASCII letters. */
  function Upper(s: string): (r: string)
    ensures |r| == |s|
    ensures forall i :: 0 <= i < |s| ==> r[i] == UpperChar(s[i])
  {
    seq(|s|, i requires 0 <= i < |s| => UpperChar(s[i]))
  }

  /** Python's `s.lower()` on ASCII letters. */
  function Lower(s: string): (r: string)
    ensures |r| == |s|
    ensures forall i :: 0 <= i < |s| ==> r[i] == LowerChar(s[i])
  {
    seq(|s|, i requires 0 <= i < |s| => LowerChar(s[i]))
  }

  /** Upper-casing leaves no lower-case ASCII letter and is idempotent. */
  lemma UpperIsUpper(s: string)
    ensures forall i :: 0 <= i < |s| ==> !('a' <= Upper(s)[i] <= 'z')
    ensures Upper(Upper(s)) == Upper(s)
  {
  }

  /** Python's `s.replace(c, "")` for a single character `c`. */
  function RemoveChar(s: string, c: char): (r: string)
    ensures |r| <= |s|
    ensures c !in r
    ensures forall x :: x in r ==> x in s
  {
    if s == [] then []
    else (if s[0] == c then [] else [s[0]]) + RemoveChar(s[1..], c)
  }

  /** Removing a character that does not occur changes nothing. */
  lemma {:induction false} RemoveAbsentChar(s: string, c: char)
    requires c !in s
    ensures RemoveChar(s, c) == s
  {
    if s != [] {
      RemoveAbsentChar(s[1..], c);
    }
  }

  predicate IsDigit(c: char) {
    '0' <= c <= '9'
  }

  /** The body of a Python integer literal as `int()` accepts it: decimal digits,
      with single underscores allowed between two digits. */
  predicate IsDigitRun(s: string) {
    |s| >= 1 && IsDigit(s[0]) && IsDigit(s[|s| - 1]) &&
    (forall i :: 0 <= i < |s| ==> IsDigit(s[i]) || s[i] == '_') &&
    forall i :: 0 <= i < |s| - 1 ==> !DoubleUnderscoreAt(s, i)
  }

  predicate DoubleUnderscoreAt(s: string, i: nat) {
    i + 1 < |s| && s[i] == '_' && s[i + 1] == '_'
  }

  /** Decimal value of a digit run, ignoring the underscores. */
  function DigitValue(s: string): nat {
    if s == [] then 0
    else if IsDigit(s[|s| - 1]) then DigitValue(s[..|s| - 1]) * 10 + (s[|s| - 1] as int - '0' as int)
    else DigitValue(s[..|s| - 1])
  }

  /** Python's `int(s)` on an already stripped string: an optional sign and a
      digit run; anything else raises `ValueError`, modelled as `None`. */
  function ParseInt(s: string): (r: Option<int>)
    ensures r.Some? ==> |s| >= 1
  {
    if |s| >= 1 && (s[0] == '+' || s[0] == '-') then
      if IsDigitRun(s[1..]) then
        var v: int := DigitValue(s[1..]);
        Some(if s[0] == '-' then -v else v)
      else None
    else if IsDigitRun(s) then Some(DigitValue(s))
    else None
  }

  function DigitChar(d: nat): char
    requires d < 10
  {
    ('0' as int + d) as char
  }

  /** Python's `str(n)` for an integer. */
  function NatToString(n: nat): (s: string)
    ensures |s| >= 1 && forall i :: 0 <= i < |s| ==> IsDigit(s[i])
  {
    if n < 10 then [DigitChar(n)] else NatToString(n / 10) + [DigitChar(n % 10)]
  }

  function IntToString(n: int): string {
    if n < 0 then "-" + NatToString(-n) else NatToString(n)
  }

  lemma {:induction false} DigitValueOfString(n: nat)
    ensures DigitValue(NatToString(n)) == n
  {
    if n >= 10 {
      var s := NatToString(n);
      assert s[..|s| - 1] == NatToString(n / 10);
      DigitValueOfString(n / 10);
    }
  }

  lemma DigitsAreRun(s: string)
    requires |s| >= 1 && forall i :: 0 <= i < |s| ==> IsDigit(s[i])
    ensures IsDigitRun(s)
  {
  }

  /** `int()` reads back every integer that `str()` writes. */
  lemma ParseIntOfString(n: int)
    ensures ParseInt(IntToString(n)) == Some(n)
  {
    if n < 0 {
      DigitValueOfString(-n);
      DigitsAreRun(NatToString(-n));
      assert IntToString(n)[1..] == NatToString(-n);
    } else {
      DigitValueOfString(n);
      DigitsAreRun(NatToString(n));
    }
  }

  /** Python's `s.replace(a, b)` for single characters. */
  function ReplaceChar(s: string, a: char, b: char): (r: string)
    ensures |r| == |s|
    ensures forall i :: 0 <= i < |s| ==> r[i] == (if s[i] == a then b else s[i])
  {
    seq(|s|, i requires 0 <= i < |s| => if s[i] == a then b else s[i])
  }

  /** A text that lacks one of the pattern's characters cannot contain it. */
  lemma AbsentCharNotContained(s: string, pat: string, c: char)
    requires c in pat && c !in s
    ensures !Contains(s, pat)
  {
  }

  /** An occurrence inside an infix of `s` is an occurrence in `s`. */
  lemma ContainsInfix(s: string, a: nat, t: string, pat: string)
    requires a + |t| <= |s| && s[a..a + |t|] == t && Contains(t, pat)
    ensures Contains(s, pat)
  {
    var j := Find(t, pat).value;
    assert OccursAt(t, pat, j);
    forall m | j <= m < j + |pat| ensures s[a + m] == t[m] { }
    assert s[a + j..a + j + |pat|] == t[j..j + |pat|];
    OccursContains(s, pat, a + j);
  }

  /** The first occurrence of a one-character pattern. */
  lemma FindChar(s: string, c: char, i: nat)
    requires i < |s| && s[i] == c && c !in s[..i]
    ensures Find(s, [c]) == Some(i)
  {
    assert OccursAt(s, [c], i);
    OccursContains(s, [c], i);
  }

  /** A text without the separator splits into itself. */
  lemma SplitAbsent(s: string, sep: string)
    requires |sep| > 0 && !Contains(s, sep)
    ensures Split(s, sep) == [s]
  {
  }

  /** Splitting on a one-character separator cuts at its first occurrence. */
  lemma SplitFirst(s: string, c: char, i: nat)
    requires i < |s| && s[i] == c && c !in s[..i]
    ensures Split(s, [c]) == [s[..i]] + Split(s[i + 1..], [c])
  {
    FindChar(s, c, i);
  }

  /** A text with no occurrence of a one-character separator is one piece. */
  lemma SplitNone(s: string, c: char)
    requires c !in s
    ensures Split(s, [c]) == [s]
  {
    AbsentCharNotContained(s, [c], c);
  }

  /** A text made of two pieces around one separator character splits into
      those pieces. */
  lemma SplitInTwo(s: string, c: char, a: string, b: string)
    requires c !in a && c !in b && s == a + [c] + b
    ensures Split(s, [c]) == [a, b]
  {
    SplitFirst(s, c, |a|);
    assert s[..|a|] == a;
    assert s[|a| + 1..] == b;
    SplitNone(b, c);
  }

  lemma StartsWithContains(s: string, p: string)
    requires StartsWith(s, p)
    ensures Contains(s, p)
  {
    OccursContains(s, p, 0);
  }

  /** Stripping a text that has one leading space and nothing else to strip. */
  lemma StripOneSpace(s: string)
    requires |s| >= 2 && s[0] == ' ' && !IsSpace(s[1]) && !IsSpace(s[|s| - 1])
    ensures Strip(s) == s[1..]
  {
    assert SpaceRunEnd(s, 1) == 1;
    assert SpaceRunEnd(s, 0) == 1;
    var l := s[1..];
    assert StripLeft(s) == l;
    assert SpaceRunStart(l, |l|) == |l|;
    assert l[..|l|] == l;
  }

  /** Every piece of a split is an infix of the original text, so a pattern
      found in a piece is found in the text. */
  lemma {:induction false} SplitPartContains(s: string, sep: string, k: nat, pat: string)
    requires |sep| > 0 && k < |Split(s, sep)| && Contains(Split(s, sep)[k], pat)
    ensures Contains(s, pat)
    decreases |s|
  {
    match Find(s, sep)
    case None =>
    case Some(i) =>
      var rest := s[i + |sep|..];
      SplitStep(s, sep);
      if k == 0 {
        ContainsInfix(s, 0, s[..i], pat);
      } else {
        var parts := Split(rest, sep);
        assert k - 1 < |parts| && Contains(parts[k - 1], pat) by {
          ConsIndex(s[..i], parts, k);
        }
        SplitPartContains(rest, sep, k - 1, pat);
        ContainsInfix(s, i + |sep|, rest, pat);
      }
  }
}
