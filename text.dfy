/** String operations with the meaning of the Python built-ins the pipeline
    uses: `sub in s`, `s.lower()`, `s.strip()`, `s.count(sub)`, `s.split(sep)`,
    `s.split()`, `sep.join(parts)`, `str(n)` and `int(s)`. */
module Text {
  import opened Wrappers

  // ---------------------------------------------------------------------
  // Substrings
  // ---------------------------------------------------------------------

  /** `sub` occurs in `s` starting at index `i`. */
  predicate OccursAt(s: string, sub: string, i: nat) {
    i + |sub| <= |s| && s[i..i + |sub|] == sub
  }

  /** Python's `sub in s`, computed by a left-to-right scan. */
  function Contains(s: string, sub: string): (r: bool)
    ensures r <==> exists i: nat :: OccursAt(s, sub, i)
    decreases |s|
  {
    if |s| < |sub| then
      NoRoomNoOccurrence(s, sub);
      false
    else if s[..|sub|] == sub then
      assert OccursAt(s, sub, 0);
      true
    else
      ShiftOccurrence(s, sub);
      Contains(s[1..], sub)
  }

  lemma NoRoomNoOccurrence(s: string, sub: string)
    requires |s| < |sub|
    ensures !exists i: nat :: OccursAt(s, sub, i)
  {
  }

  lemma ShiftOccurrence(s: string, sub: string)
    requires |sub| <= |s| && s[..|sub|] != sub
    ensures (exists i: nat :: OccursAt(s, sub, i)) <==> (exists i: nat :: OccursAt(s[1..], sub, i))
  {
    forall i: nat | OccursAt(s[1..], sub, i) ensures OccursAt(s, sub, i + 1) {
      assert s[i + 1..i + 1 + |sub|] == s[1..][i..i + |sub|];
    }
    forall i: nat | OccursAt(s, sub, i) ensures i >= 1 && OccursAt(s[1..], sub, i - 1) {
      assert s[0..|sub|] == s[..|sub|];
      assert i != 0;
      assert s[1..][i - 1..i - 1 + |sub|] == s[i..i + |sub|];
    }
  }

  /** The index of the first occurrence of `sub` in `s` at or after
      `from` (Python's `re.search` for a literal pattern). */
  function FindFrom(s: string, sub: string, from: nat): (r: Option<nat>)
    ensures r.Some? ==> from <= r.value && OccursAt(s, sub, r.value)
    ensures r.Some? ==> forall j :: from <= j < r.value ==> !OccursAt(s, sub, j)
    ensures r.None? ==> forall j :: from <= j ==> !OccursAt(s, sub, j)
    decreases |s| - from
  {
    if from + |sub| > |s| then None
    else if s[from..from + |sub|] == sub then Some(from)
    else FindFrom(s, sub, from + 1)
  }

  /** The first occurrence is found exactly when there is one. */
  lemma FindFromContains(s: string, sub: string)
    ensures FindFrom(s, sub, 0).Some? <==> Contains(s, sub)
  {
  }

  /** A substring of a part is a substring of any concatenation holding it. */
  lemma {:induction false} ContainsInConcat(a: string, b: string, c: string, sub: string)
    requires Contains(b, sub)
    ensures Contains(a + b + c, sub)
  {
    var i: nat :| OccursAt(b, sub, i);
    assert (a + b + c)[|a| + i..|a| + i + |sub|] == b[i..i + |sub|];
    assert OccursAt(a + b + c, sub, |a| + i);
  }

  lemma ContainsItself(s: string)
    ensures Contains(s, s)
  {
    assert OccursAt(s, s, 0);
  }

  /** A substring of a substring is a substring. */
  lemma ContainsTransitive(s: string, mid: string, sub: string)
    requires Contains(s, mid) && Contains(mid, sub)
    ensures Contains(s, sub)
  {
    var i: nat :| OccursAt(s, mid, i);
    var j: nat :| OccursAt(mid, sub, j);
    assert s[i..i + |mid|] == mid;
    assert j + |sub| <= |mid|;
    forall t | 0 <= t < |sub| ensures s[i + j + t] == sub[t] {
      assert s[i + j + t] == s[i..i + |mid|][j + t] == mid[j + t] == mid[j..j + |sub|][t];
    }
    assert s[i + j..i + j + |sub|] == sub;
    assert OccursAt(s, sub, i + j);
  }

  /** Some keyword of the list occurs in `s` (Python's `any(k in s for k in kws)`). */
  function AnyContains(s: string, kws: seq<string>): (r: bool)
    ensures r <==> exists k :: k in kws && Contains(s, k)
  {
    if |kws| == 0 then false
    else
      var rest := AnyContains(s, kws[1..]);
      assert (exists k :: k in kws && Contains(s, k)) ==> Contains(s, kws[0]) || rest by {
        if exists k :: k in kws && Contains(s, k) {
          var k :| k in kws && Contains(s, k);
          if k != kws[0] {
            assert k in kws[1..];
          }
        }
      }
      Contains(s, kws[0]) || rest
  }

  /** Text after the searched string never removes a keyword from it. */
  lemma AnyContainsPrefix(s: string, t: string, kws: seq<string>)
    requires AnyContains(s, kws)
    ensures AnyContains(s + t, kws)
  {
    var k :| k in kws && Contains(s, k);
    ContainsInConcat([], s, t, k);
    assert [] + s + t == s + t;
  }

  // ---------------------------------------------------------------------
  // Case folding (ASCII letters only)
  // ---------------------------------------------------------------------

  function LowerChar(c: char): char {
    if 'A' <= c <= 'Z' then (c as int + 32) as char else c
  }

  /** `s.lower()` restricted to ASCII letters. */
  function Lower(s: string): (r: string)
    ensures |r| == |s|
    ensures forall i :: 0 <= i < |s| ==> r[i] == LowerChar(s[i])
  {
    seq(|s|, i requires 0 <= i < |s| => LowerChar(s[i]))
  }

  lemma LowerIdempotent(s: string)
    ensures Lower(Lower(s)) == Lower(s)
  {
  }

  // ---------------------------------------------------------------------
  // Counting
  // ---------------------------------------------------------------------

  /** `s.count(c)` for a one-character argument. */
  function CountChar(s: string, c: char): (n: nat)
    ensures n <= |s|
  {
    if |s| == 0 then 0 else (if s[0] == c then 1 else 0) + CountChar(s[1..], c)
  }

  lemma {:induction false} CountCharConcat(a: string, b: string, c: char)
    ensures CountChar(a + b, c) == CountChar(a, c) + CountChar(b, c)
  {
    if |a| == 0 {
      assert a + b == b;
    } else {
      assert (a + b)[1..] == a[1..] + b;
      CountCharConcat(a[1..], b, c);
    }
  }

  /** `s.count(sub)` for a non-empty `sub`: non-overlapping occurrences,
      scanned from the left. */
  function Count(s: string, sub: string): (n: nat)
    requires |sub| > 0
    decreases |s|
  {
    if |s| < |sub| then 0
    else if s[..|sub|] == sub then 1 + Count(s[|sub|..], sub)
    else Count(s[1..], sub)
  }

  lemma {:induction false} CountZeroIffAbsent(s: string, sub: string)
    requires |sub| > 0
    ensures Count(s, sub) == 0 <==> !Contains(s, sub)
    decreases |s|
  {
    if |s| < |sub| {
    } else if s[..|sub|] == sub {
    } else {
      CountZeroIffAbsent(s[1..], sub);
    }
  }

  // ---------------------------------------------------------------------
  // Splitting and joining
  // ---------------------------------------------------------------------

  /** `s.split(sep)` for a one-character separator. */
  function Split(s: string, sep: char): (parts: seq<string>)
    ensures |parts| == CountChar(s, sep) + 1
    ensures forall k :: 0 <= k < |parts| ==> sep !in parts[k]
  {
    if |s| == 0 then [""]
    else
      var rest := Split(s[1..], sep);
      if s[0] == sep then [""] + rest
      else [[s[0]] + rest[0]] + rest[1..]
  }

  /** `sep.join(parts)`. */
  function Join(sep: string, parts: seq<string>): string
  {
    if |parts| == 0 then ""
    else if |parts| == 1 then parts[0]
    else parts[0] + sep + Join(sep, parts[1..])
  }

  /** Every part occurs in the joined text. */
  lemma {:induction false} JoinHoldsPart(sep: string, parts: seq<string>, k: nat)
    requires k < |parts|
    ensures Contains(Join(sep, parts), parts[k])
  {
    if |parts| == 1 {
      ContainsItself(parts[0]);
    } else if k == 0 {
      ContainsItself(parts[0]);
      ContainsInConcat([], parts[0], sep + Join(sep, parts[1..]), parts[0]);
      assert [] + parts[0] + (sep + Join(sep, parts[1..])) == Join(sep, parts);
    } else {
      JoinHoldsPart(sep, parts[1..], k - 1);
      ContainsInConcat(parts[0] + sep, Join(sep, parts[1..]), [], parts[k]);
      assert parts[0] + sep + Join(sep, parts[1..]) + [] == Join(sep, parts);
    }
  }

  /** Joining the pieces of a split with the separator gives the text back. */
  lemma {:induction false} JoinSplit(s: string, sep: char)
    ensures Join([sep], Split(s, sep)) == s
  {
    if |s| == 0 {
    } else {
      var rest := Split(s[1..], sep);
      JoinSplit(s[1..], sep);
      if s[0] == sep {
        assert Split(s, sep) == [""] + rest;
        assert Join([sep], [""] + rest) == [sep] + Join([sep], rest);
        assert s == [s[0]] + s[1..];
      } else {
        var first := [s[0]] + rest[0];
        assert Split(s, sep) == [first] + rest[1..];
        if |rest| == 1 {
          assert Join([sep], [first]) == first;
          assert s == [s[0]] + s[1..];
        } else {
          assert ([first] + rest[1..])[1..] == rest[1..];
          assert Join([sep], rest) == rest[0] + [sep] + Join([sep], rest[1..]);
          assert s == [s[0]] + s[1..];
        }
      }
    }
  }

  /** Splitting a join of separator-free parts gives the parts back. */
  lemma {:induction false} SplitJoin(parts: seq<string>, sep: char)
    requires |parts| > 0
    requires forall k :: 0 <= k < |parts| ==> sep !in parts[k]
    ensures Split(Join([sep], parts), sep) == parts
    decreases |parts|
  {
    if |parts| == 1 {
      SplitOfSepFree(parts[0], sep);
    } else {
      var rest := Join([sep], parts[1..]);
      SplitJoin(parts[1..], sep);
      SplitAppend(parts[0], rest, sep);
      assert [parts[0]] + parts[1..] == parts;
    }
  }

  /** A separator-free text splits into itself. */
  lemma {:induction false} SplitOfSepFree(s: string, sep: char)
    requires sep !in s
    ensures Split(s, sep) == [s]
  {
    if |s| > 0 {
      SplitOfSepFree(s[1..], sep);
      assert [s[0]] + s[1..] == s;
    }
  }

  /** Splitting `a + [sep] + b`, with `a` separator-free, puts `a` first. */
  lemma {:induction false} SplitAppend(a: string, b: string, sep: char)
    requires sep !in a
    ensures Split(a + [sep] + b, sep) == [a] + Split(b, sep)
  {
    if |a| == 0 {
      assert a + [sep] + b == [sep] + b;
      assert ([sep] + b)[1..] == b;
    } else {
      var s := a + [sep] + b;
      assert s[0] == a[0];
      assert s[1..] == a[1..] + [sep] + b;
      SplitAppend(a[1..], b, sep);
      assert [a[0]] + a[1..] == a;
    }
  }

  /** `"".join(parts)`. */
  function Concat(parts: seq<string>): (r: string)
    ensures |parts| == 0 ==> r == ""
  {
    if |parts| == 0 then "" else parts[0] + Concat(parts[1..])
  }

  /** `cs[k]` is the slice of `s` from `bounds[k]` to `bounds[k + 1]`, for
      every `k`, and the last bound is the end of `s`. */
  predicate SlicesOf(s: string, cs: seq<string>, bounds: seq<nat>) {
    && |bounds| == |cs| + 1
    && bounds[|cs|] == |s|
    && forall k {:trigger cs[k]} :: 0 <= k < |cs| ==> bounds[k] <= bounds[k + 1] <= |s| && cs[k] == s[bounds[k]..bounds[k + 1]]
  }

  /** Consecutive slices of `s` that end at its end concatenate to the
      suffix where the first one starts. */
  lemma {:induction false} ConcatOfSlices(s: string, cs: seq<string>, bounds: seq<nat>, i: nat)
    requires SlicesOf(s, cs, bounds) && i <= |cs|
    ensures bounds[i] <= |s| && Concat(cs[i..]) == s[bounds[i]..]
    decreases |cs| - i
  {
    if i < |cs| {
      ConcatOfSlices(s, cs, bounds, i + 1);
      assert bounds[i] <= bounds[i + 1] <= |s| && cs[i] == s[bounds[i]..bounds[i + 1]];
      assert cs[i..] == [cs[i]] + cs[i + 1..];
      assert s[bounds[i]..] == s[bounds[i]..bounds[i + 1]] + s[bounds[i + 1]..];
    }
  }

  /** Python's `s[a:b]` for non-negative indices: both are clamped to the
      length, and the slice is empty when `a >= b`. */
  function Slice(s: string, a: nat, b: nat): (r: string)
    ensures a <= b <= |s| ==> r == s[a..b]
    ensures b <= a ==> r == ""
  {
    var hi := if b < |s| then b else |s|;
    if a <= hi then s[a..hi] else ""
  }

  /** Python's `s[:n]` for `n >= 0`. */
  function Take(s: string, n: nat): (r: string)
    ensures |r| == if n < |s| then n else |s|
    ensures r <= s
  {
    if n < |s| then s[..n] else s
  }

  // ---------------------------------------------------------------------
  // Whitespace
  // ---------------------------------------------------------------------

  /** Python's `c.isspace()`. */
  predicate IsSpace(c: char) {
    || c == ' '
    || ('\t' <= c <= '\r')
    || ('\U{1C}' <= c <= '\U{1F}')
    || c == '\U{85}' || c == '\U{A0}' || c == '\U{1680}'
    || ('\U{2000}' <= c <= '\U{200A}')
    || c == '\U{2028}' || c == '\U{2029}' || c == '\U{202F}' || c == '\U{205F}' || c == '\U{3000}'
  }

  predicate AllSpace(s: string) {
    forall i :: 0 <= i < |s| ==> IsSpace(s[i])
  }

  function TrimStart(s: string): (r: string)
    ensures |r| <= |s| && r == s[|s| - |r|..]
    ensures AllSpace(s[..|s| - |r|])
    ensures r == "" || !IsSpace(r[0])
  {
    if |s| > 0 && IsSpace(s[0]) then
      var t := s[1..];
      var r := TrimStart(t);
      assert r == t[|t| - |r|..] == s[|s| - |r|..];
      assert s[..|s| - |r|] == [s[0]] + t[..|t| - |r|];
      r
    else s
  }

  function TrimEnd(s: string): (r: string)
    ensures |r| <= |s| && r == s[..|r|]
    ensures AllSpace(s[|r|..])
    ensures r == "" || !IsSpace(r[|r| - 1])
  {
    if |s| > 0 && IsSpace(s[|s| - 1]) then
      var t := s[..|s| - 1];
      var r := TrimEnd(t);
      assert r == t[..|r|] == s[..|r|];
      assert s[|r|..] == t[|r|..] + [s[|s| - 1]];
      r
    else s
  }

  /** Python's `s.strip()`: leading and trailing whitespace removed. */
  function Strip(s: string): (r: string)
    ensures |r| <= |s|
    ensures r == "" || (!IsSpace(r[0]) && !IsSpace(r[|r| - 1]))
    ensures r == "" <==> AllSpace(s)
  {
    var t := TrimStart(s);
    var r := TrimEnd(t);
    assert r == "" ==> AllSpace(s) by {
      if r == "" {
        assert AllSpace(t);
        assert s == s[..|s| - |t|] + t;
      }
    }
    assert AllSpace(s) ==> r == "" by {
      if AllSpace(s) {
        TrimStartAllSpace(s);
      }
    }
    r
  }

  lemma {:induction false} TrimStartAllSpace(s: string)
    requires AllSpace(s)
    ensures TrimStart(s) == ""
  {
    if |s| > 0 {
      TrimStartAllSpace(s[1..]);
    }
  }

  /** `len(s.split())`: the number of maximal runs of non-space characters. */
  function WordCount(s: string): nat
    decreases |s|
  {
    if |s| == 0 then 0
    else if IsSpace(s[0]) then WordCount(s[1..])
    else 1 + WordCount(DropWord(s))
  }

  function DropWord(s: string): (r: string)
    ensures |r| <= |s|
    ensures |s| > 0 && !IsSpace(s[0]) ==> |r| < |s|
  {
    if |s| == 0 || IsSpace(s[0]) then s else DropWord(s[1..])
  }

  // ---------------------------------------------------------------------
  // Decimal numerals
  // ---------------------------------------------------------------------

  predicate IsDigit(c: char) {
    '0' <= c <= '9'
  }

  function DigitChar(d: nat): char
    requires d < 10
  {
    ('0' as int + d) as char
  }

  /** `str(n)` for a natural number. */
  function NatToString(n: nat): (s: string)
    ensures |s| > 0 && forall i :: 0 <= i < |s| ==> IsDigit(s[i])
  {
    if n < 10 then [DigitChar(n)] else NatToString(n / 10) + [DigitChar(n % 10)]
  }

  /** `str(i)` for an integer. */
  function IntToString(i: int): string {
    if i < 0 then "-" + NatToString(-i) else NatToString(i)
  }

  /** The value of a string of decimal digits. */
  function DigitsValue(s: string): nat
    requires forall i :: 0 <= i < |s| ==> IsDigit(s[i])
  {
    if |s| == 0 then 0 else 10 * DigitsValue(s[..|s| - 1]) + DigitValue(s[|s| - 1])
  }

  function DigitValue(c: char): nat
    requires IsDigit(c)
  {
    c as int - '0' as int
  }

  lemma {:induction false} DigitsValueOfNatToString(n: nat)
    ensures DigitsValue(NatToString(n)) == n
  {
    if n >= 10 {
      var s := NatToString(n);
      assert s[..|s| - 1] == NatToString(n / 10);
      DigitsValueOfNatToString(n / 10);
    }
  }

  /** The digits of a numeral with Python's optional single underscores
      between digits removed; None when the text is not such a numeral. */
  function DigitGroups(s: string): (r: Option<string>)
    ensures r.Some? ==> |r.value| > 0 && forall i :: 0 <= i < |r.value| ==> IsDigit(r.value[i])
  {
    if |s| == 0 || !IsDigit(s[0]) then None
    else if |s| == 1 then Some(s)
    else if s[1] == '_' then
      (if |s| > 2 && IsDigit(s[2]) then
         match DigitGroups(s[2..])
         case Some(rest) => Some([s[0]] + rest)
         case None => None
       else None)
    else
      match DigitGroups(s[1..])
      case Some(rest) => Some([s[0]] + rest)
      case None => None
  }

  lemma {:induction false} DigitGroupsOfDigits(s: string)
    requires |s| > 0 && forall i :: 0 <= i < |s| ==> IsDigit(s[i])
    ensures DigitGroups(s) == Some(s)
  {
    if |s| > 1 {
      DigitGroupsOfDigits(s[1..]);
      assert [s[0]] + s[1..] == s;
    }
  }

  /** CPython's default limit on the number of decimal digits converted
      between `int` and `str` (`sys.get_int_max_str_digits()`); both
      directions raise ValueError beyond it. */
  const MaxStrDigits: nat := 4300

  /** The value of a run of digits, None (ValueError) when it has more
      digits than the conversion limit allows. */
  function DecimalOf(d: string): (r: Option<nat>)
    requires forall i :: 0 <= i < |d| ==> IsDigit(d[i])
    ensures r.Some? <==> |d| <= MaxStrDigits
  {
    if |d| > MaxStrDigits then None else Some(DigitsValue(d))
  }

  /** Python's `int(s)` for base-10 text with ASCII digits: surrounding
      whitespace, an optional sign, then at most `MaxStrDigits` decimal
      digits with optional single underscores between them. None stands for
      the ValueError. */
  function ParseInt(s: string): Option<int>
  {
    ParseNumeral(Strip(s))
  }

  /** The numeral part of `int(s)`, once the whitespace is gone. */
  function ParseNumeral(t: string): Option<int>
  {
    if |t| > 0 && (t[0] == '-' || t[0] == '+') then
      match DigitGroups(t[1..])
      case Some(d) =>
        (match DecimalOf(d)
         case Some(v) => Some(if t[0] == '-' then -(v as int) else v)
         case None => None)
      case None => None
    else
      match DigitGroups(t)
      case Some(d) => DecimalOf(d)
      case None => None
  }

  lemma StripOfDigitsOrSign(s: string)
    requires |s| > 0
    requires forall i :: 0 <= i < |s| ==> IsDigit(s[i]) || (i == 0 && s[i] == '-')
    ensures Strip(s) == s
  {
    assert !IsSpace(s[0]);
    assert !IsSpace(s[|s| - 1]);
  }

  /** The number of decimal digits of `i`, its sign not counted. */
  function DigitCount(i: int): nat {
    if i < 0 then |NatToString(-i)| else |NatToString(i)|
  }

  /** `int(str(n))` is `n` whenever `n` has at most `MaxStrDigits` digits,
      and a ValueError otherwise. */
  lemma IntToStringRoundTrip(i: int)
    ensures DigitCount(i) <= MaxStrDigits ==> ParseInt(IntToString(i)) == Some(i)
    ensures DigitCount(i) > MaxStrDigits ==> ParseInt(IntToString(i)) == None
  {
    var t := IntToString(i);
    StripOfIntToString(i);
    assert ParseInt(t) == ParseNumeral(t);
    if i < 0 {
      NegativeNumeral(-i);
    } else {
      NonNegativeNumeral(i);
    }
  }

  lemma StripOfIntToString(i: int)
    ensures Strip(IntToString(i)) == IntToString(i)
  {
    StripOfDigitsOrSign(IntToString(i));
  }

  lemma NonNegativeNumeral(n: nat)
    ensures ParseNumeral(NatToString(n)) == if |NatToString(n)| <= MaxStrDigits then Some(n) else None
  {
    var digits := NatToString(n);
    assert IsDigit(digits[0]);
    DigitGroupsOfDigits(digits);
    DigitsValueOfNatToString(n);
  }

  lemma NegativeNumeral(n: nat)
    ensures ParseNumeral("-" + NatToString(n)) == if |NatToString(n)| <= MaxStrDigits then Some(-(n as int)) else None
  {
    var digits := NatToString(n);
    var s := "-" + digits;
    assert s[0] == '-' && s[1..] == digits;
    DigitGroupsOfDigits(digits);
    DigitsValueOfNatToString(n);
    var v := DecimalOf(digits);
    assert v.Some? ==> v.value == n;
  }
}
