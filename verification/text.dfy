/** Character and string helpers shared by the ledger and the forms: digit
    strings, zero padding, thousands grouping, substring search, trimming and
    splitting. Only ASCII letters and ASCII whitespace are recognised. */
module Text {

  predicate IsDigit(c: char) { '0' <= c <= '9' }

  predicate AllDigits(s: string) { forall i :: 0 <= i < |s| ==> IsDigit(s[i]) }

  /** The characters of `s` that satisfy `keep`, in order: a global regex
      replace of a character class by the empty string. */
  function Filter(s: string, keep: char -> bool): (r: string)
    ensures |r| <= |s|
    ensures forall i :: 0 <= i < |r| ==> keep(r[i])
    ensures forall c :: c in r <==> c in s && keep(c)
  {
    if |s| == 0 then ""
    else
      var rest := Filter(s[1..], keep);
      assert forall c :: c in s <==> c == s[0] || c in s[1..];
      if keep(s[0]) then [s[0]] + rest else rest
  }

  lemma {:induction false} FilterConcat(a: string, b: string, keep: char -> bool)
    ensures Filter(a + b, keep) == Filter(a, keep) + Filter(b, keep)
  {
    if |a| > 0 {
      assert (a + b)[1..] == a[1..] + b;
      FilterConcat(a[1..], b, keep);
    } else {
      assert a + b == b;
    }
  }

  lemma {:induction false} FilterKeepsAll(s: string, keep: char -> bool)
    requires forall i :: 0 <= i < |s| ==> keep(s[i])
    ensures Filter(s, keep) == s
  {
    if |s| > 0 {
      FilterKeepsAll(s[1..], keep);
    }
  }

  /** `s` with every occurrence of `c` deleted (`replace(/\./g, '')`). */
  function Remove(s: string, c: char): (r: string)
    ensures |r| <= |s|
    ensures c !in r
    ensures forall x :: x != c ==> (x in r <==> x in s)
  {
    if |s| == 0 then ""
    else
      var rest := Remove(s[1..], c);
      assert forall x :: x in s <==> x == s[0] || x in s[1..];
      (if s[0] == c then "" else [s[0]]) + rest
  }

  lemma {:induction false} RemoveConcat(a: string, b: string, c: char)
    ensures Remove(a + b, c) == Remove(a, c) + Remove(b, c)
  {
    if |a| > 0 {
      assert (a + b)[1..] == a[1..] + b;
      RemoveConcat(a[1..], b, c);
    } else {
      assert a + b == b;
    }
  }

  lemma {:induction false} RemoveAbsent(s: string, c: char)
    requires c !in s
    ensures Remove(s, c) == s
  {
    if |s| > 0 {
      RemoveAbsent(s[1..], c);
    }
  }

  /** The digits of `s`, in order (`replace(/[^0-9]/g, '')`, `replace(/\D/g, '')`). */
  function DigitsOf(s: string): (r: string)
    ensures AllDigits(r)
    ensures |r| <= |s|
  {
    Filter(s, IsDigit)
  }

  lemma DigitsOfDigits(s: string)
    requires AllDigits(s)
    ensures DigitsOf(s) == s
  {
    FilterKeepsAll(s, IsDigit);
  }

  lemma DigitsOfConcat(a: string, b: string)
    ensures DigitsOf(a + b) == DigitsOf(a) + DigitsOf(b)
  {
    FilterConcat(a, b, IsDigit);
  }

  /** Appending a separator and a digit run appends just the run's digits. */
  lemma DigitsAppend(a: string, sep: string, d: string)
    requires sep == "." || sep == "-"
    requires AllDigits(d)
    ensures DigitsOf(a + sep + d) == DigitsOf(a) + d
  {
    DigitsOfConcat(a + sep, d);
    DigitsOfConcat(a, sep);
    DigitsOfDigits(d);
    assert DigitsOf(sep) == "";
  }

  function DigitValue(c: char): nat
    requires IsDigit(c)
  {
    c as int - '0' as int
  }

  function DigitChar(d: nat): (c: char)
    requires d < 10
    ensures IsDigit(c) && DigitValue(c) == d
  {
    ('0' as int + d) as char
  }

  /** The value of a decimal digit string; the empty string is 0. */
  function ParseDigits(s: string): nat
    requires AllDigits(s)
    decreases |s|
  {
    if |s| == 0 then 0 else 10 * ParseDigits(s[..|s| - 1]) + DigitValue(s[|s| - 1])
  }

  /** Decimal rendering of a natural number (`String(n)`). */
  function NatToString(n: nat): (s: string)
    ensures AllDigits(s) && |s| > 0
    ensures n > 0 ==> s[0] != '0'
    ensures n == 0 ==> s == "0"
    decreases n
  {
    if n < 10 then [DigitChar(n)] else NatToString(n / 10) + [DigitChar(n % 10)]
  }

  lemma {:induction false} ParseNatToString(n: nat)
    ensures ParseDigits(NatToString(n)) == n
    decreases n
  {
    if n >= 10 {
      ParseNatToString(n / 10);
      var s := NatToString(n);
      assert s[..|s| - 1] == NatToString(n / 10);
    }
  }

  lemma NatToStringInjective(a: nat, b: nat)
    requires NatToString(a) == NatToString(b)
    ensures a == b
  {
    ParseNatToString(a);
    ParseNatToString(b);
  }

  /** `k` copies of `c`. */
  function Repeat(c: char, k: nat): (r: string)
    ensures |r| == k
    ensures forall i :: 0 <= i < k ==> r[i] == c
  {
    if k == 0 then "" else [c] + Repeat(c, k - 1)
  }

  /** JavaScript `s.padStart(width, fill)` with a one-character fill: the
      string is never truncated, only left-filled up to `width`. */
  function PadStart(s: string, width: nat, fill: char): (r: string)
    ensures |r| == if |s| >= width then |s| else width
    ensures r[|r| - |s|..] == s
    ensures forall i :: 0 <= i < |r| - |s| ==> r[i] == fill
  {
    if |s| >= width then s else Repeat(fill, width - |s|) + s
  }

  lemma {:induction false} ParseZeros(k: nat)
    ensures AllDigits(Repeat('0', k)) && ParseDigits(Repeat('0', k)) == 0
  {
    if k > 0 {
      ParseZeros(k - 1);
      var z := Repeat('0', k);
      assert z == Repeat('0', k - 1) + ['0'];
    }
  }

  /** Leading zeros do not change the value of a digit string. */
  lemma {:induction false} ParseZeroPadded(k: nat, s: string)
    requires AllDigits(s)
    ensures AllDigits(Repeat('0', k) + s)
    ensures ParseDigits(Repeat('0', k) + s) == ParseDigits(s)
    decreases |s|
  {
    var z := Repeat('0', k);
    if |s| == 0 {
      ParseZeros(k);
      assert z + s == z;
    } else {
      var t := z + s;
      ParseZeroPadded(k, s[..|s| - 1]);
      assert t[..|t| - 1] == z + s[..|s| - 1];
    }
  }

  /** The value of a zero-padded decimal rendering is the number itself. */
  lemma ParsePadded(n: nat, width: nat)
    ensures AllDigits(PadStart(NatToString(n), width, '0'))
    ensures ParseDigits(PadStart(NatToString(n), width, '0')) == n
  {
    var s := NatToString(n);
    ParseNatToString(n);
    if |s| < width {
      ParseZeroPadded(width - |s|, s);
    }
  }

  /** A dot goes before position `p` of a digit string exactly when the
      regex `\B(?=(\d{3})+(?!\d))` matches there: `p` is strictly inside the
      string and the number of digits from `p` to the end is a multiple of 3. */
  predicate DotBefore(s: string, p: int) { 0 < p < |s| && (|s| - p) % 3 == 0 }

  /** Thousands grouping, built group by group from the right. */
  function GroupThousands(s: string): string
    decreases |s|
  {
    if |s| <= 3 then s else GroupThousands(s[..|s| - 3]) + "." + s[|s| - 3..]
  }

  /** Thousands grouping as the regex does it, scanning from position `i` to
      the right and emitting a dot where `DotBefore` holds. */
  function GroupFrom(s: string, i: nat): string
    requires i <= |s|
    decreases |s| - i
  {
    if i == |s| then "" else (if DotBefore(s, i) then "." else "") + [s[i]] + GroupFrom(s, i + 1)
  }

  lemma {:induction false} GroupFromTail(s: string, p: string, i: nat)
    requires |s| > 3 && p == s[..|s| - 3] && i <= |p|
    ensures GroupFrom(s, i) == GroupFrom(p, i) + "." + s[|s| - 3..]
    decreases |p| - i
  {
    if i == |p| {
      GroupFromLastThree(s);
    } else {
      GroupFromTail(s, p, i + 1);
      GroupFromStep(s, p, i);
    }
  }

  /** The last three characters of a longer string form one dotted group. */
  lemma GroupFromLastThree(s: string)
    requires |s| > 3
    ensures GroupFrom(s, |s| - 3) == "." + s[|s| - 3..]
  {
    var n := |s|;
    var a, b, c := s[n - 3], s[n - 2], s[n - 1];
    assert !DotBefore(s, n - 1) by { assert n - (n - 1) == 1; }
    assert !DotBefore(s, n - 2) by { assert n - (n - 2) == 2; }
    assert DotBefore(s, n - 3) by { assert n - (n - 3) == 3; }
    assert GroupFrom(s, n - 1) == [c];
    assert GroupFrom(s, n - 2) == [b] + [c];
    assert GroupFrom(s, n - 3) == "." + [a] + [b] + [c];
    assert s[n - 3..] == [a] + [b] + [c];
  }

  /** Before the last group, the dots of `s` fall where those of its head do. */
  lemma GroupFromStep(s: string, p: string, i: nat)
    requires |s| > 3 && p == s[..|s| - 3] && i < |p|
    requires GroupFrom(s, i + 1) == GroupFrom(p, i + 1) + "." + s[|s| - 3..]
    ensures GroupFrom(s, i) == GroupFrom(p, i) + "." + s[|s| - 3..]
  {
    assert DotBefore(s, i) == DotBefore(p, i);
    assert s[i] == p[i];
  }

  /** Grouping from the right agrees with the regex placement of the dots. */
  lemma {:induction false} GroupThousandsMatchesRegex(s: string)
    ensures GroupThousands(s) == GroupFrom(s, 0)
    decreases |s|
  {
    if |s| <= 3 {
      var i := |s|;
      while i > 0
        invariant 0 <= i <= |s|
        invariant GroupFrom(s, i) == s[i..]
        decreases i
      {
        i := i - 1;
        assert !DotBefore(s, i);
        assert s[i..] == [s[i]] + s[i + 1..];
      }
    } else {
      var p := s[..|s| - 3];
      GroupThousandsMatchesRegex(p);
      GroupFromTail(s, p, 0);
    }
  }

  /** Deleting the dots of a grouped digit string gives the digits back. */
  lemma {:induction false} UngroupThousands(s: string)
    requires AllDigits(s)
    ensures Remove(GroupThousands(s), '.') == s
    decreases |s|
  {
    if |s| <= 3 {
      RemoveAbsent(s, '.');
    } else {
      var p := s[..|s| - 3];
      var t := s[|s| - 3..];
      UngroupThousands(p);
      assert '.' !in t;
      RemoveDot(GroupThousands(p), t);
      assert p + t == s;
    }
  }

  /** A dot and a dot-free tail: removing dots drops the dot and keeps the tail. */
  lemma RemoveDot(g: string, t: string)
    requires '.' !in t
    ensures Remove(g + "." + t, '.') == Remove(g, '.') + t
  {
    RemoveConcat(g + ".", t, '.');
    RemoveConcat(g, ".", '.');
    RemoveAbsent(t, '.');
    assert Remove(".", '.') == "";
    assert Remove(g + ".", '.') == Remove(g, '.');
  }

  lemma {:induction false} GroupThousandsChars(s: string)
    requires AllDigits(s)
    ensures forall i :: 0 <= i < |GroupThousands(s)| ==> IsDigit(GroupThousands(s)[i]) || GroupThousands(s)[i] == '.'
    decreases |s|
  {
    if |s| > 3 {
      GroupThousandsChars(s[..|s| - 3]);
    }
  }

  predicate StartsWith(s: string, prefix: string) { |prefix| <= |s| && s[..|prefix|] == prefix }

  predicate EndsWith(s: string, suffix: string) { |suffix| <= |s| && s[|s| - |suffix|..] == suffix }

  /** A concatenation starts with its first part and ends with its last. */
  lemma JoinEnds(a: string, b: string, c: string)
    ensures StartsWith(a + b + c, a) && EndsWith(a + b + c, c)
  {
    assert (a + b + c)[..|a|] == a;
    assert (a + b + c)[|a + b|..] == c;
  }

  /** `s.includes(t)`: `t` occurs somewhere in `s`. */
  predicate Contains(s: string, t: string)
    decreases |s|
  {
    StartsWith(s, t) || (|s| > 0 && Contains(s[1..], t))
  }

  lemma ContainsEmpty(s: string)
    ensures Contains(s, "")
  {
  }

  function LowerChar(c: char): char { if 'A' <= c <= 'Z' then (c as int + 32) as char else c }

  /** `toLowerCase()` on ASCII letters. */
  function ToLower(s: string): (r: string)
    ensures |r| == |s|
    ensures forall i :: 0 <= i < |s| ==> r[i] == LowerChar(s[i])
  {
    if |s| == 0 then "" else [LowerChar(s[0])] + ToLower(s[1..])
  }

  predicate IsSpace(c: char) { c == ' ' || c == '\t' || c == '\n' || c == '\r' || c == '\U{000B}' || c == '\U{000C}' }

  /** Every character is whitespace, so `s.trim()` is empty. */
  predicate IsBlank(s: string) { forall i :: 0 <= i < |s| ==> IsSpace(s[i]) }

  function TrimStart(s: string): string
    decreases |s|
  {
    if |s| > 0 && IsSpace(s[0]) then TrimStart(s[1..]) else s
  }

  function TrimEnd(s: string): string
    decreases |s|
  {
    if |s| > 0 && IsSpace(s[|s| - 1]) then TrimEnd(s[..|s| - 1]) else s
  }

  function Trim(s: string): string { TrimEnd(TrimStart(s)) }

  lemma {:induction false} TrimStartBlank(s: string)
    ensures TrimStart(s) == "" <==> IsBlank(s)
    decreases |s|
  {
    if |s| > 0 && IsSpace(s[0]) {
      TrimStartBlank(s[1..]);
    }
  }

  lemma {:induction false} TrimEndEmpty(s: string)
    ensures TrimEnd(s) == "" <==> IsBlank(s)
    decreases |s|
  {
    if |s| > 0 && IsSpace(s[|s| - 1]) {
      TrimEndEmpty(s[..|s| - 1]);
      assert IsBlank(s) <==> IsBlank(s[..|s| - 1]);
    }
  }

  lemma {:induction false} TrimStartNotBlank(s: string)
    requires !IsBlank(s)
    ensures !IsBlank(TrimStart(s))
    decreases |s|
  {
    if |s| > 0 && IsSpace(s[0]) {
      assert !IsBlank(s[1..]);
      TrimStartNotBlank(s[1..]);
    }
  }

  /** `s.trim() === ''` exactly when `s` is all whitespace. */
  lemma TrimEmptyIffBlank(s: string)
    ensures Trim(s) == "" <==> IsBlank(s)
  {
    TrimStartBlank(s);
    TrimEndEmpty(TrimStart(s));
    if !IsBlank(s) {
      TrimStartNotBlank(s);
    }
  }

  /** JavaScript `s.split(sep)` for a one-character separator. */
  function Split(s: string, sep: char): (r: seq<string>)
    ensures |r| >= 1
    decreases |s|
  {
    if |s| == 0 then [""]
    else if s[0] == sep then [""] + Split(s[1..], sep)
    else var rest := Split(s[1..], sep); [[s[0]] + rest[0]] + rest[1..]
  }

  lemma {:induction false} SplitNoSep(s: string, sep: char)
    requires sep !in s
    ensures Split(s, sep) == [s]
    decreases |s|
  {
    if |s| > 0 {
      SplitNoSep(s[1..], sep);
      assert [s[0]] + s[1..] == s;
    }
  }

  lemma {:induction false} SplitAtSep(a: string, b: string, sep: char)
    requires sep !in a
    ensures Split(a + [sep] + b, sep) == [a] + Split(b, sep)
    decreases |a|
  {
    if |a| == 0 {
      assert a + [sep] + b == [sep] + b;
      assert ([sep] + b)[1..] == b;
    } else {
      var s := a + [sep] + b;
      assert s[1..] == a[1..] + [sep] + b;
      SplitAtSep(a[1..], b, sep);
      assert [a[0]] + a[1..] == a;
    }
  }

  /** JavaScript `s.slice(from, to)` for `0 <= from <= to`: both ends are clamped. */
  function Slice(s: string, from: nat, to: nat): (r: string)
    requires from <= to
    ensures |r| == if from >= |s| then 0 else (if to <= |s| then to else |s|) - from
  {
    if from >= |s| then "" else s[from..if to <= |s| then to else |s|]
  }

  /** Lexicographic order on strings by character code (the default array sort). */
  predicate LexLe(a: string, b: string)
    decreases |a|
  {
    |a| == 0 || (|b| > 0 && (a[0] < b[0] || (a[0] == b[0] && LexLe(a[1..], b[1..]))))
  }

  lemma {:induction false} LexLeTotal(a: string, b: string)
    ensures LexLe(a, b) || LexLe(b, a)
    decreases |a|
  {
    if |a| > 0 && |b| > 0 && a[0] == b[0] {
      LexLeTotal(a[1..], b[1..]);
    }
  }

  lemma {:induction false} LexLeTransitive(a: string, b: string, c: string)
    requires LexLe(a, b) && LexLe(b, c)
    ensures LexLe(a, c)
    decreases |a|
  {
    if |a| > 0 && a[0] == b[0] && b[0] == c[0] {
      LexLeTransitive(a[1..], b[1..], c[1..]);
    }
  }

  lemma {:induction false} LexLeAntisymmetric(a: string, b: string)
    requires LexLe(a, b) && LexLe(b, a)
    ensures a == b
    decreases |a|
  {
    if |a| > 0 {
      LexLeAntisymmetric(a[1..], b[1..]);
      assert a == [a[0]] + a[1..];
      assert b == [b[0]] + b[1..];
    }
  }

  /** `LexLe` is a total order on strings. */
  lemma LexLeOrder()
    ensures forall a, b :: LexLe(a, b) || LexLe(b, a)
    ensures forall a, b, c :: LexLe(a, b) && LexLe(b, c) ==> LexLe(a, c)
    ensures forall a, b :: LexLe(a, b) && LexLe(b, a) ==> a == b
  {
    forall a, b ensures LexLe(a, b) || LexLe(b, a) {
      LexLeTotal(a, b);
    }
    forall a, b, c | LexLe(a, b) && LexLe(b, c) ensures LexLe(a, c) {
      LexLeTransitive(a, b, c);
    }
    forall a, b | LexLe(a, b) && LexLe(b, a) ensures a == b {
      LexLeAntisymmetric(a, b);
    }
  }
}
