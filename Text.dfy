/**
 * The Python `str` operations the bridge relies on: `strip`, `lstrip`, `split`,
 * `join`, `rfind` and `str(int)`, each stated on `seq<char>`.
 */
module Text {

  /** `c.isspace()`: the characters that `str.strip()` removes. */
  predicate IsSpace(c: char) {
    var n := c as int;
    n == 0x20 || 0x09 <= n <= 0x0d || 0x1c <= n <= 0x1f || n == 0x85 || n == 0xa0
    || n == 0x1680 || 0x2000 <= n <= 0x200a || n == 0x2028 || n == 0x2029
    || n == 0x202f || n == 0x205f || n == 0x3000
  }

  /** `s.lstrip()`: the longest prefix of whitespace is removed. */
  function LStripSpace(s: string): (r: string)
    ensures |r| <= |s| && r == s[|s| - |r|..]
    ensures forall i :: 0 <= i < |s| - |r| ==> IsSpace(s[i])
    ensures r == "" || !IsSpace(r[0])
    decreases |s|
  {
    if s != "" && IsSpace(s[0]) then LStripSpace(s[1..]) else s
  }

  /** `s.rstrip()`: the longest suffix of whitespace is removed. */
  function RStripSpace(s: string): (r: string)
    ensures |r| <= |s| && r == s[..|r|]
    ensures forall i :: |r| <= i < |s| ==> IsSpace(s[i])
    ensures r == "" || !IsSpace(r[|r| - 1])
    decreases |s|
  {
    if s != "" && IsSpace(s[|s| - 1]) then RStripSpace(s[..|s| - 1]) else s
  }

  /** `s.lstrip(c)` for a single character `c`: the run of `c` at the head of `s` is removed. */
  function LStripChar(s: string, c: char): (r: string)
    ensures |r| <= |s| && r == s[|s| - |r|..]
    ensures forall i :: 0 <= i < |s| - |r| ==> s[i] == c
    ensures r == "" || r[0] != c
    decreases |s|
  {
    if s != "" && s[0] == c then LStripChar(s[1..], c) else s
  }

  /** A sequence is the concatenation of its three slices at `i` and `j`. */
  lemma SplitThree<T>(s: seq<T>, i: nat, j: nat)
    requires i <= j <= |s|
    ensures s == s[..i] + s[i..j] + s[j..]
  {
    assert s[..i] + s[i..j] == s[..j];
  }

  predicate Stripped(s: string) {
    s == "" || (!IsSpace(s[0]) && !IsSpace(s[|s| - 1]))
  }

  /** Every character of `s` outside `s[i..j]` is whitespace. */
  predicate SpaceAround(s: string, i: nat, j: nat) {
    i <= j <= |s|
    && (forall k :: 0 <= k < i ==> IsSpace(s[k]))
    && (forall k :: j <= k < |s| ==> IsSpace(s[k]))
  }

  /** `s.strip()`: a contiguous piece of `s` with only whitespace around it, and none at its ends. */
  function Strip(s: string): (r: string)
    ensures Stripped(r)
    ensures forall c :: c in r ==> c in s
    ensures exists i: nat, j: nat :: SpaceAround(s, i, j) && j <= |s| && r == s[i..j]
  {
    var l := LStripSpace(s);
    var r := RStripSpace(l);
    StripSlice(s, l, r);
    r
  }

  /**
   * Stripping whitespace from the left of `s`, giving `l`, then from the right of `l`,
   * giving `r`, leaves the slice `s[i..i + |r|]`, with `i` the length stripped on the left.
   */
  lemma StripSlice(s: string, l: string, r: string)
    requires |l| <= |s| && l == s[|s| - |l|..] && forall k :: 0 <= k < |s| - |l| ==> IsSpace(s[k])
    requires |r| <= |l| && r == l[..|r|] && forall k :: |r| <= k < |l| ==> IsSpace(l[k])
    requires r == "" || (!IsSpace(r[0]) && !IsSpace(r[|r| - 1]))
    ensures Stripped(r)
    ensures forall c :: c in r ==> c in s
    ensures SpaceAround(s, |s| - |l|, |s| - |l| + |r|) && r == s[|s| - |l|..|s| - |l| + |r|]
  {
    var i := |s| - |l|;
    var j := i + |r|;
    assert r == s[i..j];
    forall c | c in r ensures c in s {
      var k :| 0 <= k < |r| && r[k] == c;
      assert s[i + k] == r[k];
    }
    forall k | j <= k < |s| ensures IsSpace(s[k]) {
      assert s[k] == l[k - i];
    }
  }

  lemma StripOfStripped(s: string)
    requires Stripped(s)
    ensures Strip(s) == s
  {
    assert LStripSpace(s) == s;
  }

  /** `sep.join(parts)`. */
  function Join(parts: seq<string>, sep: string): string
    decreases |parts|
  {
    if |parts| == 0 then "" else if |parts| == 1 then parts[0] else parts[0] + sep + Join(parts[1..], sep)
  }

  /** `s.split(sep)` for a one-character separator: always at least one piece, none containing `sep`. */
  function Split(s: string, sep: char): (r: seq<string>)
    ensures |r| >= 1
    ensures forall i :: 0 <= i < |r| ==> sep !in r[i]
    decreases |s|
  {
    if s == "" then [""]
    else
      var rest := Split(s[1..], sep);
      if s[0] == sep then [""] + rest else [[s[0]] + rest[0]] + rest[1..]
  }

  /** Joining the pieces of a split with the separator gives back the string. */
  lemma {:induction false} JoinSplit(s: string, sep: char)
    ensures Join(Split(s, sep), [sep]) == s
    decreases |s|
  {
    if s != "" {
      var rest := Split(s[1..], sep);
      JoinSplit(s[1..], sep);
      if s[0] == sep {
        assert ([""] + rest)[1..] == rest;
      } else {
        var r := [[s[0]] + rest[0]] + rest[1..];
        if |rest| > 1 {
          assert r[1..] == rest[1..];
          assert Join(rest, [sep]) == rest[0] + [sep] + Join(rest[1..], [sep]);
        }
        assert Join(r, [sep]) == [s[0]] + Join(rest, [sep]);
        assert s == [s[0]] + s[1..];
      }
    }
  }

  lemma {:induction false} SplitPrefix(p: string, t: string, sep: char)
    requires sep !in p
    ensures Split(p + t, sep) == [p + Split(t, sep)[0]] + Split(t, sep)[1..]
    decreases |p|
  {
    var st := Split(t, sep);
    if p != "" {
      assert (p + t)[1..] == p[1..] + t;
      SplitPrefix(p[1..], t, sep);
      var rest := Split(p[1..] + t, sep);
      assert rest[0] == p[1..] + st[0] && rest[1..] == st[1..];
      assert (p + t)[0] == p[0];
      assert Split(p + t, sep) == [[p[0]] + rest[0]] + rest[1..];
      assert [p[0]] + (p[1..] + st[0]) == p + st[0];
    } else {
      assert p + t == t;
      assert p + st[0] == st[0];
      assert st == [st[0]] + st[1..];
    }
  }

  /** Splitting a join of separator-free pieces gives back the pieces. */
  lemma {:induction false} SplitJoin(parts: seq<string>, sep: char)
    requires |parts| >= 1
    requires forall i :: 0 <= i < |parts| ==> sep !in parts[i]
    ensures Split(Join(parts, [sep]), sep) == parts
    decreases |parts|
  {
    if |parts| == 1 {
      SplitPrefix(parts[0], "", sep);
      assert parts[0] + "" == parts[0];
      assert Split("", sep) == [""];
      assert [parts[0] + ""] + [""][1..] == parts;
    } else {
      var j := Join(parts[1..], [sep]);
      SplitJoin(parts[1..], sep);
      assert Join(parts, [sep]) == parts[0] + ([sep] + j);
      SplitPrefix(parts[0], [sep] + j, sep);
      var sj := Split([sep] + j, sep);
      assert sj == [""] + Split(j, sep) by {
        assert ([sep] + j)[1..] == j;
      }
      assert sj[0] == "" && sj[1..] == parts[1..];
      assert parts[0] + "" == parts[0];
      assert parts == [parts[0]] + parts[1..];
    }
  }

  /** `sub` occurs in `s` at index `i`. */
  predicate OccursAt(s: string, sub: string, i: nat) {
    i + |sub| <= |s| && s[i..i + |sub|] == sub
  }

  /**
   * `s.rfind(sub, start, end)` for `end <= |s|`: the highest index `i >= start` at which `sub`
   * occurs entirely before `end`, or -1 when there is none (`RFindSpec`).
   */
  function RFind(s: string, sub: string, start: nat, end: nat): (r: int)
    requires end <= |s|
    ensures r == -1 || (start <= r && r + |sub| <= end)
    decreases end
  {
    if end < start + |sub| then -1
    else if s[end - |sub|..end] == sub then end - |sub|
    else RFind(s, sub, start, end - 1)
  }

  lemma {:induction false} RFindSpec(s: string, sub: string, start: nat, end: nat)
    requires end <= |s|
    ensures var r := RFind(s, sub, start, end);
      (r == -1 || OccursAt(s, sub, r))
      && (r == -1 ==> forall i: nat :: start <= i && i + |sub| <= end ==> !OccursAt(s, sub, i))
      && (r != -1 ==> forall i: nat :: r < i && i + |sub| <= end ==> !OccursAt(s, sub, i))
    decreases end
  {
    if end >= start + |sub| && s[end - |sub|..end] != sub {
      RFindSpec(s, sub, start, end - 1);
    }
  }

  /** Where `rfind` finds something, the first character of `sub` is there. */
  lemma RFindHit(s: string, sub: string, start: nat, end: nat)
    requires end <= |s| && |sub| >= 1 && RFind(s, sub, start, end) != -1
    ensures s[RFind(s, sub, start, end)] == sub[0]
  {
    var r := RFind(s, sub, start, end);
    RFindSpec(s, sub, start, end);
    assert s[r..r + |sub|][0] == s[r];
  }

  /** Where `rfind` of a single character finds nothing, the character does not occur in range. */
  lemma RFindNone(s: string, c: char, start: nat, end: nat)
    requires end <= |s| && RFind(s, [c], start, end) == -1
    ensures forall i :: start <= i < end ==> s[i] != c
  {
    RFindSpec(s, [c], start, end);
    forall i | start <= i < end ensures s[i] != c {
      assert !OccursAt(s, [c], i);
      assert s[i..i + 1] == [s[i]];
    }
  }

  /** `rfind` finds nothing when the first character of `sub` does not occur in range. */
  lemma RFindMissing(s: string, sub: string, start: nat, end: nat)
    requires end <= |s| && |sub| >= 1
    requires forall i :: start <= i < end ==> s[i] != sub[0]
    ensures RFind(s, sub, start, end) == -1
  {
    RFindSpec(s, sub, start, end);
    forall i: nat | start <= i && i + |sub| <= end ensures !OccursAt(s, sub, i) {
      assert s[i..i + |sub|][0] == s[i];
    }
  }

  /** `rfind` finds nothing when `sub` occurs nowhere in range. */
  lemma RFindAbsent(s: string, sub: string, start: nat, end: nat)
    requires end <= |s|
    requires forall j: nat :: start <= j && j + |sub| <= end ==> !OccursAt(s, sub, j)
    ensures RFind(s, sub, start, end) == -1
  {
    RFindSpec(s, sub, start, end);
  }

  /** `rfind` finds the occurrence at `k` when none lies after it in range. */
  lemma RFindIs(s: string, sub: string, start: nat, end: nat, k: nat)
    requires end <= |s| && start <= k && k + |sub| <= end && OccursAt(s, sub, k)
    requires forall j: nat :: k < j && j + |sub| <= end ==> !OccursAt(s, sub, j)
    ensures RFind(s, sub, start, end) == k
  {
    RFindSpec(s, sub, start, end);
  }

  /** `rfind` finds an occurrence after which the first character of `sub` does not occur again in range. */
  lemma RFindLast(s: string, sub: string, start: nat, end: nat, i: nat)
    requires end <= |s| && |sub| >= 1
    requires start <= i && i + |sub| <= end && OccursAt(s, sub, i)
    requires forall j :: i < j < end ==> s[j] != sub[0]
    ensures RFind(s, sub, start, end) == i
  {
    var r := RFind(s, sub, start, end);
    RFindSpec(s, sub, start, end);
    assert r != -1;
    assert s[r..r + |sub|][0] == s[r];
  }

  function DigitChar(d: nat): (c: char)
    requires d < 10
    ensures '0' <= c <= '9'
  {
    (48 + d) as char
  }

  predicate AllDigits(s: string) {
    forall i :: 0 <= i < |s| ==> '0' <= s[i] <= '9'
  }

  /** The decimal digits of `n`, most significant first. */
  function Digits(n: nat): (r: string)
    ensures |r| >= 1 && AllDigits(r)
    decreases n
  {
    if n < 10 then [DigitChar(n)] else Digits(n / 10) + [DigitChar(n % 10)]
  }

  /** `str(n)` for a Python `int`. */
  function DecimalString(n: int): string {
    if n < 0 then "-" + Digits(-n) else Digits(n)
  }

  /** The number a string of decimal digits denotes (its inverse, `int(s)`). */
  function DigitsValue(s: string): nat
    requires AllDigits(s)
    decreases |s|
  {
    if s == "" then 0 else DigitsValue(s[..|s| - 1]) * 10 + (s[|s| - 1] as int - 48)
  }

  function DecimalValue(s: string): int
    requires s != "" && (if s[0] == '-' then AllDigits(s[1..]) else AllDigits(s))
  {
    if s[0] == '-' then -(DigitsValue(s[1..]) as int) else DigitsValue(s)
  }

  lemma {:induction false} DigitsRoundTrip(n: nat)
    ensures DigitsValue(Digits(n)) == n
    decreases n
  {
    if n >= 10 {
      DigitsRoundTrip(n / 10);
      var d := Digits(n / 10) + [DigitChar(n % 10)];
      assert d[..|d| - 1] == Digits(n / 10);
    }
  }

  /** `int(str(n)) == n`: the decimal rendering loses nothing. */
  lemma DecimalRoundTrip(n: int)
    ensures var s := DecimalString(n);
      s != "" && (if s[0] == '-' then AllDigits(s[1..]) else AllDigits(s)) && DecimalValue(s) == n
  {
    if n < 0 {
      DigitsRoundTrip(-n);
      assert ("-" + Digits(-n))[1..] == Digits(-n);
    } else {
      DigitsRoundTrip(n);
    }
  }

  /** Distinct integers have distinct decimal renderings. */
  lemma DecimalInjective(a: int, b: int)
    requires DecimalString(a) == DecimalString(b)
    ensures a == b
  {
    DecimalRoundTrip(a);
    DecimalRoundTrip(b);
  }
}
