/** The string operations the Ruby code relies on: substring search, `split`,
    `gsub`, `chomp`, `lines`, `join`, `to_s`/`to_i` on decimal numbers, and the
    line-anchored `=~ /^.../` test. Strings are sequences of characters. */
module Text {
  import opened Wrappers

  predicate StartsWith(s: string, p: string) {
    |p| <= |s| && s[..|p|] == p
  }

  /** `p` occurs in `s` starting at position `i`. */
  predicate OccursAt(s: string, p: string, i: nat) {
    i + |p| <= |s| && s[i..i + |p|] == p
  }

  predicate Contains(s: string, p: string) {
    exists i: nat :: i <= |s| && OccursAt(s, p, i)
  }

  lemma OccursAtShift(s: string, p: string)
    requires |s| > 0
    ensures forall j: nat :: j >= 1 ==> (OccursAt(s, p, j) <==> OccursAt(s[1..], p, j - 1))
  {
    forall j: nat | j >= 1
      ensures OccursAt(s, p, j) <==> OccursAt(s[1..], p, j - 1)
    {
      var t := s[1..];
      if j + |p| <= |s| {
        var u, v := s[j..j + |p|], t[j - 1..j - 1 + |p|];
        forall k | 0 <= k < |p|
          ensures u[k] == v[k]
        {
          assert t[j - 1 + k] == s[j + k];
        }
        assert u == v;
      }
    }
  }

  /** The position of the leftmost occurrence of `p` in `s`, as a regular
      expression search finds it. */
  function IndexOf(s: string, p: string): (r: Option<nat>)
    requires |p| > 0
    ensures r.Some? ==> OccursAt(s, p, r.value)
    ensures r.Some? ==> forall j: nat :: j < r.value ==> !OccursAt(s, p, j)
    ensures r.None? ==> forall j: nat :: !OccursAt(s, p, j)
    decreases |s|
  {
    if |s| < |p| then None
    else if s[..|p|] == p then Some(0)
    else
      var rest := IndexOf(s[1..], p);
      OccursAtShift(s, p);
      assert !OccursAt(s, p, 0);
      match rest
      case None => None
      case Some(k) => Some(k + 1)
  }

  /** `a` followed by the delimiter `d` contains no occurrence of `d` that
      starts inside `a`: the first occurrence of `d` in `a + d + ...` is the
      delimiter itself. */
  predicate Delimited(a: string, d: string) {
    forall j: nat :: j < |a| ==> !OccursAt(a + d, d, j)
  }

  lemma IndexOfAfterDelimited(a: string, d: string, rest: string)
    requires |d| > 0 && Delimited(a, d)
    ensures IndexOf(a + d + rest, d) == Some(|a|)
  {
    var s := a + d + rest;
    assert s[|a|..|a| + |d|] == d;
    forall j: nat | j < |a|
      ensures !OccursAt(s, d, j)
    {
      assert !OccursAt(a + d, d, j);
    }
    assert OccursAt(s, d, |a|);
    match IndexOf(s, d)
    case None =>
    case Some(k) =>
  }

  lemma DelimitedHasNoOccurrence(a: string, d: string)
    requires |d| > 0 && Delimited(a, d)
    ensures forall j: nat :: !OccursAt(a, d, j)
  {
    forall j: nat | OccursAt(a, d, j)
      ensures false
    {
      assert (a + d)[j..j + |d|] == a[j..j + |d|];
      assert OccursAt(a + d, d, j);
    }
  }

  lemma IndexOfAbsent(a: string, d: string)
    requires |d| > 0 && Delimited(a, d)
    ensures IndexOf(a, d).None?
  {
    DelimitedHasNoOccurrence(a, d);
  }

  /** A string that does not contain the first character of `d` is delimited
      by `d`. */
  lemma DelimitedWithoutLead(a: string, d: string)
    requires |d| > 0 && d[0] !in a
    ensures Delimited(a, d)
  {
    forall j: nat | j < |a|
      ensures !OccursAt(a + d, d, j)
    {
      assert (a + d)[j] == a[j];
    }
  }

  /** `parts` joined with `d` between consecutive parts (Ruby `Array#join`). */
  function Join(parts: seq<string>, d: string): string {
    if |parts| == 0 then ""
    else if |parts| == 1 then parts[0]
    else parts[0] + d + Join(parts[1..], d)
  }

  /** All fields of `s` between occurrences of `d`, empty ones included. */
  function Fields(s: string, d: string): (r: seq<string>)
    requires |d| > 0
    ensures |r| >= 1
    decreases |s|
  {
    match IndexOf(s, d)
    case None => [s]
    case Some(i) => [s[..i]] + Fields(s[i + |d|..], d)
  }

  function DropTrailingEmpty(fs: seq<string>): (r: seq<string>)
    ensures |r| <= |fs| && r == fs[..|r|]
    ensures |r| > 0 ==> r[|r| - 1] != ""
    ensures forall k :: |r| <= k < |fs| ==> fs[k] == ""
  {
    if |fs| == 0 then []
    else if fs[|fs| - 1] == "" then DropTrailingEmpty(fs[..|fs| - 1])
    else fs
  }

  /** Ruby's `String#split` with a literal, non-empty separator: trailing empty
      fields are removed, and the empty string splits into nothing. */
  function RubySplit(s: string, d: string): seq<string>
    requires |d| > 0
  {
    if s == "" then [] else DropTrailingEmpty(Fields(s, d))
  }

  /** Splitting a join gives the parts back, provided no part hides the
      delimiter. */
  lemma {:induction false} FieldsOfJoin(parts: seq<string>, d: string)
    requires |d| > 0 && |parts| > 0
    requires forall k :: 0 <= k < |parts| ==> Delimited(parts[k], d)
    ensures Fields(Join(parts, d), d) == parts
    decreases |parts|
  {
    if |parts| == 1 {
      IndexOfAbsent(parts[0], d);
    } else {
      var rest := Join(parts[1..], d);
      IndexOfAfterDelimited(parts[0], d, rest);
      var s := parts[0] + d + rest;
      assert s[..|parts[0]|] == parts[0];
      assert s[|parts[0]| + |d|..] == rest;
      FieldsOfJoin(parts[1..], d);
    }
  }

  /** The same for parts that lack the delimiter's first character. */
  lemma FieldsOfJoinWithoutLead(parts: seq<string>, d: string)
    requires |d| > 0 && |parts| > 0
    requires forall k :: 0 <= k < |parts| ==> d[0] !in parts[k]
    ensures Fields(Join(parts, d), d) == parts
  {
    forall k | 0 <= k < |parts| ensures Delimited(parts[k], d) {
      DelimitedWithoutLead(parts[k], d);
    }
    FieldsOfJoin(parts, d);
  }

  /** Ruby's `split` of a join gives the parts back when the last part is
      not empty (`split` drops trailing empty fields). */
  lemma RubySplitOfJoin(parts: seq<string>, d: string)
    requires |d| > 0 && |parts| > 0 && parts[|parts| - 1] != ""
    requires forall k :: 0 <= k < |parts| ==> Delimited(parts[k], d)
    ensures RubySplit(Join(parts, d), d) == parts
  {
    FieldsOfJoin(parts, d);
  }

  /** Ruby `gsub` with a literal pattern: every leftmost, non-overlapping
      occurrence of `p` is replaced by `r`. */
  function ReplaceAll(s: string, p: string, r: string): string
    requires |p| > 0
    decreases |s|
  {
    match IndexOf(s, p)
    case None => s
    case Some(i) => s[..i] + r + ReplaceAll(s[i + |p|..], p, r)
  }

  /** Replacing a delimiter that separates parts is the same as joining the
      parts with the replacement. */
  lemma {:induction false} ReplaceAllOfJoin(parts: seq<string>, p: string, r: string)
    requires |p| > 0 && |parts| > 0
    requires forall k :: 0 <= k < |parts| ==> Delimited(parts[k], p)
    ensures ReplaceAll(Join(parts, p), p, r) == Join(parts, r)
    decreases |parts|
  {
    if |parts| == 1 {
      IndexOfAbsent(parts[0], p);
    } else {
      var rest := Join(parts[1..], p);
      IndexOfAfterDelimited(parts[0], p, rest);
      var s := parts[0] + p + rest;
      assert s[..|parts[0]|] == parts[0];
      assert s[|parts[0]| + |p|..] == rest;
      ReplaceAllOfJoin(parts[1..], p, r);
    }
  }

  /** Ruby `String#chomp` without argument: one trailing "\r\n", "\n" or "\r"
      is removed. */
  function Chomp(s: string): (r: string)
    ensures |r| <= |s| && r == s[..|r|] && |s| - 2 <= |r|
  {
    if |s| >= 2 && s[|s| - 2..] == "\r\n" then s[..|s| - 2]
    else if |s| >= 1 && (s[|s| - 1] == '\n' || s[|s| - 1] == '\r') then s[..|s| - 1]
    else s
  }

  lemma ChompTerminated(x: string)
    requires |x| == 0 || x[|x| - 1] != '\r'
    ensures Chomp(x + "\n") == x
  {
    assert (x + "\n")[..|x|] == x;
  }

  /** Ruby `s.lines.map(&:chomp)`: the lines of `s` without their line
      terminators. */
  function ChompedLines(s: string): seq<string> {
    if s == "" then []
    else
      var fs := Fields(s, "\n");
      var ls := if fs[|fs| - 1] == "" then fs[..|fs| - 1] else fs;
      seq(|ls|, k requires 0 <= k < |ls| => Chomp(ls[k]))
  }

  /** Ruby `out =~ /^p/` where `p` holds no line break: some line of `out`
      starts with `p`. */
  predicate HasLineStarting(out: string, p: string) {
    exists i: nat :: i <= |out| && (i == 0 || out[i - 1] == '\n') && OccursAt(out, p, i)
  }

  predicate IsDigit(c: char) {
    '0' <= c <= '9'
  }

  predicate AllDigits(s: string) {
    forall k :: 0 <= k < |s| ==> IsDigit(s[k])
  }

  function DigitChar(d: nat): (c: char)
    requires d < 10
    ensures IsDigit(c)
  {
    ('0' as int + d) as char
  }

  /** Decimal representation, as Ruby's `Integer#to_s`. */
  function NatToString(n: nat): (r: string)
    ensures |r| >= 1 && AllDigits(r)
    decreases n
  {
    if n < 10 then [DigitChar(n)] else NatToString(n / 10) + [DigitChar(n % 10)]
  }

  function IntToString(n: int): string {
    if n < 0 then "-" + NatToString(-n) else NatToString(n)
  }

  /** Ruby's `String#to_i` on a string of decimal digits. */
  function ParseNat(s: string): nat
    requires AllDigits(s)
  {
    if s == [] then 0 else ParseNat(s[..|s| - 1]) * 10 + (s[|s| - 1] as int - '0' as int)
  }

  lemma {:induction false} ParseNatOfNatToString(n: nat)
    ensures ParseNat(NatToString(n)) == n
    decreases n
  {
    if n >= 10 {
      var s := NatToString(n);
      assert s[..|s| - 1] == NatToString(n / 10);
      ParseNatOfNatToString(n / 10);
    }
  }
}
