/**
 * The fragment of Python's `str` semantics that the assistant's backend
 * relies on: `strip`, `lower`, the substring test `in`, `split`, `join`,
 * single-character `replace` and the decimal rendering of integers.
 * Strings are sequences of Unicode scalar values, as Python's are.
 */
module Text {

  datatype Option<T> = None | Some(value: T)

  // ---------------------------------------------------------------------
  // Whitespace and `str.strip()`
  // ---------------------------------------------------------------------

  /** Python's `str.isspace()` for one character (the complete set). */
  predicate IsSpace(c: char) {
    var n := c as int;
    (0x09 <= n <= 0x0D) || (0x1C <= n <= 0x20) || n == 0x85 || n == 0xA0
    || n == 0x1680 || (0x2000 <= n <= 0x200A) || n == 0x2028 || n == 0x2029
    || n == 0x202F || n == 0x205F || n == 0x3000
  }

  predicate AllSpace(s: string) {
    forall k :: 0 <= k < |s| ==> IsSpace(s[k])
  }

  /** `s.lstrip()`: the suffix left after dropping leading whitespace. */
  function TrimLeft(s: string): (r: string)
    ensures |r| <= |s| && r == s[|s| - |r|..]
    ensures AllSpace(s[..|s| - |r|])
    ensures r == [] || !IsSpace(r[0])
  {
    if |s| > 0 && IsSpace(s[0]) then
      var r := TrimLeft(s[1..]);
      assert s[1..][..|s| - 1 - |r|] == s[1..|s| - |r|];
      r
    else s
  }

  /** `s.rstrip()`: the prefix left after dropping trailing whitespace. */
  function TrimRight(s: string): (r: string)
    ensures |r| <= |s| && r == s[..|r|]
    ensures AllSpace(s[|r|..])
    ensures r == [] || !IsSpace(r[|r| - 1])
  {
    if |s| > 0 && IsSpace(s[|s| - 1]) then
      var r := TrimRight(s[..|s| - 1]);
      assert s[..|s| - 1][|r|..] + [s[|s| - 1]] == s[|r|..];
      r
    else s
  }

  /** `s.strip()`. */
  function Strip(s: string): (r: string)
    ensures |r| <= |s|
    ensures r == [] || (!IsSpace(r[0]) && !IsSpace(r[|r| - 1]))
  {
    TrimRight(TrimLeft(s))
  }

  lemma SliceOfSuffix(s: string, i: nat, n: nat)
    requires i + n <= |s|
    ensures s[i..][..n] == s[i..i + n]
    ensures s[i..][n..] == s[i + n..]
  {
  }

  /** What `strip` keeps is a contiguous piece of `s` with only whitespace around it. */
  lemma StripIsInfix(s: string) returns (i: nat)
    ensures i + |Strip(s)| <= |s|
    ensures Strip(s) == s[i..i + |Strip(s)|]
    ensures AllSpace(s[..i]) && AllSpace(s[i + |Strip(s)|..])
  {
    var l := TrimLeft(s);
    var r := TrimRight(l);
    i := |s| - |l|;
    SliceOfSuffix(s, i, |r|);
  }

  /** Stripping twice is stripping once. */
  lemma StripIdempotent(s: string)
    ensures Strip(Strip(s)) == Strip(s)
  {
    var r := Strip(s);
    assert TrimLeft(r) == r;
  }

  // ---------------------------------------------------------------------
  // Case: `str.lower()`
  // ---------------------------------------------------------------------

  function LowerChar(c: char): (d: char)
    ensures !('A' <= d <= 'Z')
    ensures 'A' <= c <= 'Z' ==> d as int == c as int + 32
    ensures !('A' <= c <= 'Z') ==> d == c
  {
    if 'A' <= c <= 'Z' then (c as int + 32) as char else c
  }

  /** `s.lower()` on the ASCII letters. */
  function Lower(s: string): (r: string)
    ensures |r| == |s|
    ensures forall k :: 0 <= k < |s| ==> r[k] == LowerChar(s[k])
  {
    seq(|s|, k requires 0 <= k < |s| => LowerChar(s[k]))
  }

  predicate IsLower(s: string) {
    forall k :: 0 <= k < |s| ==> !('A' <= s[k] <= 'Z')
  }

  /** Exactly the strings without upper-case letters are left alone by lowering. */
  lemma LowerFixedPoint(s: string)
    ensures Lower(s) == s <==> IsLower(s)
  {
  }

  /** Lowering is idempotent: its result is already lower case. */
  lemma LowerIdempotent(s: string)
    ensures IsLower(Lower(s))
    ensures Lower(Lower(s)) == Lower(s)
  {
  }

  // ---------------------------------------------------------------------
  // Substrings: `t in s` and the first occurrence
  // ---------------------------------------------------------------------

  /** `t` occurs in `s` starting at index `i`. */
  predicate OccursAt(s: string, t: string, i: nat) {
    i + |t| <= |s| && s[i..i + |t|] == t
  }

  /** Python's `t in s`. */
  predicate Contains(s: string, t: string) {
    exists i :: 0 <= i <= |s| - |t| && OccursAt(s, t, i)
  }

  /** Python's `any(x in s for x in needles)`. */
  predicate ContainsAny(s: string, needles: seq<string>) {
    exists k :: 0 <= k < |needles| && Contains(s, needles[k])
  }

  lemma OccursShift(s: string, t: string, j: nat)
    requires |s| > 0
    ensures OccursAt(s, t, j + 1) <==> OccursAt(s[1..], t, j)
  {
    if j + 1 + |t| <= |s| {
      assert s[1..][j..j + |t|] == s[j + 1..j + 1 + |t|];
    }
  }

  /** The index of the first occurrence of `t` in `s`, or None: where `split` makes its first cut. */
  function IndexOf(s: string, t: string): (r: Option<nat>)
    ensures r.Some? ==> OccursAt(s, t, r.value)
    ensures r.Some? ==> forall j :: 0 <= j < r.value ==> !OccursAt(s, t, j)
    ensures r.None? <==> !Contains(s, t)
    decreases |s|
  {
    if t <= s then
      assert OccursAt(s, t, 0);
      Some(0)
    else if |s| == 0 then
      None
    else
      match IndexOf(s[1..], t)
      case None =>
        assert !Contains(s, t) by {
          forall j | 1 <= j <= |s| - |t| ensures !OccursAt(s, t, j) {
            OccursShift(s, t, j - 1);
          }
        }
        None
      case Some(k) =>
        OccursShift(s, t, k);
        assert forall j :: 1 <= j < k + 1 ==> !OccursAt(s, t, j) by {
          forall j | 1 <= j < k + 1 ensures !OccursAt(s, t, j) {
            OccursShift(s, t, j - 1);
          }
        }
        Some(k + 1)
  }

  /** A needle with a character the string lacks does not occur in it. */
  lemma MissingChar(s: string, t: string, c: nat)
    requires c < |t|
    requires forall j :: 0 <= j < |s| ==> s[j] != t[c]
    ensures !Contains(s, t)
  {
    forall i | 0 <= i <= |s| - |t| ensures !OccursAt(s, t, i) {
      assert s[i + c] != t[c];
    }
  }

  /** Every string holding a needle holds each prefix of the needle. */
  lemma ContainsPrefix(s: string, t: string, u: string)
    requires u <= t && Contains(s, t)
    ensures Contains(s, u)
  {
    var i :| 0 <= i <= |s| - |t| && OccursAt(s, t, i);
    assert s[i..i + |u|] == t[..|u|];
    assert OccursAt(s, u, i);
  }

  /** The first occurrence is at `i` when `t` occurs there and its first character does not occur earlier. */
  lemma FirstAt(s: string, t: string, i: nat)
    requires |t| >= 1 && OccursAt(s, t, i)
    requires forall j :: 0 <= j < i ==> s[j] != t[0]
    ensures IndexOf(s, t) == Some(i)
  {
    forall j | 0 <= j < i ensures !OccursAt(s, t, j) {
      assert s[j] != t[0];
    }
    assert Contains(s, t);
  }

  /** An occurrence inside a slice is an occurrence in the whole, shifted. */
  lemma OccursInSlice(s: string, t: string, a: nat, b: nat, j: nat)
    requires a <= b <= |s|
    ensures OccursAt(s[a..b], t, j) ==> OccursAt(s, t, a + j)
  {
    if OccursAt(s[a..b], t, j) {
      assert a + j + |t| <= b;
      var inner, outer := s[a..b][j..j + |t|], s[a + j..a + j + |t|];
      forall k | 0 <= k < |t| ensures inner[k] == outer[k] {
        assert s[a..b][j + k] == s[a + j + k];
      }
      assert inner == outer;
    }
  }

  /** A needle can only be found inside a slice if it is found in the whole. */
  lemma ContainsSlice(s: string, t: string, a: nat, b: nat)
    requires a <= b <= |s|
    requires Contains(s[a..b], t)
    ensures Contains(s, t)
  {
    var i :| 0 <= i <= |s[a..b]| - |t| && OccursAt(s[a..b], t, i);
    OccursInSlice(s, t, a, b, i);
  }

  /** A slice of a string lacking a needle lacks it too. */
  lemma AbsentInSlice(s: string, t: string, a: nat, b: nat)
    requires a <= b <= |s| && !Contains(s, t)
    ensures !Contains(s[a..b], t)
  {
    var piece := s[a..b];
    forall j | 0 <= j <= |piece| - |t| ensures !OccursAt(piece, t, j) {
      OccursInSlice(s, t, a, b, j);
    }
  }

  /** Stripping cannot create a needle the string lacks. */
  lemma StripKeepsAbsence(s: string, t: string)
    requires !Contains(s, t)
    ensures !Contains(Strip(s), t)
  {
    var i := StripIsInfix(s);
    AbsentInSlice(s, t, i, i + |Strip(s)|);
  }

  /** A string lacking a needle lacks every extension of it. */
  lemma AbsentExtension(s: string, t: string, u: string)
    requires u <= t && !Contains(s, u)
    ensures !Contains(s, t)
  {
    forall i | 0 <= i <= |s| - |t| ensures !OccursAt(s, t, i) {
      assert !OccursAt(s, u, i);
      assert s[i..i + |t|][..|u|] == s[i..i + |u|];
    }
  }

  /** Lowering maps whitespace to whitespace and nothing else to it. */
  lemma LowerKeepsSpace(c: char)
    ensures IsSpace(LowerChar(c)) == IsSpace(c)
  {
  }

  lemma {:induction false} TrimLeftLower(s: string)
    ensures TrimLeft(Lower(s)) == Lower(TrimLeft(s))
    decreases |s|
  {
    if |s| > 0 {
      var low := Lower(s);
      LowerKeepsSpace(s[0]);
      assert low[0] == LowerChar(s[0]);
      if IsSpace(s[0]) {
        assert low[1..] == Lower(s[1..]);
        TrimLeftLower(s[1..]);
      }
    }
  }

  lemma {:induction false} TrimRightLower(s: string)
    ensures TrimRight(Lower(s)) == Lower(TrimRight(s))
    decreases |s|
  {
    if |s| > 0 {
      var low := Lower(s);
      LowerKeepsSpace(s[|s| - 1]);
      assert low[|s| - 1] == LowerChar(s[|s| - 1]);
      if IsSpace(s[|s| - 1]) {
        var init := s[..|s| - 1];
        assert low[..|s| - 1] == Lower(init);
        assert TrimRight(low) == TrimRight(Lower(init));
        assert TrimRight(s) == TrimRight(init);
        TrimRightLower(init);
      } else {
        assert TrimRight(low) == low;
      }
    }
  }

  /** Lowering touches no whitespace, so it commutes with stripping. */
  lemma StripLower(s: string)
    ensures Strip(Lower(s)) == Lower(Strip(s))
    ensures |Strip(Lower(s))| == |Strip(s)|
  {
    TrimLeftLower(s);
    TrimRightLower(TrimLeft(s));
  }

  // ---------------------------------------------------------------------
  // `s.split(sep)` and `sep.join(parts)`
  // ---------------------------------------------------------------------

  /**
   * Python's `s.split(sep)` for a non-empty separator: occurrences are
   * taken left to right without overlap, and the pieces between them
   * are returned, including empty ones at either end.
   */
  function Split(s: string, sep: string): (parts: seq<string>)
    requires sep != []
    ensures |parts| >= 1
    ensures forall k :: 0 <= k < |parts| ==> !Contains(parts[k], sep)
    ensures |parts| > 1 <==> Contains(s, sep)
    decreases |s|
  {
    match IndexOf(s, sep)
    case None => [s]
    case Some(i) =>
      assert !Contains(s[..i], sep) by {
        forall j | 0 <= j <= i - |sep| ensures !OccursAt(s[..i], sep, j) {
          OccursInSlice(s, sep, 0, i, j);
        }
      }
      [s[..i]] + Split(s[i + |sep|..], sep)
  }

  /** Python's `sep.join(parts)`. */
  function Join(parts: seq<string>, sep: string): string {
    if |parts| == 0 then ""
    else if |parts| == 1 then parts[0]
    else parts[0] + sep + Join(parts[1..], sep)
  }

  /** Joining the pieces of a split with the same separator gives the string back. */
  lemma {:induction false} JoinSplit(s: string, sep: string)
    requires sep != []
    ensures Join(Split(s, sep), sep) == s
    decreases |s|
  {
    match IndexOf(s, sep)
    case None =>
    case Some(i) =>
      var rest := s[i + |sep|..];
      var parts := Split(rest, sep);
      JoinSplit(rest, sep);
      assert Split(s, sep) == [s[..i]] + parts;
      JoinCons(s[..i], parts, sep);
      CutAt(s, sep, i);
  }

  /** Joining a piece in front of at least one more adds the piece and a separator. */
  lemma JoinCons(a: string, parts: seq<string>, sep: string)
    requires |parts| >= 1
    ensures Join([a] + parts, sep) == a + sep + Join(parts, sep)
  {
    assert ([a] + parts)[1..] == parts;
  }

  /** An occurrence of `sep` at `i` cuts `s` into the text before, `sep` and the text after. */
  lemma CutAt(s: string, sep: string, i: nat)
    requires OccursAt(s, sep, i)
    ensures s == s[..i] + sep + s[i + |sep|..]
  {
  }

  /** A join starts with its first piece. */
  lemma JoinStartsWith(parts: seq<string>, sep: string)
    requires |parts| >= 1
    ensures parts[0] <= Join(parts, sep)
  {
    if |parts| > 1 {
      assert Join(parts, sep) == parts[0] + (sep + Join(parts[1..], sep));
    }
  }

  /**
   * With a one-character separator that no piece contains, splitting the
   * join gives the pieces back.
   */
  lemma {:induction false} SplitJoin(parts: seq<string>, sep: string)
    requires |sep| == 1 && |parts| >= 1
    requires forall k :: 0 <= k < |parts| ==> !Contains(parts[k], sep)
    ensures Split(Join(parts, sep), sep) == parts
    decreases |parts|
  {
    if |parts| > 1 {
      var a, rest := parts[0], Join(parts[1..], sep);
      JoinCons(a, parts[1..], sep);
      SplitAtFirst(a, sep, rest);
      SplitJoin(parts[1..], sep);
      assert parts == [a] + parts[1..];
    }
  }

  /** A one-character separator that the first piece lacks is cut right after that piece. */
  lemma SplitAtFirst(a: string, sep: string, rest: string)
    requires |sep| == 1 && !Contains(a, sep)
    ensures Split(a + sep + rest, sep) == [a] + Split(rest, sep)
  {
    var s := a + sep + rest;
    assert OccursAt(s, sep, |a|) by { assert s[|a|..|a| + 1] == sep; }
    var i := IndexOf(s, sep).value;
    if i < |a| {
      assert s[i..i + 1] == a[i..i + 1];
      assert OccursAt(a, sep, i);
      assert false;
    }
    assert s[..|a|] == a && s[|a| + 1..] == rest;
  }

  /**
   * Python's `s.split(sep)[1]`: None where the index raises because `sep`
   * does not occur.
   */
  function SplitSecond(s: string, sep: string): (r: Option<string>)
    requires sep != []
    ensures r.Some? <==> Contains(s, sep)
    ensures r.Some? ==> !Contains(r.value, sep)
  {
    var parts := Split(s, sep);
    if |parts| > 1 then Some(parts[1]) else None
  }

  /**
   * The text between the first occurrence of `sep` and the second one, or
   * everything after the first when there is no second.
   */
  function SegmentAfter(s: string, sep: string): string
    requires Contains(s, sep)
  {
    var rest := s[IndexOf(s, sep).value + |sep|..];
    match IndexOf(rest, sep)
    case None => rest
    case Some(j) => rest[..j]
  }

  /**
   * `s.split(sep)[1]` is the segment after the first occurrence of `sep`:
   * it is not simply "the rest after `sep`".
   */
  lemma SplitSecondIsSegment(s: string, sep: string)
    requires sep != [] && Contains(s, sep)
    ensures SplitSecond(s, sep) == Some(SegmentAfter(s, sep))
  {
    var i := IndexOf(s, sep).value;
    var rest := s[i + |sep|..];
    var tail := Split(rest, sep);
    assert Split(s, sep) == [s[..i]] + tail;
    match IndexOf(rest, sep)
    case None =>
      assert tail == [rest];
    case Some(j) =>
      assert tail[0] == rest[..j];
  }

  // ---------------------------------------------------------------------
  // `s.replace(a, b)` for single characters
  // ---------------------------------------------------------------------

  function ReplaceChar(s: string, a: char, b: char): (r: string)
    ensures |r| == |s|
    ensures forall k :: 0 <= k < |s| ==> r[k] == (if s[k] == a then b else s[k])
  {
    if s == [] then [] else [if s[0] == a then b else s[0]] + ReplaceChar(s[1..], a, b)
  }

  /** Replacing `a` by `b` is undone by replacing `b` by `a` when `b` did not occur. */
  lemma ReplaceCharInverse(s: string, a: char, b: char)
    requires forall k :: 0 <= k < |s| ==> s[k] != b
    ensures ReplaceChar(ReplaceChar(s, a, b), b, a) == s
  {
  }

  // ---------------------------------------------------------------------
  // Integers: `str(n)` and `int(s)` for naturals
  // ---------------------------------------------------------------------

  predicate IsDigit(c: char) { '0' <= c <= '9' }

  function DigitChar(d: nat): (c: char)
    requires d < 10
    ensures IsDigit(c)
  {
    ('0' as int + d) as char
  }

  function DigitValue(c: char): (d: nat)
    requires IsDigit(c)
    ensures d < 10 && DigitChar(d) == c
  {
    c as int - '0' as int
  }

  /** `str(n)` for a natural number. */
  function NatToString(n: nat): (r: string)
    ensures |r| >= 1
    ensures forall k :: 0 <= k < |r| ==> IsDigit(r[k])
    ensures |r| > 1 ==> r[0] != '0'
  {
    if n < 10 then [DigitChar(n)] else NatToString(n / 10) + [DigitChar(n % 10)]
  }

  /** `int(s)` on a string of decimal digits. */
  function ParseNat(s: string): (n: nat)
    requires forall k :: 0 <= k < |s| ==> IsDigit(s[k])
  {
    if s == [] then 0 else ParseNat(s[..|s| - 1]) * 10 + DigitValue(s[|s| - 1])
  }

  /** `int(str(n)) == n`: the rendering is the decimal numeral of `n`. */
  lemma {:induction false} ParseNatToString(n: nat)
    ensures ParseNat(NatToString(n)) == n
  {
    if n >= 10 {
      var s := NatToString(n);
      assert s[..|s| - 1] == NatToString(n / 10);
      ParseNatToString(n / 10);
    }
  }

  /** No decimal numeral contains a newline, or any other non-digit. */
  lemma NatToStringHasNo(n: nat, t: string)
    requires |t| >= 1 && !IsDigit(t[0])
    ensures !Contains(NatToString(n), t)
  {
    var s := NatToString(n);
    forall i | 0 <= i <= |s| - |t| ensures !OccursAt(s, t, i) {
      assert s[i] != t[0];
    }
  }
}
