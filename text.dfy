/**
 * String helpers with the meaning Python gives them: truthiness of an optional
 * string, `upper`/`lower` (on ASCII letters), `strip`, `startswith`, `in` on
 * substrings, `split` and `join` on a one-character separator, and the
 * "last two labels" reduction of a host name.
 */
module Text {
  import opened Wrappers

  /** Python truthiness of an optional string: present and not empty. */
  predicate Truthy(s: Option<string>) {
    s.Some? && s.value != ""
  }

  predicate IsAsciiLower(c: char) { 'a' <= c <= 'z' }

  predicate IsAsciiUpper(c: char) { 'A' <= c <= 'Z' }

  function UpperChar(c: char): char {
    if IsAsciiLower(c) then (c as int - 32) as char else c
  }

  function LowerChar(c: char): char {
    if IsAsciiUpper(c) then (c as int + 32) as char else c
  }

  /** No lower-case ASCII letter occurs in `s`. */
  predicate IsUpperCased(s: string) {
    forall i :: 0 <= i < |s| ==> !IsAsciiLower(s[i])
  }

  /** No upper-case ASCII letter occurs in `s`. */
  predicate IsLowerCased(s: string) {
    forall i :: 0 <= i < |s| ==> !IsAsciiUpper(s[i])
  }

  /** `s.upper()`, on ASCII letters. */
  function Upper(s: string): (r: string)
    ensures |r| == |s|
    ensures forall i :: 0 <= i < |s| ==> r[i] == UpperChar(s[i])
    ensures IsUpperCased(r)
  {
    seq(|s|, i requires 0 <= i < |s| => UpperChar(s[i]))
  }

  /** `s.lower()`, on ASCII letters. */
  function Lower(s: string): (r: string)
    ensures |r| == |s|
    ensures forall i :: 0 <= i < |s| ==> r[i] == LowerChar(s[i])
    ensures IsLowerCased(r)
  {
    seq(|s|, i requires 0 <= i < |s| => LowerChar(s[i]))
  }

  /** `s.startswith(p)` */
  predicate StartsWith(s: string, p: string) {
    |p| <= |s| && s[..|p|] == p
  }

  /** `p in s` for strings: `p` occurs in `s` as a contiguous substring. */
  predicate HasSubstring(s: string, p: string)
    decreases |s|
  {
    StartsWith(s, p) || (|s| > 0 && HasSubstring(s[1..], p))
  }

  /** The characters Python's `str.isspace` accepts, hence those `str.strip()` removes. */
  predicate IsSpace(c: char) {
    || c == ' '
    || '\t' <= c <= '\r'
    || '\U{1C}' <= c <= '\U{1F}'
    || c == '\U{85}' || c == '\U{A0}' || c == '\U{1680}'
    || '\U{2000}' <= c <= '\U{200A}'
    || c == '\U{2028}' || c == '\U{2029}' || c == '\U{202F}' || c == '\U{205F}' || c == '\U{3000}'
  }

  /** Number of whitespace characters at the start of `s`. */
  function LeadingSpaces(s: string): (n: nat)
    ensures n <= |s|
    ensures forall k :: 0 <= k < n ==> IsSpace(s[k])
    ensures n < |s| ==> !IsSpace(s[n])
  {
    if |s| == 0 || !IsSpace(s[0]) then 0 else 1 + LeadingSpaces(s[1..])
  }

  /** Number of whitespace characters at the end of `s`. */
  function TrailingSpaces(s: string): (n: nat)
    ensures n <= |s|
    ensures forall k :: |s| - n <= k < |s| ==> IsSpace(s[k])
    ensures n < |s| ==> !IsSpace(s[|s| - 1 - n])
  {
    if |s| == 0 || !IsSpace(s[|s| - 1]) then 0 else 1 + TrailingSpaces(s[..|s| - 1])
  }

  /**
   * `s.strip()`: `s` without its leading and trailing whitespace. The result is
   * the slice of `s` that starts at the first non-space character and ends at
   * the last one; it is empty exactly when `s` is all whitespace.
   */
  function Strip(s: string): (r: string)
    ensures var a := LeadingSpaces(s);
      && a + |r| <= |s| && r == s[a..a + |r|]
      && (forall k :: a + |r| <= k < |s| ==> IsSpace(s[k]))
    ensures r != "" ==> !IsSpace(r[0]) && !IsSpace(r[|r| - 1])
    ensures r == "" <==> forall k :: 0 <= k < |s| ==> IsSpace(s[k])
  {
    var t := s[LeadingSpaces(s)..];
    t[..|t| - TrailingSpaces(t)]
  }

  /** The number of occurrences of `c` in `s`. */
  function Occurrences(s: string, c: char): nat {
    if s == [] then 0 else (if s[0] == c then 1 else 0) + Occurrences(s[1..], c)
  }

  /** Counting occurrences distributes over concatenation. */
  lemma {:induction false} OccurrencesConcat(a: string, b: string, c: char)
    ensures Occurrences(a + b, c) == Occurrences(a, c) + Occurrences(b, c)
  {
    if a == [] {
      assert a + b == b;
    } else {
      assert (a + b)[1..] == a[1..] + b;
      OccurrencesConcat(a[1..], b, c);
    }
  }

  /** `c` occurs in `s` exactly when it is counted at least once. */
  lemma {:induction false} OccurrencesPositive(s: string, c: char)
    ensures c in s <==> Occurrences(s, c) > 0
  {
    if s != [] {
      OccurrencesPositive(s[1..], c);
      assert s == [s[0]] + s[1..];
    }
  }

  /** `s.split(sep)`: the pieces of `s` between occurrences of `sep`. */
  function Split(s: string, sep: char): (parts: seq<string>)
    ensures |parts| == Occurrences(s, sep) + 1
    ensures forall i :: 0 <= i < |parts| ==> sep !in parts[i]
  {
    if s == [] then [""]
    else
      var rest := Split(s[1..], sep);
      if s[0] == sep then [""] + rest
      else
        var first := [s[0]] + rest[0];
        assert sep !in first;
        [first] + rest[1..]
  }

  /** `sep.join(parts)` */
  function Join(parts: seq<string>, sep: char): string {
    if |parts| == 0 then ""
    else if |parts| == 1 then parts[0]
    else parts[0] + [sep] + Join(parts[1..], sep)
  }

  /** Joining the pieces of a split gives back the original string. */
  lemma {:induction false} JoinSplit(s: string, sep: char)
    ensures Join(Split(s, sep), sep) == s
  {
    if s != [] {
      var rest := Split(s[1..], sep);
      JoinSplit(s[1..], sep);
      if s[0] == sep {
        assert Split(s, sep) == [""] + rest;
        assert ([""] + rest)[1..] == rest;
      } else {
        var first := [s[0]] + rest[0];
        assert Split(s, sep) == [first] + rest[1..];
        if |rest| > 1 {
          assert ([first] + rest[1..])[1..] == rest[1..];
          assert Join(rest, sep) == rest[0] + [sep] + Join(rest[1..], sep);
        }
        assert s == [s[0]] + s[1..];
      }
    }
  }

  /** A string without the separator splits into itself alone. */
  lemma {:induction false} SplitWithoutSeparator(t: string, sep: char)
    requires sep !in t
    ensures Split(t, sep) == [t]
  {
    if t != [] {
      assert sep !in t[1..] by {
        forall k | 0 <= k < |t[1..]| ensures t[1..][k] != sep { assert t[1..][k] == t[k + 1]; }
      }
      SplitWithoutSeparator(t[1..], sep);
      assert [t[0]] + t[1..] == t;
    }
  }

  /** Splitting at the first separator peels off the piece before it. */
  lemma {:induction false} SplitAtFirstSeparator(a: string, b: string, sep: char)
    requires sep !in a
    ensures Split(a + [sep] + b, sep) == [a] + Split(b, sep)
  {
    var s := a + [sep] + b;
    if a == [] {
      assert s[1..] == b;
    } else {
      assert s[1..] == a[1..] + [sep] + b;
      SplitAtFirstSeparator(a[1..], b, sep);
      assert [a[0]] + a[1..] == a;
    }
  }

  /** Splitting a join of separator-free pieces gives back the pieces. */
  lemma {:induction false} SplitJoin(parts: seq<string>, sep: char)
    requires |parts| >= 1
    requires forall i :: 0 <= i < |parts| ==> sep !in parts[i]
    ensures Split(Join(parts, sep), sep) == parts
  {
    if |parts| == 1 {
      SplitWithoutSeparator(parts[0], sep);
    } else {
      SplitJoin(parts[1..], sep);
      SplitAtFirstSeparator(parts[0], Join(parts[1..], sep), sep);
      assert [parts[0]] + parts[1..] == parts;
    }
  }

  /** Joining a concatenation puts one separator between the two joins. */
  lemma {:induction false} JoinConcat(a: seq<string>, b: seq<string>, sep: char)
    requires |a| >= 1 && |b| >= 1
    ensures Join(a + b, sep) == Join(a, sep) + [sep] + Join(b, sep)
  {
    assert (a + b)[0] == a[0];
    if |a| == 1 {
      assert (a + b)[1..] == b;
    } else {
      assert (a + b)[1..] == a[1..] + b;
      JoinConcat(a[1..], b, sep);
    }
  }

  /**
   * `d` is the last two dot-labels of `h`: a suffix of `h` with exactly one dot,
   * that is either all of `h` or starts right after a dot of `h`.
   */
  predicate IsLastTwoLabels(h: string, d: string) {
    && |d| <= |h| && h[|h| - |d|..] == d
    && Occurrences(d, '.') == 1
    && (|d| == |h| || h[|h| - |d| - 1] == '.')
  }

  /** `".".join(h.split(".")[-2:])` for a host name with at least one dot. */
  function LastTwoLabels(h: string): string
    requires '.' in h
  {
    OccurrencesPositive(h, '.');
    var parts := Split(h, '.');
    Join(parts[|parts| - 2..], '.')
  }

  /** The two labels, joined by their dot, are what `LastTwoLabels` returns. */
  lemma LastTwoLabelsShape(h: string)
    requires '.' in h
    ensures var parts := Split(h, '.');
      && |parts| >= 2
      && LastTwoLabels(h) == parts[|parts| - 2] + ['.'] + parts[|parts| - 1]
  {
    OccurrencesPositive(h, '.');
    var parts := Split(h, '.');
    var n := |parts|;
    var tail := parts[n - 2..];
    assert |tail| == 2 && tail[0] == parts[n - 2] && tail[1..] == [parts[n - 1]];
    assert Join(tail[1..], '.') == parts[n - 1];
  }

  /** A dot between two dot-free labels is the only dot. */
  lemma OneDot(x: string, y: string)
    requires '.' !in x && '.' !in y
    ensures Occurrences(x + ['.'] + y, '.') == 1
  {
    OccurrencesPositive(x, '.');
    OccurrencesPositive(y, '.');
    OccurrencesConcat(x + ['.'], y, '.');
    OccurrencesConcat(x, ['.'], '.');
  }

  lemma LastTwoLabelsSpec(h: string)
    requires '.' in h
    ensures IsLastTwoLabels(h, LastTwoLabels(h))
  {
    LastTwoLabelsShape(h);
    var parts := Split(h, '.');
    var n := |parts|;
    var d := LastTwoLabels(h);
    OneDot(parts[n - 2], parts[n - 1]);
    JoinSplit(h, '.');
    if n > 2 {
      var tail := parts[n - 2..];
      JoinConcat(parts[..n - 2], tail, '.');
      assert parts[..n - 2] + tail == parts;
      assert Join(tail, '.') == d;
      assert h == Join(parts[..n - 2], '.') + ['.'] + d;
    } else {
      assert Join(parts, '.') == d;
    }
  }

  /** An occurrence of `p` at any offset makes `p in s` true. */
  lemma {:induction false} HasSubstringAt(s: string, p: string, i: nat)
    requires i <= |s| && StartsWith(s[i..], p)
    ensures HasSubstring(s, p)
    decreases i
  {
    if i > 0 {
      assert s[1..][i - 1..] == s[i..];
      HasSubstringAt(s[1..], p, i - 1);
    } else {
      assert s[0..] == s;
    }
  }

  /** A string that neither starts nor ends with whitespace is its own strip. */
  lemma StripUnpadded(s: string)
    requires s != "" ==> !IsSpace(s[0]) && !IsSpace(s[|s| - 1])
    ensures Strip(s) == s
  {
    assert LeadingSpaces(s) == 0;
    assert s[0..] == s;
    assert TrailingSpaces(s) == 0;
  }

  /** Lowering a string without upper-case letters changes nothing. */
  lemma LowerOfLowerCased(s: string)
    requires IsLowerCased(s)
    ensures Lower(s) == s
  {
  }

  /** Upper-casing a string without lower-case letters changes nothing. */
  lemma UpperOfUpperCased(s: string)
    requires IsUpperCased(s)
    ensures Upper(s) == s
  {
  }

  /** `p in s` is false when the first character of `p` never occurs in `s`. */
  lemma {:induction false} NoSubstringWithoutItsFirstChar(s: string, p: string)
    requires p != [] && p[0] !in s
    ensures !HasSubstring(s, p)
    decreases |s|
  {
    if |s| > 0 {
      assert s[1..] <= s[1..] && forall k :: 0 <= k < |s[1..]| ==> s[1..][k] == s[k + 1];
      NoSubstringWithoutItsFirstChar(s[1..], p);
    }
  }
}
