/**
 * The part of Kotlin's string library that the application relies on.
 * Whitespace and case are the ASCII ones: `isWhitespace` is space, tab, line feed,
 * vertical tab, form feed, carriage return and the separators U+001C..U+001F, and
 * `lowercase` maps 'A'..'Z' only.
 */
module Text {
  import opened Wrappers

  predicate IsWhitespace(c: char) {
    c == ' ' || '\t' <= c <= '\r' || '\U{001C}' <= c <= '\U{001F}'
  }

  /**
   * Regex `\s` as Java's pattern engine defines it: space, tab, line feed, vertical tab, form
   * feed and carriage return. Unlike `isWhitespace` it leaves out U+001C..U+001F.
   */
  predicate IsRegexSpace(c: char) {
    c == ' ' || '\t' <= c <= '\r'
  }

  lemma RegexSpaceIsWhitespace(c: char)
    ensures IsRegexSpace(c) ==> IsWhitespace(c)
    ensures !IsRegexSpace('\U{001C}') && IsWhitespace('\U{001C}')
  {
  }

  predicate IsDigit(c: char) { '0' <= c <= '9' }

  predicate IsAsciiLetter(c: char) { 'a' <= c <= 'z' || 'A' <= c <= 'Z' }

  predicate AllDigits(s: string) { forall i :: 0 <= i < |s| ==> IsDigit(s[i]) }

  /** `isBlank()`: empty or whitespace only. */
  predicate IsBlank(s: string) { forall i :: 0 <= i < |s| ==> IsWhitespace(s[i]) }

  /** `ifBlank { default }` with a non-blank default. */
  function IfBlank(s: string, default: string): (r: string)
    requires !IsBlank(default)
    ensures !IsBlank(r)
    ensures IsBlank(s) ==> r == default
    ensures !IsBlank(s) ==> r == s
  {
    if IsBlank(s) then default else s
  }

  /** `isNullOrBlank()`. */
  predicate IsNullOrBlank(s: Option<string>) { s.None? || IsBlank(s.value) }

  /** `orIfBlank(default)`: a null or blank text becomes the default. */
  function OrIfBlank(s: Option<string>, default: string): (r: string)
    ensures IsNullOrBlank(s) ==> r == default
    ensures !IsNullOrBlank(s) ==> r == s.value
  {
    if IsNullOrBlank(s) then default else s.value
  }

  function LowerChar(c: char): char {
    if 'A' <= c <= 'Z' then (c as int + 32) as char else c
  }

  /** `lowercase()`. */
  function Lower(s: string): (r: string)
    ensures |r| == |s|
    ensures forall i :: 0 <= i < |s| ==> r[i] == LowerChar(s[i])
  {
    if s == [] then [] else [LowerChar(s[0])] + Lower(s[1..])
  }

  lemma LowerConcat(a: string, b: string)
    ensures Lower(a + b) == Lower(a) + Lower(b)
  {
    var l, r := Lower(a + b), Lower(a) + Lower(b);
    forall i | 0 <= i < |l| ensures l[i] == r[i] {
      if i < |a| {
        assert (a + b)[i] == a[i];
      } else {
        assert (a + b)[i] == b[i - |a|];
      }
    }
  }

  lemma LowerIdempotent(s: string)
    ensures Lower(Lower(s)) == Lower(s)
  {
    var l := Lower(s);
    assert forall i :: 0 <= i < |l| ==> LowerChar(l[i]) == l[i];
  }

  /** Lowercasing neither makes nor unmakes whitespace. */
  lemma LowerBlank(s: string)
    ensures IsBlank(Lower(s)) <==> IsBlank(s)
  {
    assert forall i :: 0 <= i < |s| ==> (IsWhitespace(Lower(s)[i]) <==> IsWhitespace(s[i]));
  }

  /** Text without capitals is its own lowercase. */
  lemma LowerNoUpper(s: string)
    requires forall i :: 0 <= i < |s| ==> !('A' <= s[i] <= 'Z')
    ensures Lower(s) == s
  {
  }

  function TrimStart(s: string): (r: string)
    ensures |r| <= |s| && r == s[|s| - |r|..]
    ensures r == [] || !IsWhitespace(r[0])
    ensures forall i :: 0 <= i < |s| - |r| ==> IsWhitespace(s[i])
  {
    if s != [] && IsWhitespace(s[0]) then TrimStart(s[1..]) else s
  }

  function TrimEnd(s: string): (r: string)
    ensures |r| <= |s| && r == s[..|r|]
    ensures r == [] || !IsWhitespace(r[|r| - 1])
    ensures forall i :: |r| <= i < |s| ==> IsWhitespace(s[i])
  {
    if s != [] && IsWhitespace(s[|s| - 1]) then TrimEnd(s[..|s| - 1]) else s
  }

  /** `trim()`: no whitespace at either end. */
  function Trim(s: string): (r: string)
    ensures |r| <= |s|
    ensures r == [] || (!IsWhitespace(r[0]) && !IsWhitespace(r[|r| - 1]))
    ensures exists k :: 0 <= k <= |s| - |r| && OccursAt(s, r, k)
  {
    var t := TrimStart(s);
    var r := TrimEnd(t);
    assert OccursAt(s, r, |s| - |t|);
    r
  }

  /** Trimming adds no character. */
  lemma TrimKeepsAbsent(s: string, c: char)
    requires c !in s
    ensures c !in Trim(s)
  {
    var t := TrimStart(s);
    assert forall x :: x in t ==> x in s;
    var r := TrimEnd(t);
    assert forall x :: x in r ==> x in t;
  }

  lemma TrimBlank(s: string)
    ensures Trim(s) == [] <==> IsBlank(s)
  {
    var t := TrimStart(s);
    if t != [] {
      assert !IsWhitespace(s[|s| - |t|]);
      assert TrimEnd(t) != [] by {
        assert !IsWhitespace(t[0]);
      }
    }
  }

  lemma TrimOfTrimmed(s: string)
    requires s == [] || (!IsWhitespace(s[0]) && !IsWhitespace(s[|s| - 1]))
    ensures Trim(s) == s
  {
  }

  lemma TrimIdempotent(s: string)
    ensures Trim(Trim(s)) == Trim(s)
  {
    TrimOfTrimmed(Trim(s));
  }

  /** `s.startsWith(p)`. */
  predicate StartsWith(s: string, p: string) { |p| <= |s| && s[..|p|] == p }

  /** `s.endsWith(p)`. */
  predicate EndsWith(s: string, p: string) { |p| <= |s| && s[|s| - |p|..] == p }

  /** sub occurs in s at position i. */
  predicate OccursAt(s: string, sub: string, i: int)
  {
    0 <= i && i + |sub| <= |s| && s[i..i + |sub|] == sub
  }

  /** `s.contains(sub)`: sub occurs at some position of s. */
  predicate Contains(s: string, sub: string)
  {
    exists i :: 0 <= i <= |s| - |sub| && OccursAt(s, sub, i)
  }

  predicate ContainsChar(s: string, c: char) { c in s }

  /** `lastIndexOf(c)`: the last position holding c, or -1. */
  function LastIndexOf(s: string, c: char): (r: int)
    ensures -1 <= r < |s|
    ensures r >= 0 ==> s[r] == c
    ensures forall i :: r < i < |s| ==> s[i] != c
  {
    if s == [] then -1
    else if s[|s| - 1] == c then |s| - 1
    else LastIndexOf(s[..|s| - 1], c)
  }

  lemma LastIndexOfNone(s: string, c: char)
    ensures LastIndexOf(s, c) == -1 <==> c !in s
  {
    var r := LastIndexOf(s, c);
    if c in s {
      var k :| 0 <= k < |s| && s[k] == c;
      assert r >= k;
    }
  }

  /**
   * The text after the last '.', present only when s has a dot that is not its last character
   * (the `lastIndexOf('.')` / `substring(dot + 1)` rule shared by several file-name helpers).
   */
  function ExtensionAfterLastDot(s: string): (r: Option<string>)
    ensures r.Some? ==> r.value != [] && '.' !in r.value && EndsWith(s, "." + r.value)
    ensures r.None? <==> '.' !in s || s[|s| - 1] == '.'
  {
    LastIndexOfNone(s, '.');
    var dot := LastIndexOf(s, '.');
    if dot != -1 && dot < |s| - 1 then
      assert s[dot..] == "." + s[dot + 1..];
      Some(s[dot + 1..])
    else None
  }

  /** `indexOf(c)`: the first position holding c, or -1. */
  function IndexOf(s: string, c: char): (r: int)
    ensures -1 <= r < |s|
    ensures r >= 0 ==> s[r] == c
    ensures forall i :: 0 <= i < |s| && (r == -1 || i < r) ==> s[i] != c
  {
    if s == [] then -1
    else if s[0] == c then 0
    else var k := IndexOf(s[1..], c); if k == -1 then -1 else k + 1
  }

  /** `substringAfterLast(c, missing)`. */
  function SubstringAfterLast(s: string, c: char, missing: string): (r: string)
    ensures c !in s ==> r == missing
    ensures c in s ==> c !in r && exists k :: 0 <= k < |s| && s[k] == c && r == s[k + 1..]
  {
    LastIndexOfNone(s, c);
    var k := LastIndexOf(s, c);
    if k == -1 then missing else s[k + 1..]
  }

  /** `substringBefore(c, missing)`: the text before the first c. */
  function SubstringBefore(s: string, c: char, missing: string): (r: string)
    ensures c !in s ==> r == missing
    ensures c in s ==> c !in r && StartsWith(s, r + [c])
  {
    var k := IndexOf(s, c);
    if k == -1 then missing else s[..k]
  }

  /** `substringBeforeLast(c)`: the text before the last c, or s itself. */
  function SubstringBeforeLast(s: string, c: char): (r: string)
    ensures StartsWith(s, r)
    ensures c !in s ==> r == s
  {
    LastIndexOfNone(s, c);
    var k := LastIndexOf(s, c);
    if k == -1 then s else s[..k]
  }

  /** `split(c)`: the pieces between occurrences of c; never an empty list. */
  function Split(s: string, c: char): (r: seq<string>)
    ensures |r| >= 1
    ensures forall i :: 0 <= i < |r| ==> c !in r[i]
    decreases |s|
  {
    var k := IndexOf(s, c);
    if k == -1 then [s] else [s[..k]] + Split(s[k + 1..], c)
  }

  predicate NoRegexSpace(s: string) { forall i :: 0 <= i < |s| ==> !IsRegexSpace(s[i]) }

  /** The index of the first character of s that regex `\s` matches, or -1. */
  function RegexSpaceIndex(s: string): (r: int)
    ensures -1 <= r < |s|
    ensures r == -1 ==> forall i :: 0 <= i < |s| ==> !IsRegexSpace(s[i])
    ensures r >= 0 ==> IsRegexSpace(s[r]) && forall i :: 0 <= i < r ==> !IsRegexSpace(s[i])
  {
    if s == [] then -1
    else if IsRegexSpace(s[0]) then 0
    else var k := RegexSpaceIndex(s[1..]); if k == -1 then -1 else k + 1
  }

  /** s without the run of `\s` characters it starts with. */
  function DropRegexSpace(s: string): (r: string)
    ensures |r| <= |s| && r == s[|s| - |r|..]
    ensures r == [] || !IsRegexSpace(r[0])
  {
    if s != [] && IsRegexSpace(s[0]) then DropRegexSpace(s[1..]) else s
  }

  /**
   * `split(Regex("\\s+"))`: the pieces between runs of `\s` characters. A run at the start or
   * the end gives an empty first or last piece; no piece holds a `\s` character.
   */
  function SplitWhitespace(s: string): (r: seq<string>)
    ensures |r| >= 1
    ensures forall i :: 0 <= i < |r| ==> NoRegexSpace(r[i])
    decreases |s|
  {
    var k := RegexSpaceIndex(s);
    if k == -1 then [s]
    else
      var head := s[..k];
      assert NoRegexSpace(head) by {
        forall i | 0 <= i < |head| ensures !IsRegexSpace(head[i]) { assert head[i] == s[i]; }
      }
      var rest := SplitWhitespace(DropRegexSpace(s[k + 1..]));
      PiecesNoRegexSpace(head, rest);
      [head] + rest
  }

  lemma PiecesNoRegexSpace(head: string, rest: seq<string>)
    requires NoRegexSpace(head)
    requires forall i :: 0 <= i < |rest| ==> NoRegexSpace(rest[i])
    ensures forall i :: 0 <= i < |[head] + rest| ==> NoRegexSpace(([head] + rest)[i])
  {
  }

  /** A text without `\s` characters is one piece. */
  lemma SplitOfWord(w: string)
    requires NoRegexSpace(w)
    ensures SplitWhitespace(w) == [w]
  {
    if RegexSpaceIndex(w) >= 0 {
      assert false;
    }
  }

  /** A file separator U+001C is not `\s`, so it stays inside its word. */
  lemma SplitKeepsFileSeparator(a: string, b: string)
    requires NoRegexSpace(a) && NoRegexSpace(b)
    ensures SplitWhitespace(a + "\U{001C}" + b) == [a + "\U{001C}" + b]
  {
    var w := a + "\U{001C}" + b;
    assert NoRegexSpace(w) by {
      forall i | 0 <= i < |w| ensures !IsRegexSpace(w[i]) {
        if i < |a| { assert w[i] == a[i]; }
        else if i > |a| { assert w[i] == b[i - |a| - 1]; }
      }
    }
    SplitOfWord(w);
  }

  /** The first piece of `split(c)` is the text before the first c, or all of s. */
  lemma SplitFirst(s: string, c: char)
    ensures Split(s, c)[0] == SubstringBefore(s, c, s)
  {
  }

  /** `joinToString(sep)`. */
  function Join(parts: seq<string>, sep: string): string
  {
    if parts == [] then "" else if |parts| == 1 then parts[0] else parts[0] + sep + Join(parts[1..], sep)
  }

  /** Joining the pieces of `split(c)` with c gives the text back. */
  lemma {:induction false} JoinSplit(s: string, c: char)
    ensures Join(Split(s, c), [c]) == s
    decreases |s|
  {
    var k := IndexOf(s, c);
    if k != -1 {
      var rest := Split(s[k + 1..], c);
      JoinSplit(s[k + 1..], c);
      JoinCons(s[..k], [c], rest);
      assert s == s[..k] + [c] + s[k + 1..];
    }
  }

  lemma JoinCons(a: string, sep: string, rest: seq<string>)
    requires rest != []
    ensures Join([a] + rest, sep) == a + sep + Join(rest, sep)
  {
    assert ([a] + rest)[1..] == rest;
  }

  lemma IndexOfFirst(a: string, c: char, b: string)
    requires c !in a
    ensures IndexOf(a + [c] + b, c) == |a|
  {
    if a != [] {
      assert (a + [c] + b)[1..] == a[1..] + [c] + b;
      IndexOfFirst(a[1..], c, b);
    }
  }

  lemma SplitNone(a: string, c: char)
    requires c !in a
    ensures Split(a, c) == [a]
  {
  }

  /** Splitting at the first separator peels off the text before it. */
  lemma SplitCons(a: string, c: char, b: string)
    requires c !in a
    ensures Split(a + [c] + b, c) == [a] + Split(b, c)
  {
    var s := a + [c] + b;
    IndexOfFirst(a, c, b);
    assert s[..|a|] == a;
    assert s[|a| + 1..] == b;
  }

  /** Keeps the characters that satisfy `keep`, as `replace(Regex("[^…]"), "")`. */
  function Filter(s: string, keep: char -> bool): (r: string)
    ensures |r| <= |s|
    ensures forall i :: 0 <= i < |r| ==> keep(r[i])
    ensures (forall i :: 0 <= i < |s| ==> keep(s[i])) ==> r == s
  {
    if s == [] then []
    else if keep(s[0]) then [s[0]] + Filter(s[1..], keep)
    else Filter(s[1..], keep)
  }

  lemma {:induction false} FilterConcat(a: string, b: string, keep: char -> bool)
    ensures Filter(a + b, keep) == Filter(a, keep) + Filter(b, keep)
    decreases |a|
  {
    if a == [] {
      assert a + b == b;
    } else {
      assert (a + b)[0] == a[0];
      assert (a + b)[1..] == a[1..] + b;
      FilterConcat(a[1..], b, keep);
    }
  }

  lemma {:induction false} FilterIdempotent(s: string, keep: char -> bool)
    ensures Filter(Filter(s, keep), keep) == Filter(s, keep)
  {
  }

  /** Replaces every character that fails `keep` by `subst`, as `replace(Regex("[^…]"), "_")`. */
  function MapNot(s: string, keep: char -> bool, subst: char): (r: string)
    ensures |r| == |s|
    ensures forall i :: 0 <= i < |s| ==> r[i] == (if keep(s[i]) then s[i] else subst)
  {
    if s == [] then [] else [if keep(s[0]) then s[0] else subst] + MapNot(s[1..], keep, subst)
  }

  /** `replace(old, new)` for a single character `old`. */
  function ReplaceChar(s: string, c: char, rep: string): (r: string)
    ensures c !in s ==> r == s
  {
    if s == [] then [] else (if s[0] == c then rep else [s[0]]) + ReplaceChar(s[1..], c, rep)
  }

  lemma {:induction false} ReplaceCharRemoves(s: string, c: char, rep: string, d: char)
    requires c !in rep
    ensures d in ReplaceChar(s, c, rep) <==> (d != c && d in s) || (d in rep && c in s)
  {
    if s != [] {
      ReplaceCharRemoves(s[1..], c, rep, d);
      assert ReplaceChar(s, c, rep) == (if s[0] == c then rep else [s[0]]) + ReplaceChar(s[1..], c, rep);
      assert s == [s[0]] + s[1..];
    }
  }

  function DigitChar(d: nat): char
    requires d < 10
  {
    ('0' as int + d) as char
  }

  function DigitValue(c: char): nat
    requires IsDigit(c)
  {
    c as int - '0' as int
  }

  /** `toString()` of a non-negative number. */
  function NatToString(n: nat): (r: string)
    ensures |r| >= 1 && AllDigits(r)
    ensures (r[0] == '0') <==> n == 0
    decreases n
  {
    if n < 10 then [DigitChar(n)] else NatToString(n / 10) + [DigitChar(n % 10)]
  }

  /** The value of a string of decimal digits. */
  function DigitsValue(s: string): nat
    requires AllDigits(s)
  {
    if s == [] then 0 else DigitsValue(s[..|s| - 1]) * 10 + DigitValue(s[|s| - 1])
  }

  lemma {:induction false} NatToStringValue(n: nat)
    ensures DigitsValue(NatToString(n)) == n
    decreases n
  {
    if n >= 10 {
      NatToStringValue(n / 10);
      var s := NatToString(n);
      assert s[..|s| - 1] == NatToString(n / 10);
    }
  }

  /** `toString()` of an integer. */
  function IntToString(i: int): (r: string)
    ensures |r| >= 1
  {
    if i < 0 then "-" + NatToString(-i) else NatToString(i)
  }

  /** `padStart(width, pad)`. */
  function PadStart(s: string, width: nat, pad: char): (r: string)
    ensures |r| == if |s| >= width then |s| else width
    ensures EndsWith(r, s)
    ensures forall i :: 0 <= i < |r| - |s| ==> r[i] == pad
  {
    if |s| >= width then s else seq(width - |s|, _ => pad) + s
  }

  /** The number of decimal digits of n. */
  function DigitCount(n: nat): (r: nat)
    ensures r >= 1
  {
    if n < 10 then 1 else 1 + DigitCount(n / 10)
  }

  lemma {:induction false} NatToStringLength(n: nat)
    ensures |NatToString(n)| == DigitCount(n)
    decreases n
  {
    if n >= 10 {
      NatToStringLength(n / 10);
    }
  }

  lemma {:induction false} DigitsValueLeadingZeros(z: nat, s: string)
    requires AllDigits(s)
    ensures AllDigits(seq(z, _ => '0') + s)
    ensures DigitsValue(seq(z, _ => '0') + s) == DigitsValue(s)
    decreases |s|
  {
    var zs: string := seq(z, _ => '0');
    if s == [] {
      assert zs + s == zs;
      ZerosValue(z);
    } else {
      var init := s[..|s| - 1];
      DigitsValueLeadingZeros(z, init);
      assert (zs + s)[..|zs + s| - 1] == zs + init;
    }
  }

  lemma {:induction false} ZerosValue(z: nat)
    ensures AllDigits(seq(z, _ => '0'))
    ensures DigitsValue(seq(z, _ => '0')) == 0
    decreases z
  {
    if z > 0 {
      ZerosValue(z - 1);
      assert seq(z, _ => '0')[..z - 1] == seq(z - 1, _ => '0');
    }
  }

  /** A number padded with leading zeros still denotes the number. */
  lemma PaddedNumberValue(n: nat, width: nat)
    ensures var t := PadStart(NatToString(n), width, '0');
      AllDigits(t) && DigitsValue(t) == n
  {
    var s := NatToString(n);
    NatToStringValue(n);
    if |s| < width {
      DigitsValueLeadingZeros(width - |s|, s);
      assert PadStart(s, width, '0') == seq(width - |s|, _ => '0') + s;
    }
  }

  const IntMin: int := -0x8000_0000
  const IntMax: int := 0x7FFF_FFFF

  /**
   * Kotlin's `toInt()` / `toIntOrNull()` in radix 10: an optional '+' or '-' sign, then at
   * least one digit, and a value that fits in 32 bits; None where `toInt()` throws.
   */
  function ParseInt(s: string): (r: Option<int>)
    ensures r.Some? ==> IntMin <= r.value <= IntMax
  {
    if s == [] then None
    else if s[0] == '-' || s[0] == '+' then
      var body := s[1..];
      if body == [] || !AllDigits(body) then None
      else
        var v: int := if s[0] == '-' then -(DigitsValue(body) as int) else DigitsValue(body);
        if IntMin <= v <= IntMax then Some(v) else None
    else if !AllDigits(s) then None
    else if DigitsValue(s) <= IntMax then Some(DigitsValue(s)) else None
  }

  lemma ParseIntToString(i: int)
    requires IntMin <= i <= IntMax
    ensures ParseInt(IntToString(i)) == Some(i)
  {
    if i < 0 {
      NatToStringValue(-i);
      assert IntToString(i)[1..] == NatToString(-i);
    } else {
      NatToStringValue(i);
    }
  }

  /** `equals(other, ignoreCase = true)`. */
  predicate EqualsIgnoreCase(a: string, b: string) { Lower(a) == Lower(b) }
}
