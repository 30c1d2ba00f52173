/**
 * Attachment upload helpers (utils/Uploader.kt): file-name cleaning, numbering of duplicate
 * display names, the sequential upload loop and its per-file retry. Storage calls are
 * parameters: `upload(path, uri)` is the outcome of uploading one file, and
 * `attemptOutcome(a)` the outcome of attempt number a.
 */
module Uploader {
  import opened Wrappers
  import opened Text
  import LinkedMap

  // ---------------------------------------------------------------------------
  // sanitizeFilename
  // ---------------------------------------------------------------------------

  /** `[a-zA-Z0-9 _-]`. */
  predicate IsNameChar(c: char) { IsAsciiLetter(c) || IsDigit(c) || c == ' ' || c == '_' || c == '-' }

  predicate NoDoubleSpace(s: string)
  {
    forall i :: 0 <= i < |s| - 1 ==> !(s[i] == ' ' && s[i + 1] == ' ')
  }

  /** A cleaned name part: only name characters, single spaces, none at either end, never empty. */
  predicate IsCleanName(s: string)
  {
    s != [] && (forall i :: 0 <= i < |s| ==> IsNameChar(s[i])) && NoDoubleSpace(s)
    && s[0] != ' ' && s[|s| - 1] != ' '
  }

  /** `replace("\\s+".toRegex(), " ")`. */
  function CollapseWhitespace(s: string): (r: string)
    ensures r == [] <==> s == []
    ensures s != [] && !IsWhitespace(s[0]) ==> r[0] == s[0]
    ensures forall c :: c in r ==> c == ' ' || (c in s && !IsWhitespace(c))
    ensures NoDoubleSpace(r)
    decreases |s|
  {
    if s == [] then []
    else if IsWhitespace(s[0]) then
      var t := TrimStart(s);
      assert |t| < |s|;
      assert forall c :: c in t ==> c in s;
      [' '] + CollapseWhitespace(t)
    else
      assert forall c :: c in s[1..] ==> c in s;
      [s[0]] + CollapseWhitespace(s[1..])
  }

  /** Only name characters: letters, digits, ' ', '_' and '-'. */
  predicate AllNameChars(s: string)
  {
    forall i :: 0 <= i < |s| ==> IsNameChar(s[i])
  }

  lemma CleanedChars(namePart: string)
    ensures AllNameChars(CollapseWhitespace(MapNot(namePart, IsNameChar, '_')))
  {
    var replaced := MapNot(namePart, IsNameChar, '_');
    var collapsed := CollapseWhitespace(replaced);
    forall i | 0 <= i < |collapsed| ensures IsNameChar(collapsed[i]) {
      assert collapsed[i] in collapsed;
      if collapsed[i] != ' ' {
        var k :| 0 <= k < |replaced| && replaced[k] == collapsed[i];
      }
    }
  }

  /** A substring keeps the name characters and the single spacing. */
  lemma SliceKeepsClean(s: string, t: string, k: int)
    requires OccursAt(s, t, k)
    requires forall i :: 0 <= i < |s| ==> IsNameChar(s[i])
    requires NoDoubleSpace(s)
    ensures forall i :: 0 <= i < |t| ==> IsNameChar(t[i])
    ensures NoDoubleSpace(t)
  {
    forall i | 0 <= i < |t| ensures t[i] == s[k + i] {
      assert t == s[k..k + |t|];
    }
  }

  /**
   * The cleaned name part: characters outside `[a-zA-Z0-9 _-]` become '_', whitespace runs
   * become one space, then trimmed, and "file" when blank.
   */
  function CleanNamePart(namePart: string): (r: string)
    ensures IsCleanName(r)
  {
    var trimmed := Cleaned(namePart);
    TrimmedCleanedFacts(namePart);
    FileIsClean();
    if IsBlank(trimmed) then "file" else trimmed
  }

  /** The name part after the replacements and the trim, before the "file" fallback. */
  function Cleaned(namePart: string): string
  {
    Trim(CollapseWhitespace(MapNot(namePart, IsNameChar, '_')))
  }

  lemma FileIsClean()
    ensures IsCleanName("file")
  {
    var f := "file";
    assert f == ['f', 'i', 'l', 'e'];
    assert forall i :: 0 <= i < |f| ==> IsAsciiLetter(f[i]);
  }

  lemma TrimmedCleanedFacts(namePart: string)
    ensures AllNameChars(Cleaned(namePart))
    ensures NoDoubleSpace(Cleaned(namePart))
    ensures !IsBlank(Cleaned(namePart)) ==>
      Cleaned(namePart) != [] && Cleaned(namePart)[0] != ' ' && Cleaned(namePart)[|Cleaned(namePart)| - 1] != ' '
  {
    var collapsed := CollapseWhitespace(MapNot(namePart, IsNameChar, '_'));
    var trimmed := Trim(collapsed);
    CleanedChars(namePart);
    var k :| 0 <= k <= |collapsed| - |trimmed| && OccursAt(collapsed, trimmed, k);
    SliceKeepsClean(collapsed, trimmed, k);
  }

  /** The input trimmed, or "file" when blank. */
  function TrimmedOrFile(original: string): (r: string)
    ensures r != []
  {
    var t := Trim(original);
    if IsBlank(t) then "file" else t
  }

  /** The extension kept by sanitizeFilename: from the last '.', when that dot is not the first character. */
  function FilenameExtension(original: string): (ext: string)
    ensures ext == [] || (ext[0] == '.' && '.' !in ext[1..])
    ensures ext != [] ==> EndsWith(TrimmedOrFile(original), ext) && |ext| < |TrimmedOrFile(original)|
  {
    var t := TrimmedOrFile(original);
    var dot := LastIndexOf(t, '.');
    if dot > 0 then
      AfterLastIndexOf(t, '.');
      t[dot..]
    else []
  }

  lemma AfterLastIndexOf(s: string, c: char)
    requires LastIndexOf(s, c) >= 0
    ensures c !in s[LastIndexOf(s, c) + 1..]
  {
    var k := LastIndexOf(s, c);
    var t := s[k + 1..];
    forall i | 0 <= i < |t| ensures t[i] != c {
      assert t[i] == s[k + 1 + i];
    }
  }

  /** `sanitizeFilename`: a clean name part followed by the kept extension. */
  function SanitizeFilename(original: string): (r: string)
    ensures EndsWith(r, FilenameExtension(original))
    ensures IsCleanName(r[..|r| - |FilenameExtension(original)|])
    ensures IsBlank(original) ==> r == "file"
  {
    var t := TrimmedOrFile(original);
    var extPart := FilenameExtension(original);
    // the name part is everything before the kept extension
    var namePart := t[..|t| - |extPart|];
    ConcatParts(CleanNamePart(namePart), extPart);
    BlankIsFile(original);
    CleanNamePart(namePart) + extPart
  }

  lemma ConcatParts(a: string, b: string)
    ensures EndsWith(a + b, b) && (a + b)[..|a + b| - |b|] == a
  {
    assert (a + b)[|a|..] == b;
    assert (a + b)[..|a|] == a;
  }

  /** A blank input is named "file", with no extension. */
  lemma BlankIsFile(original: string)
    ensures IsBlank(original) ==>
      var t := TrimmedOrFile(original);
      FilenameExtension(original) == [] && t[..|t|] == "file" && CleanNamePart("file") + [] == "file"
  {
    if IsBlank(original) {
      TrimBlank(original);
      var t := TrimmedOrFile(original);
      assert t == "file";
      assert LastIndexOf(t, '.') == -1 by {
        assert forall i :: 0 <= i < |t| ==> t[i] != '.';
        LastIndexOfNone(t, '.');
      }
      FileIsClean();
      CleanNameFixed("file");
      assert CleanNamePart("file") + [] == CleanNamePart("file");
    }
  }

  /** Only a space can be whitespace in a clean name. */
  lemma {:induction false} CollapseOfClean(s: string)
    requires AllNameChars(s)
    requires NoDoubleSpace(s)
    ensures CollapseWhitespace(s) == s
    decreases |s|
  {
    if s != [] {
      TailClean(s);
      CollapseOfClean(s[1..]);
      CollapseHead(s);
      assert [s[0]] + s[1..] == s;
    }
  }

  /** On clean text the collapse keeps the first character and goes on with the rest. */
  lemma CollapseHead(s: string)
    requires s != [] && AllNameChars(s) && NoDoubleSpace(s)
    ensures CollapseWhitespace(s) == [s[0]] + CollapseWhitespace(s[1..])
  {
    if IsWhitespace(s[0]) {
      NameWhitespaceIsSpace(s[0]);
      if |s| > 1 {
        assert IsNameChar(s[1]);
        if IsWhitespace(s[1]) {
          NameWhitespaceIsSpace(s[1]);
          assert false;
        }
      }
      TrimStartOne(s);
    }
  }

  /** The only whitespace among the name characters is the space. */
  lemma NameWhitespaceIsSpace(c: char)
    requires IsNameChar(c) && IsWhitespace(c)
    ensures c == ' '
  {
  }

  /** Trimming text with one leading whitespace character drops just that character. */
  lemma TrimStartOne(s: string)
    requires s != [] && IsWhitespace(s[0])
    requires |s| == 1 || !IsWhitespace(s[1])
    ensures TrimStart(s) == s[1..]
  {
    var t := s[1..];
    if t != [] {
      assert !IsWhitespace(t[0]);
    }
  }

  /** The tail of a clean text is clean. */
  lemma TailClean(s: string)
    requires s != [] && AllNameChars(s) && NoDoubleSpace(s)
    ensures AllNameChars(s[1..]) && NoDoubleSpace(s[1..])
  {
    var tail := s[1..];
    forall i | 0 <= i < |tail| - 1 ensures !(tail[i] == ' ' && tail[i + 1] == ' ') {
      assert tail[i] == s[i + 1] && tail[i + 1] == s[i + 2];
    }
  }

  /** Cleaning a clean name changes nothing. */
  lemma CleanNameFixed(s: string)
    requires IsCleanName(s)
    ensures CleanNamePart(s) == s
  {
    assert MapNot(s, IsNameChar, '_') == s;
    CollapseOfClean(s);
    TrimOfTrimmed(s);
    assert !IsBlank(s) by {
      assert !IsWhitespace(s[0]) by { assert IsNameChar(s[0]) && s[0] != ' '; }
    }
  }

  /** A name without '.' keeps no extension, so it is cleaned as a whole. */
  lemma NoDotNoExtension(original: string)
    requires '.' !in original && !IsBlank(original)
    ensures FilenameExtension(original) == []
    ensures IsCleanName(SanitizeFilename(original))
  {
    NoDotTrimmed(original);
    LastIndexOfNone(TrimmedOrFile(original), '.');
    assert FilenameExtension(original) == [];
    var r := SanitizeFilename(original);
    assert r[..|r| - 0] == r;
  }

  /** Trimming a name without '.', or replacing it by "file", gives a name without '.'. */
  lemma NoDotTrimmed(original: string)
    requires '.' !in original
    ensures '.' !in TrimmedOrFile(original)
  {
    TrimKeepsAbsent(original, '.');
    if IsBlank(Trim(original)) {
      assert TrimmedOrFile(original) == "file";
      assert "file" == ['f', 'i', 'l', 'e'];
    } else {
      assert TrimmedOrFile(original) == Trim(original);
    }
  }

  // ---------------------------------------------------------------------------
  // makeDisplayNameUnique
  // ---------------------------------------------------------------------------

  /** How often x occurs in names. */
  function Occurrences(names: seq<string>, x: string): (n: nat)
    ensures n <= |names|
    ensures n == 0 <==> x !in names
  {
    if names == [] then 0
    else
      var init := names[..|names| - 1];
      assert forall y :: y in names <==> y in init || y == names[|names| - 1];
      Occurrences(init, x) + (if names[|names| - 1] == x then 1 else 0)
  }

  /** `" ($count)"`. */
  function CountSuffix(count: nat): string
  {
    " (" + NatToString(count) + ")"
  }

  /** The display name of entry i: its name on first occurrence, "name (k)" on its k-th occurrence. */
  function UniqueName(names: seq<string>, i: nat): string
    requires i < |names|
  {
    var count := Occurrences(names[..i + 1], names[i]);
    if count == 1 then names[i] else names[i] + CountSuffix(count)
  }

  /** Every pair with its display name made unique, in the same order with the same URIs. */
  function UniquePairs<U>(list: seq<(string, U)>): (r: seq<(string, U)>)
    ensures |r| == |list|
    ensures forall i :: 0 <= i < |list| ==> r[i].1 == list[i].1
  {
    seq(|list|, i requires 0 <= i < |list| => (UniqueName(LinkedMap.Keys(list), i), list[i].1))
  }

  method MakeDisplayNameUnique<U>(list: seq<(string, U)>) returns (r: seq<(string, U)>)
    ensures |r| == |list|
    ensures forall i :: 0 <= i < |list| ==> r[i].1 == list[i].1
    ensures r == UniquePairs(list)
  {
    ghost var names := LinkedMap.Keys(list);
    var seen: map<string, nat> := map[];
    r := [];
    var i := 0;
    while i < |list|
      invariant 0 <= i <= |list|
      invariant r == UniquePairs(list)[..i]
      invariant seen == CountMap(names[..i])
    {
      var name := list[i].0;
      var count := CountOf(seen, name) + 1;
      var display := Display(name, count);
      PairsStep(list, i, seen, r);
      SeenStep(list, i, seen);
      seen := seen[name := count];
      r := r + [(display, list[i].1)];
      i := i + 1;
    }
    assert UniquePairs(list)[..|list|] == UniquePairs(list);
  }

  /** `seen[name] ?: 0`. */
  function CountOf(seen: map<string, nat>, name: string): nat
  {
    if name in seen then seen[name] else 0
  }

  /** The map `seen` after the loop has passed over names: each name with its count so far. */
  function CountMap(names: seq<string>): map<string, nat>
  {
    if names == [] then map[]
    else
      var seen := CountMap(names[..|names| - 1]);
      var name := names[|names| - 1];
      seen[name := CountOf(seen, name) + 1]
  }

  /** The map counts the occurrences of every name. */
  lemma {:induction false} CountMapCounts(names: seq<string>, x: string)
    ensures CountOf(CountMap(names), x) == Occurrences(names, x)
    decreases |names|
  {
    if names != [] {
      CountMapCounts(names[..|names| - 1], x);
    }
  }

  /** One step of the loop: the map counts one more entry. */
  lemma SeenStep<U>(list: seq<(string, U)>, i: nat, seen: map<string, nat>)
    requires i < |list| && seen == CountMap(LinkedMap.Keys(list)[..i])
    ensures CountMap(LinkedMap.Keys(list)[..i + 1]) == seen[list[i].0 := CountOf(seen, list[i].0) + 1]
  {
    var names := LinkedMap.Keys(list);
    assert names[i] == list[i].0;
    CountMapStep(names, i);
  }

  /** One step of the loop: the pairs so far grow by entry i under its display name. */
  lemma PairsStep<U>(list: seq<(string, U)>, i: nat, seen: map<string, nat>, r: seq<(string, U)>)
    requires i < |list| && seen == CountMap(LinkedMap.Keys(list)[..i])
    requires r == UniquePairs(list)[..i]
    ensures r + [(Display(list[i].0, CountOf(seen, list[i].0) + 1), list[i].1)] == UniquePairs(list)[..i + 1]
  {
    DisplayStep(list, i, seen);
    UniquePairsStep(list, i);
  }

  /** One step of the loop: entry i gets its display name from the count so far. */
  lemma DisplayStep<U>(list: seq<(string, U)>, i: nat, seen: map<string, nat>)
    requires i < |list| && seen == CountMap(LinkedMap.Keys(list)[..i])
    ensures UniquePairs(list)[i] == (Display(list[i].0, CountOf(seen, list[i].0) + 1), list[i].1)
  {
    var names := LinkedMap.Keys(list);
    assert names[i] == list[i].0;
    UniqueNameStep(names, i);
    UniquePairsAt(list, i);
  }

  lemma CountMapStep(names: seq<string>, i: nat)
    requires i < |names|
    ensures CountMap(names[..i + 1]) == CountMap(names[..i])[names[i] := CountOf(CountMap(names[..i]), names[i]) + 1]
  {
    assert names[..i + 1] == names[..i] + [names[i]];
    CountMapSnoc(names[..i], names[i]);
  }

  /** The name shown for the count-th occurrence of name. */
  function Display(name: string, count: nat): string
  {
    if count == 1 then name else name + CountSuffix(count)
  }

  /** The display name of entry i from the count of its name among the entries before it. */
  lemma UniqueNameStep(names: seq<string>, i: nat)
    requires i < |names|
    ensures UniqueName(names, i) == Display(names[i], CountOf(CountMap(names[..i]), names[i]) + 1)
  {
    CountMapCounts(names[..i], names[i]);
    OccurrencesSnoc(names, i);
  }

  lemma CountMapSnoc(names: seq<string>, name: string)
    ensures CountMap(names + [name]) == CountMap(names)[name := CountOf(CountMap(names), name) + 1]
  {
    assert (names + [name])[..|names|] == names;
  }

  lemma UniquePairsStep<U>(list: seq<(string, U)>, i: nat)
    requires i < |list|
    ensures UniquePairs(list)[..i + 1] == UniquePairs(list)[..i] + [UniquePairs(list)[i]]
  {
    var u := UniquePairs(list);
    assert u[..i + 1] == u[..i] + [u[i]];
  }

  lemma UniquePairsAt<U>(list: seq<(string, U)>, i: nat)
    requires i < |list|
    ensures UniquePairs(list)[i] == (UniqueName(LinkedMap.Keys(list), i), list[i].1)
  {
  }

  lemma OccurrencesSnoc(names: seq<string>, i: nat)
    requires i < |names|
    ensures Occurrences(names[..i + 1], names[i]) == Occurrences(names[..i], names[i]) + 1
  {
    assert names[..i + 1][..i] == names[..i];
  }

  lemma OccurrencesGrow(names: seq<string>, i: nat, j: nat)
    requires i < j < |names| && names[i] == names[j]
    ensures Occurrences(names[..j + 1], names[j]) >= Occurrences(names[..i + 1], names[i]) + 1
  {
    var x := names[j];
    OccurrencesPrefixStep(names, j, x);
    OccurrencesAtLeast(names, i, j - 1, x);
  }

  lemma {:induction false} OccurrencesAtLeast(names: seq<string>, i: nat, j: nat, x: string)
    requires i <= j < |names|
    ensures Occurrences(names[..j + 1], x) >= Occurrences(names[..i + 1], x)
    decreases j
  {
    if i < j {
      OccurrencesAtLeast(names, i, j - 1, x);
      OccurrencesPrefixStep(names, j, x);
    }
  }

  lemma OccurrencesPrefixStep(names: seq<string>, j: nat, x: string)
    requires j < |names|
    ensures Occurrences(names[..j + 1], x) == Occurrences(names[..j], x) + (if names[j] == x then 1 else 0)
  {
    assert names[..j + 1][..j] == names[..j];
  }

  /** The first occurrence of a name keeps it unchanged. */
  lemma FirstOccurrenceUnchanged(names: seq<string>, i: nat)
    requires i < |names| && names[i] !in names[..i]
    ensures UniqueName(names, i) == names[i]
  {
    assert names[..i + 1][..i] == names[..i];
  }

  /** A repeated name gets the suffix " (k)" with k >= 2 its occurrence number. */
  lemma RepeatGetsSuffix(names: seq<string>, i: nat, j: nat)
    requires i < j < |names| && names[i] == names[j]
    ensures var k := Occurrences(names[..j + 1], names[j]);
      k >= 2 && UniqueName(names, j) == names[j] + CountSuffix(k)
  {
    OccurrencesGrow(names, i, j);
    assert names[i] in names[..i + 1];
  }

  /** The name and number of a string of the form "name (k)", with k written without leading zeros. */
  function ParseCountSuffix(s: string): Option<(string, nat)>
  {
    var j := LastIndexOf(s, '(');
    if j >= 1 && s[j - 1] == ' ' && |s| >= j + 3 && s[|s| - 1] == ')'
       && AllDigits(s[j + 1..|s| - 1]) && s[j + 1] != '0'
    then Some((s[..j - 1], DigitsValue(s[j + 1..|s| - 1])))
    else None
  }

  /** The form makeDisplayNameUnique itself produces for a repeated name. */
  predicate HasCountSuffix(s: string)
  {
    ParseCountSuffix(s).Some? && ParseCountSuffix(s).value.1 >= 2
  }

  /** The suffix is recovered from every numbered name. */
  lemma ParseCountSuffixOf(n: string, k: nat)
    requires k >= 1
    ensures ParseCountSuffix(n + CountSuffix(k)) == Some((n, k))
  {
    var d := NatToString(k);
    var s := n + CountSuffix(k);
    assert s == n + " (" + d + ")";
    assert s[|n| + 1] == '(';
    assert forall i :: |n| + 1 < i < |s| ==> s[i] != '(' by {
      forall i | |n| + 1 < i < |s| ensures s[i] != '(' {
        if i < |s| - 1 {
          assert s[i] == d[i - |n| - 2];
        }
      }
    }
    var j := LastIndexOf(s, '(');
    assert j == |n| + 1;
    assert s[j + 1..|s| - 1] == d;
    assert s[..j - 1] == n;
    NatToStringValue(k);
  }

  /** Numbered names are exactly those ParseCountSuffix accepts with a number of at least 2. */
  lemma NumberedHasCountSuffix(n: string, k: nat)
    requires k >= 2
    ensures HasCountSuffix(n + CountSuffix(k))
  {
    ParseCountSuffixOf(n, k);
  }

  /** When no input name already looks like "name (k)", all display names are distinct. */
  lemma UniqueNamesDistinct(names: seq<string>)
    requires forall i :: 0 <= i < |names| ==> !HasCountSuffix(names[i])
    ensures forall i, j :: 0 <= i < j < |names| ==> UniqueName(names, i) != UniqueName(names, j)
  {
    forall i, j | 0 <= i < j < |names| ensures UniqueName(names, i) != UniqueName(names, j) {
      var ci := Occurrences(names[..i + 1], names[i]);
      var cj := Occurrences(names[..j + 1], names[j]);
      assert names[i] in names[..i + 1] && names[j] in names[..j + 1];
      if UniqueName(names, i) == UniqueName(names, j) {
        if ci == 1 && cj == 1 {
          OccurrencesGrow(names, i, j);
        } else if ci == 1 {
          NumberedHasCountSuffix(names[j], cj);
        } else if cj == 1 {
          NumberedHasCountSuffix(names[i], ci);
        } else {
          ParseCountSuffixOf(names[i], ci);
          ParseCountSuffixOf(names[j], cj);
          OccurrencesGrow(names, i, j);
        }
      }
    }
  }

  /** Without that condition uniqueness fails: ["a (2)", "a", "a"] shows "a (2)" twice. */
  lemma NumberedInputCollides()
    ensures var names := ["a (2)", "a", "a"];
      UniqueName(names, 0) == UniqueName(names, 2) == "a (2)"
  {
    var names := ["a (2)", "a", "a"];
    assert names[..1] == ["a (2)"];
    assert names[..3] == names;
    assert Occurrences(names[..1], "a (2)") == 1;
    assert Occurrences(names[..2], "a") == 1 by { assert names[..2][..1] == names[..1]; }
    assert Occurrences(names, "a") == 2 by { assert names[..2] == names[..3][..2]; }
    assert NatToString(2) == "2";
  }

  // ---------------------------------------------------------------------------
  // uploadAll and uploadSingleWithRetry
  // ---------------------------------------------------------------------------

  /** One picked file: the resolver's display name, the URI's last path segment, the URI. */
  datatype UploadItem<U> = UploadItem(displayName: Option<string>, lastPathSegment: Option<string>, uri: U)

  /** `queryDisplayName(cr, uri) ?: (uri.lastPathSegment ?: "file")`, then sanitised. */
  function RawPair<U>(item: UploadItem<U>): (r: (string, U))
    ensures r.1 == item.uri
  {
    var name := if item.displayName.Some? then item.displayName.value
                else if item.lastPathSegment.Some? then item.lastPathSegment.value
                else "file";
    (SanitizeFilename(name), item.uri)
  }

  /** The (name, url) pairs of the entries whose upload succeeded, in order. */
  function Uploaded<U>(pairs: seq<(string, U)>, folder: string, upload: (string, U) -> Option<string>): (r: seq<(string, string)>)
    ensures |r| <= |pairs|
  {
    if pairs == [] then []
    else
      var last := pairs[|pairs| - 1];
      var url := upload(folder + "/" + last.0, last.1);
      Uploaded(pairs[..|pairs| - 1], folder, upload) + (if url.Some? then [(last.0, url.value)] else [])
  }

  /** `onProgress(index + 1, total, name)` for every entry, in order. */
  function ProgressCalls<U>(pairs: seq<(string, U)>): (r: seq<(int, int, string)>)
    ensures |r| == |pairs|
    ensures forall i :: 0 <= i < |pairs| ==> r[i] == (i + 1, |pairs|, pairs[i].0)
  {
    seq(|pairs|, i requires 0 <= i < |pairs| => (i + 1, |pairs|, pairs[i].0))
  }

  /**
   * `uploadAll`: nothing for an empty list; otherwise sanitises and numbers the names, then
   * uploads each file in order, reporting progress, and records the successful ones.
   */
  method UploadAll<U>(folder: string, items: seq<UploadItem<U>>, upload: (string, U) -> Option<string>)
    returns (result: LinkedMap.Entries<string, string>, progress: seq<(int, int, string)>)
    ensures items == [] ==> result == [] && progress == []
    ensures var unique := UniquePairs(seq(|items|, i requires 0 <= i < |items| => RawPair(items[i])));
      progress == ProgressCalls(unique)
      && result == LinkedMap.PutAll([], Uploaded(unique, folder, upload))
  {
    var rawPairs := seq(|items|, i requires 0 <= i < |items| => RawPair(items[i]));
    if |items| == 0 {
      return [], [];
    }
    var uniqueList := MakeDisplayNameUnique(rawPairs);
    result, progress := UploadEach(folder, uniqueList, upload);
  }

  /** The upload loop of `uploadAll`: one upload and one progress report per entry, in order. */
  method UploadEach<U>(folder: string, uniqueList: seq<(string, U)>, upload: (string, U) -> Option<string>)
    returns (result: LinkedMap.Entries<string, string>, progress: seq<(int, int, string)>)
    ensures progress == ProgressCalls(uniqueList)
    ensures result == LinkedMap.PutAll([], Uploaded(uniqueList, folder, upload))
  {
    result := [];
    progress := [];
    var total := |uniqueList|;
    var index := 0;
    while index < |uniqueList|
      invariant 0 <= index <= |uniqueList|
      invariant progress == ProgressCalls(uniqueList)[..index]
      invariant result == LinkedMap.PutAll([], Uploaded(uniqueList[..index], folder, upload))
    {
      var displayName, uri := uniqueList[index].0, uniqueList[index].1;
      assert ProgressCalls(uniqueList)[..index + 1]
          == ProgressCalls(uniqueList)[..index] + [(index + 1, total, displayName)];
      progress := progress + [(index + 1, total, displayName)];
      var url := upload(folder + "/" + displayName, uri);
      UploadedSnoc(uniqueList, index, folder, upload);
      PutAllSnoc(Uploaded(uniqueList[..index], folder, upload), displayName, url);
      if url.Some? {
        result := LinkedMap.Put(result, displayName, url.value);
      }
      index := index + 1;
    }
    assert uniqueList[..index] == uniqueList;
  }

  lemma UploadedSnoc<U>(pairs: seq<(string, U)>, i: nat, folder: string, upload: (string, U) -> Option<string>)
    requires i < |pairs|
    ensures var url := upload(folder + "/" + pairs[i].0, pairs[i].1);
      Uploaded(pairs[..i + 1], folder, upload)
        == Uploaded(pairs[..i], folder, upload) + (if url.Some? then [(pairs[i].0, url.value)] else [])
  {
    assert pairs[..i + 1][..i] == pairs[..i];
  }

  lemma PutAllSnoc(pairs: seq<(string, string)>, name: string, url: Option<string>)
    ensures LinkedMap.PutAll([], pairs + (if url.Some? then [(name, url.value)] else []))
         == if url.Some? then LinkedMap.Put(LinkedMap.PutAll([], pairs), name, url.value)
            else LinkedMap.PutAll([], pairs)
  {
    if url.Some? {
      LinkedMap.PutAllAppend([], pairs, [(name, url.value)]);
    } else {
      assert pairs + [] == pairs;
    }
  }

  /** Putting pairs with distinct new keys appends them in order. */
  lemma {:induction false} PutAllFresh<V>(m: LinkedMap.Entries<string, V>, pairs: seq<(string, V)>)
    requires LinkedMap.DistinctKeys(m + pairs)
    ensures LinkedMap.PutAll(m, pairs) == m + pairs
    decreases |pairs|
  {
    if pairs != [] {
      forall i | 0 <= i < |m| ensures m[i].0 != pairs[0].0 {
        assert (m + pairs)[i] == m[i] && (m + pairs)[|m|] == pairs[0];
      }
      var m' := m + [pairs[0]];
      assert m' + pairs[1..] == m + pairs;
      PutAllFresh(m', pairs[1..]);
    } else {
      assert m + pairs == m;
    }
  }

  lemma {:induction false} UploadedKeysAreNames<U>(pairs: seq<(string, U)>, folder: string, upload: (string, U) -> Option<string>)
    ensures forall p :: p in Uploaded(pairs, folder, upload) ==>
      exists i :: 0 <= i < |pairs| && pairs[i].0 == p.0 && upload(folder + "/" + p.0, pairs[i].1) == Some(p.1)
    decreases |pairs|
  {
    if pairs != [] {
      var init := pairs[..|pairs| - 1];
      UploadedKeysAreNames(init, folder, upload);
      forall p | p in Uploaded(pairs, folder, upload)
        ensures exists i :: 0 <= i < |pairs| && pairs[i].0 == p.0 && upload(folder + "/" + p.0, pairs[i].1) == Some(p.1)
      {
        if p in Uploaded(init, folder, upload) {
          var i :| 0 <= i < |init| && init[i].0 == p.0 && upload(folder + "/" + p.0, init[i].1) == Some(p.1);
          assert pairs[i] == init[i];
        } else {
          assert pairs[|pairs| - 1].0 == p.0;
        }
      }
    }
  }

  /** The uploaded names are a subsequence of the entry names, so distinct entries give distinct keys. */
  lemma {:induction false} UploadedDistinct<U>(pairs: seq<(string, U)>, folder: string, upload: (string, U) -> Option<string>)
    requires forall i, j :: 0 <= i < j < |pairs| ==> pairs[i].0 != pairs[j].0
    ensures LinkedMap.DistinctKeys(Uploaded(pairs, folder, upload))
    decreases |pairs|
  {
    if pairs != [] {
      var init := pairs[..|pairs| - 1];
      var last := pairs[|pairs| - 1];
      UploadedDistinct(init, folder, upload);
      UploadedKeysAreNames(init, folder, upload);
      var u := Uploaded(init, folder, upload);
      forall p | p in u ensures p.0 != last.0 {
        var i :| 0 <= i < |init| && init[i].0 == p.0 && upload(folder + "/" + p.0, init[i].1) == Some(p.1);
        assert pairs[i].0 == p.0;
      }
      var r := Uploaded(pairs, folder, upload);
      forall i, j | 0 <= i < j < |r| ensures r[i].0 != r[j].0 {
        if j == |u| {
          assert r[i] == u[i] && u[i] in u;
        } else {
          assert r[i] == u[i] && r[j] == u[j];
        }
      }
    }
  }

  /**
   * With distinct display names (as UniqueNamesDistinct gives), the result holds exactly the
   * successful uploads in input order, each under its display name; failures are skipped.
   */
  lemma UploadAllResult<U>(pairs: seq<(string, U)>, folder: string, upload: (string, U) -> Option<string>)
    requires forall i, j :: 0 <= i < j < |pairs| ==> pairs[i].0 != pairs[j].0
    ensures LinkedMap.PutAll([], Uploaded(pairs, folder, upload)) == Uploaded(pairs, folder, upload)
  {
    UploadedDistinct(pairs, folder, upload);
    var u := Uploaded(pairs, folder, upload);
    assert [] + u == u;
    PutAllFresh([], u);
  }

  const DefaultMaxRetry := 2

  /** `uploadSingleWithRetry`: tries attempts 0..maxRetry in order and stops at the first success. */
  method UploadSingleWithRetry(attemptOutcome: nat -> Option<string>, maxRetry: int)
    returns (url: Option<string>, attempts: nat)
    ensures attempts <= if maxRetry < 0 then 0 else maxRetry + 1
    ensures forall a :: 0 <= a < attempts - 1 ==> attemptOutcome(a).None?
    ensures url.Some? ==> attempts >= 1 && attemptOutcome(attempts - 1) == url
    ensures url.None? ==> attempts == (if maxRetry < 0 then 0 else maxRetry + 1)
                          && (attempts >= 1 ==> attemptOutcome(attempts - 1).None?)
  {
    var attempt: nat := 0;
    while attempt <= maxRetry
      invariant attempt <= if maxRetry < 0 then 0 else maxRetry + 1
      invariant forall a :: 0 <= a < attempt ==> attemptOutcome(a).None?
      decreases maxRetry + 1 - attempt
    {
      var outcome := attemptOutcome(attempt);
      if outcome.Some? {
        return outcome, attempt + 1;
      }
      attempt := attempt + 1;
    }
    return None, attempt;
  }
}
