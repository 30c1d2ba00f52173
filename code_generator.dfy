/**
 * Document codes (utils/CodeGenerator.kt): `PR|RR|AC|CC-YYYYMM-NNNN`. The clock and the
 * random source are parameters: `yearMonth` is the `yyyyMM` rendering of the current date,
 * and a random choice is given as its value.
 */
module CodeGenerator {
  import opened Wrappers
  import opened Text
  import Models

  function Prefix(k: Models.DocKind): (r: string)
    ensures |r| == 2 && '-' !in r
  {
    match k
    case PembelianRumahKind => Models.PrefixPembelianRumah
    case RenovasiRumahKind => Models.PrefixRenovasiRumah
    case PemasanganAcKind => Models.PrefixPemasanganAc
    case PemasanganCctvKind => Models.PrefixPemasanganCctv
  }

  /** `Random.nextInt(1000, 9999)`: the upper bound is exclusive. */
  predicate IsCodeRandom(n: int) { 1000 <= n < 9999 }

  /** `"$prefix-$yearMonth-$randomNumber"`. */
  function GenerateCode(prefix: string, yearMonth: string, randomNumber: int): string
  {
    prefix + "-" + yearMonth + "-" + IntToString(randomNumber)
  }

  /** generateCodeForPembelianRumah, …RenovasiRumah, …PemasanganAC, …PemasanganCCTV. */
  function GenerateCodeFor(k: Models.DocKind, yearMonth: string, randomNumber: int): string
  {
    GenerateCode(Prefix(k), yearMonth, randomNumber)
  }

  const CodeAlphabet := "ABCDEFGHIJKLMNOPQRSTUVWXYZ0123456789"

  /** `(1..length).map { chars.random() }`: `pick(i)` is the i-th random index into the alphabet. */
  function GenerateRandomCode(length: int, pick: int -> nat): (r: string)
    ensures |r| == if length <= 0 then 0 else length
    ensures forall i :: 0 <= i < |r| ==> r[i] in CodeAlphabet
  {
    var n := if length <= 0 then 0 else length;
    seq(n, i => CodeAlphabet[pick(i) % |CodeAlphabet|])
  }

  /** `"$prefix-$yearMonth-" + sequence.toString().padStart(4, '0')`. */
  function GenerateSequentialCode(prefix: string, yearMonth: string, sequence: int): string
  {
    prefix + "-" + yearMonth + "-" + PadStart(IntToString(sequence), 4, '0')
  }

  /** `"REPORT-$year$month-$randomNumber"`. */
  function GenerateReportCode(month: string, year: string, randomNumber: int): string
  {
    "REPORT-" + year + month + "-" + IntToString(randomNumber)
  }

  /** `extractDateFromCode`: year and month from the second '-'-separated part when it has six characters. */
  function ExtractDateFromCode(code: string): (r: (Option<string>, Option<string>))
    ensures r.0.Some? <==> r.1.Some?
    ensures r.0.Some? ==> |r.0.value| == 4 && |r.1.value| == 2
  {
    var parts := Split(code, '-');
    if |parts| >= 2 && |parts[1]| == 6 then (Some(parts[1][0..4]), Some(parts[1][4..6]))
    else (None, None)
  }

  predicate IsCodePrefix(p: string)
  {
    p == Models.PrefixPembelianRumah || p == Models.PrefixRenovasiRumah
    || p == Models.PrefixPemasanganAc || p == Models.PrefixPemasanganCctv
  }

  /** `^(PR|RR|AC|CC)-\d{6}-\d{4}$`. */
  predicate IsValidDocumentCode(code: string)
  {
    |code| == 14 && IsCodePrefix(code[..2]) && code[2] == '-' && AllDigits(code[3..9])
    && code[9] == '-' && AllDigits(code[10..])
  }

  /** `getDocumentTypeFromCode`: the document type named by the part before the first '-'. */
  function GetDocumentTypeFromCode(code: string): (r: Option<string>)
    ensures r.Some? <==> IsCodePrefix(Split(code, '-')[0])
    ensures r.Some? ==> Models.KindOfType(r.value).Some?
  {
    var parts := Split(code, '-');
    var head := parts[0];
    if head == Models.PrefixPembelianRumah then Some(Models.DocTypePembelianRumah)
    else if head == Models.PrefixRenovasiRumah then Some(Models.DocTypeRenovasiRumah)
    else if head == Models.PrefixPemasanganAc then Some(Models.DocTypePemasanganAc)
    else if head == Models.PrefixPemasanganCctv then Some(Models.DocTypePemasanganCctv)
    else None
  }

  /** Six ASCII digits, as `SimpleDateFormat("yyyyMM")` gives for years 1000 to 9999. */
  predicate IsYearMonth(ym: string) { |ym| == 6 && AllDigits(ym) }

  // ---------------------------------------------------------------------------
  // Lemmas
  // ---------------------------------------------------------------------------

  lemma FourDigits(n: nat)
    requires 1000 <= n <= 9999
    ensures DigitCount(n) == 4
  {
    var a, b, c := n / 10, n / 100, n / 1000;
    assert 100 <= a <= 999 && a / 10 == b;
    assert 10 <= b <= 99 && b / 10 == c;
    assert 1 <= c <= 9;
    assert DigitCount(c) == 1;
    assert DigitCount(b) == 2;
    assert DigitCount(a) == 3;
  }

  /** A string without '-' splits into itself; this peels the three parts of a code. */
  lemma SplitThree(a: string, b: string, c: string)
    requires '-' !in a && '-' !in b && '-' !in c
    ensures Split(a + "-" + b + "-" + c, '-') == [a, b, c]
  {
    assert a + "-" + b + "-" + c == a + ['-'] + (b + ['-'] + c);
    SplitCons(a, '-', b + ['-'] + c);
    SplitCons(b, '-', c);
    SplitNone(c, '-');
  }

  lemma DigitsHaveNoDash(s: string)
    requires AllDigits(s)
    ensures '-' !in s
  {
    assert forall i :: 0 <= i < |s| ==> s[i] != '-';
  }

  /** The random part of a generated code is four digits from 1000 to 9998. */
  lemma GeneratedRandomPart(k: Models.DocKind, yearMonth: string, randomNumber: int)
    requires IsCodeRandom(randomNumber)
    ensures var code := GenerateCodeFor(k, yearMonth, randomNumber);
      EndsWith(code, NatToString(randomNumber)) && |NatToString(randomNumber)| == 4
      && AllDigits(NatToString(randomNumber)) && DigitsValue(NatToString(randomNumber)) == randomNumber
  {
    NatToStringLength(randomNumber);
    FourDigits(randomNumber);
    NatToStringValue(randomNumber);
    var t := NatToString(randomNumber);
    var code := GenerateCodeFor(k, yearMonth, randomNumber);
    assert code[|code| - |t|..] == t;
  }

  /** Every generated code of any kind passes the code validator when the month is six digits. */
  lemma GeneratedCodeIsValid(k: Models.DocKind, yearMonth: string, randomNumber: int)
    requires IsYearMonth(yearMonth) && IsCodeRandom(randomNumber)
    ensures IsValidDocumentCode(GenerateCodeFor(k, yearMonth, randomNumber))
  {
    var t := NatToString(randomNumber);
    NatToStringLength(randomNumber);
    FourDigits(randomNumber);
    var code := GenerateCodeFor(k, yearMonth, randomNumber);
    assert code == Prefix(k) + "-" + yearMonth + "-" + t;
    assert code[..2] == Prefix(k);
    assert code[3..9] == yearMonth;
    assert code[10..] == t;
  }

  /** A valid code splits into its prefix, month and number, so the parsers recover them. */
  lemma ValidCodeParts(code: string)
    requires IsValidDocumentCode(code)
    ensures Split(code, '-') == [code[..2], code[3..9], code[10..]]
    ensures GetDocumentTypeFromCode(code).Some?
    ensures ExtractDateFromCode(code) == (Some(code[3..7]), Some(code[7..9]))
  {
    DigitsHaveNoDash(code[3..9]);
    DigitsHaveNoDash(code[10..]);
    assert '-' !in code[..2];
    assert code == code[..2] + "-" + code[3..9] + "-" + code[10..];
    SplitThree(code[..2], code[3..9], code[10..]);
    assert code[3..9][0..4] == code[3..7];
    assert code[3..9][4..6] == code[7..9];
  }

  /** extractDateFromCode returns the year and month a code was generated with. */
  lemma ExtractDateRoundTrip(k: Models.DocKind, yearMonth: string, randomNumber: int)
    requires IsYearMonth(yearMonth) && IsCodeRandom(randomNumber)
    ensures ExtractDateFromCode(GenerateCodeFor(k, yearMonth, randomNumber))
         == (Some(yearMonth[..4]), Some(yearMonth[4..]))
  {
    DigitsHaveNoDash(yearMonth);
    GeneratedParts(k, yearMonth, randomNumber);
    ExtractDateOf(GenerateCodeFor(k, yearMonth, randomNumber), yearMonth);
  }

  /** A code whose second part has six characters yields them as year and month. */
  lemma ExtractDateOf(code: string, ym: string)
    requires |Split(code, '-')| >= 2 && Split(code, '-')[1] == ym && |ym| == 6
    ensures ExtractDateFromCode(code) == (Some(ym[..4]), Some(ym[4..]))
  {
    assert ym[0..4] == ym[..4] && ym[4..6] == ym[4..];
  }

  /** getDocumentTypeFromCode inverts the prefix every generateCodeFor* function uses. */
  lemma DocumentTypeRoundTrip(k: Models.DocKind, yearMonth: string, randomNumber: int)
    requires '-' !in yearMonth && randomNumber >= 0
    ensures GetDocumentTypeFromCode(GenerateCodeFor(k, yearMonth, randomNumber)) == Some(Models.TypeName(k))
  {
    GeneratedParts(k, yearMonth, randomNumber);
  }

  /** A generated code splits at '-' into its prefix, its year and month, and its number. */
  lemma GeneratedParts(k: Models.DocKind, yearMonth: string, randomNumber: int)
    requires '-' !in yearMonth && randomNumber >= 0
    ensures Split(GenerateCodeFor(k, yearMonth, randomNumber), '-') == [Prefix(k), yearMonth, NatToString(randomNumber)]
  {
    var t := NatToString(randomNumber);
    DigitsHaveNoDash(t);
    assert GenerateCodeFor(k, yearMonth, randomNumber) == Prefix(k) + "-" + yearMonth + "-" + t;
    SplitThree(Prefix(k), yearMonth, t);
  }

  /** Codes that do not start with a known prefix have no document type. */
  lemma UnknownPrefixHasNoType(code: string)
    requires !IsCodePrefix(Split(code, '-')[0])
    ensures GetDocumentTypeFromCode(code) == None
  {
  }

  /** For 0..9999 the padded sequence is exactly four characters; larger values keep all their digits. */
  lemma PaddedSequenceLength(sequence: nat)
    ensures var t := PadStart(NatToString(sequence), 4, '0');
      (sequence <= 9999 ==> |t| == 4) && (sequence > 9999 ==> |t| == DigitCount(sequence) > 4)
  {
    NatToStringLength(sequence);
    if sequence > 9999 {
      DigitCountAtLeastFour(sequence / 10);
    } else if sequence >= 1000 {
      FourDigits(sequence);
    } else {
      assert DigitCount(sequence) <= 3 by {
        if sequence >= 100 {
          assert DigitCount(sequence) == 1 + DigitCount(sequence / 10);
          assert 10 <= sequence / 10 <= 99;
          assert DigitCount(sequence / 10) == 1 + DigitCount(sequence / 100);
        } else if sequence >= 10 {
          assert DigitCount(sequence) == 1 + DigitCount(sequence / 10);
        }
      }
    }
  }

  /** The last part of a sequential code is the padded sequence; for 0..9999 it is four digits denoting it. */
  lemma SequentialCodeNumber(prefix: string, yearMonth: string, sequence: int)
    requires sequence >= 0
    ensures var t := PadStart(IntToString(sequence), 4, '0');
      EndsWith(GenerateSequentialCode(prefix, yearMonth, sequence), "-" + t)
      && AllDigits(t) && DigitsValue(t) == sequence
      && (sequence <= 9999 ==> |t| == 4)
      && (sequence > 9999 ==> |t| == DigitCount(sequence) > 4)
  {
    var t := PadStart(NatToString(sequence), 4, '0');
    PaddedNumberValue(sequence, 4);
    PaddedSequenceLength(sequence);
    var code := GenerateSequentialCode(prefix, yearMonth, sequence);
    assert code == (prefix + "-" + yearMonth) + ("-" + t);
  }

  lemma {:induction false} DigitCountAtLeastFour(n: nat)
    requires n >= 1000
    ensures DigitCount(n) >= 4
    decreases n
  {
    if n <= 9999 {
      FourDigits(n);
    } else {
      DigitCountAtLeastFour(n / 10);
    }
  }

  /** The report code carries the year and month side by side in its second part. */
  lemma ReportCodeParts(month: string, year: string, randomNumber: int)
    requires '-' !in year && '-' !in month && randomNumber >= 0
    ensures Split(GenerateReportCode(month, year, randomNumber), '-') == ["REPORT", year + month, NatToString(randomNumber)]
  {
    DigitsHaveNoDash(NatToString(randomNumber));
    assert GenerateReportCode(month, year, randomNumber) == "REPORT" + "-" + (year + month) + "-" + NatToString(randomNumber);
    SplitThree("REPORT", year + month, NatToString(randomNumber));
  }
}
