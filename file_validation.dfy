/**
 * The upload validator of the upload page: which files are accepted, the
 * record it returns, and the human-readable labels stored in that record.
 */
module FileValidation {
  import opened Wrappers
  import opened Decimal

  /** The parts of a browser File the validator and the page look at. */
  datatype File = File(name: string, mimeType: string, size: nat)

  /**
   * The validation record. The JavaScript object leaves `error`, `size` and
   * `resolution` undefined where they are not set; None stands for that.
   */
  datatype Validation = Validation(
    isValid: bool,
    error: Option<string>,
    size: Option<string>,
    resolution: Option<string>)

  /** The record the page starts with and returns to on reset: `{isValid: false}`. */
  const Unvalidated := Validation(false, None, None, None)

  const AllowedTypes: seq<string> := ["image/png", "image/jpeg", "image/jpg"]

  /** 5 MiB: 5 * 1024 * 1024 bytes. */
  const MaxSize: nat := 5242880

  const Mebibyte: nat := 1048576

  const TypeError := "Only PNG and JPG files are supported"
  const SizeError := "File size must be less than 5MB"
  const AnalyzingResolution := "Analyzing..."

  /** The one invariant of the record: a valid record carries no error. */
  predicate WellFormed(v: Validation) { v.isValid ==> v.error.None? }

  /** A rejection carries exactly one of the two messages and no metadata. */
  function Rejection(message: string): Validation
  {
    Validation(false, Some(message), None, None)
  }

  predicate Acceptable(file: File)
  {
    file.mimeType in AllowedTypes && file.size <= MaxSize
  }

  /**
   * `size / 2^20` rounded to hundredths as toFixed(2) rounds it: the integer
   * nearest to `100 * size / 2^20`, the larger one on a tie. The quotient is
   * exact in a double because the divisor is a power of two.
   */
  function Hundredths(size: nat): (h: nat)
    ensures -(Mebibyte / 2) <= 100 * size - h * Mebibyte < Mebibyte / 2
  {
    (100 * size + Mebibyte / 2) / Mebibyte
  }

  function Distance(size: nat, m: int): nat
  {
    var e := m * Mebibyte - 100 * size;
    if e < 0 then -e else e
  }

  /** Hundredths(size) is the nearest count of hundredths, and the larger one on a tie. */
  lemma HundredthsNearest(size: nat, m: int)
    ensures Distance(size, Hundredths(size)) <= Distance(size, m)
    ensures Distance(size, m) == Distance(size, Hundredths(size)) ==> m <= Hundredths(size)
  {
    var h := Hundredths(size);
    if m > h {
      assert (m - h) * Mebibyte >= Mebibyte;
    } else if m < h {
      assert (h - m) * Mebibyte >= Mebibyte;
    }
  }

  /** The `size` label: `(size / 2^20).toFixed(2) + ' MB'`. */
  function SizeLabel(size: nat): (s: string)
    ensures |s| >= 7 && s[|s| - 3..] == " MB" && s[|s| - 6] == '.'
    ensures |s| > 7 ==> s[0] != '0'
  {
    Fixed2(Hundredths(size)) + " MB"
  }

  /** Reads a size label back as a count of hundredths of a MiB. */
  function ParseSizeLabel(s: string): (r: Option<nat>)
    ensures r.Some? ==> |s| >= 3 && s[|s| - 3..] == " MB"
  {
    if |s| >= 3 && s[|s| - 3..] == " MB" then ParseFixed2(s[..|s| - 3]) else None
  }

  /** The size label shows the file size in MiB rounded to the nearest hundredth. */
  lemma SizeLabelRoundTrip(size: nat)
    ensures ParseSizeLabel(SizeLabel(size)) == Some(Hundredths(size))
  {
    var s := SizeLabel(size);
    assert s[|s| - 3..] == " MB";
    assert s[..|s| - 3] == Fixed2(Hundredths(size));
    Fixed2RoundTrip(Hundredths(size));
  }

  /** `${width} × ${height} px`, set once the browser has decoded the image. */
  function ResolutionLabel(width: nat, height: nat): (s: string)
    ensures |s| >= |NatToDecimal(width)| + 6
    ensures s[..|NatToDecimal(width)|] == NatToDecimal(width)
    ensures s[|NatToDecimal(width)|..|NatToDecimal(width)| + 3] == " × "
    ensures s[|s| - 3..] == " px"
  {
    NatToDecimal(width) + " × " + NatToDecimal(height) + " px"
  }

  /** A numeral followed by a non-digit: its digits end exactly where the non-digit starts. */
  lemma NumeralPrefixes(a: string, b: string, x: string, y: string)
    requires AllDigits(a) && AllDigits(b) && a + x == b + y
    requires x != [] && y != [] && !IsDigit(x[0]) && !IsDigit(y[0])
    ensures a == b && x == y
  {
    assert |b| <= |a| by {
      assert forall i :: 0 <= i < |b| ==> IsDigit((b + y)[i]);
      assert !IsDigit((a + x)[|a|]);
    }
    assert |a| <= |b| by {
      assert forall i :: 0 <= i < |a| ==> IsDigit((a + x)[i]);
      assert !IsDigit((b + y)[|b|]);
    }
    assert a == (a + x)[..|a|] == (b + y)[..|b|] == b;
    assert x == (a + x)[|a|..] == (b + y)[|b|..] == y;
  }

  /** Two numerals joined by " × " and closed by " px" can be taken apart again. */
  lemma SplitDimensions(a1: string, b1: string, a2: string, b2: string)
    requires AllDigits(a1) && AllDigits(b1) && AllDigits(a2) && AllDigits(b2)
    requires a1 + " × " + b1 + " px" == a2 + " × " + b2 + " px"
    ensures a1 == a2 && b1 == b2
  {
    var x1, x2 := " × " + b1 + " px", " × " + b2 + " px";
    assert a1 + x1 == a1 + " × " + b1 + " px";
    assert a2 + x2 == a2 + " × " + b2 + " px";
    NumeralPrefixes(a1, a2, x1, x2);
    assert x1[3..] == b1 + " px";
    assert x2[3..] == b2 + " px";
    NumeralPrefixes(b1, b2, " px", " px");
  }

  /** The resolution label determines the width and the height it was made from. */
  lemma ResolutionLabelInjective(w1: nat, h1: nat, w2: nat, h2: nat)
    requires ResolutionLabel(w1, h1) == ResolutionLabel(w2, h2)
    ensures w1 == w2 && h1 == h2
  {
    SplitDimensions(NatToDecimal(w1), NatToDecimal(h1), NatToDecimal(w2), NatToDecimal(h2));
    NatToDecimalInjective(w1, w2);
    NatToDecimalInjective(h1, h2);
  }

  /** validateFile: the type test first, then the size test, then the metadata. */
  function ValidateFile(file: File): (v: Validation)
    ensures WellFormed(v)
    ensures v.isValid <==> Acceptable(file)
    ensures v.error.Some? <==> !Acceptable(file)
  {
    if file.mimeType !in AllowedTypes then
      Rejection(TypeError)
    else if file.size > MaxSize then
      Rejection(SizeError)
    else
      Validation(true, None, Some(SizeLabel(file.size)), Some(AnalyzingResolution))
  }

  /** A file of any other type is refused for its type, whatever its size. */
  lemma UnsupportedTypeRejected(file: File)
    requires file.mimeType != "image/png" && file.mimeType != "image/jpeg" && file.mimeType != "image/jpg"
    ensures ValidateFile(file) == Rejection(TypeError)
  {
  }

  /** A file of an accepted type over 5 MiB is refused for its size. */
  lemma OversizedRejected(file: File)
    requires file.mimeType in AllowedTypes && file.size > MaxSize
    ensures ValidateFile(file) == Rejection(SizeError)
  {
  }

  /** The limit is inclusive: exactly 5 MiB is accepted, one byte more is not. */
  lemma SizeLimitBoundary(name: string, mimeType: string)
    requires mimeType in AllowedTypes
    ensures ValidateFile(File(name, mimeType, MaxSize)).isValid
    ensures ValidateFile(File(name, mimeType, MaxSize + 1)) == Rejection(SizeError)
  {
  }

  /** An accepted file's record: no error, the rounded size label, a placeholder resolution. */
  lemma AcceptedRecord(file: File)
    requires Acceptable(file)
    ensures var v := ValidateFile(file);
      v.isValid && v.error == None && v.resolution == Some(AnalyzingResolution) &&
      v.size.Some? && ParseSizeLabel(v.size.value) == Some(Hundredths(file.size))
  {
    SizeLabelRoundTrip(file.size);
  }

  /** An accepted file never shows more than "5.00 MB". */
  lemma AcceptedSizeAtMostFive(file: File)
    requires Acceptable(file)
    ensures Hundredths(file.size) <= 500
  {
  }

  /** The largest accepted file is labelled "5.00 MB". */
  lemma MaxSizeLabel()
    ensures SizeLabel(MaxSize) == "5.00 MB"
  {
    assert Hundredths(MaxSize) == 500;
    assert NatToDecimal(500) == "500";
  }
}
