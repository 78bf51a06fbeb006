/**
 * `get_size` (src/utils/common_tools.py): the size of a file in GiB as a
 * sentence with ten decimals, refusing files of at most a tenth of a GiB.
 *
 * `os.path.getsize(p) / 1024 ** 3` is exact in binary floating point for
 * every size below 2^53 bytes, so the comparison with `0.10` and the
 * `:.10f` formatting are modelled on the exact quotient: the threshold is
 * `10 * bytes <= 2^30` and the printed number is the quotient rounded to ten
 * decimals, ties to even.
 */
module CommonTools {
  import opened Python
  import opened Text

  /** `1024 ** 3` */
  const GiB: nat := 1073741824
  /** `10 ** 10`, one unit of the tenth decimal. */
  const Scale: nat := 10000000000

  const SizePrefix := "The size of the file is "
  const SizeSuffix := " GB."

  /** `file_size_bytes / (1024 ** 3) <= 0.10` */
  predicate TooSmall(bytes: nat)
  {
    10 * bytes <= GiB
  }

  /** `n / d` rounded to the nearest integer, ties to the even one. */
  function RoundHalfEven(n: nat, d: nat): (q: nat)
    requires d > 0
    ensures 2 * (q * d - n) <= d && 2 * (n - q * d) <= d
    ensures 2 * (n % d) == d ==> q % 2 == 0
  {
    var q0, rem := n / d, n % d;
    assert n == q0 * d + rem;
    assert (q0 + 1) * d == q0 * d + d;
    if 2 * rem < d then q0
    else if 2 * rem > d then q0 + 1
    else if q0 % 2 == 0 then q0
    else q0 + 1
  }

  /** The size in units of 10^-10 GiB, as `:.10f` rounds it. */
  function Units(bytes: nat): nat
  {
    RoundHalfEven(bytes * Scale, GiB)
  }

  /** `f"{x:.10f}"` for `x == units / 10 ** 10`. */
  function FixedText(units: nat): string
  {
    DecimalText(units / Scale) + "." + ZeroPad(DecimalText(units % Scale), 10)
  }

  /** Reads back a number printed with ten decimals, in units of the tenth decimal. */
  function ParseFixed(t: string): Option<nat>
  {
    if |t| >= 12 && t[|t| - 11] == '.' && AllDigits(t[..|t| - 11]) && AllDigits(t[|t| - 10..]) then
      Some(DecimalValue(t[..|t| - 11]) * Scale + DecimalValue(t[|t| - 10..]))
    else None
  }

  function SizeText(bytes: nat): string
  {
    SizePrefix + FixedText(Units(bytes)) + SizeSuffix
  }

  const SizeFailed := "An unexpected error occurred while getting the size of the file '"

  /**
   * `get_size(file_path)`. The type and existence checks raise directly;
   * the size check raises inside the `try`, so its ValueError comes back
   * wrapped.
   */
  function GetSize(filePath: Arg, fs: FileSystem): (r: Result<string>)
    ensures !filePath.Str? ==>
      r == Err(Raise(TypeError, "The file path must be a string, not: " + TypeRepr(filePath)))
    ensures filePath.Str? && !fs.Exists(filePath.s) ==>
      r == Err(Raise(FileNotFoundError, "The file at the path '" + filePath.s + "' was not found."))
    ensures filePath.Str? && fs.Exists(filePath.s) && TooSmall(fs.Size(filePath.s)) ==>
      r == Err(Wrap(SizeFailed + filePath.s + "': ",
                    Raise(ValueError, "File size of '" + filePath.s + "' is zero or None.")))
    ensures r.Ok? <==> filePath.Str? && fs.Exists(filePath.s) && !TooSmall(fs.Size(filePath.s))
    ensures r.Ok? ==> r.value == SizeText(fs.Size(filePath.s))
  {
    if !filePath.Str? then
      Err(Raise(TypeError, "The file path must be a string, not: " + TypeRepr(filePath)))
    else if !fs.Exists(filePath.s) then
      Err(Raise(FileNotFoundError, "The file at the path '" + filePath.s + "' was not found."))
    else if TooSmall(fs.Size(filePath.s)) then
      Err(Wrap(SizeFailed + filePath.s + "': ",
               Raise(ValueError, "File size of '" + filePath.s + "' is zero or None.")))
    else
      Ok(SizeText(fs.Size(filePath.s)))
  }

  /** The refusal threshold in bytes: a file is accepted from 107374183 bytes on. */
  lemma TooSmallThreshold(bytes: nat)
    ensures TooSmall(bytes) <==> bytes <= 107374182
  {
  }

  /** The threshold is monotone: once a size is accepted, every larger size is too. */
  lemma AcceptedMonotone(smaller: nat, larger: nat)
    requires !TooSmall(smaller) && smaller <= larger
    ensures !TooSmall(larger)
  {
  }

  /** A number below 10^k prints with at most k digits. */
  lemma {:induction false} DecimalTextWidth(n: nat, k: nat)
    requires n < Pow10(k)
    ensures |DecimalText(n)| <= k || (n == 0 && k == 0)
  {
    if n >= 10 {
      assert k >= 1;
      DecimalTextWidth(n / 10, k - 1);
    }
  }

  /** Ten decimals always: the fraction part of the text has exactly ten digits. */
  lemma FractionWidth(units: nat)
    ensures |ZeroPad(DecimalText(units % Scale), 10)| == 10
  {
    assert Pow10(10) == Scale;
    DecimalTextWidth(units % Scale, 10);
  }

  /** What `:.10f` printed reads back to the value it printed. */
  lemma FixedRoundTrip(units: nat)
    ensures ParseFixed(FixedText(units)) == Some(units)
  {
    var whole := DecimalText(units / Scale);
    var frac := ZeroPad(DecimalText(units % Scale), 10);
    var t := whole + "." + frac;
    FractionWidth(units);
    assert t[..|t| - 11] == whole;
    assert t[|t| - 10..] == frac;
    DecimalRoundTrip(units / Scale);
    DecimalRoundTrip(units % Scale);
  }

  /**
   * The sentence carries the size in GiB to within half a unit of the tenth
   * decimal: reading the number back gives `u` with `|u / 10^10 - bytes / 2^30| <= 1/2 * 10^-10`.
   */
  lemma SizeTextAccurate(bytes: nat)
    ensures var t := SizeText(bytes);
      var body := t[|SizePrefix|..|t| - |SizeSuffix|];
      && t == SizePrefix + body + SizeSuffix
      && ParseFixed(body) == Some(Units(bytes))
      && 2 * (Units(bytes) * GiB - bytes * Scale) <= GiB
      && 2 * (bytes * Scale - Units(bytes) * GiB) <= GiB
  {
    var t := SizeText(bytes);
    var body := FixedText(Units(bytes));
    assert t[|SizePrefix|..|t| - |SizeSuffix|] == body;
    FixedRoundTrip(Units(bytes));
  }

  /** A file of exactly one GiB is reported as "1.0000000000". */
  lemma OneGiB()
    ensures SizeText(GiB) == "The size of the file is 1.0000000000 GB."
  {
    assert Units(GiB) == Scale;
    assert DecimalText(1) == "1";
    assert DecimalText(0) == "0";
    assert "0" + "0" == "00";
    assert ZeroPad("0", 10) == ZeroPad("00", 10);
    assert "0" + "00" == "000";
    assert ZeroPad("00", 10) == ZeroPad("000", 10);
    assert "0" + "000" == "0000";
    assert ZeroPad("000", 10) == ZeroPad("0000", 10);
    assert "0" + "0000" == "00000";
    assert ZeroPad("0000", 10) == ZeroPad("00000", 10);
    assert "0" + "00000" == "000000";
    assert ZeroPad("00000", 10) == ZeroPad("000000", 10);
    assert "0" + "000000" == "0000000";
    assert ZeroPad("000000", 10) == ZeroPad("0000000", 10);
    assert "0" + "0000000" == "00000000";
    assert ZeroPad("0000000", 10) == ZeroPad("00000000", 10);
    assert "0" + "00000000" == "000000000";
    assert ZeroPad("00000000", 10) == ZeroPad("000000000", 10);
    assert "0" + "000000000" == "0000000000";
    assert ZeroPad("000000000", 10) == ZeroPad("0000000000", 10);
    assert FixedText(Scale) == "1.0000000000";
  }
}
