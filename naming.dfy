/** The names the script builds: the API base URL, the report's file name
    and the basename sent with the attachment. */
module Naming {

  /** `s.startswith(prefix)` */
  predicate StartsWith(s: string, prefix: string)
    ensures StartsWith(s, prefix) <==> |prefix| <= |s| && forall i :: 0 <= i < |prefix| ==> s[i] == prefix[i]
  {
    |prefix| <= |s| && s[..|prefix|] == prefix
  }

  /** The base URL: a configured domain that does not start with "http" gets
      "https://" in front; any other domain is used as it is. */
  function BaseUrl(domain: string): (url: string)
    ensures StartsWith(url, "http")
    ensures |domain| <= |url| && url[|url| - |domain|..] == domain
    ensures url == domain <==> StartsWith(domain, "http")
    ensures url != domain ==> url[..|url| - |domain|] == "https://"
  {
    if !StartsWith(domain, "http") then "https://" + domain else domain
  }

  /** Normalising an already normalised URL changes nothing. */
  lemma BaseUrlIdempotent(domain: string)
    ensures BaseUrl(BaseUrl(domain)) == BaseUrl(domain)
  {
  }

  /** The lease number written into the report's file name. */
  const LeaseNumber: string := "1996594"

  function Digit(d: nat): char
    requires d < 10
  {
    "0123456789"[d]
  }

  function DigitValue(c: char): nat
  {
    if '0' <= c <= '9' then (c as int - '0' as int) as nat else 0
  }

  predicate IsDigit(c: char)
  {
    '0' <= c <= '9'
  }

  /** `n` in exactly `width` decimal digits, with leading zeros. */
  function PadDigits(n: nat, width: nat): (s: string)
    requires n < Pow10(width)
    ensures |s| == width
    ensures forall i :: 0 <= i < |s| ==> IsDigit(s[i])
    decreases width
  {
    if width == 0 then [] else PadDigits(n / 10, width - 1) + [Digit(n % 10)]
  }

  function Pow10(k: nat): (p: nat)
    ensures p >= 1
  {
    if k == 0 then 1 else 10 * Pow10(k - 1)
  }

  /** The number a string of decimal digits denotes. */
  function DigitsValue(s: string): nat
  {
    if s == [] then 0 else 10 * DigitsValue(s[..|s| - 1]) + DigitValue(s[|s| - 1])
  }

  /** Reading padded digits back gives the number. */
  lemma {:induction false} PadDigitsValue(n: nat, width: nat)
    requires n < Pow10(width)
    ensures DigitsValue(PadDigits(n, width)) == n
    decreases width
  {
    if width > 0 {
      var s := PadDigits(n, width);
      assert s[..|s| - 1] == PadDigits(n / 10, width - 1);
      PadDigitsValue(n / 10, width - 1);
      assert DigitValue(Digit(n % 10)) == n % 10 by {
        var d := n % 10;
        assert d == 0 || d == 1 || d == 2 || d == 3 || d == 4 || d == 5 || d == 6 || d == 7 || d == 8 || d == 9;
      }
    }
  }

  /** `{YYYY-MM}_Lease_{lease}_Assets.csv`, with the year and month of the
      run's clock as `strftime('%Y-%m')` renders them. */
  function CsvFileName(year: nat, month: nat, lease: string): (name: string)
    requires 1000 <= year <= 9999 && 1 <= month <= 12
    ensures |name| == |lease| + 25
  {
    PadDigits(year, 4) + "-" + PadDigits(month, 2) + "_Lease_" + lease + "_Assets.csv"
  }

  datatype FileNameParts = FileNameParts(year: nat, month: nat, lease: string)

  /** Reads a report file name back into its year, month and lease number. */
  function ParseCsvFileName(name: string): (r: FileNameParts)
    requires |name| >= 25
  {
    FileNameParts(DigitsValue(name[..4]), DigitsValue(name[5..7]), name[14..|name| - 11])
  }

  /** The shape of a report file name: four digits, '-', two digits,
      "_Lease_", the lease number, "_Assets.csv". */
  predicate IsCsvFileName(name: string)
  {
    && |name| >= 25
    && (forall i :: 0 <= i < 4 ==> IsDigit(name[i]))
    && name[4] == '-'
    && IsDigit(name[5]) && IsDigit(name[6])
    && name[7..14] == "_Lease_"
    && name[|name| - 11..] == "_Assets.csv"
  }

  /** The file name has the documented shape and determines the year, month
      and lease number it was built from. */
  lemma CsvFileNameRoundTrip(year: nat, month: nat, lease: string)
    requires 1000 <= year <= 9999 && 1 <= month <= 12
    ensures IsCsvFileName(CsvFileName(year, month, lease))
    ensures ParseCsvFileName(CsvFileName(year, month, lease)) == FileNameParts(year, month, lease)
  {
    var y := PadDigits(year, 4);
    var m := PadDigits(month, 2);
    var head := y + "-" + m + "_Lease_";
    var name := CsvFileName(year, month, lease);
    assert |head| == 14;
    assert name == head + lease + "_Assets.csv";
    assert name[..14] == head;
    assert head[..4] == y && head[4] == '-' && head[5..7] == m && head[7..14] == "_Lease_";
    assert name[..4] == y;
    assert name[5..7] == m;
    assert name[14..|name| - 11] == lease;
    PadDigitsValue(year, 4);
    PadDigitsValue(month, 2);
  }

  /** The index just after the last '/' before `e` (0 when there is none). */
  function SlashEnd(path: string, e: nat): (n: nat)
    requires e <= |path|
    ensures n <= e
    ensures forall k :: n <= k < e ==> path[k] != '/'
    ensures n == 0 || path[n - 1] == '/'
    decreases e
  {
    if e == 0 || path[e - 1] == '/' then e else SlashEnd(path, e - 1)
  }

  /** `os.path.basename(path)` as `posixpath` computes it: the part after the
      last '/'. (`ntpath` on Windows also splits at '\\' and a drive's ':';
      the report's name holds neither.) */
  function Basename(path: string): (b: string)
    ensures '/' !in b
    ensures |b| <= |path| && b == path[|path| - |b|..]
    ensures |b| < |path| ==> path[|path| - |b| - 1] == '/'
  {
    var n := SlashEnd(path, |path|);
    assert forall k :: 0 <= k < |path| - n ==> path[n..][k] == path[n + k];
    path[n..]
  }

  /** A name without a '/' is its own basename, so the attachment carries
      the report's file name. */
  lemma BasenameOfPlainName(name: string)
    requires '/' !in name
    ensures Basename(name) == name
  {
    assert SlashEnd(name, |name|) == 0;
  }

  /** The report's file name contains no '/' when the lease number has none. */
  lemma CsvFileNameIsPlain(year: nat, month: nat, lease: string)
    requires 1000 <= year <= 9999 && 1 <= month <= 12
    requires '/' !in lease
    ensures '/' !in CsvFileName(year, month, lease)
    ensures Basename(CsvFileName(year, month, lease)) == CsvFileName(year, month, lease)
  {
    var y := PadDigits(year, 4);
    var m := PadDigits(month, 2);
    var name := CsvFileName(year, month, lease);
    assert name == y + "-" + m + "_Lease_" + lease + "_Assets.csv";
    assert '/' !in "-" && '/' !in "_Lease_" && '/' !in "_Assets.csv";
    assert '/' !in y by {
      forall i | 0 <= i < |y| ensures y[i] != '/' { assert IsDigit(y[i]); }
    }
    assert '/' !in m by {
      forall i | 0 <= i < |m| ensures m[i] != '/' { assert IsDigit(m[i]); }
    }
    BasenameOfPlainName(name);
  }

  /** The report's file name for the run's year and month, with the lease
      number of the script. */
  method ReportFileName(year: nat, month: nat) returns (name: string)
    requires 1000 <= year <= 9999 && 1 <= month <= 12
    ensures name == CsvFileName(year, month, LeaseNumber)
    ensures Basename(name) == name
  {
    name := CsvFileName(year, month, LeaseNumber);
    assert '/' !in LeaseNumber;
    CsvFileNameIsPlain(year, month, LeaseNumber);
  }
}
