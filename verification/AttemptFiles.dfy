/** The names of the journal's attempt files. */
module AttemptFiles {
  import opened Prelude
  import opened Markers

  const LAST_ATTEMPT := 999_999

  // ----- Numbers as digits -----

  function DigitOf(d: nat): char
    requires d < 10
  {
    '0' + d as char
  }

  function ValueOf(c: char): nat
    requires IsDigit(c)
  {
    (c - '0') as nat
  }

  /** The last `width` decimal digits. */
  function Digits(n: nat, width: nat): (r: string)
    ensures |r| == width && forall i | 0 <= i < width :: IsDigit(r[i])
  {
    if width == 0 then "" else Digits(n / 10, width - 1) + [DigitOf(n % 10)]
  }

  /** `str(n)`. */
  function Decimal(n: nat): (r: string)
    ensures r != "" && forall i | 0 <= i < |r| :: IsDigit(r[i])
  {
    if n < 10 then [DigitOf(n)] else Decimal(n / 10) + [DigitOf(n % 10)]
  }

  /** `f"{n:06d}"`. */
  function Padded(n: nat): string
  {
    if n <= LAST_ATTEMPT then Digits(n, 6) else Decimal(n)
  }

  function Value(s: string): nat
    requires forall i | 0 <= i < |s| :: IsDigit(s[i])
  {
    if s == "" then 0 else Value(s[..|s| - 1]) * 10 + ValueOf(s[|s| - 1])
  }

  function Power(width: nat): nat { if width == 0 then 1 else 10 * Power(width - 1) }

  lemma {:induction false} DigitsReadBack(n: nat, width: nat)
    requires n < Power(width)
    ensures Value(Digits(n, width)) == n
  {
    if width > 0 {
      DigitsReadBack(n / 10, width - 1);
      assert Digits(n, width)[..width - 1] == Digits(n / 10, width - 1);
    }
  }

  lemma {:induction false} ValueWritesBack(s: string)
    requires forall i | 0 <= i < |s| :: IsDigit(s[i])
    ensures Value(s) < Power(|s|) && Digits(Value(s), |s|) == s
  {
    if s != "" {
      var front := s[..|s| - 1];
      ValueWritesBack(front);
      assert Value(s) / 10 == Value(front) && Value(s) % 10 == ValueOf(s[|s| - 1]);
      assert s == front + [s[|s| - 1]];
    }
  }

  lemma {:induction false} DecimalIsLong(n: nat, width: nat)
    requires n >= Power(width)
    ensures |Decimal(n)| > width
  {
    if width > 0 { DecimalIsLong(n / 10, width - 1); }
  }

  // ----- File names -----

  /** `_filename`. */
  function Filename(event: string, attempt: nat): string
  {
    event + "." + Padded(attempt) + ".json"
  }

  predicate AllDigits(s: string)
  {
    forall i | 0 <= i < |s| :: IsDigit(s[i])
  }

  /** `_ATTEMPT_FILE.fullmatch`: a slug, a dot, six digits, `.json`. */
  function Parse(name: string): Option<(string, nat)>
  {
    var n := |name|;
    if n > 12 && name[n - 12] == '.' && name[n - 5..] == ".json" && AllDigits(name[n - 11..n - 5])
       && IsSlug(name[..n - 12])
    then Some((name[..n - 12], Value(name[n - 11..n - 5])))
    else None
  }

  lemma FilenameParts(event: string, attempt: nat)
    requires attempt <= LAST_ATTEMPT && event != ""
    ensures var name := Filename(event, attempt);
      var n := |name|;
      && n == |event| + 12 && name[..n - 12] == event && name[n - 12] == '.'
      && name[n - 11..n - 5] == Digits(attempt, 6) && name[n - 5..] == ".json"
  {
    var name := Filename(event, attempt);
    var n := |name|;
    assert name == (event + ".") + (Digits(attempt, 6) + ".json");
    assert name[n - 11..n - 5] == Digits(attempt, 6);
  }

  /** A file name reads back as the event and attempt it was written for exactly when the attempt
      number fits its six digits. */
  lemma FilenameReadsBack(event: string, attempt: nat)
    requires IsSlug(event)
    ensures Parse(Filename(event, attempt)) == if attempt <= LAST_ATTEMPT then Some((event, attempt)) else None
  {
    if attempt <= LAST_ATTEMPT {
      FilenameParts(event, attempt);
      assert Power(6) == 1_000_000;
      DigitsReadBack(attempt, 6);
    } else {
      assert Power(6) == 1_000_000;
      DecimalIsLong(attempt, 6);
      var name, digits := Filename(event, attempt), Decimal(attempt);
      var n := |name|;
      assert name == (event + ".") + (digits + ".json");
      assert name[n - 12] == digits[|digits| - 7];
    }
  }

  /** A matching name is the name of what it parses to: no two files claim one attempt. */
  lemma ParseWritesBack(name: string)
    requires Parse(name).Some?
    ensures var (event, attempt) := Parse(name).value;
      IsSlug(event) && attempt <= LAST_ATTEMPT && Filename(event, attempt) == name
  {
    var n := |name|;
    ValueWritesBack(name[n - 11..n - 5]);
    assert Power(6) == 1_000_000;
    assert name == name[..n - 12] + [name[n - 12]] + name[n - 11..n - 5] + name[n - 5..];
  }

  predicate IsTemporary(name: string) { ".tmp-" <= name }

  /** No attempt file is mistaken for a temporary or for the lock. */
  lemma AttemptFilesAreNeither(event: string, attempt: nat)
    requires IsSlug(event)
    ensures !IsTemporary(Filename(event, attempt)) && Filename(event, attempt) != ".lock"
  {
    assert Filename(event, attempt)[0] == event[0];
  }

  lemma DifferentAttempts(e1: string, a1: nat, e2: string, a2: nat)
    requires IsSlug(e1) && IsSlug(e2) && a1 <= LAST_ATTEMPT && a2 <= LAST_ATTEMPT
    requires Filename(e1, a1) == Filename(e2, a2)
    ensures e1 == e2 && a1 == a2
  {
    FilenameReadsBack(e1, a1);
    FilenameReadsBack(e2, a2);
  }
}
