/** `unique_name` of bulk add (app/api/routes/dashboard.py:1497-1503): a free name, and why the search ends. */
module MonitorNames {
  import opened Common

  const MONITOR_NAME_MAX := 100

  // ---- Decimal numerals ------------------------------------------------------------------------------

  predicate IsDigit(c: char) {
    '0' <= c <= '9'
  }

  function Digit(d: nat): (c: char)
    requires d < 10
    ensures IsDigit(c)
  {
    ('0' as int + d) as char
  }

  predicate AllDigits(s: string) {
    forall i :: 0 <= i < |s| ==> IsDigit(s[i])
  }

  function Decimal(n: nat): (s: string)
    ensures s != "" && AllDigits(s)
  {
    if n < 10 then [Digit(n)] else Decimal(n / 10) + [Digit(n % 10)]
  }

  lemma {:induction false} DecimalInjective(m: nat, n: nat)
    requires Decimal(m) == Decimal(n)
    ensures m == n
  {
    var s, t := Decimal(m), Decimal(n);
    assert s[|s| - 1] == Digit(m % 10) && t[|t| - 1] == Digit(n % 10);
    if m >= 10 && n >= 10 {
      assert s[..|s| - 1] == Decimal(m / 10) && t[..|t| - 1] == Decimal(n / 10);
      DecimalInjective(m / 10, n / 10);
    }
  }

  lemma {:induction false} DecimalGrows(m: nat, n: nat)
    requires m <= n
    ensures |Decimal(m)| <= |Decimal(n)|
  {
    if m >= 10 {
      DecimalGrows(m / 10, n / 10);
    }
  }

  // ---- The candidate names ---------------------------------------------------------------------------

  /** Python's `s[:stop]`, with a negative stop counted from the end. */
  function PySlice(s: string, stop: int): (r: string)
    ensures stop >= 0 ==> |r| <= stop
  {
    if stop >= 0 then s[..Min(stop, |s|)] else s[..Max(0, |s| + stop)]
  }

  function Suffix(n: nat): string {
    " (" + Decimal(n) + ")"
  }

  function NextName(base: string, n: nat): string {
    var suffix := Suffix(n);
    PySlice(base, MONITOR_NAME_MAX - |suffix|) + suffix
  }

  /** The k-th name tried: the base cut to length, then the base with " (2)", " (3)", ... */
  function Candidate(base: string, k: nat): string
    requires k >= 1
  {
    if k == 1 then PySlice(base, MONITOR_NAME_MAX) else NextName(base, k)
  }

  /** The digits at the end of a string. */
  ghost function DigitTail(s: string): string {
    if s == "" || !IsDigit(s[|s| - 1]) then "" else DigitTail(s[..|s| - 1]) + [s[|s| - 1]]
  }

  lemma {:induction false} DigitTailOf(x: string, d: string)
    requires AllDigits(d) && (x == "" || !IsDigit(x[|x| - 1]))
    ensures DigitTail(x + d) == d
  {
    if d == "" {
      assert x + d == x;
    } else {
      var n := |d| - 1;
      assert (x + d)[..|x| + n] == x + d[..n];
      DigitTailOf(x, d[..n]);
    }
  }

  /** What is left of a string without its last character. */
  function Init(s: string): string {
    if s == "" then "" else s[..|s| - 1]
  }

  lemma SuffixReadBack(x: string, d: string)
    requires AllDigits(d)
    ensures DigitTail(Init(x + (" (" + d + ")"))) == d
  {
    var s := x + (" (" + d + ")");
    var y := x + " (";
    assert s[..|s| - 1] == y + d;
    assert y[|y| - 1] == '(';
    DigitTailOf(y, d);
  }

  /** The numeral can be read back from a candidate, so no two of them are the same. */
  lemma NumeralReadBack(base: string, k: nat)
    requires k >= 2
    ensures DigitTail(Init(Candidate(base, k))) == Decimal(k)
  {
    SuffixReadBack(PySlice(base, MONITOR_NAME_MAX - |Suffix(k)|), Decimal(k));
  }

  lemma CandidatesDiffer(base: string, m: nat, n: nat)
    requires 2 <= m && 2 <= n && Candidate(base, m) == Candidate(base, n)
    ensures m == n
  {
    NumeralReadBack(base, m);
    NumeralReadBack(base, n);
    DecimalInjective(m, n);
  }

  /** Candidates are at most 100 characters long as long as their numeral is at most 97 digits. */
  lemma CandidateFits(base: string, k: nat)
    requires k >= 1 && |Decimal(k)| <= MONITOR_NAME_MAX - 3
    ensures |Candidate(base, k)| <= 100
  {
  }

  /** The number a string of digits stands for. */
  function NumeralValue(s: string): int {
    if s == "" then 0 else 10 * NumeralValue(s[..|s| - 1]) + (s[|s| - 1] as int - '0' as int)
  }

  /** Numerals are decimal. */
  lemma {:induction false} DecimalReadsBack(n: nat)
    ensures NumeralValue(Decimal(n)) == n
  {
    var s := Decimal(n);
    if n < 10 {
      assert s[..0] == "";
    } else {
      assert s[..|s| - 1] == Decimal(n / 10);
      DecimalReadsBack(n / 10);
    }
  }

  /** The first candidate is the base itself, the others end in " (2)", " (3)" and so on, cut to 100 characters. */
  lemma CandidateShape(base: string, k: nat)
    requires k >= 1 && |Decimal(k)| <= 97
    ensures k == 1 ==> Candidate(base, k) == if |base| <= 100 then base else base[..100]
    ensures k >= 2 ==>
              var suffix := " (" + Decimal(k) + ")";
              Candidate(base, k) == (if |base| + |suffix| <= 100 then base else base[..100 - |suffix|]) + suffix
  {
  }

  // ---- The search ------------------------------------------------------------------------------------

  /** The first `k` candidates are all in use. */
  predicate AllTaken(base: string, names: set<string>, k: nat) {
    k == 0 || (AllTaken(base, names, k - 1) && Candidate(base, k) in names)
  }

  /** `name` is the first candidate that is not taken. */
  ghost predicate FirstFree(base: string, names: set<string>, name: string, k: nat) {
    k >= 1 && name == Candidate(base, k) && name !in names && AllTaken(base, names, k - 1)
  }

  ghost predicate Chosen(base: string, names: set<string>, name: string) {
    exists k :: FirstFree(base, names, name, k)
  }

  /** The candidates numbered 2 up to `k`. */
  ghost function Tried(base: string, k: nat): set<string>
    requires k >= 1
  {
    if k == 1 then {} else Tried(base, k - 1) + {Candidate(base, k)}
  }

  lemma {:induction false} NotYetTried(base: string, k: nat, m: nat)
    requires 1 <= k < m
    ensures Candidate(base, m) !in Tried(base, k)
  {
    if k > 1 {
      NotYetTried(base, k - 1, m);
      if Candidate(base, k) == Candidate(base, m) {
        CandidatesDiffer(base, k, m);
      }
    }
  }

  lemma {:induction false} TriedAreTaken(base: string, names: set<string>, k: nat)
    requires k >= 1 && AllTaken(base, names, k)
    ensures Tried(base, k) <= names && |Tried(base, k)| == k - 1
  {
    if k > 1 {
      TriedAreTaken(base, names, k - 1);
      NotYetTried(base, k - 1, k);
    }
  }

  /** Pigeonhole: the first `k` candidates can all be taken only if there are that many names. */
  lemma TakenCandidatesBound(base: string, names: set<string>, k: nat)
    requires k >= 1 && AllTaken(base, names, k)
    ensures k <= |names| + 1
  {
    TriedAreTaken(base, names, k);
    SubsetSize(Tried(base, k), names);
  }

  lemma FirstFreeShort(base: string, names: set<string>, name: string, k: nat)
    requires FirstFree(base, names, name, k) && |Decimal(|names| + 2)| <= 97
    ensures |name| <= 100
  {
    if k > 1 {
      TakenCandidatesBound(base, names, k - 1);
    }
    DecimalGrows(k, |names| + 2);
    CandidateFits(base, k);
  }

  /** The chosen name fits the column as long as the number of names has at most 97 digits. */
  lemma ChosenNameFits(base: string, names: set<string>, name: string)
    requires Chosen(base, names, name) && |Decimal(|names| + 2)| <= 97
    ensures |name| <= 100
  {
    var k :| FirstFree(base, names, name, k);
    FirstFreeShort(base, names, name, k);
  }

  /**
   * unique_name. It ends because there are more candidates than names, and returns the first candidate
   * not in use.
   */
  method UniqueName(base: string, names: set<string>) returns (name: string, names': set<string>)
    ensures name !in names && names' == names + {name}
    ensures Chosen(base, names, name)
  {
    name := PySlice(base, MONITOR_NAME_MAX);
    var n := 2;
    while name in names
      invariant n >= 2 && name == Candidate(base, n - 1) && AllTaken(base, names, n - 2)
      decreases |names| + 2 - n
    {
      assert AllTaken(base, names, n - 1);
      TakenCandidatesBound(base, names, n - 1);
      name, n := NextName(base, n), n + 1;
    }
    names' := names + {name};
    assert FirstFree(base, names, name, n - 1);
  }
}
