/**
  * Text helpers with the semantics of the Python string operations the
  * bridge and its tools rely on: `str.strip`, `str.startswith`,
  * `str.replace(p, "")`, `str.split(",")`, `int(s, base)`, `str(n)`,
  * `str.upper`/`str.lower` (ASCII letters only), `os.path.basename` and
  * the digit-run substitution `re.sub(r'\d+', 'N', s)`.
  */
module Text {
  import opened Wrappers

  // ---------------------------------------------------------------------
  // Whitespace and strip
  // ---------------------------------------------------------------------

  /** The characters for which Python's `str.isspace()` holds. */
  predicate IsSpace(c: char) {
    || c == ' ' || ('\t' <= c <= '\r') || ('\U{1C}' <= c <= '\U{1F}')
    || c == '\U{85}' || c == '\U{A0}' || c == '\U{1680}'
    || ('\U{2000}' <= c <= '\U{200A}') || c == '\U{2028}' || c == '\U{2029}'
    || c == '\U{202F}' || c == '\U{205F}' || c == '\U{3000}'
  }

  /** Python's `s.lstrip()`: the longest suffix not starting with whitespace. */
  function TrimLeft(s: string): (r: string)
    ensures |r| <= |s| && r == s[|s| - |r|..]
    ensures |r| > 0 ==> !IsSpace(r[0])
  {
    if |s| > 0 && IsSpace(s[0]) then TrimLeft(s[1..]) else s
  }

  /** What `lstrip` drops is whitespace. */
  lemma {:induction false} TrimLeftDropsSpace(s: string)
    ensures forall i :: 0 <= i < |s| - |TrimLeft(s)| ==> IsSpace(s[i])
    decreases |s|
  {
    if |s| > 0 && IsSpace(s[0]) {
      TrimLeftDropsSpace(s[1..]);
      assert forall i :: 1 <= i < |s| - |TrimLeft(s)| ==> s[i] == s[1..][i - 1];
    }
  }

  /** Python's `s.rstrip()`: the longest prefix not ending with whitespace. */
  function TrimRight(s: string): (r: string)
    ensures |r| <= |s| && r == s[..|r|]
    ensures |r| > 0 ==> !IsSpace(r[|r| - 1])
  {
    if |s| > 0 && IsSpace(s[|s| - 1]) then TrimRight(s[..|s| - 1]) else s
  }

  /** What `rstrip` drops is whitespace. */
  lemma {:induction false} TrimRightDropsSpace(s: string)
    ensures forall i :: |TrimRight(s)| <= i < |s| ==> IsSpace(s[i])
    decreases |s|
  {
    if |s| > 0 && IsSpace(s[|s| - 1]) {
      TrimRightDropsSpace(s[..|s| - 1]);
      assert forall i :: |TrimRight(s)| <= i < |s| - 1 ==> s[i] == s[..|s| - 1][i];
    }
  }

  /** Python's `s.strip()`. */
  function Strip(s: string): string {
    TrimRight(TrimLeft(s))
  }

  /** Stripping an already stripped text changes nothing. */
  lemma StripIdempotent(s: string)
    ensures Strip(Strip(s)) == Strip(s)
  {
    var r := Strip(s);
    var l := TrimLeft(s);
    if |r| > 0 {
      assert r == l[..|r|];
      assert r[0] == l[0];
    }
    assert TrimLeft(r) == r;
  }

  /** A text is blank after stripping exactly when every character is whitespace. */
  lemma StripEmptyIffAllSpace(s: string)
    ensures Strip(s) == "" <==> forall i :: 0 <= i < |s| ==> IsSpace(s[i])
  {
    var l := TrimLeft(s);
    TrimLeftDropsSpace(s);
    TrimRightDropsSpace(l);
    if Strip(s) == "" {
      assert |l| == 0;
    } else {
      var r := Strip(s);
      assert !IsSpace(r[0]);
      assert r[0] == l[0] == s[|s| - |l|];
    }
  }

  // ---------------------------------------------------------------------
  // Prefixes, occurrences, replace
  // ---------------------------------------------------------------------

  predicate StartsWith(s: string, p: string) {
    |p| <= |s| && s[..|p|] == p
  }

  /** `p` occurs in `s` starting at index `i`. */
  predicate OccursAt(s: string, p: string, i: int) {
    0 <= i && i + |p| <= |s| && s[i..i + |p|] == p
  }

  /** Python's `s.replace(p, "")` for a non-empty `p`: every non-overlapping
      occurrence, scanning left to right, is removed. */
  function RemoveAll(s: string, p: string): (r: string)
    requires |p| > 0
    ensures |r| <= |s|
    ensures (forall i :: !OccursAt(s, p, i)) ==> r == s
    decreases |s|
  {
    if |s| == 0 then s
    else if StartsWith(s, p) then assert OccursAt(s, p, 0); RemoveAll(s[|p|..], p)
    else
      var rest := RemoveAll(s[1..], p);
      assert (forall i :: !OccursAt(s, p, i)) ==> (forall i :: !OccursAt(s[1..], p, i)) by {
        if forall i :: !OccursAt(s, p, i) {
          forall i ensures !OccursAt(s[1..], p, i) {
            if OccursAt(s[1..], p, i) {
              assert s[i + 1..i + 1 + |p|] == s[1..][i..i + |p|];
              assert OccursAt(s, p, i + 1);
            }
          }
        }
      }
      [s[0]] + rest
  }

  /** Python's `p in s` on texts. */
  predicate IsSubstring(p: string, s: string) {
    exists i :: 0 <= i <= |s| - |p| && OccursAt(s, p, i)
  }

  /** The leftmost occurrence of `p` in `s` at or after index `i`. */
  function FindFrom(s: string, p: string, i: nat): (r: Option<nat>)
    ensures r.Some? ==> i <= r.value && OccursAt(s, p, r.value)
    ensures r.Some? ==> forall j :: i <= j < r.value ==> !OccursAt(s, p, j)
    ensures r.None? ==> forall j :: i <= j ==> !OccursAt(s, p, j)
    decreases |s| - i
  {
    if i + |p| > |s| then None
    else if OccursAt(s, p, i) then Some(i)
    else FindFrom(s, p, i + 1)
  }

  /** `s.find(p)`, with `None` for -1: the leftmost occurrence. */
  function Find(s: string, p: string): (r: Option<nat>)
    ensures r.Some? ==> OccursAt(s, p, r.value) && forall j :: 0 <= j < r.value ==> !OccursAt(s, p, j)
    ensures r.None? <==> forall j :: !OccursAt(s, p, j)
  {
    FindFrom(s, p, 0)
  }

  /** A leading occurrence is removed, and removal then continues on the rest. */
  lemma RemoveAllLeading(p: string, s: string)
    requires |p| > 0
    ensures RemoveAll(p + s, p) == RemoveAll(s, p)
  {
    assert (p + s)[|p|..] == s;
  }

  // ---------------------------------------------------------------------
  // Characters in a single position class
  // ---------------------------------------------------------------------

  /** Python's `s.lstrip(c)` for a single character `c`. */
  function LStripChar(s: string, c: char): (r: string)
    ensures |r| <= |s| && r == s[|s| - |r|..]
    ensures forall i :: 0 <= i < |s| - |r| ==> s[i] == c
    ensures |r| > 0 ==> r[0] != c
  {
    if |s| > 0 && s[0] == c then LStripChar(s[1..], c) else s
  }

  function Repeat(c: char, n: nat): (r: string)
    ensures |r| == n && forall i :: 0 <= i < n ==> r[i] == c
  {
    if n == 0 then "" else [c] + Repeat(c, n - 1)
  }

  // ---------------------------------------------------------------------
  // ASCII case mapping
  // ---------------------------------------------------------------------

  function UpperChar(c: char): char {
    if 'a' <= c <= 'z' then (c as int - 32) as char else c
  }

  function LowerChar(c: char): char {
    if 'A' <= c <= 'Z' then (c as int + 32) as char else c
  }

  /** `str.upper()` restricted to ASCII letters. */
  function Upper(s: string): (r: string)
    ensures |r| == |s|
    ensures forall i :: 0 <= i < |s| ==> r[i] == UpperChar(s[i])
  {
    seq(|s|, i requires 0 <= i < |s| => UpperChar(s[i]))
  }

  /** `str.lower()` restricted to ASCII letters. */
  function Lower(s: string): (r: string)
    ensures |r| == |s|
    ensures forall i :: 0 <= i < |s| ==> r[i] == LowerChar(s[i])
  {
    seq(|s|, i requires 0 <= i < |s| => LowerChar(s[i]))
  }

  lemma UpperIdempotent(s: string)
    ensures Upper(Upper(s)) == Upper(s)
  {
  }

  // ---------------------------------------------------------------------
  // Split on a separator (Python `s.split(sep)` for a one-character sep)
  // ---------------------------------------------------------------------

  function IndexOf(s: string, c: char): (r: Option<nat>)
    ensures r.None? <==> c !in s
    ensures r.Some? ==> r.value < |s| && s[r.value] == c && c !in s[..r.value]
  {
    if |s| == 0 then None
    else if s[0] == c then Some(0)
    else match IndexOf(s[1..], c)
      case None => None
      case Some(k) => assert s[1..][..k] == s[1..k + 1]; Some(k + 1)
  }

  /** The pieces joined back with the separator. */
  function JoinWith(parts: seq<string>, sep: char): string {
    if |parts| == 0 then ""
    else if |parts| == 1 then parts[0]
    else parts[0] + [sep] + JoinWith(parts[1..], sep)
  }

  /** Python's `s.split(sep)`: never empty, pieces free of `sep`, and
      joining them back with `sep` gives `s`. */
  function Split(s: string, sep: char): (parts: seq<string>)
    ensures |parts| >= 1
    ensures forall i :: 0 <= i < |parts| ==> sep !in parts[i]
    ensures JoinWith(parts, sep) == s
    decreases |s|
  {
    match IndexOf(s, sep)
    case None => [s]
    case Some(k) =>
      var rest := Split(s[k + 1..], sep);
      assert s == s[..k] + [sep] + s[k + 1..];
      [s[..k]] + rest
  }

  // ---------------------------------------------------------------------
  // Integers: str(n) and int(s, base)
  // ---------------------------------------------------------------------

  predicate IsDecimalDigit(c: char) { '0' <= c <= '9' }

  function DigitChar(d: nat): (c: char)
    requires d < 10
    ensures IsDecimalDigit(c)
  {
    ('0' as int + d) as char
  }

  /** Python's `str(n)` for a natural number. */
  function NatToString(n: nat): (r: string)
    ensures |r| > 0
    ensures forall i :: 0 <= i < |r| ==> IsDecimalDigit(r[i])
  {
    if n < 10 then [DigitChar(n)] else NatToString(n / 10) + [DigitChar(n % 10)]
  }

  /** Python's `str(n)` for any integer. */
  function IntToString(n: int): string {
    if n < 0 then "-" + NatToString(-n) else NatToString(n)
  }

  /** The value of a digit character in bases up to 36, or 36 if it is none. */
  function DigitValue(c: char): nat {
    if '0' <= c <= '9' then c as int - '0' as int
    else if 'a' <= c <= 'z' then c as int - 'a' as int + 10
    else if 'A' <= c <= 'Z' then c as int - 'A' as int + 10
    else 36
  }

  /** CPython's digit body: digits of the base, single underscores only
      between two digits. */
  predicate WellFormedDigits(d: string, base: nat) {
    && |d| > 0
    && DigitValue(d[0]) < base
    && DigitValue(d[|d| - 1]) < base
    && (forall i :: 0 <= i < |d| ==> DigitValue(d[i]) < base || d[i] == '_')
    && (forall i :: 0 <= i < |d| - 1 ==> !(d[i] == '_' && d[i + 1] == '_'))
  }

  /** The value of a digit body, underscores skipped. */
  function DigitsValue(d: string, base: nat): nat {
    if |d| == 0 then 0
    else if d[|d| - 1] == '_' then DigitsValue(d[..|d| - 1], base)
    else DigitsValue(d[..|d| - 1], base) * base + (if DigitValue(d[|d| - 1]) < base then DigitValue(d[|d| - 1]) else 0)
  }

  /** The digit body after an optional `0x`/`0X` prefix in base 16; one
      underscore may directly follow the prefix. */
  function DropBasePrefix(body: string, base: nat): string {
    if base == 16 && |body| >= 2 && body[0] == '0' && (body[1] == 'x' || body[1] == 'X') then
      var r := body[2..];
      if |r| > 0 && r[0] == '_' then r[1..] else r
    else body
  }

  /** `int(t, base)` on a text with no surrounding whitespace: one
      optional sign, then the digit body. */
  function ParseDigits(t: string, base: nat): (r: Option<int>)
    requires 2 <= base <= 36
    ensures r.Some? ==> t != ""
  {
    var neg := |t| > 0 && t[0] == '-';
    var body := if |t| > 0 && (t[0] == '-' || t[0] == '+') then t[1..] else t;
    var digits := DropBasePrefix(body, base);
    if WellFormedDigits(digits, base) then
      var v: int := DigitsValue(digits, base);
      Some(if neg then -v else v)
    else None
  }

  /** Python's `int(s, base)` on a text of ASCII digits: surrounding
      whitespace is ignored. */
  function ParseInt(s: string, base: nat): (r: Option<int>)
    requires 2 <= base <= 36
    ensures r.Some? ==> Strip(s) != ""
  {
    ParseDigits(Strip(s), base)
  }

  lemma NatToStringValue(n: nat)
    ensures WellFormedDigits(NatToString(n), 10)
    ensures DigitsValue(NatToString(n), 10) == n
  {
    var r := NatToString(n);
    if n >= 10 {
      NatToStringValue(n / 10);
      assert r[..|r| - 1] == NatToString(n / 10);
    }
  }

  /** A text that neither starts nor ends with whitespace is its own strip. */
  lemma StripUnchanged(s: string)
    requires |s| > 0 && !IsSpace(s[0]) && !IsSpace(s[|s| - 1])
    ensures Strip(s) == s
  {
    assert TrimLeft(s) == s;
  }

  /** The digits `str(n)` prints for a natural number read back as it. */
  lemma ParseDigitsOfNat(m: nat)
    ensures ParseDigits(NatToString(m), 10) == Some(m)
  {
    var d := NatToString(m);
    NatToStringValue(m);
    assert IsDecimalDigit(d[0]);
    assert DropBasePrefix(d, 10) == d;
  }

  /** The same with the sign `str` prints for a negative number. */
  lemma ParseDigitsOfNegative(m: nat)
    requires m > 0
    ensures ParseDigits("-" + NatToString(m), 10) == Some(-(m as int))
  {
    var d := NatToString(m);
    var s := "-" + d;
    NatToStringValue(m);
    assert s[1..] == d;
    assert DropBasePrefix(d, 10) == d;
  }

  /** Reading back what `str(n)` printed gives `n`. */
  lemma ParseIntOfIntToString(n: int)
    ensures ParseInt(IntToString(n), 10) == Some(n)
  {
    var s := IntToString(n);
    var m: nat := if n < 0 then -n else n;
    var d := NatToString(m);
    assert IsDecimalDigit(d[0]) && IsDecimalDigit(d[|d| - 1]);
    if n < 0 {
      assert s == "-" + d;
      assert s[|s| - 1] == d[|d| - 1];
      StripUnchanged(s);
      ParseDigitsOfNegative(m);
    } else {
      assert s == d;
      StripUnchanged(s);
      ParseDigitsOfNat(m);
    }
  }

  // ---------------------------------------------------------------------
  // Paths and digit runs
  // ---------------------------------------------------------------------

  /** `os.path.basename` on a POSIX path: the text after the last `/`. */
  function Basename(path: string): (r: string)
    ensures '/' !in r
    ensures |r| <= |path| && r == path[|path| - |r|..]
    ensures |r| < |path| ==> path[|path| - |r| - 1] == '/'
  {
    if |path| == 0 then ""
    else if path[|path| - 1] == '/' then ""
    else Basename(path[..|path| - 1]) + [path[|path| - 1]]
  }

  function DropDigits(s: string): (r: string)
    ensures |r| <= |s| && r == s[|s| - |r|..]
    ensures |r| > 0 ==> !IsDecimalDigit(r[0])
  {
    if |s| > 0 && IsDecimalDigit(s[0]) then DropDigits(s[1..]) else s
  }

  /** `re.sub(r'\d+', 'N', s)`: every maximal run of digits becomes `N`. */
  function ReplaceDigitRuns(s: string): (r: string)
    ensures forall i :: 0 <= i < |r| ==> !IsDecimalDigit(r[i])
    ensures |r| <= |s|
    ensures (forall i :: 0 <= i < |s| ==> !IsDecimalDigit(s[i])) ==> r == s
    decreases |s|
  {
    if |s| == 0 then ""
    else if IsDecimalDigit(s[0]) then "N" + ReplaceDigitRuns(DropDigits(s))
    else [s[0]] + ReplaceDigitRuns(s[1..])
  }
}
