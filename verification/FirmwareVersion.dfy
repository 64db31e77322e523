/** Firmware version strings: what is valid, how two compare, and how one is written. */
module FirmwareVersion {
  import opened Common

  datatype Numbers = Numbers(major: nat, minor: nat, patch: nat)

  /** A release, or beta number `beta` of it. */
  datatype Version = Version(numbers: Numbers, beta: Option<nat>)

  const PART_MAX := 65535
  const LENGTH_MAX := 31
  const BETA := "-beta."
  const BETA_LENGTH := 6

  /** A C string: it ends at its first NUL. */
  type CString = s: string | '\0' !in s

  predicate IsDigit(c: char) {
    '0' <= c <= '9'
  }

  function DigitValue(c: char): nat {
    if IsDigit(c) then (c as int) - ('0' as int) else 0
  }

  predicate AllDigits(s: string) {
    forall i | 0 <= i < |s| :: IsDigit(s[i])
  }

  function Value(s: string): nat
    decreases |s|
  {
    if s == "" then 0 else 10 * Value(s[..|s| - 1]) + DigitValue(s[|s| - 1])
  }

  // ---- what a version string says ----

  ghost predicate Numeral(s: string, n: nat) {
    s != "" && AllDigits(s) && Value(s) == n <= 65535
  }

  ghost predicate SpellsTail(d: string, beta: Option<nat>) {
    match beta
    case None => d == ""
    case Some(n) => |d| >= 6 && d[..6] == "-beta." && Numeral(d[6..], n)
  }

  ghost predicate SpelledAs(v: string, version: Version, a: string, b: string, c: string, d: string) {
    && v == a + "." + b + "." + c + d
    && Numeral(a, version.numbers.major) && Numeral(b, version.numbers.minor) && Numeral(c, version.numbers.patch)
    && SpellsTail(d, version.beta)
  }

  /** At most 31 characters, three numbers with dots between them, and perhaps a beta number;
      leading zeros are allowed and numbers go up to 65535. */
  ghost predicate Spells(v: string, version: Version) {
    |v| <= 31 && exists a, b, c, d :: SpelledAs(v, version, a, b, c, d)
  }

  // ---- reading ----

  /** Where the digits that start at `p` end. */
  function DigitsEnd(v: string, p: nat): (e: nat)
    requires p <= |v|
    ensures p <= e <= |v|
    decreases |v| - p
  {
    if p < |v| && IsDigit(v[p]) then DigitsEnd(v, p + 1) else p
  }

  lemma {:induction false} DigitsBetween(v: string, p: nat)
    requires p <= |v|
    ensures var e := DigitsEnd(v, p);
            AllDigits(v[p..e]) && (e < |v| ==> !IsDigit(v[e])) && (e == p <==> p == |v| || !IsDigit(v[p]))
    decreases |v| - p
  {
    if p < |v| && IsDigit(v[p]) {
      DigitsBetween(v, p + 1);
      assert v[p..DigitsEnd(v, p)] == [v[p]] + v[p + 1..DigitsEnd(v, p)];
    }
  }

  /** The number at `p` and where it ends, if there is one in range. */
  function ReadNumber(v: string, p: nat): (r: Option<(nat, nat)>)
    requires p <= |v|
    ensures r.Some? ==> p < r.value.1 == DigitsEnd(v, p) <= |v| && r.value.0 <= PART_MAX
  {
    var e := DigitsEnd(v, p);
    if e == p || Value(v[p..e]) > PART_MAX then None else Some((Value(v[p..e]), e))
  }

  predicate ReadDot(v: string, p: nat) {
    p < |v| && v[p] == '.'
  }

  /** The three numbers from `p` on, after `k` of them and the dots behind those, and where they end. */
  function ReadNumbers(v: string, p: nat, k: nat, major: nat, minor: nat): (r: Option<(Numbers, nat)>)
    requires p <= |v| && k <= 2
    ensures r.Some? ==> r.value.1 <= |v|
    decreases 2 - k
  {
    match ReadNumber(v, p)
    case None => None
    case Some((n, e)) =>
      if k == 2 then Some((Numbers(major, minor, n), e))
      else if !ReadDot(v, e) then None
      else if k == 1 then ReadNumbers(v, e + 1, 2, major, n)
      else ReadNumbers(v, e + 1, 1, n, 0)
  }

  /** What follows the numbers: nothing, or a beta number up to the end. */
  function ReadTail(v: string, e: nat): Option<Option<nat>>
    requires e <= |v|
  {
    if e == |v| then Some(None)
    else if e + BETA_LENGTH > |v| || v[e..e + BETA_LENGTH] != BETA then None
    else match ReadNumber(v, e + BETA_LENGTH)
      case None => None
      case Some((n, end)) => if end == |v| then Some(Some(n)) else None
  }

  function Parse(v: string): Option<Version> {
    if |v| > LENGTH_MAX then None
    else match ReadNumbers(v, 0, 0, 0, 0)
      case None => None
      case Some((numbers, e)) =>
        match ReadTail(v, e)
        case None => None
        case Some(beta) => Some(Version(numbers, beta))
  }

  // ---- reading is exact ----

  lemma {:induction false} DigitsEndAt(v: string, p: nat, e: nat)
    requires p <= e <= |v| && AllDigits(v[p..e]) && (e < |v| ==> !IsDigit(v[e]))
    ensures DigitsEnd(v, p) == e
    decreases e - p
  {
    if p < e {
      assert v[p] == v[p..e][0];
      assert v[p + 1..e] == v[p..e][1..];
      DigitsEndAt(v, p + 1, e);
    }
  }

  lemma {:induction false} NumeralIsRead(v: string, p: nat, s: string, n: nat)
    requires p + |s| <= |v| && v[p..p + |s|] == s && Numeral(s, n)
    requires p + |s| < |v| ==> !IsDigit(v[p + |s|])
    ensures ReadNumber(v, p) == Some((n, p + |s|))
  {
    DigitsEndAt(v, p, p + |s|);
  }

  lemma {:induction false} ReadIsNumeral(v: string, p: nat)
    requires p <= |v| && ReadNumber(v, p).Some?
    ensures var (n, e) := ReadNumber(v, p).value;
            p < e <= |v| && Numeral(v[p..e], n)
  {
    DigitsBetween(v, p);
  }

  lemma {:induction false} PartsInPlace(v: string, a: string, b: string, c: string, d: string)
    requires v == a + "." + b + "." + c + d
    ensures var p, q := |a|, |a| + 1 + |b|;
            var e := q + 1 + |c|;
            && e + |d| == |v|
            && v[0..p] == a && v[p] == '.' && v[p + 1..q] == b && v[q] == '.' && v[q + 1..e] == c && v[e..] == d
            && (d != "" ==> v[e] == d[0])
  {
  }

  lemma {:induction false} PartsRejoin(v: string, p: nat, q: nat, e: nat)
    requires p < q < e <= |v| && v[p] == '.' && v[q] == '.'
    ensures v == v[0..p] + "." + v[p + 1..q] + "." + v[q + 1..e] + v[e..]
  {
    assert v[0..p] + "." == v[..p + 1];
    assert v[..p + 1] + v[p + 1..q] == v[..q];
    assert v[..q] + "." == v[..q + 1];
    assert v[..q + 1] + v[q + 1..e] == v[..e];
  }

  lemma {:induction false} TailIsExact(v: string, e: nat, beta: Option<nat>)
    requires e <= |v|
    ensures ReadTail(v, e) == Some(beta) <==> SpellsTail(v[e..], beta)
  {
    var d := v[e..];
    if e + BETA_LENGTH <= |v| {
      var p := e + BETA_LENGTH;
      assert d[..BETA_LENGTH] == v[e..p];
      assert d[BETA_LENGTH..] == v[p..|v|];
      if beta.Some? && SpellsTail(d, beta) { NumeralIsRead(v, p, v[p..|v|], beta.value); }
      if ReadTail(v, e) == Some(beta) && beta.Some? { ReadIsNumeral(v, p); }
    }
  }

  lemma {:induction false} NumbersAreRead(v: string, x: Numbers, p: nat, q: nat, e: nat)
    requires p < q < e <= |v| && v[p] == '.' && v[q] == '.' && (e < |v| ==> !IsDigit(v[e]))
    requires Numeral(v[0..p], x.major) && Numeral(v[p + 1..q], x.minor) && Numeral(v[q + 1..e], x.patch)
    ensures ReadNumbers(v, 0, 0, 0, 0) == Some((x, e))
  {
    NumeralIsRead(v, q + 1, v[q + 1..e], x.patch);
    assert ReadNumbers(v, q + 1, 2, x.major, x.minor) == Some((x, e));
    NumeralIsRead(v, p + 1, v[p + 1..q], x.minor);
    assert ReadNumbers(v, p + 1, 1, x.major, 0) == Some((x, e));
    NumeralIsRead(v, 0, v[0..p], x.major);
  }

  function Part(x: Numbers, k: nat): nat {
    if k == 0 then x.major else if k == 1 then x.minor else x.patch
  }

  /** What the number read next is, in a string whose numbers are known to be read. */
  lemma {:induction false} NextPart(v: string, p: nat, k: nat, major: nat, minor: nat, x: Numbers, end: nat)
    requires p <= |v| && k <= 2 && ReadNumbers(v, p, k, major, minor) == Some((x, end))
    ensures (k > 0 ==> major == x.major) && (k > 1 ==> minor == x.minor)
    ensures ReadNumber(v, p).Some?
    ensures var (n, e) := ReadNumber(v, p).value;
            && n == Part(x, k)
            && (k < 2 ==> ReadDot(v, e)
                          && ReadNumbers(v, e + 1, k + 1, x.major, if k == 0 then 0 else x.minor) == Some((x, end)))
            && (k == 2 ==> e == end)
    decreases 2 - k
  {
    var (n, e) := ReadNumber(v, p).value;
    if k == 0 { NextPart(v, e + 1, 1, n, 0, x, end); }
    if k == 1 { NextPart(v, e + 1, 2, major, n, x, end); }
  }

  /** Where the three numbers lie in a string from which they are read. */
  lemma {:induction false} NumbersLie(v: string, x: Numbers, e: nat) returns (p: nat, q: nat)
    requires ReadNumbers(v, 0, 0, 0, 0) == Some((x, e))
    ensures p < q < e <= |v| && v[p] == '.' && v[q] == '.'
    ensures Numeral(v[0..p], x.major) && Numeral(v[p + 1..q], x.minor) && Numeral(v[q + 1..e], x.patch)
  {
    NextPart(v, 0, 0, 0, 0, x, e);
    ReadIsNumeral(v, 0);
    p := ReadNumber(v, 0).value.1;
    NextPart(v, p + 1, 1, x.major, 0, x, e);
    ReadIsNumeral(v, p + 1);
    q := ReadNumber(v, p + 1).value.1;
    NextPart(v, q + 1, 2, x.major, x.minor, x, e);
    ReadIsNumeral(v, q + 1);
  }

  /** Reading is exact: it finds a version if and only if the string spells it. */
  lemma {:induction false} ParseIsExact(v: string, version: Version)
    ensures Parse(v) == Some(version) <==> Spells(v, version)
  {
    if Spells(v, version) {
      var a, b, c, d :| SpelledAs(v, version, a, b, c, d);
      SpelledIsParsed(v, version, a, b, c, d);
    }
    if Parse(v) == Some(version) { ParsedIsSpelled(v, version); }
  }

  lemma {:induction false} SpelledIsParsed(v: string, version: Version, a: string, b: string, c: string, d: string)
    requires |v| <= LENGTH_MAX && SpelledAs(v, version, a, b, c, d)
    ensures Parse(v) == Some(version)
  {
    PartsInPlace(v, a, b, c, d);
    if d != "" { assert d[..BETA_LENGTH][0] == BETA[0] == '-'; }
    var p, q := |a|, |a| + 1 + |b|;
    NumbersAreRead(v, version.numbers, p, q, q + 1 + |c|);
    TailIsExact(v, q + 1 + |c|, version.beta);
  }

  lemma {:induction false} ParsedIsSpelled(v: string, version: Version)
    requires Parse(v) == Some(version)
    ensures Spells(v, version)
  {
    var e := ReadNumbers(v, 0, 0, 0, 0).value.1;
    var p, q := NumbersLie(v, version.numbers, e);
    TailIsExact(v, e, version.beta);
    PartsRejoin(v, p, q, e);
    assert SpelledAs(v, version, v[0..p], v[p + 1..q], v[q + 1..e], v[e..]);
  }

  /** A string that spells a version begins and ends with a digit, and has one behind every dot. */
  lemma {:induction false} SpelledShape(v: string, version: Version)
    requires Spells(v, version)
    ensures 5 <= |v| <= 31 && '0' <= v[0] <= '9' && '0' <= v[|v| - 1] <= '9'
    ensures forall i | 0 <= i < |v| && v[i] == '.' :: i + 1 < |v| && '0' <= v[i + 1] <= '9'
  {
    var a, b, c, d :| SpelledAs(v, version, a, b, c, d);
    PartsInPlace(v, a, b, c, d);
    var p, q := |a|, |a| + 1 + |b|;
    assert v[0] == a[0] && v[p + 1] == b[0] && v[q + 1] == c[0];
    forall i | 0 <= i < |v| && v[i] == '.' ensures i + 1 < |v| && '0' <= v[i + 1] <= '9' {
      DotsLie(v, version, a, b, c, d, i);
    }
  }

  lemma {:induction false} DotsLie(v: string, version: Version, a: string, b: string, c: string, d: string, i: nat)
    requires SpelledAs(v, version, a, b, c, d) && i < |v| && v[i] == '.'
    ensures i + 1 < |v| && '0' <= v[i + 1] <= '9'
  {
    PartsInPlace(v, a, b, c, d);
    var p, q := |a|, |a| + 1 + |b|;
    var e := q + 1 + |c|;
    assert forall k | 0 <= k < p :: v[k] == a[k];
    assert forall k | p < k < q :: v[k] == b[k - p - 1];
    assert forall k | q < k < e :: v[k] == c[k - q - 1];
    assert v[p + 1] == b[0] && v[q + 1] == c[0];
    if i >= e {
      assert v[i] == d[i - e] && |d| >= 6;
      assert forall k | 6 <= k < |d| :: d[k] == d[6..][k - 6];
      assert i - e < 6;
      assert forall k | 0 <= k < 6 :: d[k] == d[..6][k] == "-beta."[k];
      assert i - e == 5;
      assert v[i + 1] == d[6];
    }
  }

  lemma {:induction false} ParsesIffSpelled(v: string)
    ensures Parse(v).Some? <==> exists version :: Spells(v, version)
  {
    if Parse(v).Some? { ParseIsExact(v, Parse(v).value); }
    forall version | Spells(v, version)
      ensures Parse(v).Some?
    {
      ParseIsExact(v, version);
    }
  }

  lemma {:induction false} ValueGrows(s: string, k: nat)
    requires k <= |s|
    ensures Value(s[..k]) <= Value(s)
    decreases |s|
  {
    if k == |s| {
      assert s[..k] == s;
    } else {
      ValueGrows(s[..|s| - 1], k);
      assert s[..|s| - 1][..k] == s[..k];
    }
  }

  lemma {:induction false} RunContinues(v: string, p: nat, e: nat)
    requires p <= e <= |v| && AllDigits(v[p..e])
    ensures DigitsEnd(v, p) == DigitsEnd(v, e)
  {
    var end := DigitsEnd(v, e);
    DigitsBetween(v, e);
    assert v[p..end] == v[p..e] + v[e..end];
    DigitsEndAt(v, p, end);
  }

  method TakeNumber(v: CString, p: nat) returns (r: Option<(nat, nat)>)
    requires p <= |v|
    ensures r == ReadNumber(v, p)
  {
    if p == |v| || !IsDigit(v[p]) { return None; }
    var n, e := 0, p;
    while e < |v| && IsDigit(v[e])
      invariant p <= e <= |v| && AllDigits(v[p..e])
      invariant n == Value(v[p..e]) <= PART_MAX
    {
      OneMoreDigit(v, p, e);
      n := n * 10 + DigitValue(v[e]);
      e := e + 1;
      if n > PART_MAX {
        TooLarge(v, p, e);
        return None;
      }
    }
    DigitsEndAt(v, p, e);
    assert v[p] == v[p..e][0];
    return Some((n, e));
  }

  /** Once the digits read so far are too large, more of them cannot help. */
  lemma {:induction false} TooLarge(v: string, p: nat, e: nat)
    requires p < e <= |v| && AllDigits(v[p..e]) && Value(v[p..e]) > PART_MAX
    ensures ReadNumber(v, p) == None
  {
    RunContinues(v, p, e);
    var end := DigitsEnd(v, p);
    PrefixOfSlice(v, p, e, end);
    ValueGrows(v[p..end], e - p);
  }

  lemma {:induction false} PrefixOfSlice(v: string, p: nat, e: nat, end: nat)
    requires p <= e <= end <= |v|
    ensures v[p..end][..e - p] == v[p..e]
  {
  }

  lemma {:induction false} OneMoreDigit(v: string, p: nat, e: nat)
    requires p <= e < |v| && AllDigits(v[p..e]) && IsDigit(v[e])
    ensures AllDigits(v[p..e + 1]) && Value(v[p..e + 1]) == 10 * Value(v[p..e]) + DigitValue(v[e])
  {
    assert v[p..e + 1] == v[p..e] + [v[e]];
  }

  method IsValid(v: CString) returns (ok: bool)
    ensures ok <==> Parse(v).Some?
    ensures ok <==> exists version :: Spells(v, version)
  {
    ParsesIffSpelled(v);
    if |v| > LENGTH_MAX { return false; }
    var found, p := TakeNumbers(v);
    if !found { return false; }
    ok := TailIsValid(v, p);
  }

  method TakeNumbers(v: CString) returns (ok: bool, p: nat)
    ensures ok <==> ReadNumbers(v, 0, 0, 0, 0).Some?
    ensures ok ==> p == ReadNumbers(v, 0, 0, 0, 0).value.1
  {
    var dots := 0;
    p := 0;
    ghost var major: nat, minor: nat := 0, 0;
    while true
      invariant 0 <= dots <= 2 && 0 <= p <= |v|
      invariant ReadNumbers(v, 0, 0, 0, 0) == ReadNumbers(v, p, dots, major, minor)
      decreases 2 - dots
    {
      var number := TakeNumber(v, p);
      if number.None? { return false, p; }
      p := number.value.1;
      if dots == 2 { return true, p; }
      if p == |v| || v[p] != '.' { return false, p; }
      if dots == 0 { major := number.value.0; } else { minor := number.value.0; }
      p, dots := p + 1, dots + 1;
    }
  }

  method TailIsValid(v: CString, p: nat) returns (ok: bool)
    requires p <= |v|
    ensures ok <==> ReadTail(v, p).Some?
  {
    if p == |v| { return true; }
    if p + BETA_LENGTH > |v| || v[p..p + BETA_LENGTH] != BETA { return false; }
    var number := TakeNumber(v, p + BETA_LENGTH);
    return number.Some? && number.value.1 == |v|;
  }

  // ---- order ----

  function Sign(a: nat, b: nat): int {
    if a == b then 0 else if a > b then 1 else -1
  }

  /** A release ranks above each of its betas. */
  function BetaRank(beta: Option<nat>): nat {
    match beta case None => PART_MAX + 1 case Some(n) => n
  }

  /** Numbers decide from left to right, then the beta rank. */
  function Order(x: Version, y: Version): int {
    if x.numbers.major != y.numbers.major then Sign(x.numbers.major, y.numbers.major)
    else if x.numbers.minor != y.numbers.minor then Sign(x.numbers.minor, y.numbers.minor)
    else if x.numbers.patch != y.numbers.patch then Sign(x.numbers.patch, y.numbers.patch)
    else Sign(BetaRank(x.beta), BetaRank(y.beta))
  }

  predicate InRange(x: Version) {
    x.numbers.major <= PART_MAX && x.numbers.minor <= PART_MAX && x.numbers.patch <= PART_MAX
    && (x.beta.Some? ==> x.beta.value <= PART_MAX)
  }

  /** The comparison of the versions two strings spell; strings that spell none tie with everything. */
  function Compared(a: string, b: string): int {
    match (Parse(a), Parse(b))
    case (Some(x), Some(y)) => Order(x, y)
    case _ => 0
  }

  lemma {:induction false} OrderIsTotal(x: Version, y: Version, z: Version)
    requires InRange(x) && InRange(y) && InRange(z)
    ensures Order(x, y) == -Order(y, x) && (Order(x, y) == 0 <==> x == y)
    ensures Order(x, y) >= 0 && Order(y, z) >= 0 ==> Order(x, z) >= 0
    ensures Order(x, y) > 0 && Order(y, z) >= 0 ==> Order(x, z) > 0
    ensures Order(x, y) >= 0 && Order(y, z) > 0 ==> Order(x, z) > 0
  {
  }

  lemma {:induction false} ParsedInRange(v: string)
    requires Parse(v).Some?
    ensures InRange(Parse(v).value)
  {
    var (numbers, e) := ReadNumbers(v, 0, 0, 0, 0).value;
    var p, q := NumbersLie(v, numbers, e);
  }

  /** On valid strings the comparison is a total preorder: antisymmetric in sign, transitive, and it
      ties exactly the strings that spell the same version. */
  lemma {:induction false} ComparedIsAPreorder(a: string, b: string, c: string)
    requires Parse(a).Some? && Parse(b).Some? && Parse(c).Some?
    ensures Compared(a, b) == -Compared(b, a) && (Compared(a, b) == 0 <==> Parse(a) == Parse(b))
    ensures Compared(a, b) >= 0 && Compared(b, c) >= 0 ==> Compared(a, c) >= 0
    ensures Compared(a, b) > 0 && Compared(b, c) > 0 ==> Compared(a, c) > 0
  {
    ParsedInRange(a);
    ParsedInRange(b);
    ParsedInRange(c);
    OrderIsTotal(Parse(a).value, Parse(b).value, Parse(c).value);
  }

  /** The larger numbers, compared from left to right. */
  predicate LargerNumbers(x: Numbers, y: Numbers) {
    x.major > y.major || (x.major == y.major && (x.minor > y.minor || (x.minor == y.minor && x.patch > y.patch)))
  }

  /** The precedence of section 11 of Semantic Versioning 2.0.0, as far as these versions go: the numbers
      decide first; at equal numbers a release is above its betas, and those are ordered by number. */
  predicate Above(x: Version, y: Version) {
    LargerNumbers(x.numbers, y.numbers)
    || (x.numbers == y.numbers
        && match (x.beta, y.beta)
           case (None, Some(_)) => true
           case (Some(m), Some(n)) => m > n
           case _ => false)
  }

  lemma {:induction false} OrderIsPrecedence(x: Version, y: Version)
    requires InRange(x) && InRange(y)
    ensures Order(x, y) in {-1, 0, 1} && (Order(x, y) == 1 <==> Above(x, y)) && (Order(x, y) == -1 <==> Above(y, x))
  {
  }

  /** The comparison is that precedence, whatever the two strings that spell the versions look like. */
  lemma {:induction false} ComparedIsPrecedence(a: string, b: string, x: Version, y: Version)
    requires Spells(a, x) && Spells(b, y)
    ensures Compared(a, b) == 1 <==> Above(x, y)
    ensures Compared(a, b) == -1 <==> Above(y, x)
    ensures Compared(a, b) == 0 <==> x == y
  {
    ParseIsExact(a, x);
    ParseIsExact(b, y);
    ParsedInRange(a);
    ParsedInRange(b);
    OrderIsPrecedence(x, y);
    OrderIsTotal(x, y, x);
  }

  /** And a string that spells no version ties with everything. */
  lemma {:induction false} UnspelledTies(a: string, b: string)
    requires !exists x, y :: Spells(a, x) && Spells(b, y)
    ensures Compared(a, b) == 0
  {
    if Parse(a).Some? && Parse(b).Some? {
      ParseIsExact(a, Parse(a).value);
      ParseIsExact(b, Parse(b).value);
      assert false;
    }
  }

  /** The C library's conversion: the digits from `p` on, and where they end. */
  function StrToUl(v: CString, p: nat): (r: (nat, nat))
    requires p <= |v|
    ensures p <= r.1 <= |v|
  {
    (Value(v[p..DigitsEnd(v, p)]), DigitsEnd(v, p))
  }

  lemma {:induction false} FirstDifferenceDecides(x: Version, y: Version, i: nat)
    requires i < 3 && (forall k | 0 <= k < i :: Part(x.numbers, k) == Part(y.numbers, k))
    requires Part(x.numbers, i) != Part(y.numbers, i)
    ensures Order(x, y) == Sign(Part(x.numbers, i), Part(y.numbers, i))
  {
    assert i > 0 ==> Part(x.numbers, 0) == Part(y.numbers, 0);
    assert i > 1 ==> Part(x.numbers, 1) == Part(y.numbers, 1);
  }

  method Compare(a: CString, b: CString) returns (r: int)
    ensures r == Compared(a, b)
  {
    var aValid := IsValid(a);
    var bValid := IsValid(b);
    if !aValid || !bValid { return 0; }
    ghost var x, y := Parse(a).value, Parse(b).value;
    ParsedInRange(a);
    ParsedInRange(b);
    ghost var ae, be := ReadNumbers(a, 0, 0, 0, 0).value.1, ReadNumbers(b, 0, 0, 0, 0).value.1;
    var decided, p, q := CompareNumbers(a, b, x.numbers, y.numbers, ae, be);
    if decided != 0 {
      assert Order(Version(x.numbers, x.beta), Version(y.numbers, y.beta)) == decided;
      return decided;
    }
    r := CompareTails(a, b, p, q);
  }

  /** The reading position before number `i` of a string whose numbers are `x` and end at `end`. */
  ghost predicate Reading(v: string, p: nat, i: nat, x: Numbers, end: nat) {
    && p <= |v| && i <= 3
    && (i < 3 ==> ReadNumbers(v, p, i, if i == 0 then 0 else x.major, if i < 2 then 0 else x.minor) == Some((x, end)))
    && (i == 3 ==> p == end)
  }

  /** Number `i` of a valid string, and the position behind it and its dot. */
  method TakePart(v: CString, p: nat, i: nat, ghost x: Numbers, ghost end: nat) returns (n: nat, next: nat)
    requires Reading(v, p, i, x, end) && i < 3
    ensures n == Part(x, i) && Reading(v, next, i + 1, x, end)
  {
    NextPart(v, p, i, if i == 0 then 0 else x.major, if i < 2 then 0 else x.minor, x, end);
    var number := StrToUl(v, p);
    n, next := number.0, number.1;
    if i < 2 { next := next + 1; }
  }

  /** Whatever follows the numbers, two versions with these numbers compare as `r`. */
  ghost predicate NumbersDecide(x: Numbers, y: Numbers, r: int) {
    forall beta, beta' :: Order(Version(x, beta), Version(y, beta')) == r
  }

  lemma {:induction false} DifferenceDecides(x: Numbers, y: Numbers, i: nat)
    requires i < 3 && (forall k | 0 <= k < i :: Part(x, k) == Part(y, k)) && Part(x, i) != Part(y, i)
    ensures NumbersDecide(x, y, Sign(Part(x, i), Part(y, i)))
  {
    forall beta, beta'
      ensures Order(Version(x, beta), Version(y, beta')) == Sign(Part(x, i), Part(y, i))
    {
      FirstDifferenceDecides(Version(x, beta), Version(y, beta'), i);
    }
  }

  method CompareNumbers(a: CString, b: CString, ghost x: Numbers, ghost y: Numbers, ghost ae: nat, ghost be: nat)
    returns (r: int, p: nat, q: nat)
    requires ReadNumbers(a, 0, 0, 0, 0) == Some((x, ae)) && ReadNumbers(b, 0, 0, 0, 0) == Some((y, be))
    ensures r == 0 ==> x == y && p == ae && q == be
    ensures r != 0 ==> NumbersDecide(x, y, r)
  {
    p, q := 0, 0;
    for i := 0 to 3
      invariant Reading(a, p, i, x, ae) && Reading(b, q, i, y, be)
      invariant forall k | 0 <= k < i :: Part(x, k) == Part(y, k)
    {
      var av, p' := TakePart(a, p, i, x, ae);
      var bv, q' := TakePart(b, q, i, y, be);
      if av != bv {
        DifferenceDecides(x, y, i);
        return if av > bv then 1 else -1, p, q;
      }
      p, q := p', q';
    }
    assert Part(x, 0) == Part(y, 0) && Part(x, 1) == Part(y, 1) && Part(x, 2) == Part(y, 2);
    r := 0;
  }

  method CompareTails(a: CString, b: CString, p: nat, q: nat) returns (r: int)
    requires p <= |a| && ReadTail(a, p).Some? && q <= |b| && ReadTail(b, q).Some?
    ensures r == Sign(BetaRank(ReadTail(a, p).value), BetaRank(ReadTail(b, q).value))
  {
    if p == |a| || q == |b| {
      return if p == |a| && q == |b| then 0 else if p == |a| then 1 else -1;
    }
    var av, bv := StrToUl(a, p + BETA_LENGTH).0, StrToUl(b, q + BETA_LENGTH).0;
    return if av == bv then 0 else if av > bv then 1 else -1;
  }

  // ---- writing ----

  function Decimal(n: nat): string {
    if n < 10 then [Digit(n)] else Decimal(n / 10) + [Digit(n % 10)]
  }

  function Digit(d: nat): (c: char)
    requires d < 10
    ensures IsDigit(c) && DigitValue(c) == d
  {
    (d + 48) as char
  }

  lemma {:induction false} DecimalIsNumeral(n: nat)
    requires n <= PART_MAX
    ensures Numeral(Decimal(n), n)
    ensures |Decimal(n)| <= 5
  {
    DecimalReadsBack(n);
    DecimalLength(n, 5);
  }

  lemma {:induction false} DecimalReadsBack(n: nat)
    ensures Decimal(n) != "" && AllDigits(Decimal(n)) && Value(Decimal(n)) == n
  {
    if n < 10 {
      assert Decimal(n)[..0] == "";
    } else {
      DecimalReadsBack(n / 10);
      assert Decimal(n)[..|Decimal(n)| - 1] == Decimal(n / 10);
    }
  }

  function PowerOfTen(k: nat): nat {
    if k == 0 then 1 else 10 * PowerOfTen(k - 1)
  }

  lemma {:induction false} DecimalLength(n: nat, k: nat)
    requires k > 0 && n < PowerOfTen(k)
    ensures |Decimal(n)| <= k
  {
    if n >= 10 { DecimalLength(n / 10, k - 1); }
  }

  function Show(x: Version): string {
    Decimal(x.numbers.major) + "." + Decimal(x.numbers.minor) + "." + Decimal(x.numbers.patch)
    + match x.beta { case None => "" case Some(n) => BETA + Decimal(n) }
  }

  /** Every version in range can be written down, and reads back as itself. */
  lemma {:induction false} ShownIsParsed(x: Version)
    requires InRange(x)
    ensures Parse(Show(x)) == Some(x)
  {
    DecimalIsNumeral(x.numbers.major);
    DecimalIsNumeral(x.numbers.minor);
    DecimalIsNumeral(x.numbers.patch);
    var d := match x.beta { case None => "" case Some(n) => BETA + Decimal(n) };
    if x.beta.Some? {
      DecimalIsNumeral(x.beta.value);
      assert d[..BETA_LENGTH] == BETA && d[BETA_LENGTH..] == Decimal(x.beta.value);
    }
    SpelledIsParsed(Show(x), x, Decimal(x.numbers.major), Decimal(x.numbers.minor), Decimal(x.numbers.patch), d);
  }

  /** The comparison is transitive through a string exactly if that one is valid: an invalid one ties
      with everything, and so links any two versions. */
  lemma {:induction false} TransitiveExactlyThroughValidStrings(b: string)
    ensures (forall a, c | Compared(a, b) >= 0 && Compared(b, c) >= 0 :: Compared(a, c) >= 0) <==> Parse(b).Some?
  {
    if Parse(b).Some? {
      forall a, c | Compared(a, b) >= 0 && Compared(b, c) >= 0 ensures Compared(a, c) >= 0 {
        if Parse(a).Some? && Parse(c).Some? { ComparedIsAPreorder(a, b, c); }
      }
    } else {
      var a, c := AscendingPair();
      assert Compared(a, b) == 0 && Compared(b, c) == 0 && Compared(a, c) == -1;
    }
  }

  /** Beyond valid strings the comparison is not even transitive: one invalid string ties with everything. */
  lemma {:induction false} InvalidStringsBreakTransitivity()
    ensures exists a, b, c :: Compared(a, b) == 0 && Compared(b, c) == 0 && Compared(a, c) == -1
  {
    var a, c := AscendingPair();
    assert ReadNumber("v", 0) == None;
    assert Parse("v") == None;
    assert Compared(a, "v") == 0 && Compared("v", c) == 0 && Compared(a, c) == -1;
  }

  lemma {:induction false} AscendingPair() returns (a: string, c: string)
    ensures Parse(a).Some? && Parse(c).Some? && Compared(a, c) == -1
  {
    var one, two := Version(Numbers(1, 0, 0), None), Version(Numbers(2, 0, 0), None);
    ShownIsParsed(one);
    ShownIsParsed(two);
    a, c := Show(one), Show(two);
  }
}
