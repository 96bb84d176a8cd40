/** The version order that decides whether an upgrade is offered: internal/upgrade/security.go. */
module Versions {
  import opened ByteStrings
  import opened GoStrings

  const TWO64: nat := 0x1_0000_0000_0000_0000

  datatype Version = Version(numbers: seq<nat>, pre: string) {
    predicate Valid() {
      |numbers| == 3
    }
  }

  // ---------------------------------------------------------------- numbers

  predicate IsDigit(c: char) {
    '0' <= c <= '9'
  }

  predicate AllDigits(s: string) {
    forall i :: 0 <= i < |s| ==> IsDigit(s[i])
  }

  function DigitsValue(s: string): nat
    requires AllDigits(s)
  {
    if s == "" then 0 else 10 * DigitsValue(s[..|s| - 1]) + (s[|s| - 1] as int - '0' as int)
  }

  /** strconv.ParseUint(s, 10, 64). */
  function ParseUint(s: string): (r: Option<nat>)
    ensures r.Some? ==> s != "" && AllDigits(s)
  {
    if s == "" || !AllDigits(s) then None
    else if DigitsValue(s) >= TWO64 then None
    else Some(DigitsValue(s))
  }

  /** A numeric identifier or a version number that starts with 0 is 0 itself. */
  predicate NoLeadingZero(s: string) {
    s != "" && AllDigits(s) && s[0] == '0' ==> s == "0"
  }

  lemma {:induction false} CanonicalPositive(s: string)
    requires s != "" && AllDigits(s) && s[0] != '0'
    ensures DigitsValue(s) > 0
  {
    if |s| > 1 {
      CanonicalPositive(s[..|s| - 1]);
    }
  }

  /** A number written as Go writes it is read back, if it has 64 bits. */
  lemma {:induction false} ReadsDecimal(n: nat)
    ensures AllDigits(Decimal(n)) && Decimal(n) != "" && DigitsValue(Decimal(n)) == n
    ensures ParseUint(Decimal(n)) == if n < TWO64 then Some(n) else None
  {
    if n >= 10 {
      ReadsDecimal(n / 10);
      assert Decimal(n)[..|Decimal(n)| - 1] == Decimal(n / 10);
    } else {
      assert Decimal(n)[..0] == "";
    }
  }

  /** Without leading zeros a number has one spelling. */
  lemma {:induction false} DigitsInjective(a: string, b: string)
    requires AllDigits(a) && AllDigits(b) && a != "" && b != "" && NoLeadingZero(a) && NoLeadingZero(b)
    requires DigitsValue(a) == DigitsValue(b)
    ensures a == b
  {
    var a1, b1 := a[..|a| - 1], b[..|b| - 1];
    assert DigitsValue(a1) == DigitsValue(b1) && a[|a| - 1] == b[|b| - 1];
    if a1 == "" && b1 == "" {
    } else if a1 == "" {
      CanonicalPositive(b1);
    } else if b1 == "" {
      CanonicalPositive(a1);
    } else {
      DigitsInjective(a1, b1);
    }
    assert a == a1 + [a[|a| - 1]] && b == b1 + [b[|b| - 1]];
  }

  // ---------------------------------------------------------------- comparing identifiers

  /** The switch over two differing identifiers, 0 for equal ones. */
  function CompareIds(a: string, b: string): (c: int)
    ensures -1 <= c <= 1
    ensures c == 0 <==> a == b
  {
    if a == b then 0
    else
      match (ParseUint(a), ParseUint(b))
      case (Some(x), Some(y)) => if x < y then -1 else 1
      case (Some(_), None) => -1
      case (None, Some(_)) => 1
      case (None, None) => CompareStrings(a, b)
  }

  /** Two spellings of one number: the only identifiers the switch does not order. */
  predicate Tied(a: string, b: string) {
    a != b && ParseUint(a).Some? && ParseUint(a) == ParseUint(b)
  }

  lemma CompareIdsAntisymmetricIff(a: string, b: string)
    ensures CompareIds(b, a) == -CompareIds(a, b) <==> !Tied(a, b)
  {
    CompareStringsAntisymmetric(a, b);
  }

  lemma NoLeadingZeroNoTie(a: string, b: string)
    requires NoLeadingZero(a) && NoLeadingZero(b)
    ensures !Tied(a, b)
  {
    if Tied(a, b) {
      DigitsInjective(a, b);
    }
  }

  lemma CompareIdsTransitive(a: string, b: string, c: string)
    requires NoLeadingZero(a) && NoLeadingZero(b) && NoLeadingZero(c)
    requires CompareIds(a, b) <= 0 && CompareIds(b, c) <= 0
    ensures CompareIds(a, c) <= 0
  {
    NoLeadingZeroNoTie(a, b);
    NoLeadingZeroNoTie(b, c);
    NoLeadingZeroNoTie(a, c);
    if ParseUint(a).None? && ParseUint(b).None? && ParseUint(c).None? {
      CompareStringsTransitive(a, b, c);
    }
  }

  // ---------------------------------------------------------------- comparing versions

  /** strings.Split(s, "."). */
  function Split(s: string): (r: seq<string>)
    ensures |r| >= 1
    decreases |s|
  {
    if s == "" then [""]
    else
      var rest := Split(s[1..]);
      if s[0] == '.' then [""] + rest else [[s[0]] + rest[0]] + rest[1..]
  }

  function Join(r: seq<string>): string
    requires |r| >= 1
  {
    if |r| == 1 then r[0] else r[0] + "." + Join(r[1..])
  }

  lemma {:induction false} JoinSplit(s: string)
    ensures Join(Split(s)) == s
    decreases |s|
  {
    if s != "" {
      JoinSplit(s[1..]);
      var rest := Split(s[1..]);
      if s[0] == '.' {
        assert ([""] + rest)[1..] == rest;
      } else {
        var first := [s[0]] + rest[0];
        assert ([first] + rest[1..])[1..] == rest[1..];
        if |rest| > 1 {
          assert first + "." + Join(rest[1..]) == [s[0]] + (rest[0] + "." + Join(rest[1..]));
        }
      }
    }
  }

  /** The parts are what stands between the dots. */
  lemma {:induction false} SplitsAtDots(s: string, i: nat)
    requires i < |Split(s)|
    ensures '.' !in Split(s)[i]
    decreases |s|
  {
    if s != "" {
      var rest := Split(s[1..]);
      if s[0] == '.' {
        if i > 0 {
          SplitsAtDots(s[1..], i - 1);
        }
      } else {
        SplitsAtDots(s[1..], i);
        assert i > 0 ==> Split(s)[i] == rest[i];
      }
    }
  }

  /** Identifier by identifier; a list that is a prefix of the other comes first. */
  function CompareLists(a: seq<string>, b: seq<string>): (c: int)
    ensures -1 <= c <= 1
    ensures c == 0 <==> a == b
    decreases |a|
  {
    if a == [] || b == [] then (if |a| < |b| then -1 else if |a| > |b| then 1 else 0)
    else if CompareIds(a[0], b[0]) != 0 then CompareIds(a[0], b[0])
    else
      assert a == [a[0]] + a[1..] && b == [b[0]] + b[1..];
      CompareLists(a[1..], b[1..])
  }

  function CompareNumbers(a: seq<nat>, b: seq<nat>): (c: int)
    requires |a| == |b|
    ensures -1 <= c <= 1
    ensures c == 0 <==> a == b
  {
    if a == [] then 0
    else if a[0] < b[0] then -1
    else if a[0] > b[0] then 1
    else
      assert a == [a[0]] + a[1..] && b == [b[0]] + b[1..];
      CompareNumbers(a[1..], b[1..])
  }

  function ComparePre(a: string, b: string): int {
    if a == b then 0
    else if a == "" then 1
    else if b == "" then -1
    else CompareLists(Split(a), Split(b))
  }

  function Compare(a: Version, b: Version): int
    requires a.Valid() && b.Valid()
  {
    if CompareNumbers(a.numbers, b.numbers) != 0 then CompareNumbers(a.numbers, b.numbers)
    else ComparePre(a.pre, b.pre)
  }

  method CompareParsed(a: Version, b: Version) returns (c: int)
    requires a.Valid() && b.Valid()
    ensures c == Compare(a, b)
  {
    var i := 0;
    while i < 3
      invariant 0 <= i <= 3
      invariant CompareNumbers(a.numbers, b.numbers) == CompareNumbers(a.numbers[i..], b.numbers[i..])
    {
      if a.numbers[i] < b.numbers[i] {
        return -1;
      }
      if a.numbers[i] > b.numbers[i] {
        return 1;
      }
      i := i + 1;
    }
    if a.pre == b.pre {
      return 0;
    }
    if a.pre == "" {
      return 1;
    }
    if b.pre == "" {
      return -1;
    }
    c := ComparePrereleases(a.pre, b.pre);
  }

  lemma SameSoFar(a: seq<string>, b: seq<string>, i: nat)
    requires i < |a| && i < |b| && a[i] == b[i] && a[..i] == b[..i]
    ensures a[..i + 1] == b[..i + 1] && CompareLists(a[i..], b[i..]) == CompareLists(a[i + 1..], b[i + 1..])
  {
    assert a[i..][1..] == a[i + 1..] && b[i..][1..] == b[i + 1..];
    assert a[..i + 1] == a[..i] + [a[i]] && b[..i + 1] == b[..i] + [b[i]];
  }

  method ComparePrereleases(a: string, b: string) returns (c: int)
    requires a != b
    ensures c == CompareLists(Split(a), Split(b))
  {
    JoinSplit(a);
    JoinSplit(b);
    var ap, bp := Split(a), Split(b);
    var i := 0;
    while i < |ap| && i < |bp|
      invariant 0 <= i <= |ap| && i <= |bp|
      invariant ap[..i] == bp[..i]
      invariant CompareLists(ap, bp) == CompareLists(ap[i..], bp[i..])
    {
      if ap[i] == bp[i] {
        SameSoFar(ap, bp, i);
        i := i + 1;
        continue;
      }
      var an, bn := ParseUint(ap[i]), ParseUint(bp[i]);
      if an.Some? && bn.Some? {
        return if an.value < bn.value then -1 else 1;
      } else if an.Some? {
        return -1;
      } else if bn.Some? {
        return 1;
      }
      return if CompareStrings(ap[i], bp[i]) < 0 then -1 else 1;
    }
    assert i == |ap| ==> ap[..i] == ap;
    assert i == |bp| ==> bp[..i] == bp;
    c := if |ap| < |bp| then -1 else 1;
  }

  // ---------------------------------------------------------------- reading a version

  predicate IsSpace(c: char) {
    c == ' ' || '\t' <= c <= '\r'
  }

  /** strings.TrimSpace on the ASCII spaces. */
  function TrimSpace(s: string): string
    decreases |s|
  {
    if s != "" && IsSpace(s[0]) then TrimSpace(s[1..])
    else if s != "" && IsSpace(s[|s| - 1]) then TrimSpace(s[..|s| - 1])
    else s
  }

  predicate DigitsUpTo(s: string, k: nat) {
    k <= |s| && AllDigits(s[..k])
  }

  /** The longest prefix of digits. */
  function DigitRun(s: string): (k: nat)
    ensures DigitsUpTo(s, k) && (k < |s| ==> !IsDigit(s[k]))
  {
    if s == "" || !IsDigit(s[0]) then 0
    else
      var k := DigitRun(s[1..]);
      assert s[..k + 1] == [s[0]] + s[1..][..k];
      k + 1
  }

  /** The pattern (0|[1-9][0-9]*) at the start of s: how much it takes, 0 if it does not match. */
  function NumberRun(s: string): (k: nat)
    ensures DigitsUpTo(s, k)
  {
    if s != "" && s[0] == '0' then 1 else DigitRun(s)
  }

  predicate IsTailChar(c: char) {
    IsDigit(c) || 'A' <= c <= 'Z' || 'a' <= c <= 'z' || c == '.' || c == '-'
  }

  const DIGITS := "0123456789"
  const UPPER := "ABCDEFGHIJKLMNOPQRSTUVWXYZ"
  const LOWER := "abcdefghijklmnopqrstuvwxyz"

  lemma DigitIff(c: char)
    ensures IsDigit(c) <==> c in DIGITS
  {
    if IsDigit(c) {
      assert DIGITS[c as int - '0' as int] == c;
    }
  }

  lemma UpperIff(c: char)
    ensures 'A' <= c <= 'Z' <==> c in UPPER
  {
    if 'A' <= c <= 'Z' {
      assert UPPER[c as int - 'A' as int] == c;
    }
  }

  lemma LowerIff(c: char)
    ensures 'a' <= c <= 'z' <==> c in LOWER
  {
    if 'a' <= c <= 'z' {
      assert LOWER[c as int - 'a' as int] == c;
    }
  }

  /** The class of characters the pattern allows after the numbers. */
  lemma TailCharIff(c: char)
    ensures IsTailChar(c) <==> c in DIGITS || c in UPPER || c in LOWER || c == '.' || c == '-'
  {
    DigitIff(c);
    UpperIff(c);
    LowerIff(c);
  }

  predicate AllTail(s: string) {
    forall i :: 0 <= i < |s| ==> IsTailChar(s[i])
  }

  predicate TailUpTo(s: string, k: nat) {
    k <= |s| && AllTail(s[..k])
  }

  /** The pattern [0-9A-Za-z.-]+ at the start of s. */
  function TailRun(s: string): (k: nat)
    ensures TailUpTo(s, k) && (k < |s| ==> !IsTailChar(s[k]))
  {
    if s == "" || !IsTailChar(s[0]) then 0
    else
      var k := TailRun(s[1..]);
      assert s[..k + 1] == [s[0]] + s[1..][..k];
      k + 1
  }

  /** The groups of the version pattern: three numbers and the prerelease. Build metadata must match and is dropped. */
  function MatchVersion(s: string): (r: Option<(seq<string>, string)>)
    ensures r.Some? ==> |r.value.0| == 3
  {
    MatchNumbers(if s != "" && s[0] == 'v' then s[1..] else s, 3)
  }

  function MatchNumbers(s: string, left: nat): (r: Option<(seq<string>, string)>)
    requires left > 0
    ensures r.Some? ==> |r.value.0| == left
    decreases left
  {
    var k := NumberRun(s);
    if k == 0 then None
    else if left == 1 then
      match MatchTail(s[k..])
      case None => None
      case Some(pre) => Some(([s[..k]], pre))
    else if k == |s| || s[k] != '.' then None
    else
      match MatchNumbers(s[k + 1..], left - 1)
      case None => None
      case Some((numbers, pre)) => Some(([s[..k]] + numbers, pre))
  }

  function MatchTail(s: string): Option<string> {
    if s != "" && s[0] == '-' then
      var k := TailRun(s[1..]);
      if k == 0 || !MatchBuild(s[1 + k..]) then None else Some(s[1..1 + k])
    else if MatchBuild(s) then Some("")
    else None
  }

  predicate MatchBuild(s: string) {
    s == "" || (s[0] == '+' && |s| > 1 && TailRun(s[1..]) == |s| - 1)
  }

  function ParseAll(groups: seq<string>): (r: Option<seq<nat>>)
    ensures r.Some? ==> |r.value| == |groups|
  {
    if groups == [] then Some([])
    else
      match (ParseUint(groups[0]), ParseAll(groups[1..]))
      case (Some(v), Some(more)) => Some([v] + more)
      case _ => None
  }

  /** What parseVersion returns: the pattern's numbers, if each is below 2^64, and the prerelease. */
  function Parsed(value: string): (r: Option<Version>)
    ensures r.Some? ==> r.value.Valid()
  {
    match MatchVersion(TrimSpace(value))
    case None => None
    case Some((groups, pre)) =>
      match ParseAll(groups)
      case None => None
      case Some(numbers) => Some(Version(numbers, pre))
  }

  method ParseVersion(value: string) returns (out: Option<Version>)
    ensures out == Parsed(value)
  {
    var matched := MatchVersion(TrimSpace(value));
    if matched.None? {
      return None;
    }
    var (groups, pre) := matched.value;
    var numbers: seq<nat> := [];
    assert groups[0..] == groups;
    assert ParseAll(groups).Some? ==> numbers + ParseAll(groups).value == ParseAll(groups).value;
    for i := 0 to 3
      invariant |numbers| == i
      invariant var later := ParseAll(groups[i..]);
        ParseAll(groups) == if later.None? then None else Some(numbers + later.value)
    {
      assert groups[i..][1..] == groups[i + 1..];
      var v := ParseUint(groups[i]);
      if v.None? {
        return None;
      }
      if ParseAll(groups[i + 1..]).Some? {
        Assoc(numbers, [v.value], ParseAll(groups[i + 1..]).value);
      }
      numbers := numbers + [v.value];
    }
    assert numbers + [] == numbers;
    out := Some(Version(numbers, pre));
  }

  method CompareVersions(left: string, right: string) returns (c: int, ok: bool)
    ensures ok <==> Parsed(left).Some? && Parsed(right).Some?
    ensures c == if ok then Compare(Parsed(left).value, Parsed(right).value) else 0
  {
    var a := ParseVersion(left);
    if a.None? {
      return 0, false;
    }
    var b := ParseVersion(right);
    if b.None? {
      return 0, false;
    }
    c := CompareParsed(a.value, b.value);
    ok := true;
  }

  // ---------------------------------------------------------------- the order

  /** Equal exactly when numbers and prerelease are equal, leading zeros or not. */
  lemma ComparesEqualIff(a: Version, b: Version)
    requires a.Valid() && b.Valid()
    ensures Compare(a, b) == 0 <==> a == b
  {
    JoinSplit(a.pre);
    JoinSplit(b.pre);
  }

  /** The lists first differ in two spellings of one number. */
  predicate FirstDifferenceTied(a: seq<string>, b: seq<string>)
    decreases |a|
  {
    a != [] && b != [] && (if a[0] == b[0] then FirstDifferenceTied(a[1..], b[1..]) else Tied(a[0], b[0]))
  }

  lemma {:induction false} CompareListsAntisymmetricIff(a: seq<string>, b: seq<string>)
    ensures CompareLists(b, a) == -CompareLists(a, b) <==> !FirstDifferenceTied(a, b)
    decreases |a|
  {
    if a != [] && b != [] {
      CompareIdsAntisymmetricIff(a[0], b[0]);
      if a[0] == b[0] {
        CompareListsAntisymmetricIff(a[1..], b[1..]);
      }
    }
  }

  lemma {:induction false} CompareNumbersAntisymmetric(a: seq<nat>, b: seq<nat>)
    requires |a| == |b|
    ensures CompareNumbers(b, a) == -CompareNumbers(a, b)
  {
    if a != [] && a[0] == b[0] {
      CompareNumbersAntisymmetric(a[1..], b[1..]);
    }
  }

  /** Exactly when the order is antisymmetric: everywhere but where 01 meets 1, which each claim to be the newer. */
  lemma AntisymmetricIff(a: Version, b: Version)
    requires a.Valid() && b.Valid()
    ensures Compare(b, a) == -Compare(a, b)
      <==> !(a.numbers == b.numbers && a.pre != "" && b.pre != "" && FirstDifferenceTied(Split(a.pre), Split(b.pre)))
  {
    CompareNumbersAntisymmetric(a.numbers, b.numbers);
    CompareListsAntisymmetricIff(Split(a.pre), Split(b.pre));
    JoinSplit(a.pre);
    JoinSplit(b.pre);
    if a.pre == b.pre {
      NeverTiedWithItself(Split(a.pre));
    }
  }

  lemma {:induction false} NeverTiedWithItself(a: seq<string>)
    ensures !FirstDifferenceTied(a, a)
  {
    if a != [] {
      NeverTiedWithItself(a[1..]);
    }
  }

  lemma LeadingZeroBreaksTheOrder()
    ensures var a, b := Version([1, 0, 0], "1"), Version([1, 0, 0], "01"); Compare(a, b) == 1 && Compare(b, a) == 1
  {
    var x, y := "1", "01";
    assert Split(x) == [x] by {
      assert x[1..] == "" && Split("") == [""];
      assert [x[0]] + "" == x;
    }
    assert Split(y) == [y] by {
      assert y[1..] == x && [y[0]] + x == y;
    }
    assert DigitsValue(x) == 1 by {
      assert x[..0] == "";
    }
    assert DigitsValue(y) == 1 by {
      assert y[..1] == "0";
      assert "0"[..0] == "";
      assert DigitsValue("0") == 0;
    }
  }

  predicate Canonical(v: Version) {
    v.Valid() && forall i :: 0 <= i < |Split(v.pre)| ==> NoLeadingZero(Split(v.pre)[i])
  }

  lemma {:induction false} NoTieInLists(a: seq<string>, b: seq<string>)
    requires forall i :: 0 <= i < |a| ==> NoLeadingZero(a[i])
    requires forall i :: 0 <= i < |b| ==> NoLeadingZero(b[i])
    ensures !FirstDifferenceTied(a, b)
    decreases |a|
  {
    if a != [] && b != [] {
      NoLeadingZeroNoTie(a[0], b[0]);
      if a[0] == b[0] {
        NoTieInLists(a[1..], b[1..]);
      }
    }
  }

  lemma CanonicalAntisymmetric(a: Version, b: Version)
    requires Canonical(a) && Canonical(b)
    ensures Compare(b, a) == -Compare(a, b)
  {
    AntisymmetricIff(a, b);
    NoTieInLists(Split(a.pre), Split(b.pre));
  }

  lemma {:induction false} CompareListsTransitive(a: seq<string>, b: seq<string>, c: seq<string>)
    requires forall i :: 0 <= i < |a| ==> NoLeadingZero(a[i])
    requires forall i :: 0 <= i < |b| ==> NoLeadingZero(b[i])
    requires forall i :: 0 <= i < |c| ==> NoLeadingZero(c[i])
    requires CompareLists(a, b) <= 0 && CompareLists(b, c) <= 0
    ensures CompareLists(a, c) <= 0
    decreases |a|
  {
    if a != [] && b != [] && c != [] {
      CompareIdsTransitive(a[0], b[0], c[0]);
      if a[0] == b[0] == c[0] {
        CompareListsTransitive(a[1..], b[1..], c[1..]);
      } else if a[0] == c[0] {
        CompareIdsAntisymmetricIff(a[0], b[0]);
        NoLeadingZeroNoTie(a[0], b[0]);
      }
    }
  }

  lemma {:induction false} CompareNumbersTransitive(a: seq<nat>, b: seq<nat>, c: seq<nat>)
    requires |a| == |b| == |c|
    requires CompareNumbers(a, b) <= 0 && CompareNumbers(b, c) <= 0
    ensures CompareNumbers(a, c) <= 0
    ensures CompareNumbers(a, c) == 0 ==> a == b == c
  {
    if a != [] && a[0] == b[0] == c[0] {
      CompareNumbersTransitive(a[1..], b[1..], c[1..]);
      assert a == [a[0]] + a[1..] && b == [b[0]] + b[1..] && c == [c[0]] + c[1..];
    }
  }

  lemma CanonicalTransitive(a: Version, b: Version, c: Version)
    requires Canonical(a) && Canonical(b) && Canonical(c)
    requires Compare(a, b) <= 0 && Compare(b, c) <= 0
    ensures Compare(a, c) <= 0
  {
    CompareNumbersTransitive(a.numbers, b.numbers, c.numbers);
    if a.numbers == b.numbers == c.numbers && a.pre != b.pre && b.pre != c.pre && a.pre != c.pre
      && a.pre != "" && b.pre != "" && c.pre != "" {
      CompareListsTransitive(Split(a.pre), Split(b.pre), Split(c.pre));
    }
  }

  // ---------------------------------------------------------------- Semantic Versioning 2.0.0, section 11

  /** An identifier as section 11 reads it: digits only are a number of any size. */
  datatype Identifier = Numeric(value: nat) | Alphanumeric(text: string)

  function Classify(s: string): Identifier {
    if s != "" && AllDigits(s) then Numeric(DigitsValue(s)) else Alphanumeric(s)
  }

  /** 11.4.1 to 11.4.3. */
  predicate IdentifierPrecedes(a: Identifier, b: Identifier) {
    match (a, b)
    case (Numeric(x), Numeric(y)) => x < y
    case (Numeric(_), Alphanumeric(_)) => true
    case (Alphanumeric(_), Numeric(_)) => false
    case (Alphanumeric(x), Alphanumeric(y)) => CompareStrings(x, y) < 0
  }

  /** 11.4: the first difference decides; 11.4.4: if there is none, the shorter list is the lower. */
  ghost predicate PrereleasePrecedes(a: seq<Identifier>, b: seq<Identifier>) {
    exists k :: 0 <= k <= |a| && k <= |b| && a[..k] == b[..k] && FirstDifferenceAt(a, b, k)
  }

  predicate FirstDifferenceAt(a: seq<Identifier>, b: seq<Identifier>, k: nat)
    requires k <= |a| && k <= |b|
  {
    if k == |a| then k < |b| else k < |b| && IdentifierPrecedes(a[k], b[k])
  }

  function Identifiers(pre: string): (r: seq<Identifier>)
    ensures |r| == |Split(pre)|
  {
    seq(|Split(pre)|, i requires 0 <= i < |Split(pre)| => Classify(Split(pre)[i]))
  }

  /** 11.1 to 11.4. */
  ghost predicate Precedes(a: Version, b: Version)
    requires a.Valid() && b.Valid()
  {
    || (exists k :: 0 <= k < 3 && a.numbers[..k] == b.numbers[..k] && a.numbers[k] < b.numbers[k])
    || (a.numbers == b.numbers && a.pre != ""
        && (b.pre == "" || PrereleasePrecedes(Identifiers(a.pre), Identifiers(b.pre))))
  }

  /** Numeric identifiers are below 2^64 and have no leading zeros. */
  predicate Readable(s: string) {
    s != "" && AllDigits(s) ==> NoLeadingZero(s) && DigitsValue(s) < TWO64
  }

  lemma CompareIdsAgrees(a: string, b: string)
    requires Readable(a) && Readable(b)
    ensures CompareIds(a, b) < 0 <==> IdentifierPrecedes(Classify(a), Classify(b))
    ensures a == b <==> Classify(a) == Classify(b)
  {
    if a != "" && b != "" && AllDigits(a) && AllDigits(b) && DigitsValue(a) == DigitsValue(b) {
      DigitsInjective(a, b);
    }
  }

  function ClassifyAll(a: seq<string>): (r: seq<Identifier>)
    ensures |r| == |a|
  {
    seq(|a|, i requires 0 <= i < |a| => Classify(a[i]))
  }

  lemma {:induction false} CompareListsAgrees(a: seq<string>, b: seq<string>)
    requires forall i :: 0 <= i < |a| ==> Readable(a[i])
    requires forall i :: 0 <= i < |b| ==> Readable(b[i])
    ensures CompareLists(a, b) < 0 <==> PrereleasePrecedes(ClassifyAll(a), ClassifyAll(b))
    decreases |a|
  {
    var x, y := ClassifyAll(a), ClassifyAll(b);
    if a == [] || b == [] {
      assert |a| < |b| ==> x[..0] == y[..0] && FirstDifferenceAt(x, y, 0);
    } else {
      CompareIdsAgrees(a[0], b[0]);
      if a[0] != b[0] {
        assert IdentifierPrecedes(x[0], y[0]) ==> x[..0] == y[..0] && FirstDifferenceAt(x, y, 0);
        forall k | 0 < k <= |x| && k <= |y| && x[..k] == y[..k] ensures false {
          SamePrefix(x, y, k);
        }
      } else {
        CompareListsAgrees(a[1..], b[1..]);
        assert ClassifyAll(a[1..]) == x[1..] && ClassifyAll(b[1..]) == y[1..];
        DropFirst(x, y);
      }
    }
  }

  lemma SamePrefix(x: seq<Identifier>, y: seq<Identifier>, k: nat)
    requires 0 < k <= |x| && k <= |y| && x[..k] == y[..k]
    ensures x[0] == y[0]
  {
    assert x[..k][0] == y[..k][0];
  }

  lemma TailPrecedes(x: seq<Identifier>, y: seq<Identifier>)
    requires x != [] && y != [] && x[0] == y[0] && PrereleasePrecedes(x, y)
    ensures PrereleasePrecedes(x[1..], y[1..])
  {
    CompareIdNotSelf(x[0]);
    var k :| 0 <= k <= |x| && k <= |y| && x[..k] == y[..k] && FirstDifferenceAt(x, y, k);
    assert x[1..][..k - 1] == x[..k][1..] == y[..k][1..] == y[1..][..k - 1];
    assert FirstDifferenceAt(x[1..], y[1..], k - 1);
  }

  lemma WholePrecedes(x: seq<Identifier>, y: seq<Identifier>)
    requires x != [] && y != [] && x[0] == y[0] && PrereleasePrecedes(x[1..], y[1..])
    ensures PrereleasePrecedes(x, y)
  {
    var k :| 0 <= k <= |x[1..]| && k <= |y[1..]|
      && x[1..][..k] == y[1..][..k] && FirstDifferenceAt(x[1..], y[1..], k);
    assert x[..k + 1] == [x[0]] + x[1..][..k];
    assert y[..k + 1] == [y[0]] + y[1..][..k];
    assert FirstDifferenceAt(x, y, k + 1);
  }

  lemma DropFirst(x: seq<Identifier>, y: seq<Identifier>)
    requires x != [] && y != [] && x[0] == y[0]
    ensures PrereleasePrecedes(x, y) <==> PrereleasePrecedes(x[1..], y[1..])
  {
    if PrereleasePrecedes(x, y) {
      TailPrecedes(x, y);
    }
    if PrereleasePrecedes(x[1..], y[1..]) {
      WholePrecedes(x, y);
    }
  }

  lemma CompareIdNotSelf(a: Identifier)
    ensures !IdentifierPrecedes(a, a)
  {
  }

  lemma CompareNumbersAgrees(a: seq<nat>, b: seq<nat>)
    requires |a| == |b| == 3
    ensures CompareNumbers(a, b) < 0 <==> exists k :: 0 <= k < 3 && a[..k] == b[..k] && a[k] < b[k]
  {
    var x, y := [a[0], a[1], a[2]], [b[0], b[1], b[2]];
    assert a == x && b == y;
    assert a[1..][1..] == a[2..] && b[1..][1..] == b[2..];
    if a[0] != b[0] {
      assert a[..0] == b[..0];
      assert forall k :: 0 < k < 3 ==> a[..k][0] == a[0] && b[..k][0] == b[0];
    } else if a[1] != b[1] {
      assert a[..1] == b[..1];
      assert a[..2][1] == a[1] && b[..2][1] == b[1];
    } else {
      assert a[..2] == b[..2];
      assert a[2..][1..] == [] && b[2..][1..] == [];
      assert CompareNumbers(a[1..], b[1..]) == CompareNumbers(a[2..], b[2..]);
    }
  }

  /** With identifiers the comparison can read, it is the precedence of the standard. */
  lemma AgreesWithSemver(a: Version, b: Version)
    requires a.Valid() && b.Valid()
    requires forall i :: 0 <= i < |Split(a.pre)| ==> Readable(Split(a.pre)[i])
    requires forall i :: 0 <= i < |Split(b.pre)| ==> Readable(Split(b.pre)[i])
    ensures Compare(a, b) < 0 <==> Precedes(a, b)
  {
    CompareNumbersAgrees(a.numbers, b.numbers);
    CompareListsAgrees(Split(a.pre), Split(b.pre));
    assert ClassifyAll(Split(a.pre)) == Identifiers(a.pre);
    assert ClassifyAll(Split(b.pre)) == Identifiers(b.pre);
    if a.numbers == b.numbers {
      assert forall k :: 0 <= k < 3 ==> a.numbers[k] == b.numbers[k];
    }
    JoinSplit(a.pre);
    JoinSplit(b.pre);
  }

  // ---------------------------------------------------------------- spellings of a version

  predicate IsNumber(s: string) {
    s != "" && AllDigits(s) && NoLeadingZero(s) && DigitsValue(s) < TWO64
  }

  function Spelled(v: bool, a: string, b: string, c: string, pre: string, build: string): string {
    (if v then "v" else "") + Body(a, b, c, pre, build)
  }

  function Body(a: string, b: string, c: string, pre: string, build: string): string {
    a + ("." + (b + ("." + (c + TailSpelled(pre, build)))))
  }

  lemma {:induction false} DigitRunOf(n: string, rest: string)
    requires AllDigits(n) && (rest == "" || !IsDigit(rest[0]))
    ensures DigitRun(n + rest) == |n|
  {
    if n == "" {
      assert n + rest == rest;
    } else {
      assert (n + rest)[1..] == n[1..] + rest;
      DigitRunOf(n[1..], rest);
    }
  }

  lemma NumberRunOf(n: string, rest: string)
    requires IsNumber(n) && (rest == "" || !IsDigit(rest[0]))
    ensures NumberRun(n + rest) == |n| && (n + rest)[..|n|] == n && (n + rest)[|n|..] == rest
  {
    DigitRunOf(n, rest);
    assert (n + rest)[0] == n[0];
  }

  lemma {:induction false} TailRunOf(t: string, rest: string)
    requires AllTail(t) && (rest == "" || !IsTailChar(rest[0]))
    ensures TailRun(t + rest) == |t|
  {
    if t == "" {
      assert t + rest == rest;
    } else {
      assert (t + rest)[1..] == t[1..] + rest;
      TailRunOf(t[1..], rest);
    }
  }

  function TailSpelled(pre: string, build: string): string {
    (if pre == "" then "" else "-" + pre) + (if build == "" then "" else "+" + build)
  }

  lemma MatchesTail(pre: string, build: string)
    requires AllTail(pre) && AllTail(build)
    ensures MatchTail(TailSpelled(pre, build)) == Some(pre)
  {
    var b := if build == "" then "" else "+" + build;
    if build != "" {
      assert b[1..] == build && build + "" == build;
      TailRunOf(build, "");
    }
    if pre != "" {
      var s := TailSpelled(pre, build);
      assert s[1..] == pre + b;
      TailRunOf(pre, b);
      assert s[1 + |pre|..] == b;
      assert s[1..1 + |pre|] == pre;
    } else {
      assert TailSpelled(pre, build) == b;
    }
  }

  lemma MatchesNumber(n: string, rest: string, left: nat, groups: seq<string>, pre: string)
    requires IsNumber(n) && left > 1
    requires MatchNumbers(rest, left - 1) == Some((groups, pre))
    ensures MatchNumbers(n + ("." + rest), left) == Some(([n] + groups, pre))
  {
    var tail := "." + rest;
    NumberRunOf(n, tail);
    assert tail[1..] == rest;
    assert (n + tail)[|n| + 1..] == rest;
  }

  lemma MatchesLast(c: string, pre: string, build: string)
    requires IsNumber(c) && AllTail(pre) && AllTail(build)
    ensures MatchNumbers(c + TailSpelled(pre, build), 1) == Some(([c], pre))
  {
    MatchesTail(pre, build);
    NumberRunOf(c, TailSpelled(pre, build));
  }

  lemma MatchesNumbers(a: string, b: string, c: string, pre: string, build: string)
    requires IsNumber(a) && IsNumber(b) && IsNumber(c) && AllTail(pre) && AllTail(build)
    ensures MatchNumbers(Body(a, b, c, pre, build), 3) == Some(([a, b, c], pre))
  {
    var tail := TailSpelled(pre, build);
    MatchesLast(c, pre, build);
    MatchesNumber(b, c + tail, 2, [c], pre);
    MatchesNumber(a, b + ("." + (c + tail)), 3, [b] + [c], pre);
    assert [a] + ([b] + [c]) == [a, b, c];
  }

  lemma NothingToTrim(s: string)
    requires s != "" && !IsSpace(s[0]) && !IsSpace(s[|s| - 1])
    ensures TrimSpace(s) == s
  {
  }

  /** Every spelling of the grammar is read back; an optional v and the build metadata make no difference. */
  lemma ReadsEverySpelling(v: bool, a: string, b: string, c: string, pre: string, build: string)
    requires IsNumber(a) && IsNumber(b) && IsNumber(c) && AllTail(pre) && AllTail(build)
    ensures Parsed(Spelled(v, a, b, c, pre, build))
         == Some(Version([DigitsValue(a), DigitsValue(b), DigitsValue(c)], pre))
  {
    var body := Body(a, b, c, pre, build);
    MatchesNumbers(a, b, c, pre, build);
    SpelledEnds(a, b, c, pre, build);
    SpelledStarts(v, body);
    ParsesThree(a, b, c);
  }

  lemma ParsesThree(a: string, b: string, c: string)
    requires IsNumber(a) && IsNumber(b) && IsNumber(c)
    ensures ParseAll([a, b, c]) == Some([DigitsValue(a), DigitsValue(b), DigitsValue(c)])
  {
    var x: nat, y: nat, z: nat := DigitsValue(a), DigitsValue(b), DigitsValue(c);
    var none: seq<string> := [];
    assert [c][1..] == none && [b, c][1..] == [c] && [a, b, c][1..] == [b, c];
    assert [z] + [] == [z] && [y] + [z] == [y, z] && [x] + [y, z] == [x, y, z];
    assert ParseUint(c) == Some(z) && ParseUint(b) == Some(y) && ParseUint(a) == Some(x);
    assert ParseAll(none) == Some([]);
    assert ParseAll([c]) == Some([z]);
    assert ParseAll([b, c]) == Some([y, z]);
  }

  lemma SpelledStarts(v: bool, body: string)
    requires body != "" && IsDigit(body[0]) && !IsSpace(body[|body| - 1])
    ensures var s := (if v then "v" else "") + body;
      MatchVersion(TrimSpace(s)) == MatchNumbers(body, 3)
  {
    var s := (if v then "v" else "") + body;
    if v {
      assert s[1..] == body;
    } else {
      assert s == body;
    }
    NothingToTrim(s);
  }

  lemma SpelledEnds(a: string, b: string, c: string, pre: string, build: string)
    requires IsNumber(a) && IsNumber(b) && IsNumber(c) && AllTail(pre) && AllTail(build)
    ensures var body := Body(a, b, c, pre, build);
      body != "" && IsDigit(body[0]) && !IsSpace(body[|body| - 1])
  {
    var tail := TailSpelled(pre, build);
    var end := c + tail;
    if build != "" {
      assert end[|end| - 1] == build[|build| - 1];
    } else if pre != "" {
      assert end[|end| - 1] == pre[|pre| - 1];
    } else {
      assert end == c;
    }
    var rest := "." + (b + ("." + end));
    assert (a + rest)[|a + rest| - 1] == rest[|rest| - 1] == end[|end| - 1];
  }

  // ---------------------------------------------------------------- and nothing else is a version

  predicate AllSpace(s: string) {
    forall i :: 0 <= i < |s| ==> s[i] == ' ' || '\t' <= s[i] <= '\r'
  }

  /** What the grammar of versions makes of a text: the parts of a spelling. */
  datatype Parts = Parts(v: bool, a: string, b: string, c: string, pre: string, build: string) {
    predicate Proper() {
      IsNumber(a) && IsNumber(b) && IsNumber(c) && AllTail(pre) && AllTail(build)
    }

    function Text(): string {
      Spelled(v, a, b, c, pre, build)
    }

    function Read(): Version
      requires Proper()
    {
      Version([DigitsValue(a), DigitsValue(b), DigitsValue(c)], pre)
    }
  }

  lemma {:induction false} Trims(l: string, s: string, r: string)
    requires AllSpace(l) && AllSpace(r) && s != "" && !IsSpace(s[0]) && !IsSpace(s[|s| - 1])
    ensures TrimSpace(l + s + r) == s
    decreases |l| + |r|
  {
    var t := l + s + r;
    if l != "" {
      assert t[1..] == l[1..] + s + r;
      Trims(l[1..], s, r);
    } else if r != "" {
      assert t[..|t| - 1] == l + s + r[..|r| - 1];
      assert t[0] == s[0];
      Trims(l, s, r[..|r| - 1]);
    } else {
      assert t == s;
    }
  }

  /** The middle of a text with white space around it. */
  predicate Around(s: string, l: string, m: string, r: string) {
    AllSpace(l) && AllSpace(r) && s == l + m + r
  }

  lemma MoreInFront(c: char, t: string, l: string, m: string, r: string)
    requires Around(t, l, m, r) && IsSpace(c)
    ensures Around([c] + t, [c] + l, m, r)
  {
    assert [c] + (l + m + r) == [c] + l + m + r;
  }

  lemma MoreBehind(c: char, t: string, l: string, m: string, r: string)
    requires Around(t, l, m, r) && IsSpace(c)
    ensures Around(t + [c], l, m, r + [c])
  {
    assert l + m + r + [c] == l + m + (r + [c]);
  }

  lemma FirstAndRest(s: string)
    requires s != ""
    ensures [s[0]] + s[1..] == s && s[..|s| - 1] + [s[|s| - 1]] == s
  {
  }

  lemma {:induction false} TrimmedFrom(s: string) returns (l: string, r: string)
    ensures Around(s, l, TrimSpace(s), r)
    decreases |s|
  {
    if s != "" && IsSpace(s[0]) {
      var l1, r1 := TrimmedFrom(s[1..]);
      MoreInFront(s[0], s[1..], l1, TrimSpace(s), r1);
      FirstAndRest(s);
      l, r := [s[0]] + l1, r1;
    } else if s != "" && IsSpace(s[|s| - 1]) {
      var n := |s| - 1;
      var l1, r1 := TrimmedFrom(s[..n]);
      MoreBehind(s[n], s[..n], l1, TrimSpace(s), r1);
      FirstAndRest(s);
      l, r := l1, r1 + [s[n]];
    } else {
      l, r := "", "";
    }
  }

  lemma BuildFrom(s: string) returns (build: string)
    requires MatchBuild(s)
    ensures AllTail(build) && s == if build == "" then "" else "+" + build
  {
    build := if s == "" then "" else s[1..];
    assert build[..TailRun(build)] == build;
  }

  lemma TailFrom(s: string) returns (build: string)
    requires MatchTail(s).Some?
    ensures AllTail(MatchTail(s).value) && AllTail(build) && s == TailSpelled(MatchTail(s).value, build)
  {
    if s != "" && s[0] == '-' {
      var k := TailRun(s[1..]);
      build := BuildFrom(s[1 + k..]);
      assert s[1..1 + k] == s[1..][..k];
      assert s == "-" + s[1..1 + k] + s[1 + k..];
    } else {
      build := BuildFrom(s);
      assert "" + s == s;
    }
  }

  lemma NumberFrom(s: string)
    requires NumberRun(s) > 0
    ensures var n := s[..NumberRun(s)]; n != "" && AllDigits(n) && NoLeadingZero(n)
  {
    assert s[..NumberRun(s)][0] == s[0];
  }

  predicate Plain(n: string) {
    n != "" && AllDigits(n) && NoLeadingZero(n)
  }

  lemma OneFrom(s: string, left: nat) returns (n: string, rest: string)
    requires left > 1 && MatchNumbers(s, left).Some?
    ensures var (groups, pre) := MatchNumbers(s, left).value;
      && Plain(n) && s == n + ("." + rest) && MatchNumbers(rest, left - 1) == Some((groups[1..], pre)) && groups[0] == n
  {
    NumberFrom(s);
    n := s[..NumberRun(s)];
    rest := s[NumberRun(s) + 1..];
    var (groups, pre) := MatchNumbers(rest, left - 1).value;
    assert ([n] + groups)[1..] == groups;
  }

  lemma LastFrom(s: string) returns (tail: string)
    requires MatchNumbers(s, 1).Some?
    ensures var (groups, pre) := MatchNumbers(s, 1).value;
      Plain(groups[0]) && s == groups[0] + tail && MatchTail(tail) == Some(pre)
  {
    NumberFrom(s);
    tail := s[NumberRun(s)..];
  }

  /** The three numbers of a text that matches, and how it goes on. */
  lemma NumbersFrom(s: string) returns (a: string, b: string, tail: string)
    requires MatchNumbers(s, 3).Some?
    ensures var (groups, pre) := MatchNumbers(s, 3).value;
      && groups == [a, b, groups[2]] && Plain(a) && Plain(b) && Plain(groups[2]) && MatchTail(tail) == Some(pre)
      && s == a + ("." + (b + ("." + (groups[2] + tail))))
  {
    var s2, s3;
    a, s2 := OneFrom(s, 3);
    b, s3 := OneFrom(s2, 2);
    tail := LastFrom(s3);
  }

  lemma ParsedNumbers(groups: seq<string>)
    requires |groups| == 3 && ParseAll(groups).Some?
    ensures forall i :: 0 <= i < 3 ==> AllDigits(groups[i]) && DigitsValue(groups[i]) < TWO64
    ensures ParseAll(groups).value == [DigitsValue(groups[0]), DigitsValue(groups[1]), DigitsValue(groups[2])]
  {
    var two, one := groups[1..], groups[2..];
    assert two[1..] == one && |one[1..]| == 0;
    assert ParseAll(one).Some? && ParseAll(two).Some?;
    assert ParseAll(one[1..]).value == [];
  }

  /**
   A text is read as a version exactly when it is a spelling of that version, perhaps with white space around it; so
   everything else is no version.
   */
  lemma ParsedIff(value: string, version: Version)
    ensures Parsed(value) == Some(version)
       <==> exists l, p: Parts, r :: AllSpace(l) && AllSpace(r) && p.Proper() && value == l + p.Text() + r
              && version == p.Read()
  {
    if Parsed(value) == Some(version) {
      var p, l, r := PartsOf(value);
    }
    forall l, p: Parts, r | AllSpace(l) && AllSpace(r) && p.Proper() && value == l + p.Text() + r
      ensures Parsed(value) == Some(p.Read())
    {
      SpaceAround(l, p, r);
    }
  }

  lemma ReadsText(p: Parts)
    requires p.Proper()
    ensures var s := p.Text(); s != "" && !IsSpace(s[0]) && !IsSpace(s[|s| - 1]) && Parsed(s) == Some(p.Read())
  {
    ReadsEverySpelling(p.v, p.a, p.b, p.c, p.pre, p.build);
    SpelledEnds(p.a, p.b, p.c, p.pre, p.build);
  }

  lemma SpaceIgnored(l: string, s: string, r: string)
    requires AllSpace(l) && AllSpace(r) && s != "" && !IsSpace(s[0]) && !IsSpace(s[|s| - 1])
    ensures Parsed(l + s + r) == Parsed(s)
  {
    Trims(l, s, r);
    Trims("", s, "");
    assert "" + s + "" == s;
  }

  lemma SpaceAround(l: string, p: Parts, r: string)
    requires AllSpace(l) && AllSpace(r) && p.Proper()
    ensures Parsed(l + p.Text() + r) == Some(p.Read())
  {
    ReadsText(p);
    SpaceIgnored(l, p.Text(), r);
  }

  lemma SpellingFrom(s: string) returns (p: Parts)
    requires MatchVersion(s).Some? && ParseAll(MatchVersion(s).value.0).Some?
    ensures p.Proper() && s == p.Text()
    ensures p.Read() == Version(ParseAll(MatchVersion(s).value.0).value, MatchVersion(s).value.1)
  {
    var v := s != "" && s[0] == 'v';
    var body := if v then s[1..] else s;
    var (groups, pre) := MatchVersion(s).value;
    var a, b, tail := NumbersFrom(body);
    var build := TailFrom(tail);
    ParsedNumbers(groups);
    p := Parts(v, a, b, groups[2], pre, build);
    assert s == (if v then "v" else "") + body;
    assert body == Body(a, b, groups[2], pre, build);
  }

  lemma PartsOf(value: string) returns (p: Parts, l: string, r: string)
    requires Parsed(value).Some?
    ensures p.Proper() && AllSpace(l) && AllSpace(r) && value == l + p.Text() + r && Parsed(value) == Some(p.Read())
  {
    l, r := TrimmedFrom(value);
    p := SpellingFrom(TrimSpace(value));
  }

  /** Two spellings that differ in the v or in build metadata compare as equal. */
  lemma BuildMetadataIgnored(
      v: bool, w: bool, a: string, b: string, c: string, pre: string, build: string, other: string)
    requires IsNumber(a) && IsNumber(b) && IsNumber(c) && AllTail(pre) && AllTail(build) && AllTail(other)
    ensures var x, y := Parsed(Spelled(v, a, b, c, pre, build)), Parsed(Spelled(w, a, b, c, pre, other));
      x.Some? && y.Some? && Compare(x.value, y.value) == 0
  {
    ReadsEverySpelling(v, a, b, c, pre, build);
    ReadsEverySpelling(w, a, b, c, pre, other);
  }
}
