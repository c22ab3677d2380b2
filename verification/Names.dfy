/**
 Pod names. A StatefulSet names its pods "<set>-<ordinal>"; the operator prints such names
 to find the pods a scale-down removes, and parses them to order the ring.
 */
module Names {
  import opened Basics

  function Digit(d: nat): (c: char)
    requires d < 10
  {
    (48 + d) as char
  }

  predicate IsDigit(c: char) {
    '0' <= c <= '9'
  }

  /** Decimal text of a natural number, without leading zeros. */
  function Decimal(n: nat): (s: string)
    ensures s != []
    ensures forall i :: 0 <= i < |s| ==> IsDigit(s[i])
  {
    if n < 10 then [Digit(n)] else Decimal(n / 10) + [Digit(n % 10)]
  }

  /** Value of a digit string; `None` as soon as a character is not a digit. */
  function ParseDigits(s: string): Option<nat> {
    if s == [] then Some(0)
    else
      var front := ParseDigits(s[..|s| - 1]);
      var last := s[|s| - 1];
      if front.None? || !IsDigit(last) then None
      else Some(front.value * 10 + (last as int - 48))
  }

  /** Base-ten integer parsing: an optional sign, at least one digit, and an int64 result. */
  function Atoi(s: string): Option<int> {
    var signed := s != [] && (s[0] == '-' || s[0] == '+');
    var body := if signed then s[1..] else s;
    var magnitude := ParseDigits(body);
    if body == [] || magnitude.None? then None
    else
      var v: int := if signed && s[0] == '-' then 0 - magnitude.value else magnitude.value;
      if MIN_INT64 <= v <= MAX_INT64 then Some(v) else None
  }

  /** Index of the last dash, or -1. */
  function LastDash(s: string): (i: int)
    ensures -1 <= i < |s|
    ensures i >= 0 ==> s[i] == '-'
    ensures forall j :: i < j < |s| ==> s[j] != '-'
  {
    if s == [] then -1
    else if s[|s| - 1] == '-' then |s| - 1
    else LastDash(s[..|s| - 1])
  }

  /** The trailing integer of a pod name, if the name has the "<set>-<ordinal>" shape. */
  function PodOrdinal(name: string): Option<int> {
    var idx := LastDash(name);
    if idx == -1 || idx == |name| - 1 then None else Atoi(name[idx + 1..])
  }

  function PodName(cache: string, ordinal: nat): string {
    cache + "-" + Decimal(ordinal)
  }

  lemma {:induction false} ParseDecimal(n: nat)
    ensures ParseDigits(Decimal(n)) == Some(n)
  {
    if n >= 10 {
      ParseDecimal(n / 10);
      assert Decimal(n)[..|Decimal(n)| - 1] == Decimal(n / 10);
    } else {
      assert Decimal(n)[..0] == [];
    }
  }

  // What the digits say

  predicate AllDigits(s: string) {
    forall i :: 0 <= i < |s| ==> '0' <= s[i] <= '9'
  }

  function Pow10(n: nat): nat {
    if n == 0 then 1 else 10 * Pow10(n - 1)
  }

  /** The number written in decimal: every digit times the power of ten of its place. */
  function Value(s: string): nat
    requires AllDigits(s)
  {
    if s == [] then 0
    else
      var d: nat := s[0] as int - '0' as int;
      d * Pow10(|s| - 1) + Value(s[1..])
  }

  lemma Shifted(d: nat, n: nat)
    requires n > 0
    ensures d * Pow10(n) == d * Pow10(n - 1) * 10
  {
  }

  lemma {:induction false} ValueOfLonger(s: string, c: char)
    requires AllDigits(s) && '0' <= c <= '9'
    ensures AllDigits(s + [c]) && Value(s + [c]) == Value(s) * 10 + (c as int - '0' as int)
  {
    if s == [] {
      assert (s + [c])[1..] == [];
    } else {
      assert (s + [c])[1..] == s[1..] + [c];
      ValueOfLonger(s[1..], c);
      Shifted(s[0] as int - '0' as int, |s|);
    }
  }

  /** Digit strings parse to the number they write, and nothing else parses. */
  lemma {:induction false} ParseDigitsValue(s: string)
    ensures ParseDigits(s).Some? <==> AllDigits(s)
    ensures AllDigits(s) ==> ParseDigits(s) == Some(Value(s))
  {
    if s != [] {
      var front, last := s[..|s| - 1], s[|s| - 1];
      assert s == front + [last];
      ParseDigitsValue(front);
      if AllDigits(front) && '0' <= last <= '9' { ValueOfLonger(front, last); }
    }
  }

  /** Decimal text writes its number, without a leading zero. */
  lemma {:induction false} DecimalText(n: nat)
    ensures AllDigits(Decimal(n)) && Value(Decimal(n)) == n
    ensures Decimal(n)[0] == '0' <==> n == 0
    ensures n < 10 ==> |Decimal(n)| == 1
  {
    ParseDecimal(n);
    ParseDigitsValue(Decimal(n));
    if n >= 10 { DecimalText(n / 10); }
  }

  lemma {:induction false} LastDashBefore(owner: string, rest: string)
    requires forall i :: 0 <= i < |rest| ==> rest[i] != '-'
    ensures LastDash(owner + "-" + rest) == |owner|
    ensures (owner + "-" + rest)[|owner| + 1..] == rest
  {
    var name := owner + "-" + rest;
    if rest == [] {
      assert name == owner + "-";
    } else {
      var front := rest[..|rest| - 1];
      LastDashBefore(owner, front);
      assert name[..|name| - 1] == owner + "-" + front;
    }
  }

  /** `rest` is an unsigned decimal number, perhaps after a plus sign. */
  predicate Unsigned(rest: string, digits: string) {
    digits != [] && AllDigits(digits) && (rest == digits || rest == "+" + digits)
  }

  lemma AtoiUnsigned(rest: string, digits: string)
    requires Unsigned(rest, digits)
    ensures Atoi(rest) == if Value(digits) <= MAX_INT64 then Some(Value(digits) as int) else None
  {
    ParseDigitsValue(digits);
    assert rest == "+" + digits ==> rest[1..] == digits;
  }

  /** What parses as an ordinal is an unsigned number. */
  lemma AtoiWithoutDash(rest: string) returns (digits: string)
    requires Atoi(rest).Some? && forall i :: 0 <= i < |rest| ==> rest[i] != '-'
    ensures Unsigned(rest, digits)
  {
    digits := if rest[0] == '+' then rest[1..] else rest;
    ParseDigitsValue(digits);
    assert rest[0] == '+' ==> rest == "+" + digits;
  }

  /** `name` ends in a dash and an unsigned number of value `k`. */
  ghost predicate Ends(name: string, owner: string, rest: string, digits: string, k: int) {
    name == owner + "-" + rest && Unsigned(rest, digits) && k == Value(digits) <= MAX_INT64
  }

  lemma OrdinalEnds(name: string, k: int) returns (owner: string, rest: string, digits: string)
    requires PodOrdinal(name) == Some(k)
    ensures Ends(name, owner, rest, digits, k)
  {
    var idx := LastDash(name);
    owner, rest := name[..idx], name[idx + 1..];
    assert name == owner + "-" + rest;
    digits := AtoiWithoutDash(rest);
    AtoiUnsigned(rest, digits);
  }

  lemma EndsOrdinal(name: string, owner: string, rest: string, digits: string, k: int)
    requires Ends(name, owner, rest, digits, k)
    ensures PodOrdinal(name) == Some(k)
  {
    LastDashBefore(owner, rest);
    AtoiUnsigned(rest, digits);
  }

  /** A name has an ordinal exactly when an int64 decimal number follows its last dash. */
  lemma OrdinalIff(name: string, k: int)
    ensures PodOrdinal(name) == Some(k) <==> exists owner, rest, digits :: Ends(name, owner, rest, digits, k)
  {
    if PodOrdinal(name) == Some(k) {
      var owner, rest, digits := OrdinalEnds(name, k);
    } else {
      forall owner, rest, digits | Ends(name, owner, rest, digits, k) ensures false {
        EndsOrdinal(name, owner, rest, digits, k);
      }
    }
  }

  lemma LastDashOfPodName(cache: string, ordinal: nat)
    ensures LastDash(PodName(cache, ordinal)) == |cache|
    ensures PodName(cache, ordinal)[|cache| + 1..] == Decimal(ordinal)
  {
    var name := PodName(cache, ordinal);
    assert name[|cache|] == '-';
    assert forall j :: |cache| < j < |name| ==> name[j] == Decimal(ordinal)[j - |cache| - 1];
  }

  /** Parsing undoes printing, for every cache name, exactly while the ordinal fits an int64. */
  lemma OrdinalRoundTrip(cache: string, ordinal: nat)
    ensures PodOrdinal(PodName(cache, ordinal)) == Some(ordinal as int) <==> ordinal <= MAX_INT64
    ensures ordinal > MAX_INT64 ==> PodOrdinal(PodName(cache, ordinal)) == None
  {
    LastDashOfPodName(cache, ordinal);
    ParseDecimal(ordinal);
    assert IsDigit(Decimal(ordinal)[0]);
  }

  /** The names a scale-down from `hi` to `lo` replicas removes. */
  function DoomedNames(cache: string, lo: nat, hi: nat): set<string> {
    set k | lo <= k < hi :: PodName(cache, k)
  }

  /** `name` was printed by the StatefulSet `cache`. */
  predicate OfSet(cache: string, name: string) {
    var k := PodOrdinal(name);
    k.Some? && k.value >= 0 && name == PodName(cache, k.value)
  }

  /** Being printed in the doomed set is the same as carrying an ordinal in the doomed range. */
  lemma DoomedIffOrdinal(cache: string, name: string, lo: nat, hi: nat)
    requires hi <= MAX_INT64 + 1
    ensures name in DoomedNames(cache, lo, hi)
       <==> OfSet(cache, name) && lo <= PodOrdinal(name).value < hi
  {
    if name in DoomedNames(cache, lo, hi) {
      var k :| lo <= k < hi && name == PodName(cache, k);
      OrdinalRoundTrip(cache, k);
    }
  }

  /** The loop that prints the doomed names one by one. */
  method CollectDoomed(cache: string, lo: nat, hi: nat) returns (names: set<string>)
    requires lo <= hi
    ensures names == DoomedNames(cache, lo, hi)
  {
    names := {};
    for i := lo to hi
      invariant names == DoomedNames(cache, lo, i)
    {
      names := names + {PodName(cache, i)};
    }
  }
}
