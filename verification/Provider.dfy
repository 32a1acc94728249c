/** The deterministic synthetic provider: numerals that never repeat give values that never repeat. */
module Provider {
  import opened Base
  import opened Policy
  import opened Generator

  // ----- bijective numerals in the 30-letter alphabet -----

  const ALPHABET := "абвгдежзийклмнопрстуфхцчшщыэюя"

  const RADIX: nat := 30

  function Letter(i: nat): char
    requires i < RADIX
  {
    ALPHABET[i]
  }

  /** The letters are those of U+0430 to U+044F without U+044A and U+044C. */
  function PositionOf(ch: char): int {
    var code := ch as int;
    if code <= 0x449 then code - 0x430 else if code == 0x44B then 26 else code - 0x44D + 27
  }

  predicate IsLetter(ch: char) { 0 <= PositionOf(ch) < RADIX && ch == Letter(PositionOf(ch)) }

  lemma {:induction false} LetterPosition(i: nat)
    requires i < RADIX
    ensures PositionOf(Letter(i)) == i && IsLetter(Letter(i))
  {
  }

  /** The numeral of a number; zero has the empty one. */
  function Numeral(value: nat): string {
    if value <= 0 then ""
    else
      assert (value - 1) / RADIX < value;
      Numeral((value - 1) / RADIX) + [Letter((value - 1) % RADIX)]
  }

  predicate IsNumeral(s: string) {
    forall i :: 0 <= i < |s| ==> IsLetter(s[i])
  }

  /** The number of a numeral. */
  function Denoted(s: string): nat
    requires IsNumeral(s)
  {
    if s == "" then 0 else RADIX * Denoted(s[..|s| - 1]) + PositionOf(s[|s| - 1]) + 1
  }

  lemma {:induction false} NumeralDenotes(value: nat)
    ensures IsNumeral(Numeral(value)) && Denoted(Numeral(value)) == value
  {
    if value > 0 {
      var rest, last := (value - 1) / RADIX, (value - 1) % RADIX;
      NumeralDenotes(rest);
      LetterPosition(last);
      assert Numeral(value)[..|Numeral(value)| - 1] == Numeral(rest);
    }
  }

  lemma {:induction false} NumeralStep(q: nat, r: nat)
    requires r < RADIX
    ensures Numeral(RADIX * q + r + 1) == Numeral(q) + [Letter(r)]
  {
    hide Letter;
    Quotient(q, r);
  }

  lemma {:induction false} DenotedStep(s: string)
    requires s != "" && IsNumeral(s)
    ensures var init, r := s[..|s| - 1], PositionOf(s[|s| - 1]);
      && IsNumeral(init) && 0 <= r < RADIX && Letter(r) == s[|s| - 1]
      && Denoted(s) == RADIX * Denoted(init) + r + 1 && s == init + [Letter(r)]
  {
    hide Letter, PositionOf;
    assert IsLetter(s[|s| - 1]);
  }

  lemma {:induction false} DenotedNumeral(s: string)
    requires IsNumeral(s)
    ensures Numeral(Denoted(s)) == s
  {
    if s != "" {
      hide *;
      DenotedStep(s);
      var init := s[..|s| - 1];
      DenotedNumeral(init);
      NumeralStep(Denoted(init), PositionOf(s[|s| - 1]));
    } else {
      hide PositionOf, IsNumeral;
    }
  }

  lemma {:induction false} Quotient(q: nat, r: nat)
    requires r < RADIX
    ensures (RADIX * q + r) / RADIX == q && (RADIX * q + r) % RADIX == r
  {
  }

  /** `_letters`: the loop ends because (v - 1) / 30 < v, and it computes the numeral. */
  method Letters(value: nat) returns (result: string)
    ensures result == Numeral(value)
    ensures IsNumeral(result) && Denoted(result) == value
  {
    result := "";
    var rest: nat := value;
    while rest != 0
      invariant Numeral(rest) + result == Numeral(value)
    {
      var remainder := (rest - 1) % |ALPHABET|;
      ghost var before: nat := rest;
      rest := (rest - 1) / |ALPHABET|;
      assert Numeral(before) == Numeral(rest) + [ALPHABET[remainder]];
      result := [ALPHABET[remainder]] + result;
    }
    NumeralDenotes(value);
  }

  // ----- decimal numbers -----

  const DECIMAL := "0123456789"

  function Digits(n: nat): (s: string)
    ensures s != ""
  {
    if n < 10 then [DECIMAL[n]] else Digits(n / 10) + [DECIMAL[n % 10]]
  }

  lemma {:induction false} DigitsLast(n: nat)
    ensures Digits(n)[|Digits(n)| - 1] == DECIMAL[n % 10]
    ensures n >= 10 ==> Digits(n)[..|Digits(n)| - 1] == Digits(n / 10) && |Digits(n)| >= 2
    ensures n < 10 ==> |Digits(n)| == 1
  {
  }

  lemma {:induction false} DigitOf(a: nat, b: nat)
    requires a < 10 && b < 10 && DECIMAL[a] == DECIMAL[b]
    ensures a == b
  {
  }

  lemma {:induction false} DigitsInjective(a: nat, b: nat)
    requires Digits(a) == Digits(b)
    ensures a == b
  {
    hide Digits;
    DigitsLast(a);
    DigitsLast(b);
    DigitOf(a % 10, b % 10);
    if a >= 10 && b >= 10 {
      DigitsInjective(a / 10, b / 10);
    }
  }

  /** Zero-padding to a width. */
  function Padded(n: nat, width: nat): string {
    var digits := Digits(n);
    if |digits| >= width then digits else seq(width - |digits|, _ => '0') + digits
  }

  /** From 100 on three digits need no padding. */
  lemma {:induction false} NoPadding(n: nat)
    requires n >= 100
    ensures Padded(n, 3) == Digits(n)
  {
    hide Digits;
    DigitsLast(n);
    DigitsLast(n / 10);
  }

  lemma {:induction false} TwoDigits(n: nat)
    requires n < 100
    ensures |Padded(n, 2)| == 2
  {
    hide Digits;
    DigitsLast(n);
    if n >= 10 { DigitsLast(n / 10); }
  }

  // ----- values -----

  function ValueOf(entity: EntityType, sequence: nat): string {
    match entity
    case PersonName => "Анна Синтетическа" + Numeral(sequence)
    case EmailAddress => "synthetic" + Digits(sequence) + "@example.test"
    case PhoneNumber => "+7 000 " + Padded(100 + sequence, 3) + "-00-" + Padded(sequence % 100, 2)
    case PostalAddress => "\\u0433. Синтетический, ул. Проверочная, дом " + Digits(sequence)
  }

  lemma {:induction false} MiddleEqual(prefix: string, a: string, b: string, s: string, t: string)
    requires |s| == |t| && prefix + a + s == prefix + b + t
    ensures a == b
  {
    var x, y := prefix + a + s, prefix + b + t;
    assert |a| == |b|;
    assert x[|prefix|..|prefix| + |a|] == a;
    assert y[|prefix|..|prefix| + |b|] == b;
  }

  /** Different sequence numbers give different values, for every kind of entity. */
  lemma {:induction false} ValuesDiffer(entity: EntityType, i: nat, j: nat)
    requires ValueOf(entity, i) == ValueOf(entity, j)
    ensures i == j
  {
    hide Numeral, Digits, Padded;
    match entity {
      case PersonName =>
        MiddleEqual("Анна Синтетическа", Numeral(i), Numeral(j), "", "");
        NumeralDenotes(i);
        NumeralDenotes(j);
      case EmailAddress =>
        MiddleEqual("synthetic", Digits(i), Digits(j), "@example.test", "@example.test");
        DigitsInjective(i, j);
      case PhoneNumber =>
        PhonesDiffer(i, j);
      case PostalAddress =>
        MiddleEqual("\\u0433. Синтетический, ул. Проверочная, дом ", Digits(i), Digits(j), "", "");
        DigitsInjective(i, j);
    }
  }

  lemma {:induction false} PhonesDiffer(i: nat, j: nat)
    requires ValueOf(PhoneNumber, i) == ValueOf(PhoneNumber, j)
    ensures i == j
  {
    hide Digits, Padded;
    NoPadding(100 + i);
    NoPadding(100 + j);
    TwoDigits(i % 100);
    TwoDigits(j % 100);
    var s, t := "-00-" + Padded(i % 100, 2), "-00-" + Padded(j % 100, 2);
    assert ValueOf(PhoneNumber, i) == "+7 000 " + Digits(100 + i) + s;
    assert ValueOf(PhoneNumber, j) == "+7 000 " + Digits(100 + j) + t;
    MiddleEqual("+7 000 ", Digits(100 + i), Digits(100 + j), s, t);
    DigitsInjective(100 + i, 100 + j);
  }

  // ----- the provider -----

  datatype Issue = Issue(entity: EntityType, value: string)

  function CountOf(counts: map<EntityType, nat>, entity: EntityType): nat {
    if entity in counts then counts[entity] else 0
  }

  class DeterministicSyntheticProvider {
    var counts: map<EntityType, nat>
    var requests: seq<Request>
    /** Every value handed out so far, by all calls. */
    ghost var issued: seq<Issue>

    ghost predicate Valid()
      reads this
    {
      && Distinct(issued)
      && forall k :: 0 <= k < |issued| ==> IssuedBefore(counts, issued[k])
    }

    constructor ()
      ensures Valid() && issued == [] && requests == [] && counts == map[]
    {
      counts, requests, issued := map[], [], [];
    }

    /** The next `count` values of the entity, none of which any earlier call has returned. */
    method Generate(request: Request) returns (items: seq<string>)
      requires Valid()
      modifies this
      ensures Valid()
      ensures requests == old(requests) + [request]
      ensures var start := CountOf(old(counts), request.entity);
        && counts == old(counts)[request.entity := start + request.count]
        && |items| == request.count
        && forall k :: 0 <= k < |items| ==> items[k] == ValueOf(request.entity, start + 1 + k)
      ensures issued == old(issued) + Issues(request.entity, items)
    {
      hide ValueOf, Distinct;
      requests := requests + [request];
      var entity := request.entity;
      var start := CountOf(counts, entity);
      ghost var before, counted := issued, counts;
      counts := counts[entity := start + request.count];
      items := [];
      for sequence := start + 1 to start + request.count + 1
        modifies {}
        invariant |items| == sequence - start - 1
        invariant forall k :: 0 <= k < |items| ==> items[k] == ValueOf(entity, start + 1 + k)
      {
        var value := RenderValue(entity, sequence);
        items := items + [value];
      }
      issued := issued + Issues(entity, items);
      StillDistinct(counted, before, entity, start, items);
    }
  }

  /** `_value`. */
  method RenderValue(entity: EntityType, sequence: nat) returns (value: string)
    ensures value == ValueOf(entity, sequence)
  {
    match entity {
      case PersonName =>
        var letters := Letters(sequence);
        value := "Анна Синтетическа" + letters;
      case EmailAddress => value := "synthetic" + Digits(sequence) + "@example.test";
      case PhoneNumber => value := "+7 000 " + Padded(100 + sequence, 3) + "-00-" + Padded(sequence % 100, 2);
      case PostalAddress => value := "\\u0433. Синтетический, ул. Проверочная, дом " + Digits(sequence);
    }
  }

  /** A value issued under the counters as they stand. */
  ghost predicate IssuedBefore(counts: map<EntityType, nat>, i: Issue) {
    exists n: nat :: Numbered(counts, i, n)
  }

  ghost predicate Numbered(counts: map<EntityType, nat>, i: Issue, n: nat) {
    1 <= n <= CountOf(counts, i.entity) && i.value == ValueOf(i.entity, n)
  }

  ghost function Issues(entity: EntityType, items: seq<string>): seq<Issue> {
    seq(|items|, k requires 0 <= k < |items| => Issue(entity, items[k]))
  }

  /** New values differ from all issued before and from each other. */
  lemma {:induction false} StillDistinct(counts: map<EntityType, nat>, issued: seq<Issue>, entity: EntityType,
                                         start: nat, items: seq<string>)
    requires Distinct(issued) && start == CountOf(counts, entity)
    requires forall k :: 0 <= k < |issued| ==> IssuedBefore(counts, issued[k])
    requires forall k :: 0 <= k < |items| ==> items[k] == ValueOf(entity, start + 1 + k)
    ensures var all := issued + Issues(entity, items);
      && Distinct(all)
      && forall k :: 0 <= k < |all| ==> IssuedBefore(counts[entity := start + |items|], all[k])
  {
    hide ValueOf;
    var all, counted := issued + Issues(entity, items), counts[entity := start + |items|];
    forall k | 0 <= k < |all| ensures IssuedBefore(counted, all[k]) {
      if k < |issued| {
        var n: nat :| Numbered(counts, issued[k], n);
        assert Numbered(counted, all[k], n);
      } else {
        assert Numbered(counted, all[k], start + 1 + (k - |issued|));
      }
    }
    forall i, j | 0 <= i < j < |all| ensures all[i] != all[j] {
      if j >= |issued| && all[i] == all[j] {
        var b := start + 1 + (j - |issued|);
        if i < |issued| {
          var a: nat :| Numbered(counts, issued[i], a);
          ValuesDiffer(entity, a, b);
        } else {
          ValuesDiffer(entity, start + 1 + (i - |issued|), b);
        }
      }
    }
  }
}
