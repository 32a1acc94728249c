/** Vocabulary shared by every component: optional values and results, cell values, the keyed
    digest with the normalisation rules around it, and the stable order of text keys. */
module Base {

  datatype Option<+T> = None | Some(value: T)

  datatype Result<+T, +E> = Success(value: T) | Failure(error: E)

  /** One cell of a table: NULL, text, or a value of any other SQL type. */
  datatype Value = Null | Text(text: string) | Other(tag: int)

  datatype Kind = HumanText | Email | Phone

  const HEX_DIGITS := "0123456789abcdef"

  predicate IsDigest(s: string) {
    |s| == 64 && forall i :: 0 <= i < |s| ==> s[i] in HEX_DIGITS
  }

  function ZeroDigest(): (s: string)
    ensures IsDigest(s)
  {
    assert HEX_DIGITS[0] == '0';
    seq(64, _ => '0')
  }

  /** A lowercase SHA-256 hex digest. */
  type Hmac = s: string | IsDigest(s) witness ZeroDigest()

  /** The engines the program calls: HMAC-SHA256 (section 2 of RFC 2104), the canonical form of a
      text for a strategy, and regular-expression full match. They are arbitrary functions, so
      every theorem holds for all of them. */
  datatype Crypto = Crypto(
    digest: (string, string) -> Hmac,
    canonical: (Kind, string) -> string,
    fullmatch: (string, string) -> bool)

  /** No two texts of `texts` share a digest in `group`. (Injectivity on all texts is impossible.) */
  ghost predicate InjectiveOn(c: Crypto, group: string, texts: set<string>) {
    forall a, b :: a in texts && b in texts && c.digest(group, a) == c.digest(group, b) ==> a == b
  }

  /** How one consistency group turns values into keys. */
  datatype Settings = Settings(kind: Kind, allowEmpty: bool)

  function Normalize(c: Crypto, s: Settings, v: Value): Option<string> {
    match v
    case Text(t) =>
      var n := c.canonical(s.kind, t);
      if n == "" && !s.allowEmpty then None else Some(n)
    case _ => None
  }

  /** The registry key of a value: the digest of its normal form. */
  function KeyOf(c: Crypto, group: string, s: Settings, v: Value): Option<string> {
    match Normalize(c, s, v)
    case Some(n) => Some(c.digest(group, n))
    case None => None
  }

  // ----- sequences -----

  function Min(a: int, b: int): int { if a <= b then a else b }

  function Max(a: int, b: int): int { if a <= b then b else a }

  function Take<T>(s: seq<T>, n: int): seq<T> {
    if n <= 0 then [] else if n >= |s| then s else s[..n]
  }

  function Drop<T>(s: seq<T>, n: int): seq<T> {
    if n <= 0 then s else if n >= |s| then [] else s[n..]
  }

  /** Reading a list from position `n` on. */
  lemma DropNext<T>(s: seq<T>, n: nat)
    requires n <= |s|
    ensures Drop(s, n) == [] <==> n == |s|
    ensures n < |s| ==> Drop(s, n) != [] && Drop(s, n)[0] == s[n] && Drop(Drop(s, n), 1) == Drop(s, n + 1)
    ensures Drop(s, 0) == s
  {
  }

  function Flatten<T>(batches: seq<seq<T>>): seq<T> {
    if batches == [] then [] else batches[0] + Flatten(batches[1..])
  }

  lemma {:induction false} FlattenAppend<T>(a: seq<seq<T>>, b: seq<seq<T>>)
    ensures Flatten(a + b) == Flatten(a) + Flatten(b)
  {
    if a == [] {
      assert a + b == b;
    } else {
      assert (a + b)[1..] == a[1..] + b;
      FlattenAppend(a[1..], b);
    }
  }

  ghost predicate Distinct<T>(s: seq<T>) {
    forall i, j :: 0 <= i < j < |s| ==> s[i] != s[j]
  }

  function Elements<T(==)>(s: seq<T>): set<T> { set x | x in s }

  lemma {:induction false} DistinctCount<T>(s: seq<T>)
    requires Distinct(s)
    ensures |Elements(s)| == |s|
  {
    if s != [] {
      var init, last := s[..|s| - 1], s[|s| - 1];
      DistinctCount(init);
      assert s == init + [last];
      assert Elements(s) == Elements(init) + {last};
    }
  }

  // ----- listings of the same items -----

  lemma SameMembers<T>(a: seq<T>, b: seq<T>)
    requires multiset(a) == multiset(b)
    ensures |a| == |b| && forall x :: x in a <==> x in b
  {
    assert |multiset(a)| == |a| && |multiset(b)| == |b|;
    forall x ensures x in a <==> x in b {
      assert x in a <==> x in multiset(a);
      assert x in b <==> x in multiset(b);
    }
  }

  lemma MiddleOut<A>(a: seq<A>, v: A, b: seq<A>)
    ensures multiset(a + [v] + b) == multiset(a + b) + multiset{v}
  {
  }

  lemma CutAt<A>(b: seq<A>, i: nat)
    requires i < |b|
    ensures b == b[..i] + [b[i]] + b[i + 1..]
  {
  }

  lemma AppendLast<T>(a: seq<T>, b: seq<T>)
    requires b != []
    ensures b == b[..|b| - 1] + [b[|b| - 1]] && a + b == (a + b[..|b| - 1]) + [b[|b| - 1]]
  {
  }

  /** The first item of one listing, taken out of the other. */
  lemma TakeOut<A>(a: seq<A>, b: seq<A>) returns (left: seq<A>, right: seq<A>)
    requires a != [] && multiset(a) == multiset(b)
    ensures a == [] + [a[0]] + a[1..] && b == left + [a[0]] + right
    ensures multiset([] + a[1..]) == multiset(left + right)
  {
    SameMembers(a, b);
    var v := a[0];
    assert v in a;
    var i :| 0 <= i < |b| && b[i] == v;
    left, right := b[..i], b[i + 1..];
    CutAt(b, i);
    assert a == [] + [v] + a[1..];
    RestEqual([], a[1..], left, right, v);
  }

  lemma RestEqual<A>(a: seq<A>, a': seq<A>, b: seq<A>, b': seq<A>, v: A)
    requires multiset(a + [v] + a') == multiset(b + [v] + b')
    ensures multiset(a + a') == multiset(b + b')
  {
    MiddleOut(a, v, a');
    MiddleOut(b, v, b');
    BagCancel(multiset(a + a'), multiset(b + b'), v);
  }

  lemma BagCancel<A>(x: multiset<A>, y: multiset<A>, v: A)
    requires x + multiset{v} == y + multiset{v}
    ensures x == y
  {
    assert x == x + multiset{v} - multiset{v};
    assert y == y + multiset{v} - multiset{v};
  }

  lemma SameBags<T>(a: multiset<T>, b: multiset<T>)
    ensures |a - b| + |b - a| == 0 <==> a == b
  {
    if |a - b| + |b - a| == 0 {
      assert a - b == multiset{} && b - a == multiset{};
      forall x ensures a[x] == b[x] {
        assert (a - b)[x] == 0 && (b - a)[x] == 0;
      }
    }
  }

  // ----- ordered listings -----

  ghost predicate SortedBy<T>(le: (T, T) -> bool, s: seq<T>) {
    forall i, j :: 0 <= i < j < |s| ==> le(s[i], s[j])
  }

  /** The order tells the items of the listing apart. */
  ghost predicate TellsApart<T>(le: (T, T) -> bool, s: seq<T>) {
    forall i, j :: 0 <= i < |s| && 0 <= j < |s| && le(s[i], s[j]) && le(s[j], s[i]) ==> s[i] == s[j]
  }

  lemma SortedTail<T>(le: (T, T) -> bool, s: seq<T>)
    requires s != [] && SortedBy(le, s)
    ensures SortedBy(le, s[1..]) && multiset(s[1..]) == multiset(s) - multiset{s[0]}
    ensures TellsApart(le, s) ==> TellsApart(le, s[1..])
  {
    assert s == [s[0]] + s[1..];
  }

  lemma SameHead<T>(le: (T, T) -> bool, a: seq<T>, b: seq<T>)
    requires SortedBy(le, a) && SortedBy(le, b) && TellsApart(le, a)
    requires a != [] && b != [] && a[0] in b && b[0] in a
    ensures a[0] == b[0]
  {
    var i :| 0 <= i < |a| && a[i] == b[0];
    var j :| 0 <= j < |b| && b[j] == a[0];
    assert i > 0 && j > 0 ==> le(a[0], a[i]) && le(b[0], b[j]);
  }

  lemma SameTails<T>(le: (T, T) -> bool, a: seq<T>, b: seq<T>)
    requires SortedBy(le, a) && SortedBy(le, b) && TellsApart(le, a)
    requires a != [] && multiset(a) == multiset(b)
    ensures b != [] && a[0] == b[0] && multiset(a[1..]) == multiset(b[1..])
    ensures SortedBy(le, a[1..]) && SortedBy(le, b[1..]) && TellsApart(le, a[1..])
  {
    hide SortedBy, TellsApart;
    SameMembers(a, b);
    assert a[0] in b && b[0] in a;
    SameHead(le, a, b);
    SortedTail(le, a);
    SortedTail(le, b);
  }

  /** An ordered listing is determined by its items. */
  lemma {:induction false} ListingUnique<T>(le: (T, T) -> bool, a: seq<T>, b: seq<T>)
    requires SortedBy(le, a) && SortedBy(le, b) && TellsApart(le, a) && multiset(a) == multiset(b)
    ensures a == b
    decreases |a|
  {
    hide SortedBy, TellsApart;
    if a == [] {
      SameMembers(a, b);
    } else {
      SameTails(le, a, b);
      ListingUnique(le, a[1..], b[1..]);
      assert a == [a[0]] + a[1..] && b == [b[0]] + b[1..];
    }
  }

  // ----- the order of text keys -----

  /** Codepoint order, the order of ORDER BY on hex digests and of sorted() on identifiers. */
  predicate LexLe(a: string, b: string) {
    a == "" || (b != "" && (a[0] < b[0] || (a[0] == b[0] && LexLe(a[1..], b[1..]))))
  }

  lemma {:induction false} LexTotal(a: string, b: string)
    ensures LexLe(a, b) || LexLe(b, a)
    ensures LexLe(a, a)
    decreases |a| + |b|
  {
    if a != "" {
      LexTotal(a[1..], if b == "" then "" else b[1..]);
    }
  }

  lemma {:induction false} LexAntisymmetric(a: string, b: string)
    requires LexLe(a, b) && LexLe(b, a)
    ensures a == b
  {
    if a != "" {
      LexAntisymmetric(a[1..], b[1..]);
      assert a == [a[0]] + a[1..] && b == [b[0]] + b[1..];
    }
  }

  lemma {:induction false} LexTransitive(a: string, b: string, c: string)
    requires LexLe(a, b) && LexLe(b, c)
    ensures LexLe(a, c)
  {
    if a != "" && a[0] == b[0] == c[0] {
      LexTransitive(a[1..], b[1..], c[1..]);
    }
  }

  ghost predicate IsLeast(x: string, s: set<string>) {
    x in s && forall y :: y in s ==> LexLe(x, y)
  }

  lemma {:induction false} LeastExists(s: set<string>)
    requires s != {}
    ensures exists x :: IsLeast(x, s)
  {
    var a :| a in s;
    var rest := s - {a};
    if rest == {} {
      LexTotal(a, a);
      assert s == {a};
      assert IsLeast(a, s);
    } else {
      LeastExists(rest);
      var b :| IsLeast(b, rest);
      LexTotal(a, b);
      if LexLe(a, b) {
        forall y | y in s ensures LexLe(a, y) {
          if y == a { LexTotal(a, a); } else { LexTransitive(a, b, y); }
        }
        assert IsLeast(a, s);
      } else {
        assert IsLeast(b, s);
      }
    }
  }

  function Least(s: set<string>): (x: string)
    requires s != {}
    ensures IsLeast(x, s)
  {
    LeastExists(s);
    assert forall x, y :: IsLeast(x, s) && IsLeast(y, s) ==> x == y by {
      forall x, y | IsLeast(x, s) && IsLeast(y, s) ensures x == y { LexAntisymmetric(x, y); }
    }
    assert forall x :: IsLeast(x, s) <==> (x in s && forall y :: y in s ==> LexLe(x, y));
    var x :| x in s && forall y :: y in s ==> LexLe(x, y);
    x
  }

  /** The members of a set in ascending order. */
  function SortedList(s: set<string>): (r: seq<string>)
    ensures Elements(r) == s && Distinct(r) && |r| == |s|
  {
    if s == {} then []
    else
      var x := Least(s);
      var rest := SortedList(s - {x});
      ConsDistinct(x, rest, s);
      [x] + rest
  }

  lemma ConsDistinct(x: string, rest: seq<string>, s: set<string>)
    requires x in s && Elements(rest) == s - {x} && Distinct(rest) && |rest| == |s - {x}|
    ensures Elements([x] + rest) == s && Distinct([x] + rest) && |[x] + rest| == |s|
  {
    assert x !in Elements(rest);
    assert Elements([x] + rest) == {x} + Elements(rest);
  }

  ghost predicate Ascending(r: seq<string>) {
    forall i, j :: 0 <= i < j < |r| ==> LexLe(r[i], r[j])
  }

  lemma {:induction false} SortedListAscends(s: set<string>)
    ensures Ascending(SortedList(s))
  {
    if s != {} {
      var x := Least(s);
      var rest := SortedList(s - {x});
      SortedListAscends(s - {x});
      forall j | 0 <= j < |rest| ensures LexLe(x, rest[j]) {
        assert rest[j] in Elements(rest);
      }
    }
  }

  /** An ascending listing without repetition is determined by its members. */
  lemma {:induction false} AscendingUnique(a: seq<string>, b: seq<string>)
    requires Ascending(a) && Distinct(a) && Ascending(b) && Distinct(b)
    requires Elements(a) == Elements(b)
    ensures a == b
  {
    if a == [] {
      DistinctCount(a);
      DistinctCount(b);
    } else {
      assert a[0] in Elements(b) && b[0] in Elements(a);
      assert LexLe(a[0], b[0]) by { LexTotal(a[0], a[0]); }
      assert LexLe(b[0], a[0]) by { LexTotal(b[0], b[0]); }
      LexAntisymmetric(a[0], b[0]);
      assert Elements(a[1..]) == Elements(a) - {a[0]};
      assert Elements(b[1..]) == Elements(b) - {b[0]};
      AscendingUnique(a[1..], b[1..]);
      assert a == [a[0]] + a[1..] && b == [b[0]] + b[1..];
    }
  }

  lemma ElementsDrop<T>(s: seq<T>, n: nat)
    requires Distinct(s) && n <= |s|
    ensures Elements(s[n..]) == Elements(s) - Elements(s[..n])
  {
    assert s == s[..n] + s[n..];
  }

  /** Removing the first `n` members leaves the rest of the listing. */
  lemma SortedListDrop(s: set<string>, n: nat)
    requires n <= |s|
    ensures SortedList(s)[n..] == SortedList(s - Elements(SortedList(s)[..n]))
  {
    hide SortedList, LexLe, Ascending, Distinct;
    SortedListAscends(s);
    SortedListAscends(s - Elements(SortedList(s)[..n]));
    ElementsDrop(SortedList(s), n);
    DistinctDrop(SortedList(s), n);
    AscendingDrop(SortedList(s), n);
    AscendingUnique(SortedList(s)[n..], SortedList(s - Elements(SortedList(s)[..n])));
  }

  lemma DistinctDrop<T>(s: seq<T>, n: nat)
    requires Distinct(s) && n <= |s|
    ensures Distinct(s[n..])
  {
  }

  lemma AscendingDrop(s: seq<string>, n: nat)
    requires Ascending(s) && n <= |s|
    ensures Ascending(s[n..])
  {
  }

  // ----- counting -----

  function Indicator(b: bool): nat { if b then 1 else 0 }

  ghost function ImageSet<A, B>(s: set<A>, f: A -> B): set<B> { set x | x in s :: f(x) }

  ghost predicate InjectiveFor<A(!new), B>(s: set<A>, f: A -> B) {
    forall x, y :: x in s && y in s && f(x) == f(y) ==> x == y
  }

  /** An injective image of a finite set has as many members; a collapsing one has fewer. */
  lemma {:induction false} ImageCount<A(!new), B>(s: set<A>, f: A -> B)
    ensures |ImageSet(s, f)| <= |s|
    ensures |ImageSet(s, f)| == |s| <==> InjectiveFor(s, f)
  {
    if s != {} {
      var a :| a in s;
      var rest := s - {a};
      ImageCount(rest, f);
      assert ImageSet(s, f) == ImageSet(rest, f) + {f(a)};
      if f(a) in ImageSet(rest, f) {
        var b :| b in rest && f(b) == f(a);
        assert ImageSet(s, f) == ImageSet(rest, f);
        assert a != b && f(a) == f(b);
      } else {
        assert forall x :: x in rest ==> f(x) in ImageSet(rest, f);
        assert InjectiveFor(rest, f) ==> InjectiveFor(s, f);
        assert InjectiveFor(s, f) ==> InjectiveFor(rest, f);
      }
    }
  }
}
