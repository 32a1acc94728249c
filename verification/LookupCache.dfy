/** The verifier's bounded lookup cache is a true least-recently-used cache over a frozen registry. */
module LookupCache {
  import opened Base
  import opened RegistryModel
  import opened Registry

  function Without<T(==)>(s: seq<T>, x: T): seq<T> {
    if s == [] then []
    else Without(s[..|s| - 1], x) + if s[|s| - 1] == x then [] else [s[|s| - 1]]
  }

  function LastN<T>(s: seq<T>, n: nat): seq<T> {
    if |s| <= n then s else s[|s| - n..]
  }

  /** The distinct keys of an access trace, least recently used first. */
  function Recency(trace: seq<string>): seq<string> {
    if trace == [] then []
    else
      var k := trace[|trace| - 1];
      Without(Recency(trace[..|trace| - 1]), k) + [k]
  }

  lemma {:induction false} WithoutConcat<T>(a: seq<T>, b: seq<T>, x: T)
    ensures Without(a + b, x) == Without(a, x) + Without(b, x)
  {
    if b == [] {
      assert a + b == a;
    } else {
      var n := |b| - 1;
      WithoutConcat(a, b[..n], x);
      assert (a + b)[..|a + b| - 1] == a + b[..n];
    }
  }

  lemma {:induction false} WithoutMeaning<T>(s: seq<T>, x: T)
    requires Distinct(s)
    ensures Distinct(Without(s, x)) && Elements(Without(s, x)) == Elements(s) - {x}
    ensures x !in s ==> Without(s, x) == s
    ensures |Without(s, x)| == |s| - Indicator(x in s)
  {
    if s != [] {
      var n := |s| - 1;
      WithoutMeaning(s[..n], x);
      assert s == s[..n] + [s[n]];
      assert Elements(s) == Elements(s[..n]) + {s[n]};
      var rest := Without(s[..n], x);
      assert s[n] !in Elements(s[..n]);
      assert forall y :: y in rest <==> y in Elements(rest);
      assert Elements(rest + [s[n]]) == Elements(rest) + {s[n]};
    }
  }

  lemma DistinctAppend<T>(s: seq<T>, x: T)
    requires Distinct(s) && x !in s
    ensures Distinct(s + [x]) && Elements(s + [x]) == Elements(s) + {x}
  {
  }

  lemma {:induction false} RecencyDistinct(trace: seq<string>)
    ensures Distinct(Recency(trace)) && Elements(Recency(trace)) == Elements(trace)
  {
    if trace != [] {
      hide Without, Distinct;
      var n := |trace| - 1;
      var before, k := Recency(trace[..n]), trace[n];
      RecencyDistinct(trace[..n]);
      WithoutMeaning(before, k);
      var rest := Without(before, k);
      assert k !in rest by { assert k !in Elements(rest); }
      DistinctAppend(rest, k);
      assert Elements(trace) == Elements(trace[..n]) + {k} by { assert trace == trace[..n] + [k]; }
    }
  }

  // ----- one access -----

  /** Moving a held key to the end, or evicting the first of a full list and appending a new key,
      keeps the last `limit` keys by recency. */
  lemma AccessKeepsLast(r: seq<string>, limit: nat, k: string)
    requires limit >= 1 && Distinct(r)
    ensures var order := LastN(r, limit);
      LastN(Without(r, k) + [k], limit) ==
        if k in order then Without(order, k) + [k]
        else (if |order| >= limit then order[1..] else order) + [k]
  {
    hide Without;
    var order := LastN(r, limit);
    var front := r[..|r| - |order|];
    assert r == front + order;
    WithoutConcat(front, order, k);
    SplitDistinct(front, order);
    if k in order {
      AccessHeld(front, order, limit, k);
    } else if |order| >= limit {
      AccessEvicts(front, order, limit, k);
    } else {
      assert front == [] && r == order;
      WithoutMeaning(order, k);
    }
  }

  lemma AccessHeld(front: seq<string>, order: seq<string>, limit: nat, k: string)
    requires Distinct(front) && Distinct(order) && k in order && k !in front
    requires |order| == limit || (|order| < limit && front == [])
    ensures LastN(Without(front, k) + Without(order, k) + [k], limit) == Without(order, k) + [k]
  {
    hide Without;
    WithoutMeaning(order, k);
    WithoutMeaning(front, k);
    var tail := Without(order, k) + [k];
    LastNSuffix(front, tail, limit);
    assert front + Without(order, k) + [k] == front + tail;
  }

  lemma AccessEvicts(front: seq<string>, order: seq<string>, limit: nat, k: string)
    requires Distinct(order) && k !in order && |order| == limit >= 1
    ensures LastN(Without(front, k) + Without(order, k) + [k], limit) == order[1..] + [k]
  {
    hide Without;
    WithoutMeaning(order, k);
    var tail := order[1..] + [k];
    LastNSuffix(Without(front, k) + [order[0]], tail, limit);
    assert Without(front, k) + order + [k] == Without(front, k) + [order[0]] + tail;
  }

  lemma SplitDistinct<T>(a: seq<T>, b: seq<T>)
    requires Distinct(a + b)
    ensures Distinct(a) && Distinct(b) && forall x :: x in b ==> x !in a
  {
    var s := a + b;
    assert forall i :: 0 <= i < |a| ==> s[i] == a[i];
    assert forall i :: 0 <= i < |b| ==> s[|a| + i] == b[i];
  }

  /** A list of full length is what remains of any longer list that ends with it. */
  lemma LastNSuffix<T>(a: seq<T>, b: seq<T>, n: nat)
    requires |b| == n || (|b| < n && a == [])
    ensures LastN(a + b, n) == b
  {
  }

  // ----- what the last keys by recency are -----

  function LastAccess(trace: seq<string>, k: string): nat
    requires k in trace
  {
    if trace[|trace| - 1] == k then |trace| - 1 else LastAccess(trace[..|trace| - 1], k)
  }

  /** In the recency order, exactly the keys accessed after `k`'s last access come after `k`. */
  lemma {:induction false} RecencySplit(trace: seq<string>, k: string) returns (x: seq<string>, y: seq<string>)
    requires k in trace
    ensures Recency(trace) == x + [k] + y
    ensures LastAccess(trace, k) < |trace|
    ensures Elements(y) == Elements(trace[LastAccess(trace, k) + 1..])
  {
    hide Without, Distinct;
    var n := |trace| - 1;
    var last := trace[n];
    if last == k {
      x, y := Without(Recency(trace[..n]), k), [];
      assert trace[n + 1..] == [];
    } else {
      var x', y' := RecencySplit(trace[..n], k);
      x, y := Without(x', last), Without(y', last) + [last];
      RecencyDistinct(trace[..n]);
      SplitDistinct(x' + [k], y');
      WithoutSplit(x', k, y', last);
      TailGrows(trace, n, LastAccess(trace[..n], k) + 1, y');
    }
  }

  lemma WithoutSplit(x: seq<string>, k: string, y: seq<string>, last: string)
    requires last != k
    ensures Without(x + [k] + y, last) + [last] == Without(x, last) + [k] + (Without(y, last) + [last])
  {
    WithoutConcat(x + [k], y, last);
    WithoutConcat(x, [k], last);
    assert Without([k], last) == [k];
  }

  lemma TailGrows(trace: seq<string>, n: nat, p: nat, y: seq<string>)
    requires |trace| == n + 1 && p <= n && Distinct(y) && Elements(y) == Elements(trace[..n][p..])
    ensures Elements(Without(y, trace[n]) + [trace[n]]) == Elements(trace[p..])
  {
    var last := trace[n];
    WithoutMeaning(y, last);
    assert trace[p..] == trace[..n][p..] + [last];
    assert Elements(trace[p..]) == Elements(trace[..n][p..]) + {last};
    var rest := Without(y, last);
    assert Elements(rest + [last]) == Elements(rest) + {last};
  }

  /** A key is among the last `limit` exactly when fewer than `limit` distinct keys were accessed
      since its own last access. */
  lemma RecentlyUsed(trace: seq<string>, limit: nat, k: string)
    requires limit >= 1 && k in trace
    ensures LastAccess(trace, k) < |trace|
    ensures k in LastN(Recency(trace), limit) <==> |Elements(trace[LastAccess(trace, k) + 1..])| < limit
  {
    var x, y := RecencySplit(trace, k);
    RecencyDistinct(trace);
    var r := Recency(trace);
    assert r[|x|] == k;
    assert Distinct(y) by { assert forall i :: 0 <= i < |y| ==> y[i] == r[|x| + 1 + i]; }
    DistinctCount(y);
    var cut := |r| - |LastN(r, limit)|;
    assert forall i :: 0 <= i < |LastN(r, limit)| ==> LastN(r, limit)[i] == r[cut + i];
    assert |x| >= cut ==> LastN(r, limit)[|x| - cut] == k;
  }

  /** The held keys are the last `limit` by recency of the whole trace, and every held answer is
      the registry's. Absent rows are held too, so the registry must not change meanwhile. */
  ghost predicate Held(m: Mappings, group: string, limit: nat, trace: seq<string>,
                       order: seq<string>, values: map<string, Option<string>>)
  {
    && order == LastN(Recency(trace), limit)
    && Elements(order) == values.Keys
    && forall h :: h in values ==> values[h] == RegistryModel.Lookup(m, group, h)
  }

  lemma HeldCount(m: Mappings, group: string, limit: nat, trace: seq<string>,
                  order: seq<string>, values: map<string, Option<string>>)
    requires Held(m, group, limit, trace, order, values)
    ensures Distinct(order) && |order| == |values| == Min(limit, |Elements(trace)|)
    ensures forall h :: h in order <==> h in values
  {
    hide Recency, RegistryModel.Lookup;
    RecencyDistinct(trace);
    DistinctCount(Recency(trace));
    DistinctCount(order);
    assert |values| == |values.Keys|;
    assert forall h :: h in order <==> h in Elements(order);
  }

  lemma RecencySnoc(trace: seq<string>, h: string)
    ensures Recency(trace + [h]) == Without(Recency(trace), h) + [h]
  {
    assert (trace + [h])[..|trace|] == trace;
  }

  lemma Hit(m: Mappings, group: string, limit: nat, trace: seq<string>,
            order: seq<string>, values: map<string, Option<string>>, h: string)
    requires limit >= 1 && Held(m, group, limit, trace, order, values) && h in values
    ensures values[h] == RegistryModel.Lookup(m, group, h)
    ensures Held(m, group, limit, trace + [h], Without(order, h) + [h], (values - {h})[h := values[h]])
  {
    hide Recency, Without, LastN, RegistryModel.Lookup;
    HeldCount(m, group, limit, trace, order, values);
    RecencyDistinct(trace);
    AccessKeepsLast(Recency(trace), limit, h);
    RecencySnoc(trace, h);
    WithoutMeaning(order, h);
    var rest := Without(order, h);
    assert Elements(rest + [h]) == Elements(rest) + {h};
  }

  /** A fetched answer entered for a key that is not held. */
  lemma AnswerEntered(m: Mappings, group: string, values: map<string, Option<string>>, order: seq<string>, h: string)
    requires Elements(order) == values.Keys
    requires forall x :: x in values ==> values[x] == RegistryModel.Lookup(m, group, x)
    ensures var values' := values[h := RegistryModel.Lookup(m, group, h)];
      && Elements(order + [h]) == values'.Keys
      && forall x :: x in values' ==> values'[x] == RegistryModel.Lookup(m, group, x)
  {
    hide RegistryModel.Lookup;
    AppendElements(order, h);
  }

  lemma MissOrder(limit: nat, trace: seq<string>, order: seq<string>, h: string)
    requires limit >= 1 && order == LastN(Recency(trace), limit) && h !in order
    ensures LastN(Recency(trace + [h]), limit) == (if |order| >= limit then order[1..] else order) + [h]
  {
    hide Recency, Without, LastN;
    RecencyDistinct(trace);
    AccessKeepsLast(Recency(trace), limit, h);
    RecencySnoc(trace, h);
  }

  lemma Miss(m: Mappings, group: string, limit: nat, trace: seq<string>,
             order: seq<string>, values: map<string, Option<string>>, h: string)
    requires limit >= 1 && Held(m, group, limit, trace, order, values) && h !in values
    ensures |values| >= limit ==> order != []
    ensures var order' := if |values| >= limit then order[1..] else order;
      var values' := if |values| >= limit then values - {order[0]} else values;
      Held(m, group, limit, trace + [h], order' + [h], values'[h := RegistryModel.Lookup(m, group, h)])
  {
    hide Recency, LastN, RegistryModel.Lookup;
    HeldCount(m, group, limit, trace, order, values);
    MissOrder(limit, trace, order, h);
    if |values| >= limit {
      FirstGone(order);
      AnswerEntered(m, group, values - {order[0]}, order[1..], h);
    } else {
      AnswerEntered(m, group, values, order, h);
    }
  }

  lemma FirstGone(order: seq<string>)
    requires order != [] && Distinct(order)
    ensures Elements(order[1..]) == Elements(order) - {order[0]}
  {
    assert order == [order[0]] + order[1..];
  }

  lemma AppendElements(order: seq<string>, h: string)
    ensures Elements(order + [h]) == Elements(order) + {h}
  {
  }

  class ReplacementLookupCache {
    const registry: MappingRegistry
    const group: string
    const limit: nat
    var order: seq<string>
    var values: map<string, Option<string>>
    ghost var trace: seq<string>

    ghost predicate Valid()
      reads this, registry`mappings
    {
      limit >= 1 && group != "" && Held(registry.mappings, group, limit, trace, order, values)
    }

    constructor (registry: MappingRegistry, group: string, limit: nat)
      requires limit >= 1 && group != ""
      ensures Valid() && trace == []
      ensures this.registry == registry && this.group == group && this.limit == limit
    {
      this.registry, this.group, this.limit := registry, group, limit;
      order, values, trace := [], map[], [];
    }

    /** The answer equals a direct registry lookup; the access becomes the most recent one. */
    method Lookup(h: Hmac) returns (value: Option<string>)
      requires Valid()
      modifies this
      ensures Valid() && trace == old(trace) + [h]
      ensures value == RegistryModel.Lookup(registry.mappings, group, h)
      ensures |values| == Min(limit, |Elements(trace)|)
    {
      hide Held, Without, Elements, RegistryModel.Lookup;
      ghost var m := registry.mappings;
      if h in values {
        Hit(m, group, limit, trace, order, values, h);
        value := values[h];
        values := values - {h};
        order := Without(order, h);
      } else {
        Miss(m, group, limit, trace, order, values, h);
        var found := registry.LookupReplacement(group, h);
        value := found.value;
        if |values| >= limit {
          values := values - {order[0]};
          order := order[1..];
        }
      }
      values := values[h := value];
      order := order + [h];
      trace := trace + [h];
      HeldCount(m, group, limit, trace, order, values);
    }
  }
}
