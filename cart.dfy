/** The quantity dict the billing scripts build (cart / item_qty): item
    name to quantity, keys in insertion order as Python dicts keep them,
    and its value at given unit prices. */
module Cart {
  import opened Text

  /** names lists the keys of the dict, each once. */
  ghost predicate Listed(cart: map<string, int>, names: seq<string>)
  {
    NoDuplicates(names) && forall k :: k in names <==> k in cart
  }

  /** `if name in cart: cart[name] += qty else: cart[name] = qty`. */
  function AddQty(cart: map<string, int>, name: string, qty: int): (r: map<string, int>)
    ensures r.Keys == cart.Keys + {name}
    ensures r[name] == (if name in cart then cart[name] else 0) + qty
    ensures forall k :: k in cart && k != name ==> r[k] == cart[k]
  {
    if name in cart then cart[name := cart[name] + qty] else cart[name := qty]
  }

  /** The key order after AddQty: a new key goes last. */
  function AddName(cart: map<string, int>, names: seq<string>, name: string): seq<string>
  {
    if name in cart then names else names + [name]
  }

  lemma AddKeepsListed(cart: map<string, int>, names: seq<string>, name: string, qty: int)
    requires Listed(cart, names)
    ensures Listed(AddQty(cart, name, qty), AddName(cart, names, name))
  {
    if name !in cart {
      assert name !in names;
    }
  }

  /** The sum of quantity times unit price over the listed names. */
  function Value(cart: map<string, int>, prices: map<string, int>, names: seq<string>): int
    requires forall n :: n in names ==> n in cart && n in prices
  {
    if names == [] then 0
    else
      var last := names[|names| - 1];
      Value(cart, prices, names[..|names| - 1]) + cart[last] * prices[last]
  }

  lemma {:induction false} ValueOfConcat(cart: map<string, int>, prices: map<string, int>, a: seq<string>, b: seq<string>)
    requires forall n :: n in a + b ==> n in cart && n in prices
    ensures Value(cart, prices, a + b) == Value(cart, prices, a) + Value(cart, prices, b)
    decreases |b|
  {
    if b != [] {
      var init := b[..|b| - 1];
      assert (a + b)[..|a + b| - 1] == a + init;
      ValueOfConcat(cart, prices, a, init);
    } else {
      assert a + b == a;
    }
  }

  /** The value only depends on the quantities of the listed names. */
  lemma {:induction false} ValueOfAgreeing(c1: map<string, int>, c2: map<string, int>, prices: map<string, int>, names: seq<string>)
    requires forall n :: n in names ==> n in c1 && n in c2 && n in prices && c1[n] == c2[n]
    ensures Value(c1, prices, names) == Value(c2, prices, names)
  {
    if names != [] {
      ValueOfAgreeing(c1, c2, prices, names[..|names| - 1]);
    }
  }

  /** The value of a list split around one of its names. */
  lemma ValueAround(cart: map<string, int>, prices: map<string, int>, a: seq<string>, x: string, b: seq<string>)
    requires forall n :: n in a + [x] + b ==> n in cart && n in prices
    ensures Value(cart, prices, a + [x] + b) == Value(cart, prices, a) + cart[x] * prices[x] + Value(cart, prices, b)
  {
    ValueOfConcat(cart, prices, a + [x], b);
    ValueOfConcat(cart, prices, a, [x]);
    assert [x][..0] == [];
  }

  lemma Distributes(a: int, b: int, p: int)
    ensures (a + b) * p == a * p + b * p
  {
  }

  /** Adding qty of an item raises the value by qty times its price. */
  lemma ValueOfAdd(cart: map<string, int>, prices: map<string, int>, names: seq<string>, name: string, qty: int)
    requires Listed(cart, names) && name in prices
    requires forall n :: n in cart ==> n in prices
    ensures forall n :: n in AddName(cart, names, name) ==> n in AddQty(cart, name, qty) && n in prices
    ensures Value(AddQty(cart, name, qty), prices, AddName(cart, names, name))
         == Value(cart, prices, names) + qty * prices[name]
  {
    if name in cart {
      ValueOfAddExisting(cart, prices, names, name, qty);
    } else {
      var c := AddQty(cart, name, qty);
      assert name !in names;
      assert (names + [name])[..|names|] == names;
      ValueOfAgreeing(cart, c, prices, names);
    }
  }

  lemma ValueOfAddExisting(cart: map<string, int>, prices: map<string, int>, names: seq<string>, name: string, qty: int)
    requires Listed(cart, names) && name in cart
    requires forall n :: n in cart ==> n in prices
    ensures Value(AddQty(cart, name, qty), prices, names) == Value(cart, prices, names) + qty * prices[name]
  {
    var j :| 0 <= j < |names| && names[j] == name;
    var a, b := names[..j], names[j + 1..];
    assert names == a + [name] + b;
    assert name !in a && name !in b;
    ValueOfAddAt(cart, prices, a, name, b, qty);
  }

  lemma ValueOfAddAt(cart: map<string, int>, prices: map<string, int>, a: seq<string>, name: string, b: seq<string>, qty: int)
    requires name in cart && name !in a && name !in b
    requires forall n :: n in a + [name] + b ==> n in cart && n in prices
    ensures Value(AddQty(cart, name, qty), prices, a + [name] + b) == Value(cart, prices, a + [name] + b) + qty * prices[name]
  {
    var c := AddQty(cart, name, qty);
    ValueAround(c, prices, a, name, b);
    ValueAround(cart, prices, a, name, b);
    ValueOfAgreeing(cart, c, prices, a);
    ValueOfAgreeing(cart, c, prices, b);
    var p, before, after := prices[name], cart[name], c[name];
    assert after == before + qty;
    Distributes(before, qty, p);
    assert after * p == before * p + qty * p;
  }

  /** Taking one entry out of a list without repeats. */
  lemma SplitOut(t: seq<string>, j: nat)
    requires NoDuplicates(t) && j < |t|
    ensures t == t[..j] + [t[j]] + t[j + 1..]
    ensures NoDuplicates(t[..j] + t[j + 1..])
    ensures forall n :: n in t[..j] + t[j + 1..] <==> n in t && n != t[j]
  {
    var a, b := t[..j], t[j + 1..];
    assert t == a + [t[j]] + b;
    forall p, q | 0 <= p < q < |a + b|
      ensures (a + b)[p] != (a + b)[q]
    {
      var p', q' := if p < j then p else p + 1, if q < j then q else q + 1;
      assert (a + b)[p] == t[p'] && (a + b)[q] == t[q'];
    }
    forall n
      ensures n in a + b <==> n in t && n != t[j]
    {
      assert n in t <==> n in a || n == t[j] || n in b;
      if n in a + b {
        var k :| 0 <= k < |a + b| && (a + b)[k] == n;
        var k' := if k < j then k else k + 1;
        assert t[k'] == n;
      }
    }
  }

  /** The value does not depend on the order the names are listed in. */
  lemma {:induction false} ValueOfReordered(cart: map<string, int>, prices: map<string, int>, s: seq<string>, t: seq<string>)
    requires NoDuplicates(s) && NoDuplicates(t) && forall n :: n in s <==> n in t
    requires forall n :: n in s ==> n in cart && n in prices
    ensures Value(cart, prices, s) == Value(cart, prices, t)
    decreases |s|
  {
    if s != [] {
      var init, x := s[..|s| - 1], s[|s| - 1];
      SplitOut(s, |s| - 1);
      assert s[..|s| - 1] + s[|s|..] == init;
      assert x in t by {
        assert x in s;
      }
      var j :| 0 <= j < |t| && t[j] == x;
      SplitOut(t, j);
      var a, b := t[..j], t[j + 1..];
      forall n
        ensures n in init <==> n in a + b
      {
        assert n in init <==> n in s && n != x;
        assert n in a + b <==> n in t && n != x;
      }
      ValueOfReordered(cart, prices, init, a + b);
      ValueOfConcat(cart, prices, a, b);
      ValueAround(cart, prices, a, x, b);
    }
  }

  /** The total quantity the (name, qty) pairs give to name. */
  function SumQty(pairs: seq<(string, int)>, name: string): int
  {
    if pairs == [] then 0
    else
      var last := pairs[|pairs| - 1];
      SumQty(pairs[..|pairs| - 1], name) + (if last.0 == name then last.1 else 0)
  }

  /** Some pair names the item. */
  predicate Occurs(pairs: seq<(string, int)>, name: string)
  {
    exists i :: 0 <= i < |pairs| && pairs[i].0 == name
  }

  /** The dict is the tally of the pairs: its keys are the names that occur
      (listed in names), each with the sum of its quantities. */
  ghost predicate Tallies(cart: map<string, int>, names: seq<string>, pairs: seq<(string, int)>)
  {
    && Listed(cart, names)
    && (forall n :: n in cart <==> Occurs(pairs, n))
    && forall n :: n in cart ==> cart[n] == SumQty(pairs, n)
  }

  lemma {:induction false} SumQtyAbsent(pairs: seq<(string, int)>, name: string)
    requires !Occurs(pairs, name)
    ensures SumQty(pairs, name) == 0
  {
    if pairs != [] {
      var init := pairs[..|pairs| - 1];
      SumQtyAbsent(init, name);
    }
  }

  /** The names of the pairs in the order they first occur: the key order
      of a dict the pairs are added to one by one. */
  function FirstNames(pairs: seq<(string, int)>): seq<string>
  {
    if pairs == [] then []
    else
      var head, last := FirstNames(pairs[..|pairs| - 1]), pairs[|pairs| - 1];
      if last.0 in head then head else head + [last.0]
  }

  /** The first-occurrence order lists each name of the pairs once, and no
      other name. */
  lemma {:induction false} FirstNamesListsPairs(pairs: seq<(string, int)>)
    ensures NoDuplicates(FirstNames(pairs))
    ensures forall n :: n in FirstNames(pairs) <==> Occurs(pairs, n)
  {
    if pairs != [] {
      var init, last := pairs[..|pairs| - 1], pairs[|pairs| - 1];
      FirstNamesListsPairs(init);
      forall n
        ensures Occurs(pairs, n) <==> Occurs(init, n) || n == last.0
      {
        if Occurs(pairs, n) && n != last.0 {
          var i :| 0 <= i < |pairs| && pairs[i].0 == n;
          assert init[i] == pairs[i];
        }
        if Occurs(init, n) {
          var i :| 0 <= i < |init| && init[i].0 == n;
          assert pairs[i] == init[i];
        }
        if n == last.0 {
          assert pairs[|pairs| - 1].0 == n;
        }
      }
    }
  }

  /** Adding one pair to the dict extends the key order the way the
      dict's insertion does. */
  lemma FirstNamesAdd(cart: map<string, int>, names: seq<string>, pairs: seq<(string, int)>, name: string, qty: int)
    requires Tallies(cart, names, pairs) && names == FirstNames(pairs)
    ensures AddName(cart, names, name) == FirstNames(pairs + [(name, qty)])
  {
    assert (pairs + [(name, qty)])[..|pairs|] == pairs;
  }

  lemma TalliesEmpty()
    ensures Tallies(map[], [], [])
  {
  }

  /** One more accepted pair, added with `cart[name] += qty` or
      `cart[name] = qty`, keeps the dict the tally of the pairs. */
  lemma TalliesAdd(cart: map<string, int>, names: seq<string>, pairs: seq<(string, int)>, name: string, qty: int)
    requires Tallies(cart, names, pairs)
    ensures Tallies(AddQty(cart, name, qty), AddName(cart, names, name), pairs + [(name, qty)])
  {
    var ps := pairs + [(name, qty)];
    assert ps[..|pairs|] == pairs;
    AddKeepsListed(cart, names, name, qty);
    if name !in cart {
      SumQtyAbsent(pairs, name);
    }
    forall n
      ensures Occurs(ps, n) <==> Occurs(pairs, n) || n == name
    {
      if Occurs(ps, n) && n != name {
        var i :| 0 <= i < |ps| && ps[i].0 == n;
        assert ps[i] == pairs[i];
      }
      if Occurs(pairs, n) {
        var i :| 0 <= i < |pairs| && pairs[i].0 == n;
        assert ps[i] == pairs[i];
      }
      if n == name {
        assert ps[|pairs|].0 == n;
      }
    }
  }

  /** The loop state of a billing script: the dict tallies the accepted
      pairs, its keys are in the order they were first added, every key has
      a price and the total is the dict's value. */
  ghost predicate Billed(cart: map<string, int>, names: seq<string>, prices: map<string, int>, total: int, pairs: seq<(string, int)>)
  {
    && Tallies(cart, names, pairs)
    && names == FirstNames(pairs)
    && (forall n :: n in cart ==> n in prices)
    && total == Value(cart, prices, names)
  }

  lemma BilledEmpty(prices: map<string, int>)
    ensures Billed(map[], [], prices, 0, [])
  {
  }

  /** Adding one accepted pair to the dict and qty * price to the total
      keeps the loop state. */
  lemma BilledAdd(cart: map<string, int>, names: seq<string>, prices: map<string, int>, total: int,
                  pairs: seq<(string, int)>, name: string, qty: int)
    requires Billed(cart, names, prices, total, pairs) && name in prices
    ensures Billed(AddQty(cart, name, qty), AddName(cart, names, name), prices, total + qty * prices[name], pairs + [(name, qty)])
  {
    TalliesAdd(cart, names, pairs, name, qty);
    FirstNamesAdd(cart, names, pairs, name, qty);
    ValueOfAdd(cart, prices, names, name, qty);
  }
}
