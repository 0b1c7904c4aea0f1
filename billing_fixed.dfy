/** Billing a fixed purchase list (Day4/day4-billing-system.py): each
    (item, qty, price) purchase is added to item_qty and qty * price to the
    total; then the shared discount tier. */
module FixedBilling {
  import opened Cart
  import Discount

  datatype Purchase = Purchase(item: string, qty: int, price: int)

  /** The purchases list. */
  const Purchases: seq<Purchase> :=
    [Purchase("apple", 2, 100), Purchase("banana", 5, 20), Purchase("apple", 1, 100), Purchase("orange", 3, 50)]

  /** The (item, qty) pairs the loop adds to item_qty. */
  function Pairs(ps: seq<Purchase>): (pairs: seq<(string, int)>)
    ensures |pairs| == |ps|
    ensures forall i :: 0 <= i < |ps| ==> pairs[i] == (ps[i].item, ps[i].qty)
  {
    seq(|ps|, i requires 0 <= i < |ps| => (ps[i].item, ps[i].qty))
  }

  /** The sum of f over the purchases. */
  function SumOf(ps: seq<Purchase>, f: Purchase -> int): int
  {
    if ps == [] then 0 else SumOf(ps[..|ps| - 1], f) + f(ps[|ps| - 1])
  }

  function Amount(p: Purchase): int
  {
    p.qty * p.price
  }

  /** total_amount: qty * price summed over the purchases. */
  function PurchaseTotal(ps: seq<Purchase>): int
  {
    SumOf(ps, Amount)
  }

  /** A purchase's contribution to the quantity of one item. */
  function QtyOf(name: string): Purchase -> int
  {
    (p: Purchase) => if p.item == name then p.qty else 0
  }

  /** The tally of an item is the sum of its purchases' quantities. */
  lemma {:induction false} SumQtyOfPairs(ps: seq<Purchase>, name: string)
    ensures SumQty(Pairs(ps), name) == SumOf(ps, QtyOf(name))
  {
    if ps != [] {
      assert Pairs(ps)[..|ps| - 1] == Pairs(ps[..|ps| - 1]);
      SumQtyOfPairs(ps[..|ps| - 1], name);
    }
  }

  lemma {:induction false} SumOfConcat(a: seq<Purchase>, b: seq<Purchase>, f: Purchase -> int)
    ensures SumOf(a + b, f) == SumOf(a, f) + SumOf(b, f)
    decreases |b|
  {
    if b == [] {
      assert a + b == a;
    } else {
      assert (a + b)[..|a + b| - 1] == a + b[..|b| - 1];
      SumOfConcat(a, b[..|b| - 1], f);
    }
  }

  lemma SumOfAround(a: seq<Purchase>, x: Purchase, b: seq<Purchase>, f: Purchase -> int)
    ensures SumOf(a + [x] + b, f) == SumOf(a, f) + f(x) + SumOf(b, f)
  {
    SumOfConcat(a + [x], b, f);
    SumOfConcat(a, [x], f);
    assert [x][..0] == [];
  }

  /** Taking the purchase at j out of the list. */
  lemma MultisetWithout(s: seq<Purchase>, j: nat)
    requires j < |s|
    ensures s == s[..j] + [s[j]] + s[j + 1..]
    ensures multiset(s[..j] + s[j + 1..]) == multiset(s) - multiset{s[j]}
  {
    assert s == s[..j] + [s[j]] + s[j + 1..];
    assert multiset(s) == multiset(s[..j]) + multiset{s[j]} + multiset(s[j + 1..]);
    assert multiset(s[..j] + s[j + 1..]) == multiset(s[..j]) + multiset(s[j + 1..]);
  }

  /** A sum over the purchases does not depend on their order. */
  lemma {:induction false} SumOfPermuted(p1: seq<Purchase>, p2: seq<Purchase>, f: Purchase -> int)
    requires multiset(p1) == multiset(p2)
    ensures SumOf(p1, f) == SumOf(p2, f)
    decreases |p1|
  {
    if p1 != [] {
      var n := |p1| - 1;
      var x := p1[n];
      MultisetWithout(p1, n);
      assert p1[..n] + p1[n + 1..] == p1[..n];
      assert x in multiset(p2);
      var j :| 0 <= j < |p2| && p2[j] == x;
      MultisetWithout(p2, j);
      var a, b := p2[..j], p2[j + 1..];
      SumOfPermuted(p1[..n], a + b, f);
      SumOfConcat(a, b, f);
      SumOfAround(a, x, b, f);
      assert SumOf(p1, f) == SumOf(p1[..n], f) + f(x);
      assert SumOf(p2, f) == SumOf(a + [x] + b, f);
    } else {
      assert |p2| == |multiset(p2)| == 0;
    }
  }

  /** An item is a key of the tally exactly when some purchase is of it,
      whatever the order of the purchases. */
  lemma OccursPermuted(p1: seq<Purchase>, p2: seq<Purchase>, n: string)
    requires multiset(p1) == multiset(p2)
    ensures Occurs(Pairs(p1), n) <==> Occurs(Pairs(p2), n)
  {
    forall q1: seq<Purchase>, q2: seq<Purchase> | multiset(q1) == multiset(q2) && Occurs(Pairs(q1), n)
      ensures Occurs(Pairs(q2), n)
    {
      var i :| 0 <= i < |q1| && Pairs(q1)[i].0 == n;
      assert q1[i] in multiset(q2);
      var j :| 0 <= j < |q2| && q2[j] == q1[i];
      assert Pairs(q2)[j].0 == n;
    }
  }

  /** item_qty and the total are independent of the order of the purchases:
      a dict that tallies one order tallies any reordering, and the totals
      agree. */
  lemma OrderIndependent(p1: seq<Purchase>, p2: seq<Purchase>, itemQty: map<string, int>, names: seq<string>)
    requires multiset(p1) == multiset(p2)
    requires Tallies(itemQty, names, Pairs(p1))
    ensures Tallies(itemQty, names, Pairs(p2))
    ensures PurchaseTotal(p1) == PurchaseTotal(p2)
  {
    forall n
      ensures Occurs(Pairs(p1), n) <==> Occurs(Pairs(p2), n)
      ensures SumQty(Pairs(p1), n) == SumQty(Pairs(p2), n)
    {
      OccursPermuted(p1, p2, n);
      SumQtyOfPairs(p1, n);
      SumQtyOfPairs(p2, n);
      SumOfPermuted(p1, p2, QtyOf(n));
    }
    SumOfPermuted(p1, p2, Amount);
  }

  /** Two dicts that tally the same pairs are the same dict. */
  lemma TalliesUnique(c1: map<string, int>, n1: seq<string>, c2: map<string, int>, n2: seq<string>, pairs: seq<(string, int)>)
    requires Tallies(c1, n1, pairs) && Tallies(c2, n2, pairs)
    ensures c1 == c2
  {
    assert c1.Keys == c2.Keys;
  }

  /** One more purchase adds one pair and its amount. */
  lemma PairsOfLonger(purchases: seq<Purchase>, i: nat)
    requires i < |purchases|
    ensures Pairs(purchases[..i + 1]) == Pairs(purchases[..i]) + [(purchases[i].item, purchases[i].qty)]
    ensures PurchaseTotal(purchases[..i + 1]) == PurchaseTotal(purchases[..i]) + purchases[i].qty * purchases[i].price
  {
    assert purchases[..i + 1][..i] == purchases[..i];
  }

  /** The purchase loop.  item_qty is the tally of the (item, qty) pairs
      and the total is qty * price summed over the purchases. */
  method Aggregate(purchases: seq<Purchase>) returns (itemQty: map<string, int>, names: seq<string>, total: int)
    ensures Tallies(itemQty, names, Pairs(purchases))
    ensures names == FirstNames(Pairs(purchases))
    ensures total == PurchaseTotal(purchases)
  {
    itemQty, names, total := map[], [], 0;
    for i := 0 to |purchases|
      invariant Tallies(itemQty, names, Pairs(purchases[..i]))
      invariant names == FirstNames(Pairs(purchases[..i]))
      invariant total == PurchaseTotal(purchases[..i])
    {
      var p := purchases[i];
      PairsOfLonger(purchases, i);
      TalliesAdd(itemQty, names, Pairs(purchases[..i]), p.item, p.qty);
      FirstNamesAdd(itemQty, names, Pairs(purchases[..i]), p.item, p.qty);
      itemQty, names := AddQty(itemQty, p.item, p.qty), AddName(itemQty, names, p.item);
      total := total + p.qty * p.price;
    }
    assert purchases[..|purchases|] == purchases;
  }

  /** The dict the fixed list gives. */
  const Expected: map<string, int> := map["apple" := 3, "banana" := 5, "orange" := 3]

  /** For the fixed list: apple 3, banana 5, orange 3, in that key order,
      a total of 550, which is bucket 5 and ten percent off, so 495. */
  lemma FixedListFigures()
    ensures Tallies(Expected, ["apple", "banana", "orange"], Pairs(Purchases))
    ensures FirstNames(Pairs(Purchases)) == ["apple", "banana", "orange"]
    ensures PurchaseTotal(Purchases) == 550
    ensures Discount.RatePercent(550) == 10 && Discount.FinalAmount(550) == 495.0
  {
    FixedListTally();
    FixedListOrder();
    FixedListTotal();
    Discount.RateTiers(550);
  }

  lemma FixedListTally()
    ensures Tallies(Expected, ["apple", "banana", "orange"], Pairs(Purchases))
  {
    TalliesEmpty();
    var c0: map<string, int>, n0: seq<string>, p0: seq<(string, int)> := map[], [], [];
    TalliesAdd(c0, n0, p0, "apple", 2);
    var c1, n1, p1 := AddQty(c0, "apple", 2), AddName(c0, n0, "apple"), p0 + [("apple", 2)];
    TalliesAdd(c1, n1, p1, "banana", 5);
    var c2, n2, p2 := AddQty(c1, "banana", 5), AddName(c1, n1, "banana"), p1 + [("banana", 5)];
    TalliesAdd(c2, n2, p2, "apple", 1);
    var c3, n3, p3 := AddQty(c2, "apple", 1), AddName(c2, n2, "apple"), p2 + [("apple", 1)];
    TalliesAdd(c3, n3, p3, "orange", 3);
    FixedListSteps();
  }

  /** The dict, key order and pairs after each of the four purchases. */
  lemma FixedListSteps()
    ensures var c1 := AddQty(map[], "apple", 2);
      var c2 := AddQty(c1, "banana", 5);
      var c3 := AddQty(c2, "apple", 1);
      && AddQty(c3, "orange", 3) == Expected
      && AddName(c3, AddName(c2, AddName(c1, AddName(map[], [], "apple"), "banana"), "apple"), "orange") == ["apple", "banana", "orange"]
    ensures [] + [("apple", 2)] + [("banana", 5)] + [("apple", 1)] + [("orange", 3)] == Pairs(Purchases)
  {
    var c1 := AddQty(map[], "apple", 2);
    assert c1 == map["apple" := 2];
    var c2 := AddQty(c1, "banana", 5);
    assert c2 == map["apple" := 2, "banana" := 5];
    var c3 := AddQty(c2, "apple", 1);
    assert c3 == map["apple" := 3, "banana" := 5];
    assert AddQty(c3, "orange", 3) == Expected;
    assert Pairs(Purchases)[0] == ("apple", 2) && Pairs(Purchases)[1] == ("banana", 5);
    assert Pairs(Purchases)[2] == ("apple", 1) && Pairs(Purchases)[3] == ("orange", 3);
  }

  /** The items in the order they are first bought: the key order of
      item_qty. */
  lemma FixedListOrder()
    ensures FirstNames(Pairs(Purchases)) == ["apple", "banana", "orange"]
  {
    var p := Pairs(Purchases);
    assert p == [("apple", 2), ("banana", 5), ("apple", 1), ("orange", 3)];
    assert p[..3][..2][..1] == [("apple", 2)] && p[..3][..2][..1][..0] == [];
    assert FirstNames(p[..3][..2][..1]) == ["apple"];
    assert FirstNames(p[..3][..2]) == ["apple", "banana"];
    assert FirstNames(p[..3]) == ["apple", "banana"];
  }

  lemma FixedListTotal()
    ensures PurchaseTotal(Purchases) == 550
  {
    var p := Purchases;
    assert p[..3][..2][..1][..0] == [];
    assert SumOf(p[..3][..2][..1], Amount) == 200;
    assert SumOf(p[..3][..2], Amount) == 300;
    assert SumOf(p[..3], Amount) == 400;
  }

  /** The whole script: item_qty, its key order, the total and the final
      amount are the fixed list's figures. */
  method Bill() returns (itemQty: map<string, int>, names: seq<string>, total: int, discount: real, final: real)
    ensures itemQty == Expected && names == ["apple", "banana", "orange"]
    ensures total == 550 && discount == 55.0 && final == 495.0
  {
    itemQty, names, total := Aggregate(Purchases);
    FixedListFigures();
    TalliesUnique(itemQty, names, Expected, ["apple", "banana", "orange"], Pairs(Purchases));
    discount := Discount.DiscountAmount(total);
    final := total as real - discount;
  }
}
