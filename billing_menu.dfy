/** Billing from a numbered fruit menu (Day4/day4-billing-as-per-menu.py):
    n orders of (menu number, quantity) build the cart and the running total,
    price_lookup is built from the menu, the cart is listed in name order and
    the discount tier gives the final amount.  The integers read from the
    console are given as Order values. */
module MenuBilling {
  import opened Text
  import opened Cart
  import Discount

  /** fruits_menu: menu number to (name, unit price). */
  const Menu: map<int, (string, int)> :=
    map[1 := ("apples", 100), 2 := ("kiwi", 50), 3 := ("oranges", 20), 4 := ("banana", 10)]

  /** The menu numbers in the dict's order. */
  const MenuKeys: seq<int> := [1, 2, 3, 4]

  lemma MenuKeysListMenu()
    ensures forall k :: k in MenuKeys <==> k in Menu
  {
  }

  /** One pass of the order loop: the number entered and, for a number on
      the menu, the quantity entered next. */
  datatype Order = Order(choice: int, qty: int)

  /** An order whose number is on the menu adds its item's name with the
      quantity ordered. */
  predicate Adds(o: Order, pair: (string, int))
  {
    o.choice in Menu && pair == (Menu[o.choice].0, o.qty)
  }

  /** The (name, qty) pairs the orders add to the cart: an order whose
      number is not on the menu adds nothing. */
  function Accepted(orders: seq<Order>): (pairs: seq<(string, int)>)
    ensures |pairs| <= |orders|
    ensures |pairs| == |orders| <==> forall o :: o in orders ==> o.choice in Menu
    ensures forall k :: 0 <= k < |pairs| ==> exists o :: o in orders && Adds(o, pairs[k])
  {
    if orders == [] then []
    else
      var init, o := orders[..|orders| - 1], orders[|orders| - 1];
      assert orders == init + [o];
      assert forall x :: x in init ==> x in orders;
      var head := Accepted(init);
      assert forall k :: 0 <= k < |head| ==> exists o' :: o' in orders && Adds(o', head[k]);
      assert o.choice in Menu ==> Adds(o, (Menu[o.choice].0, o.qty)) && o in orders;
      head + (if o.choice in Menu then [(Menu[o.choice].0, o.qty)] else [])
  }

  /** The price_lookup loop: one entry per menu item, name to price. */
  method PriceLookup() returns (lookup: map<string, int>)
    ensures forall k :: k in Menu ==> Menu[k].0 in lookup && lookup[Menu[k].0] == Menu[k].1
    ensures forall n :: n in lookup ==> exists k :: k in Menu && Menu[k].0 == n
    ensures lookup == Prices
  {
    lookup := map[];
    for i := 0 to |MenuKeys|
      invariant forall j :: 0 <= j < i ==> Menu[MenuKeys[j]].0 in lookup && lookup[Menu[MenuKeys[j]].0] == Menu[MenuKeys[j]].1
      invariant forall n :: n in lookup ==> exists j :: 0 <= j < i && Menu[MenuKeys[j]].0 == n
    {
      var (name, price) := Menu[MenuKeys[i]];
      lookup := lookup[name := price];
    }
    forall k | k in Menu
      ensures Menu[k].0 in lookup && lookup[Menu[k].0] == Menu[k].1
    {
      MenuKeysListMenu();
      var j :| 0 <= j < |MenuKeys| && MenuKeys[j] == k;
    }
    PricesMatchMenu();
    assert lookup.Keys == Prices.Keys;
  }

  /** The unit prices by name, as price_lookup holds them. */
  const Prices: map<string, int> := map["apples" := 100, "kiwi" := 50, "oranges" := 20, "banana" := 10]

  /** The menu's names are distinct, so each name has one price: the one
      on the menu. */
  lemma PricesMatchMenu()
    ensures forall k :: k in Menu ==> Menu[k].0 in Prices && Prices[Menu[k].0] == Menu[k].1
    ensures forall n :: n in Prices ==> exists k :: k in Menu && Menu[k].0 == n
  {
    assert Menu[1].0 == "apples" && Menu[2].0 == "kiwi" && Menu[3].0 == "oranges" && Menu[4].0 == "banana";
  }

  lemma AcceptedOfLonger(orders: seq<Order>, i: nat)
    requires i < |orders|
    ensures Accepted(orders[..i + 1]) == Accepted(orders[..i])
      + (if orders[i].choice in Menu then [(Menu[orders[i].choice].0, orders[i].qty)] else [])
  {
    assert orders[..i + 1][..i] == orders[..i];
  }

  /** A menu entry's name has the menu's price in Prices. */
  lemma MenuPrice(k: int)
    requires k in Menu
    ensures Menu[k].0 in Prices && Prices[Menu[k].0] == Menu[k].1
  {
    PricesMatchMenu();
  }

  /** One pass of the order loop keeps the cart the tally of the accepted
      orders so far and the total its value at menu prices. */
  lemma OrderStep(cart: map<string, int>, names: seq<string>, total: int, orders: seq<Order>, i: nat)
    requires i < |orders| && Billed(cart, names, Prices, total, Accepted(orders[..i]))
    ensures orders[i].choice !in Menu ==> Billed(cart, names, Prices, total, Accepted(orders[..i + 1]))
    ensures orders[i].choice in Menu ==>
      var (name, price) := Menu[orders[i].choice];
      Billed(AddQty(cart, name, orders[i].qty), AddName(cart, names, name), Prices,
             total + orders[i].qty * price, Accepted(orders[..i + 1]))
  {
    AcceptedOfLonger(orders, i);
    var o := orders[i];
    if o.choice in Menu {
      MenuPrice(o.choice);
      BilledAdd(cart, names, Prices, total, Accepted(orders[..i]), Menu[o.choice].0, o.qty);
    } else {
      assert Accepted(orders[..i + 1]) == Accepted(orders[..i]);
    }
  }

  /** The order loop.  The cart is the tally of the accepted orders, every
      name in it is on the menu, and the total is the cart's value at menu
      prices; a number not on the menu uses up a pass and changes nothing. */
  method TakeOrders(orders: seq<Order>) returns (cart: map<string, int>, names: seq<string>, total: int)
    ensures Tallies(cart, names, Accepted(orders))
    ensures names == FirstNames(Accepted(orders))
    ensures forall n :: n in cart ==> n in Prices
    ensures total == Value(cart, Prices, names)
  {
    cart, names, total := map[], [], 0;
    BilledEmpty(Prices);
    for i := 0 to |orders|
      invariant Billed(cart, names, Prices, total, Accepted(orders[..i]))
    {
      OrderStep(cart, names, total, orders, i);
      var o := orders[i];
      if o.choice in Menu {
        var (name, price) := Menu[o.choice];
        cart, names, total := AddQty(cart, name, o.qty), AddName(cart, names, name), total + o.qty * price;
      }
    }
    assert orders[..|orders|] == orders;
  }

  /** One printed line of the cart listing. */
  datatype Line = Line(name: string, qty: int, price: int, itemTotal: int)

  function LinesFor(cart: map<string, int>, prices: map<string, int>, names: seq<string>): (lines: seq<Line>)
    requires forall n :: n in names ==> n in cart && n in prices
    ensures |lines| == |names|
    ensures forall i :: 0 <= i < |names| ==>
      lines[i] == Line(names[i], cart[names[i]], prices[names[i]], cart[names[i]] * prices[names[i]])
  {
    seq(|names|, i requires 0 <= i < |names| => Line(names[i], cart[names[i]], prices[names[i]], cart[names[i]] * prices[names[i]]))
  }

  function LinesTotal(lines: seq<Line>): int
  {
    if lines == [] then 0 else LinesTotal(lines[..|lines| - 1]) + lines[|lines| - 1].itemTotal
  }

  lemma {:induction false} LinesTotalIsValue(cart: map<string, int>, prices: map<string, int>, names: seq<string>)
    requires forall n :: n in names ==> n in cart && n in prices
    ensures LinesTotal(LinesFor(cart, prices, names)) == Value(cart, prices, names)
  {
    if names != [] {
      var init := names[..|names| - 1];
      assert LinesFor(cart, prices, names)[..|names| - 1] == LinesFor(cart, prices, init);
      LinesTotalIsValue(cart, prices, init);
    }
  }

  /** The listing `for item_name in sorted(cart)`: one line per cart item
      in name order, qty x price = item_total; the item totals add up to
      the running total. */
  function Listing(cart: map<string, int>, prices: map<string, int>, names: seq<string>): (lines: seq<Line>)
    requires Listed(cart, names) && forall n :: n in cart ==> n in prices
    ensures |lines| == |cart|
    ensures forall i :: 0 < i < |lines| ==> Less(lines[i - 1].name, lines[i].name)
    ensures forall n :: n in cart <==> exists i :: 0 <= i < |lines| && lines[i].name == n
    ensures forall i :: 0 <= i < |lines| ==>
      lines[i].name in cart && lines[i].qty == cart[lines[i].name] && lines[i].price == prices[lines[i].name]
      && lines[i].itemTotal == lines[i].qty * lines[i].price
    ensures LinesTotal(lines) == Value(cart, prices, names)
  {
    var sorted := Sorted(names);
    AscendingIsDistinct(sorted);
    var lines := LinesFor(cart, prices, sorted);
    ListingFacts(cart, prices, names, sorted, lines);
    lines
  }

  lemma ListingFacts(cart: map<string, int>, prices: map<string, int>, names: seq<string>, sorted: seq<string>, lines: seq<Line>)
    requires Listed(cart, names) && forall n :: n in cart ==> n in prices
    requires Ascending(sorted) && NoDuplicates(sorted) && forall n :: n in sorted <==> n in names
    requires forall n :: n in sorted ==> n in cart && n in prices
    requires lines == LinesFor(cart, prices, sorted)
    ensures |lines| == |cart|
    ensures forall i :: 0 < i < |lines| ==> Less(lines[i - 1].name, lines[i].name)
    ensures forall n :: n in cart <==> exists i :: 0 <= i < |lines| && lines[i].name == n
    ensures forall i :: 0 <= i < |lines| ==>
      lines[i].name in cart && lines[i].qty == cart[lines[i].name] && lines[i].price == prices[lines[i].name]
      && lines[i].itemTotal == lines[i].qty * lines[i].price
    ensures LinesTotal(lines) == Value(cart, prices, names)
  {
    ListingShape(cart, prices, sorted, lines);
    ListingTotal(cart, prices, names, sorted);
  }

  /** One line per item, in the order of sorted. */
  lemma ListingShape(cart: map<string, int>, prices: map<string, int>, sorted: seq<string>, lines: seq<Line>)
    requires Ascending(sorted) && NoDuplicates(sorted)
    requires forall n :: n in sorted <==> n in cart
    requires forall n :: n in cart ==> n in prices
    requires lines == LinesFor(cart, prices, sorted)
    ensures |lines| == |cart|
    ensures forall i :: 0 < i < |lines| ==> Less(lines[i - 1].name, lines[i].name)
    ensures forall n :: n in cart <==> exists i :: 0 <= i < |lines| && lines[i].name == n
    ensures forall i :: 0 <= i < |lines| ==>
      lines[i].name in cart && lines[i].qty == cart[lines[i].name] && lines[i].price == prices[lines[i].name]
      && lines[i].itemTotal == lines[i].qty * lines[i].price
  {
    assert forall n :: n in sorted <==> n in cart.Keys;
    CountOfDistinct(sorted, cart.Keys);
    LinesOfSorted(cart, prices, sorted);
    ListingCoversCart(cart, prices, sorted);
  }

  /** The item totals add up to the cart's value. */
  lemma ListingTotal(cart: map<string, int>, prices: map<string, int>, names: seq<string>, sorted: seq<string>)
    requires NoDuplicates(names) && NoDuplicates(sorted) && forall n :: n in sorted <==> n in names
    requires forall n :: n in names ==> n in cart && n in prices
    ensures LinesTotal(LinesFor(cart, prices, sorted)) == Value(cart, prices, names)
  {
    LinesTotalIsValue(cart, prices, sorted);
    ValueOfReordered(cart, prices, sorted, names);
  }

  /** Line i is sorted[i]'s line, so the lines keep the names' order. */
  lemma LinesOfSorted(cart: map<string, int>, prices: map<string, int>, sorted: seq<string>)
    requires Ascending(sorted) && forall n :: n in sorted ==> n in cart && n in prices
    ensures forall i :: 0 < i < |sorted| ==> Less(LinesFor(cart, prices, sorted)[i - 1].name, LinesFor(cart, prices, sorted)[i].name)
    ensures forall i :: 0 <= i < |sorted| ==>
      var l := LinesFor(cart, prices, sorted)[i];
      l.name in sorted && l.qty == cart[l.name] && l.price == prices[l.name] && l.itemTotal == l.qty * l.price
  {
  }

  lemma ListingCoversCart(cart: map<string, int>, prices: map<string, int>, sorted: seq<string>)
    requires forall n :: n in sorted <==> n in cart
    requires forall n :: n in cart ==> n in prices
    ensures forall n :: n in cart ==> exists i :: 0 <= i < |sorted| && LinesFor(cart, prices, sorted)[i].name == n
  {
    forall n | n in cart
      ensures exists i :: 0 <= i < |sorted| && LinesFor(cart, prices, sorted)[i].name == n
    {
      ListingHasEveryItem(cart, prices, sorted, n);
    }
  }

  /** Each cart item has its line. */
  lemma ListingHasEveryItem(cart: map<string, int>, prices: map<string, int>, sorted: seq<string>, n: string)
    requires forall m :: m in sorted ==> m in cart && m in prices
    requires n in sorted
    ensures exists i :: 0 <= i < |sorted| && LinesFor(cart, prices, sorted)[i].name == n
  {
    var i := IndexIn(sorted, n);
    assert LinesFor(cart, prices, sorted)[i].name == n;
  }

  function IndexIn(s: seq<string>, x: string): (i: nat)
    requires x in s
    ensures i < |s| && s[i] == x
  {
    if s[0] == x then 0 else 1 + IndexIn(s[1..], x)
  }

  /** The whole script: orders, price lookup, listing, total, discount and
      final amount. */
  method Bill(orders: seq<Order>)
    returns (cart: map<string, int>, names: seq<string>, lines: seq<Line>, total: int, discount: real, final: real)
    ensures Tallies(cart, names, Accepted(orders)) && forall n :: n in cart ==> n in Prices
    ensures names == FirstNames(Accepted(orders))
    ensures total == Value(cart, Prices, names)
    ensures lines == Listing(cart, Prices, names)
    ensures discount == Discount.DiscountAmount(total)
    ensures final == Discount.FinalAmount(total)
  {
    cart, names, total := TakeOrders(orders);
    var lookup := PriceLookup();
    lines := Listing(cart, lookup, names);
    discount := Discount.DiscountAmount(total);
    final := total as real - discount;
  }
}
