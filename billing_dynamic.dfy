/** Billing by fruit name (Day4/day4-dyanmic-billing.py): n entries of
    (name, quantity); the name is lowercased, an unknown fruit is turned
    away, a known one is added to item_qty and to the running total; then
    the shared discount tier.  The console strings and integers are given
    as Entry values. */
module DynamicBilling {
  import opened Text
  import opened Cart
  import Discount

  /** The price list. */
  const Prices: map<string, int> := map["apple" := 100, "banana" := 20, "orange" := 50, "kiwi" := 80]

  /** One pass of the loop: the fruit name as typed and the quantity, which
      is read whether or not the fruit is available. */
  datatype Entry = Entry(rawName: string, qty: int)

  /** An entry whose lowercased name has a price adds that name with the
      quantity entered. */
  predicate Adds(e: Entry, pair: (string, int))
  {
    Lower(e.rawName) in Prices && pair == (Lower(e.rawName), e.qty)
  }

  /** The (item, qty) pairs the entries add to item_qty: the name is
      lowercased, and an entry whose item has no price adds nothing. */
  function Accepted(entries: seq<Entry>): (pairs: seq<(string, int)>)
    ensures |pairs| <= |entries|
    ensures forall i :: 0 <= i < |pairs| ==> pairs[i].0 in Prices
    ensures |pairs| == |entries| <==> forall e :: e in entries ==> Lower(e.rawName) in Prices
    ensures forall k :: 0 <= k < |pairs| ==> exists e :: e in entries && Adds(e, pairs[k])
  {
    if entries == [] then []
    else
      var init, e := entries[..|entries| - 1], entries[|entries| - 1];
      assert entries == init + [e];
      assert forall x :: x in init ==> x in entries;
      var head := Accepted(init);
      assert forall k :: 0 <= k < |head| ==> exists e' :: e' in entries && Adds(e', head[k]);
      assert Lower(e.rawName) in Prices ==> Adds(e, (Lower(e.rawName), e.qty)) && e in entries;
      head + (if Lower(e.rawName) in Prices then [(Lower(e.rawName), e.qty)] else [])
  }

  lemma AcceptedOfLonger(entries: seq<Entry>, i: nat)
    requires i < |entries|
    ensures Accepted(entries[..i + 1]) == Accepted(entries[..i])
      + (if Lower(entries[i].rawName) in Prices then [(Lower(entries[i].rawName), entries[i].qty)] else [])
  {
    assert entries[..i + 1][..i] == entries[..i];
  }

  /** One pass of the loop keeps item_qty the tally of the accepted
      entries so far and the total its value; the `continue` branch
      changes nothing. */
  lemma EntryStep(itemQty: map<string, int>, names: seq<string>, total: int, entries: seq<Entry>, i: nat)
    requires i < |entries| && Billed(itemQty, names, Prices, total, Accepted(entries[..i]))
    ensures Lower(entries[i].rawName) !in Prices ==> Billed(itemQty, names, Prices, total, Accepted(entries[..i + 1]))
    ensures Lower(entries[i].rawName) in Prices ==>
      var item := Lower(entries[i].rawName);
      Billed(AddQty(itemQty, item, entries[i].qty), AddName(itemQty, names, item), Prices,
             total + entries[i].qty * Prices[item], Accepted(entries[..i + 1]))
  {
    AcceptedOfLonger(entries, i);
    var item := Lower(entries[i].rawName);
    if item in Prices {
      BilledAdd(itemQty, names, Prices, total, Accepted(entries[..i]), item, entries[i].qty);
    } else {
      assert Accepted(entries[..i + 1]) == Accepted(entries[..i]);
    }
  }

  /** The entry loop.  item_qty is the tally of the accepted entries (names
      lists its keys in insertion order), every key has a price, and the
      total is the value of item_qty at those prices. */
  method TakeItems(entries: seq<Entry>) returns (itemQty: map<string, int>, names: seq<string>, total: int)
    ensures Tallies(itemQty, names, Accepted(entries))
    ensures names == FirstNames(Accepted(entries))
    ensures forall n :: n in itemQty ==> n in Prices
    ensures total == Value(itemQty, Prices, names)
  {
    itemQty, names, total := map[], [], 0;
    BilledEmpty(Prices);
    for i := 0 to |entries|
      invariant Billed(itemQty, names, Prices, total, Accepted(entries[..i]))
    {
      EntryStep(itemQty, names, total, entries, i);
      var item := Lower(entries[i].rawName);
      var qty := entries[i].qty;
      if item !in Prices {
        continue;
      }
      itemQty, names, total := AddQty(itemQty, item, qty), AddName(itemQty, names, item), total + qty * Prices[item];
    }
    assert entries[..|entries|] == entries;
  }

  /** Only the lowercased names matter: entries that agree on them and
      on the quantities are billed alike, so "Apple" and "APPLE" both buy
      apples. */
  lemma {:induction false} CaseInsensitive(e1: seq<Entry>, e2: seq<Entry>)
    requires |e1| == |e2|
    requires forall i :: 0 <= i < |e1| ==> Lower(e1[i].rawName) == Lower(e2[i].rawName) && e1[i].qty == e2[i].qty
    ensures Accepted(e1) == Accepted(e2)
  {
    if e1 != [] {
      CaseInsensitive(e1[..|e1| - 1], e2[..|e2| - 1]);
    }
  }

  /** The whole script: the entry loop, the discount and the final amount. */
  method Bill(entries: seq<Entry>)
    returns (itemQty: map<string, int>, names: seq<string>, total: int, discount: real, final: real)
    ensures Tallies(itemQty, names, Accepted(entries)) && forall n :: n in itemQty ==> n in Prices
    ensures names == FirstNames(Accepted(entries))
    ensures total == Value(itemQty, Prices, names)
    ensures discount == Discount.DiscountAmount(total)
    ensures final == Discount.FinalAmount(total)
  {
    itemQty, names, total := TakeItems(entries);
    discount := Discount.DiscountAmount(total);
    final := total as real - discount;
  }
}
