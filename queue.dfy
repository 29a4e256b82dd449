/**
 * The order queue's totals and what the queue bar shows: one sum per
 * price field, accumulated left to right from 0 as the source's `reduce`
 * does, and nothing at all when the queue is empty.
 */
module Ledger {
  import opened Wrappers
  import opened Num
  import opened Records

  /** `items.reduce((acc, i) => acc + price(i), 0)`: a left fold over the items. */
  function Total(items: seq<LineItem>, f: PriceField): Decimal
  {
    if |items| == 0 then Zero else Plus(Total(items[..|items| - 1], f), Price(items[|items| - 1], f))
  }

  /** The reference sum, first item first. */
  function Sum(items: seq<LineItem>, f: PriceField): real
  {
    if |items| == 0 then 0.0 else Value(Price(items[0], f)) + Sum(items[1..], f)
  }

  lemma {:induction false} SumAppend(items: seq<LineItem>, x: LineItem, f: PriceField)
    ensures Sum(items + [x], f) == Sum(items, f) + Value(Price(x, f))
  {
    if |items| > 0 {
      assert (items + [x])[1..] == items[1..] + [x];
      SumAppend(items[1..], x, f);
    }
  }

  /** The queue's displayed total is the sum of that field over the items; the empty sum is 0. */
  lemma {:induction false} TotalIsSum(items: seq<LineItem>, f: PriceField)
    ensures Value(Total(items, f)) == Sum(items, f)
  {
    if |items| > 0 {
      var init, last := items[..|items| - 1], items[|items| - 1];
      TotalIsSum(init, f);
      assert items == init + [last];
      SumAppend(init, last, f);
    }
  }

  /** Totals are additive under append: appending an item adds its field to the total. */
  lemma TotalAppend(items: seq<LineItem>, x: LineItem, f: PriceField)
    ensures Value(Total(items + [x], f)) == Value(Total(items, f)) + Value(Price(x, f))
  {
    assert (items + [x])[..|items|] == items;
  }

  /** The totals of a concatenation add up. */
  lemma TotalConcat(a: seq<LineItem>, b: seq<LineItem>, f: PriceField)
    ensures Value(Total(a + b, f)) == Value(Total(a, f)) + Value(Total(b, f))
  {
    TotalIsSum(a + b, f);
    TotalIsSum(a, f);
    TotalIsSum(b, f);
    SumConcat(a, b, f);
  }

  lemma {:induction false} SumConcat(a: seq<LineItem>, b: seq<LineItem>, f: PriceField)
    ensures Sum(a + b, f) == Sum(a, f) + Sum(b, f)
  {
    if |a| > 0 {
      assert (a + b)[1..] == a[1..] + b;
      SumConcat(a[1..], b, f);
    } else {
      assert a + b == b;
    }
  }

  /** What the queue bar shows: the count, the totals the role may see, and the retail total. */
  datatype QueueSummary = QueueSummary(count: nat, nagqu: Option<Decimal>, channel: Option<Decimal>, retail: Decimal)

  /** The queue bar, absent (rendering nothing, so no submit button) when the queue is empty. */
  function QueueView(items: seq<LineItem>, role: Role): (v: Option<QueueSummary>)
    ensures v.None? <==> |items| == 0
    ensures v.Some? ==> v.value.count == |items|
    ensures v.Some? ==> (v.value.nagqu.Some? <==> ShowNagqu(role)) && (v.value.channel.Some? <==> ShowChannel(role))
    ensures v.Some? && v.value.nagqu.Some? ==> Value(v.value.nagqu.value) == Sum(items, NagquPrice)
    ensures v.Some? && v.value.channel.Some? ==> Value(v.value.channel.value) == Sum(items, ChannelPrice)
    ensures v.Some? ==> Value(v.value.retail) == Sum(items, RetailPrice)
  {
    TotalIsSum(items, NagquPrice);
    TotalIsSum(items, ChannelPrice);
    TotalIsSum(items, RetailPrice);
    if |items| == 0 then None
    else Some(QueueSummary(
      |items|,
      if ShowNagqu(role) then Some(Total(items, NagquPrice)) else None,
      if ShowChannel(role) then Some(Total(items, ChannelPrice)) else None,
      Total(items, RetailPrice)))
  }
}
