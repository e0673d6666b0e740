/**
Order totals in int64 cents, as CreateOrder of the repository and of the server both add them up.
*/
module Money {
  import opened Common

  const MAX_INT64 := 0x7FFF_FFFF_FFFF_FFFF

  datatype PricedItem = PricedItem(product: string, quantity: int, unitPriceCents: int)

  /** Go's int64 arithmetic wraps around. */
  function Wrap64(x: int): (r: int)
    ensures -MAX_INT64 - 1 <= r <= MAX_INT64
    ensures -MAX_INT64 - 1 <= x <= MAX_INT64 ==> r == x
  {
    (x + 0x8000_0000_0000_0000) % 0x1_0000_0000_0000_0000 - 0x8000_0000_0000_0000
  }

  function Price(item: PricedItem): int {
    item.unitPriceCents * item.quantity
  }

  function ExactTotal(items: seq<PricedItem>): int {
    if items == [] then 0 else ExactTotal(items[..|items| - 1]) + Price(items[|items| - 1])
  }

  /** No items cost nothing; one more adds its unit price times its quantity. */
  lemma TotalGrows(items: seq<PricedItem>, x: PricedItem)
    ensures ExactTotal([]) == 0
    ensures ExactTotal(items + [x]) == ExactTotal(items) + x.unitPriceCents * x.quantity
  {
    assert (items + [x])[..|items|] == items;
  }

  lemma TotalOfOne(items: seq<PricedItem>)
    requires |items| == 1
    ensures ExactTotal(items) == items[0].unitPriceCents * items[0].quantity
  {
    assert items == [] + [items[0]];
    TotalGrows([], items[0]);
  }

  /** Wrapping around changes a number by a multiple of 2^64 only. */
  lemma WrapIsCongruent(x: int)
    ensures (x - Wrap64(x)) % 0x1_0000_0000_0000_0000 == 0
  {
  }

  lemma WrapPeriod(x: int, k: int)
    ensures Wrap64(x + k * 0x1_0000_0000_0000_0000) == Wrap64(x)
  {
  }

  lemma WrapAdd(a: int, b: int)
    ensures Wrap64(Wrap64(a) + Wrap64(b)) == Wrap64(a + b)
  {
    var p := (a + 0x8000_0000_0000_0000) / 0x1_0000_0000_0000_0000;
    var q := (b + 0x8000_0000_0000_0000) / 0x1_0000_0000_0000_0000;
    assert a + b == Wrap64(a) + Wrap64(b) + (p + q) * 0x1_0000_0000_0000_0000;
    WrapPeriod(Wrap64(a) + Wrap64(b), p + q);
  }

  /** The running total is the exact sum modulo 2^64, whatever overflowed on the way. */
  method TotalCents(items: seq<PricedItem>) returns (totalCents: int)
    ensures totalCents == Wrap64(ExactTotal(items))
  {
    totalCents := 0;
    for i := 0 to |items|
      invariant totalCents == Wrap64(ExactTotal(items[..i]))
    {
      assert items[..i + 1][..i] == items[..i];
      WrapAdd(ExactTotal(items[..i]), Price(items[i]));
      totalCents := Wrap64(totalCents + Wrap64(items[i].unitPriceCents * items[i].quantity));
    }
    assert items[..|items|] == items;
  }

  lemma {:induction false} ExactTotalConcat(a: seq<PricedItem>, b: seq<PricedItem>)
    ensures ExactTotal(a + b) == ExactTotal(a) + ExactTotal(b)
  {
    if b == [] {
      assert a + b == a;
    } else {
      assert (a + b)[..|a + b| - 1] == a + b[..|b| - 1];
      ExactTotalConcat(a, b[..|b| - 1]);
    }
  }

  /** The order of the items does not matter, overflow or not. */
  lemma {:induction false} TotalAnyOrder(a: seq<PricedItem>, b: seq<PricedItem>)
    requires multiset(a) == multiset(b)
    ensures ExactTotal(a) == ExactTotal(b)
  {
    if a == [] {
      assert |multiset(b)| == 0;
    } else {
      var j := SplitAtLast(a, b);
      TotalAnyOrder(a[..|a| - 1], b[..j] + b[j + 1..]);
      ExactTotalConcat(b[..j] + [b[j]], b[j + 1..]);
      ExactTotalConcat(b[..j], [b[j]]);
      ExactTotalConcat(b[..j], b[j + 1..]);
    }
  }

  ghost predicate NonNegative(items: seq<PricedItem>) {
    forall i :: 0 <= i < |items| ==> items[i].quantity >= 0 && items[i].unitPriceCents >= 0
  }

  lemma PriceNonNegative(item: PricedItem)
    requires item.quantity >= 0 && item.unitPriceCents >= 0
    ensures Price(item) >= 0
  {
  }

  lemma {:induction false} PrefixTotal(items: seq<PricedItem>, n: nat)
    requires NonNegative(items) && n <= |items|
    ensures 0 <= ExactTotal(items[..n]) <= ExactTotal(items)
  {
    if items == [] {
    } else if n == |items| {
      assert items[..n] == items;
      PriceNonNegative(items[n - 1]);
      PrefixTotal(items[..n - 1], n - 1);
      assert items[..n - 1][..n - 1] == items[..n - 1];
    } else {
      var init := items[..|items| - 1];
      PriceNonNegative(items[|items| - 1]);
      PrefixTotal(init, n);
      assert init[..n] == items[..n];
    }
  }

  /** If the sum of non-negative prices fits in int64, no product and no partial sum overflows. */
  lemma NoOverflowIfSumFits(items: seq<PricedItem>, n: nat)
    requires NonNegative(items) && ExactTotal(items) <= MAX_INT64 && n < |items|
    ensures Wrap64(ExactTotal(items)) == ExactTotal(items)
    ensures Wrap64(ExactTotal(items[..n])) == ExactTotal(items[..n])
    ensures Wrap64(Price(items[n])) == Price(items[n])
  {
    PrefixTotal(items, n);
    PrefixTotal(items, n + 1);
    PrefixTotal(items, |items|);
    assert items[..n + 1][..n] == items[..n];
    PriceNonNegative(items[n]);
  }
}
