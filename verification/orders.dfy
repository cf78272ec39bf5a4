/** Products, the closed set of discount rules, the append-only order and the
    receipt derived from it. Money is modelled as `real`. */
module Orders {

  /** A catalog entry; immutable once built. */
  datatype Product = Product(name: string, price: real)

  /** The discount rule an order is created with. `NoDiscount` stands for the
      absent (null) rule. */
  datatype Discount =
    | Percentage(rate: real)
    | Fixed(amount: real)
    | NoDiscount

  /** An order: the products added so far, in insertion order, and the rule
      bound when the order was created. */
  datatype Order = Order(products: seq<Product>, discount: Discount)

  /** What a receipt shows: the products, one line each (name and price), the
      raw total, the discount amount and the final total. */
  datatype Receipt = Receipt(lines: seq<Product>, total: real, discountAmount: real, finalTotal: real)

  /** Catalog prices are non-negative; `Product` does not enforce it, so the
      bound lemmas ask for it explicitly. */
  ghost predicate AllPricesNonNegative(s: seq<Product>) {
    forall i :: 0 <= i < |s| ==> s[i].price >= 0.0
  }

  /** Parameters for which a rule cannot raise the total or push it below
      zero. The rules themselves never check this. */
  predicate InRange(d: Discount) {
    match d
    case Percentage(rate) => 0.0 <= rate <= 100.0
    case Fixed(amount) => amount >= 0.0
    case NoDiscount => true
  }

  /** Reference definition of a raw total: the sum of the prices. */
  function SumPrices(s: seq<Product>): real {
    if |s| == 0 then 0.0 else s[0].price + SumPrices(s[1..])
  }

  lemma {:induction false} SumPricesAppend(a: seq<Product>, b: seq<Product>)
    ensures SumPrices(a + b) == SumPrices(a) + SumPrices(b)
  {
    if |a| == 0 {
      assert a + b == b;
    } else {
      assert (a + b)[1..] == a[1..] + b;
      SumPricesAppend(a[1..], b);
    }
  }

  /** Taking one product out of a sequence lowers its sum by that price. */
  lemma {:induction false} SumPricesRemove(b: seq<Product>, i: nat)
    requires i < |b|
    ensures SumPrices(b) == b[i].price + SumPrices(b[..i] + b[i + 1..])
  {
    var front, back := b[..i], b[i + 1..];
    assert b == (front + [b[i]]) + back;
    SumPricesAppend(front + [b[i]], back);
    SumPricesAppend(front, [b[i]]);
    SumPricesAppend(front, back);
    assert SumPrices([b[i]]) == b[i].price;
  }

  /** The raw total does not depend on the order in which the same products
      were added. */
  lemma {:induction false} SumPricesPermutation(a: seq<Product>, b: seq<Product>)
    requires multiset(a) == multiset(b)
    ensures SumPrices(a) == SumPrices(b)
    decreases |a|
  {
    if |a| == 0 {
      assert |multiset(b)| == 0;
    } else {
      assert a[0] in multiset(b) by {
        assert a[0] in multiset(a);
      }
      var i :| 0 <= i < |b| && b[i] == a[0];
      var rest := b[..i] + b[i + 1..];
      assert multiset(a[1..]) == multiset(rest) by {
        assert a == [a[0]] + a[1..];
        assert b == b[..i] + [b[i]] + b[i + 1..];
        assert multiset(rest) == multiset(b) - multiset{a[0]};
        assert multiset(a[1..]) == multiset(a) - multiset{a[0]};
      }
      SumPricesPermutation(a[1..], rest);
      SumPricesRemove(b, i);
    }
  }

  lemma {:induction false} SumPricesNonNegative(s: seq<Product>)
    requires AllPricesNonNegative(s)
    ensures SumPrices(s) >= 0.0
  {
    if |s| > 0 {
      assert AllPricesNonNegative(s[1..]) by {
        forall i | 0 <= i < |s[1..]| ensures s[1..][i].price >= 0.0 {
          assert s[1..][i] == s[i + 1];
        }
      }
      SumPricesNonNegative(s[1..]);
    }
  }

  /** The percentage rule: removes `rate` percent of the total. The rate is
      not range-checked, so a rate above 100 yields a negative total and a
      negative rate raises the total. */
  function ApplyPercentage(rate: real, total: real): (r: real)
    ensures r == total * (100.0 - rate) / 100.0
    ensures total >= 0.0 && 0.0 <= rate <= 100.0 ==> 0.0 <= r <= total
    ensures total > 0.0 && rate > 100.0 ==> r < 0.0
    ensures total > 0.0 && rate < 0.0 ==> r > total
  {
    total - (total * rate / 100.0)
  }

  /** The fixed-amount rule: subtracts `amount`, floored at zero. */
  function ApplyFixed(amount: real, total: real): (r: real)
    ensures r >= 0.0
    ensures r >= total - amount
    ensures r == 0.0 || r == total - amount
    ensures total >= 0.0 && amount >= 0.0 ==> r <= total
  {
    if 0.0 >= total - amount then 0.0 else total - amount
  }

  /** Dispatches a total to the rule; the absent rule is the identity. */
  function ApplyDiscount(d: Discount, total: real): (r: real)
    ensures d.NoDiscount? ==> r == total
    ensures d.Percentage? ==> r == total * (100.0 - d.rate) / 100.0
    ensures d.Fixed? ==> r >= 0.0 && r >= total - d.amount && (r == 0.0 || r == total - d.amount)
    ensures total >= 0.0 && InRange(d) ==> 0.0 <= r <= total
  {
    match d
    case Percentage(rate) => ApplyPercentage(rate, total)
    case Fixed(amount) => ApplyFixed(amount, total)
    case NoDiscount => total
  }

  /** A fresh order: no products, the given rule. */
  function NewOrder(d: Discount): (o: Order)
    ensures |o.products| == 0 && o.discount == d
    ensures SumPrices(o.products) == 0.0
  {
    Order([], d)
  }

  /** Appends one product; nothing but the tail of the order changes. */
  function AddProduct(o: Order, p: Product): (r: Order)
    ensures |r.products| == |o.products| + 1
    ensures r.products[..|o.products|] == o.products
    ensures r.products[|o.products|] == p
    ensures r.discount == o.discount
  {
    Order(o.products + [p], o.discount)
  }

  /** Adding a product raises the raw total by exactly its price. */
  lemma AddProductTotal(o: Order, p: Product)
    ensures SumPrices(AddProduct(o, p).products) == SumPrices(o.products) + p.price
  {
    SumPricesAppend(o.products, [p]);
  }

  /** The raw total, accumulated front to back as `Order.CalculateTotal`'s foreach does. */
  method CalculateTotal(o: Order) returns (total: real)
    ensures total == SumPrices(o.products)
    ensures |o.products| == 0 ==> total == 0.0
    ensures AllPricesNonNegative(o.products) ==> total >= 0.0
  {
    total := 0.0;
    var i := 0;
    while i < |o.products|
      invariant 0 <= i <= |o.products|
      invariant total == SumPrices(o.products[..i])
    {
      assert o.products[..i + 1] == o.products[..i] + [o.products[i]];
      SumPricesAppend(o.products[..i], [o.products[i]]);
      total := total + o.products[i].price;
      i := i + 1;
    }
    assert o.products[..i] == o.products;
    if AllPricesNonNegative(o.products) {
      SumPricesNonNegative(o.products);
    }
  }

  /** The final total: the bound rule applied to the raw total. */
  function FinalTotal(o: Order): (r: real)
    ensures o.discount.NoDiscount? ==> r == SumPrices(o.products)
    ensures o.discount.Percentage? ==> r == SumPrices(o.products) * (100.0 - o.discount.rate) / 100.0
    ensures o.discount.Fixed? ==>
      r == (if SumPrices(o.products) <= o.discount.amount then 0.0 else SumPrices(o.products) - o.discount.amount)
  {
    ApplyDiscount(o.discount, SumPrices(o.products))
  }

  /** With non-negative prices and an in-range rule, the final total lies
      between zero and the raw total. */
  lemma FinalTotalBounded(o: Order)
    requires AllPricesNonNegative(o.products) && InRange(o.discount)
    ensures 0.0 <= FinalTotal(o) <= SumPrices(o.products)
  {
    SumPricesNonNegative(o.products);
  }

  /** The receipt of an order: one line per product in order, the raw total,
      the discount amount (raw minus final) and the final total. */
  function PrintReceipt(o: Order): (r: Receipt)
    ensures r.lines == o.products
    ensures r.total == SumPrices(o.products)
    ensures r.finalTotal == FinalTotal(o)
    ensures r.finalTotal + r.discountAmount == r.total
  {
    var total := SumPrices(o.products);
    var finalTotal := FinalTotal(o);
    Receipt(o.products, total, total - finalTotal, finalTotal)
  }

  /** With non-negative prices and an in-range rule, the receipt's discount
      amount is between zero and the raw total, and the final amount is not
      negative. */
  lemma ReceiptDiscountBounded(o: Order)
    requires AllPricesNonNegative(o.products) && InRange(o.discount)
    ensures 0.0 <= PrintReceipt(o).discountAmount <= PrintReceipt(o).total
    ensures PrintReceipt(o).finalTotal >= 0.0
  {
    FinalTotalBounded(o);
  }
}
