/** The interactive order session as a pure function of its input tokens:
    a discount selector, then a sequence of product choices. A choice token is
    `None` when it did not parse as an integer (end of input included). */
module Driver {
  import opened Wrappers
  import opened Orders

  /** The fixed catalog shown at start-up. */
  const Catalog: seq<Product> := [Product("Book", 20.0), Product("Pen", 5.0), Product("Notebook", 10.0)]

  /** The catalog's prices are non-negative, so it meets the requirement of
      `SessionDiscountBounded`. */
  lemma CatalogNonNegative()
    ensures AllPricesNonNegative(Catalog)
  {
  }

  /** Maps the selector token to a rule: "1" is ten percent off, "2" is five
      off, anything else (including "3") is no discount. */
  function SelectDiscount(token: string): (d: Discount)
    ensures d == Percentage(10.0) <==> token == "1"
    ensures d == Fixed(5.0) <==> token == "2"
    ensures d.NoDiscount? <==> token != "1" && token != "2"
    ensures InRange(d)
  {
    if token == "1" then Percentage(10.0)
    else if token == "2" then Fixed(5.0)
    else NoDiscount
  }

  /** A token that ends the add-product loop: unparsable, or zero. */
  predicate IsSentinel(tok: Option<int>) {
    tok.None? || tok.value == 0
  }

  /** What one pass of the add-product loop does. */
  datatype StepResult = Finish | Continue(order: Order)

  /** One pass of the add-product loop: a sentinel finishes; a choice in
      [1, |catalog|] appends that catalog entry; any other integer is
      rejected and the order is left as it was. */
  function Step(catalog: seq<Product>, o: Order, tok: Option<int>): (r: StepResult)
    ensures r.Finish? <==> IsSentinel(tok)
    ensures r.Continue? && 1 <= tok.value <= |catalog| ==>
      r.order == AddProduct(o, catalog[tok.value - 1])
    ensures r.Continue? && !(1 <= tok.value <= |catalog|) ==> r.order == o
  {
    if tok.None? || tok.value == 0 then Finish
    else if tok.value > 0 && tok.value <= |catalog| then Continue(AddProduct(o, catalog[tok.value - 1]))
    else Continue(o)
  }

  /** The add-product loop over a scripted token sequence; running out of
      tokens finishes the loop like an unparsable token. */
  function AddLoop(catalog: seq<Product>, o: Order, tokens: seq<Option<int>>): (r: Order)
    ensures r.discount == o.discount
    ensures |o.products| <= |r.products| <= |o.products| + |tokens|
    ensures r.products[..|o.products|] == o.products
    ensures forall i :: |o.products| <= i < |r.products| ==> r.products[i] in catalog
    decreases |tokens|
  {
    if |tokens| == 0 then o
    else match Step(catalog, o, tokens[0])
      case Finish => o
      case Continue(next) => AddLoop(catalog, next, tokens[1..])
  }

  /** Reference definition of what the loop appends: the catalog entry of
      every in-range choice before the first sentinel, in input order. */
  function Picks(catalog: seq<Product>, tokens: seq<Option<int>>): seq<Product>
    decreases |tokens|
  {
    if |tokens| == 0 || IsSentinel(tokens[0]) then []
    else if 1 <= tokens[0].value <= |catalog| then [catalog[tokens[0].value - 1]] + Picks(catalog, tokens[1..])
    else Picks(catalog, tokens[1..])
  }

  /** The loop appends exactly the picks of its tokens and keeps the rule. */
  lemma {:induction false} AddLoopPicks(catalog: seq<Product>, o: Order, tokens: seq<Option<int>>)
    ensures AddLoop(catalog, o, tokens) == Order(o.products + Picks(catalog, tokens), o.discount)
    decreases |tokens|
  {
    if |tokens| == 0 || IsSentinel(tokens[0]) {
      assert AddLoop(catalog, o, tokens) == o;
      assert o.products + [] == o.products;
    } else {
      var next := Step(catalog, o, tokens[0]).order;
      assert AddLoop(catalog, o, tokens) == AddLoop(catalog, next, tokens[1..]);
      AddLoopPicks(catalog, next, tokens[1..]);
      if 1 <= tokens[0].value <= |catalog| {
        var p := catalog[tokens[0].value - 1];
        assert next.products == o.products + [p];
        assert Picks(catalog, tokens) == [p] + Picks(catalog, tokens[1..]);
        assert o.products + Picks(catalog, tokens) == next.products + Picks(catalog, tokens[1..]);
      } else {
        assert next == o;
        assert Picks(catalog, tokens) == Picks(catalog, tokens[1..]);
      }
    }
  }

  /** The loop as the session runs it: read a token, stop on a sentinel,
      append or reject, repeat. It computes the same order as `AddLoop`. */
  method RunAddLoop(catalog: seq<Product>, o: Order, tokens: seq<Option<int>>) returns (r: Order)
    ensures r == AddLoop(catalog, o, tokens)
  {
    r := o;
    var i := 0;
    while i < |tokens|
      invariant 0 <= i <= |tokens|
      invariant AddLoop(catalog, r, tokens[i..]) == AddLoop(catalog, o, tokens)
    {
      var tok := tokens[i];
      if tok.None? || tok.value == 0 {
        assert tokens[i..][0] == tok;
        return;
      }
      if tok.value > 0 && tok.value <= |catalog| {
        r := AddProduct(r, catalog[tok.value - 1]);
      }
      assert tokens[i..][1..] == tokens[i + 1..];
      i := i + 1;
    }
  }

  /** Tokens after the first sentinel are never read. */
  lemma {:induction false} AddLoopIgnoresAfterSentinel(catalog: seq<Product>, o: Order, tokens: seq<Option<int>>, rest: seq<Option<int>>)
    requires exists k :: 0 <= k < |tokens| && IsSentinel(tokens[k])
    ensures AddLoop(catalog, o, tokens + rest) == AddLoop(catalog, o, tokens)
    decreases |tokens|
  {
    assert (tokens + rest)[0] == tokens[0];
    if !IsSentinel(tokens[0]) {
      var next := Step(catalog, o, tokens[0]).order;
      var k :| 0 <= k < |tokens| && IsSentinel(tokens[k]);
      assert tokens[1..][k - 1] == tokens[k];
      assert (tokens + rest)[1..] == tokens[1..] + rest;
      AddLoopIgnoresAfterSentinel(catalog, next, tokens[1..], rest);
    }
  }

  /** Without a sentinel in the first part, a script runs as its first part
      followed by its second part. */
  lemma {:induction false} AddLoopConcat(catalog: seq<Product>, o: Order, tokens: seq<Option<int>>, rest: seq<Option<int>>)
    requires forall k :: 0 <= k < |tokens| ==> !IsSentinel(tokens[k])
    ensures AddLoop(catalog, o, tokens + rest) == AddLoop(catalog, AddLoop(catalog, o, tokens), rest)
    decreases |tokens|
  {
    if |tokens| == 0 {
      assert tokens + rest == rest;
    } else {
      assert (tokens + rest)[0] == tokens[0];
      assert (tokens + rest)[1..] == tokens[1..] + rest;
      var next := Step(catalog, o, tokens[0]).order;
      AddLoopConcat(catalog, next, tokens[1..], rest);
    }
  }

  /** Products added by the loop come from the catalog, so non-negative
      catalog prices keep every price of the order non-negative. */
  lemma AddLoopPricesNonNegative(catalog: seq<Product>, o: Order, tokens: seq<Option<int>>)
    requires AllPricesNonNegative(catalog) && AllPricesNonNegative(o.products)
    ensures AllPricesNonNegative(AddLoop(catalog, o, tokens).products)
  {
  }

  /** A whole session: select the rule, run the loop on a fresh order, print
      the receipt. */
  function Session(catalog: seq<Product>, selector: string, tokens: seq<Option<int>>): (r: Receipt)
    ensures |r.lines| <= |tokens|
    ensures r.lines == Picks(catalog, tokens)
    ensures r.total == SumPrices(Picks(catalog, tokens))
    ensures r.finalTotal + r.discountAmount == r.total
    ensures r.finalTotal == FinalTotal(Order(Picks(catalog, tokens), SelectDiscount(selector)))
    ensures selector == "1" ==> r.finalTotal == r.total * 90.0 / 100.0
    ensures selector == "2" ==> r.finalTotal == (if r.total <= 5.0 then 0.0 else r.total - 5.0)
    ensures selector != "1" && selector != "2" ==> r.discountAmount == 0.0 && r.finalTotal == r.total
  {
    AddLoopPicks(catalog, NewOrder(SelectDiscount(selector)), tokens);
    assert [] + Picks(catalog, tokens) == Picks(catalog, tokens);
    PrintReceipt(AddLoop(catalog, NewOrder(SelectDiscount(selector)), tokens))
  }

  /** Under the session's rules and a catalog of non-negative prices, the
      receipt never shows a negative discount or final amount, and the
      discount never exceeds the raw total. */
  lemma SessionDiscountBounded(catalog: seq<Product>, selector: string, tokens: seq<Option<int>>)
    requires AllPricesNonNegative(catalog)
    ensures 0.0 <= Session(catalog, selector, tokens).discountAmount <= Session(catalog, selector, tokens).total
    ensures Session(catalog, selector, tokens).finalTotal >= 0.0
  {
    var o := AddLoop(catalog, NewOrder(SelectDiscount(selector)), tokens);
    AddLoopPricesNonNegative(catalog, NewOrder(SelectDiscount(selector)), tokens);
    ReceiptDiscountBounded(o);
  }

  /** Ten percent off Book and Notebook: 30 raw, 3 off, 27 final. */
  lemma PercentageScenario()
    ensures Session(Catalog, "1", [Some(1), Some(3), Some(0)]) ==
      Receipt([Product("Book", 20.0), Product("Notebook", 10.0)], 30.0, 3.0, 27.0)
  {
    assert [Some(1), Some(3), Some(0)][1..] == [Some(3), Some(0)];
    assert [Some(3), Some(0)][1..] == [Some(0)];
  }

  /** Five off a lone Pen is floored at zero: 5 raw, 5 off, 0 final. */
  lemma FixedScenario()
    ensures Session(Catalog, "2", [Some(2)]) == Receipt([Product("Pen", 5.0)], 5.0, 5.0, 0.0)
  {
  }

  /** An out-of-range choice is rejected, then zero ends an empty order. */
  lemma RejectedChoiceScenario()
    ensures Session(Catalog, "9", [Some(5), Some(0)]) == Receipt([], 0.0, 0.0, 0.0)
  {
    assert [Some(5), Some(0)][1..] == [Some(0)];
  }
}
