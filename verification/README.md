# Order, discount and registration model

A Dafny model of the two pieces of logic in the Solidp demonstration
repository that carry decisions:

- **The order workflow** (`Program.cs`). A closed set of discount rules
  (percentage, fixed amount, none), an append-only order whose raw total is the
  sum of its product prices, the final total with the bound rule applied, the
  receipt's discount amount, and the console driver. The driver maps the
  selector token to a rule, then runs the add-product loop until a sentinel.
  It is written as a pure function of a scripted token list (module `Driver`),
  parameterised by a catalog; the program's is `Driver.Catalog`: Book 20,
  Pen 5, Notebook 10.
- **User registration** (`User.cs`). The "contains `@`" email validator, the
  stub sender that always reports success, and `Register`. `Register` either
  fails with a validation error or extends an outbox by exactly one welcome
  message.

Modules: `Wrappers` (Option/Result), `Orders` (products, rules, order,
receipt), `Driver` (the session), `Registration`.

Modelling choices:
- Money is `real`. C# `decimal` has 28 significant digits and its own
  rounding; the model has neither.
- The absent (null) discount of an order is the `NoDiscount` variant.
- A product-choice token is `Option<int>`. `None` is a token that
  `int.TryParse` rejects. The end of input is `None` too, because `ReadLine`
  then returns null and the parse fails. A script that runs out of tokens
  therefore ends the loop.
- `Order.GetProducts` is the `products` field of the `Order` datatype. Dafny
  sequences are values, so a read-only view needs no separate operation.
- The injected validator of `UserService` is a `string -> bool` parameter. The
  sender is the stub `EmailSender`, and its mail client is an outbox: the
  sequence of messages handed to it.
- All catalog prices and both driver rules are in range (prices ≥ 0, rate 10,
  amount 5). But `Product`, `PercentageDiscount` and `FixedDiscount` check
  nothing, and the model follows the code. The rules accept any parameter,
  and `ApplyPercentage` states what an out-of-range rate does. The bound
  lemmas take non-negative prices (`AllPricesNonNegative`) and an in-range
  rule (`InRange`) as explicit preconditions.

## Model

| member | source | states |
|---|---|---|
| Orders.ApplyPercentage | Program.cs:30-33 | the result is total·(100−rate)/100; for total ≥ 0 and rate in [0,100] it lies in [0, total]; the rate is unclamped, so rate > 100 gives a negative result and rate < 0 a result above the total (for positive totals) |
| Orders.ApplyFixed | Program.cs:45-48 | the result is max(0, total − amount): never negative, at least total − amount, equal to one of 0 or total − amount, and at most the total when both inputs are non-negative |
| Orders.ApplyDiscount | Program.cs:16-48 | the absent rule is the identity; a percentage rule yields total·(100−rate)/100; a fixed rule yields max(0, total − amount); any in-range rule maps a non-negative total into [0, total] |
| Orders.NewOrder | Program.cs:56-60 | a new order has no products, a raw total of 0 and the rule it was created with |
| Orders.AddProduct | Program.cs:62-65 | appending grows the products by exactly one; earlier products and the rule are unchanged; the new last product is the one added |
| Orders.AddProductTotal | Program.cs:62-75 | after appending, the raw total is the old raw total plus the added price |
| Orders.SumPricesPermutation | Program.cs:67-75 | two orders holding the same products (as a multiset), in any order, have the same raw total |
| Orders.CalculateTotal | Program.cs:67-75 | the front-to-back accumulation equals the sum of the products' prices; it is 0 for an empty order and non-negative when all prices are |
| Orders.FinalTotal | Program.cs:77-81 | with no rule bound the final total is the raw total; with Percentage(rate) it is raw·(100−rate)/100; with Fixed(amount) it is 0 when raw ≤ amount, else raw − amount |
| Orders.FinalTotalBounded | Program.cs:77-81 | with non-negative prices and an in-range rule, 0 ≤ final total ≤ raw total |
| Orders.PrintReceipt | Program.cs:88-104 | one line per product, in order, with its name and price; the shown total is the raw total; the shown final amount is the final total; discount amount + final amount = total |
| Orders.ReceiptDiscountBounded | Program.cs:96-98 | with non-negative prices and an in-range rule, the discount amount lies in [0, total] and the final amount is not negative |
| Driver.CatalogNonNegative | Program.cs:111-116 | every price in the program's catalog (Book 20, Pen 5, Notebook 10) is non-negative |
| Driver.SelectDiscount | Program.cs:125-139 | "1" ↔ Percentage(10), "2" ↔ Fixed(5), every other token ↔ no discount; each result is an in-range rule |
| Driver.Step | Program.cs:143-158 | a pass finishes exactly when the token is unparsable or 0; a choice in [1, catalog size] appends catalog[choice−1]; any other integer leaves the order unchanged and continues |
| Driver.AddLoop | Program.cs:141-158 | the loop keeps the rule, keeps the existing products as a prefix, appends at most one product per token, and appends only catalog products |
| Driver.AddLoopPicks | Program.cs:143-158 | the loop leaves the rule unchanged and appends exactly catalog[t−1] for each in-range choice t before the first sentinel, in input order; rejected choices append nothing |
| Driver.RunAddLoop | Program.cs:143-158 | the imperative read/stop/append-or-reject loop computes the same order as the token fold |
| Driver.AddLoopIgnoresAfterSentinel | Program.cs:146-147 | once a sentinel occurs, no later token affects the order |
| Driver.AddLoopConcat | Program.cs:143-158 | a script with no sentinel in its first part runs as that part followed by the rest |
| Driver.AddLoopPricesNonNegative | Program.cs:149-151 | non-negative catalog prices keep every price in the order non-negative |
| Driver.Session | Program.cs:109-162 | the receipt lists exactly the picked catalog products in input order, at most one per token; its total is their price sum; its final amount is the selected rule applied to that total: 90% of it for "1", max(0, total − 5) for "2", the total itself for any other selector (zero discount); discount + final = total |
| Driver.SessionDiscountBounded | Program.cs:126-161 | with a non-negative catalog, under any selector, the receipt's discount is in [0, total] and the final amount is not negative |
| Driver.PercentageScenario | Program.cs:111-161 | selector "1", picks 1 and 3, then 0: lines Book and Notebook, total 30, discount 3, final 27 |
| Driver.FixedScenario | Program.cs:111-161 | selector "2", pick 2: line Pen, total 5, discount 5, final 0 (floored) |
| Driver.RejectedChoiceScenario | Program.cs:111-161 | selector "9", pick 5 (rejected), then 0: empty receipt with all amounts 0 |
| Registration.ValidateEmail | User.cs:32-35 | true exactly when some character of the string is '@' |
| Registration.SendEmail | User.cs:47-51 | the stub always reports success and appends exactly the given message to the outbox |
| Registration.Register | User.cs:65-73 | fails exactly when the validator rejects the email, with message "Email is not valid" and no message sent; otherwise the outbox grows by exactly one message to the email, from "mysite@nowhere.com", with subject "Welcome!" |
| Registration.RegisterIgnoresPassword | User.cs:65-73 | the outcome of registration does not depend on the password |
| Registration.RegisterWithDefaultValidator | User.cs:30-73 | with the default validator, registration succeeds exactly for addresses containing '@' |

## Left out

- `ShapeBounce.cs` entirely. It is double-precision area and volume arithmetic with no decision logic.
- Console output: the banner, catalog listing, prompts, "added"/"Invalid choice!" echo lines and receipt text layout. Also the locale-dependent currency formatting (`:C`).
- C# `decimal` precision, rounding and overflow. Money is an unbounded `real`.
- `int.TryParse` itself. Tokens arrive already parsed as `Option<int>`, so the model does not show that digit strings outside the 32-bit range fail to parse.
- The `User` object built and discarded by `Register`, and the console line printed by `SmtpClient.Send`.
- Senders other than the stub `EmailSender`. `Register` ignores the boolean the sender returns, and so does the model.
- Driver.AddLoop: its own contract states only the prefix, catalog-membership and length bounds. Which entries the loop appends is stated by `Driver.AddLoopPicks` against the reference definition `Driver.Picks`.
- Null strings. A null email makes `ValidateEmail` throw NullReferenceException, so `Register` then fails with that instead of a validation error. Dafny strings are never null.
