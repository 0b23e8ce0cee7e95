# Verified model of the shop's order core

The shop sells gas bottles and drinking water. Customers order on the website or by chat,
staff split orders into deliveries, administrators change products by typed commands, and
long texts are cut into chunks for retrieval. This project models the parts of that
system where state, money or concurrency make a mistake likely, and proves what they keep
true. `dafny verify dfyconfig.toml` checks all of it.

## What is modelled

**The order ledger** (`Ledger`, `LedgerInvariants`, `LedgerRuns`, `OrderDesk`). Products,
orders, items, deliveries, coupons and redemptions are one database value. Every request is
a function on it, and a request that fails leaves it unchanged, as the session rollback
does. `OrderDesk.Desk` is the same in the program's own form: a class whose methods loop over
cart lines, deliveries and stock rows and update tables in place, each proved to perform the
request. The invariant and the laws over runs (conservation of stock, forward-only status,
exactly-once orders, gap-free numbers, coupon limits) are proved about the requests.
`CheckoutTerms`, `OrderRules` and `CatalogRules` say what the requests mean for customers,
staff and administrators: what succeeds, what it costs, who may do what. `Pricing`,
`Grouping` and `OrderNumbers` hold the arithmetic; `Shelf` compares the books with what has
left the shop; `OneLineSale` and `CouponCase` work out concrete sales. Money is an integer
number of hundredths of a dong.

**Two lock protocols** (`CheckoutProtocol`, `DeliveryProtocol`). Checkout is split into its
steps: key lookup, one row lock per product, the coupon lock, the day lock, commit, abort at
any point. Creating a delivery is split into locking and reading the order, then inserting,
while the deliveries it read may move on. Every interleaving ends in the tables of a
serial run of atomic requests, so every law about runs applies to it.

**The chat order** (`ChatCart`, `ChatOrder`, `ChatHandler`, `ChatLaws`, `ChatAnswers`,
`ChatRules`, `ChatUnique`, `ChatKeys`, `ChatRuns`, `ChatCases`). `ChatOrder` is the state
machine over stored statuses; `ChatHandler` is the handler as written, revising slots and
cart step by step, proved to compute it. What is read out of a message and how texts are
matched are arbitrary inputs. The laws say who gets through to an order, that the total
charged is the total quoted, that confirming twice orders once, what each answer does to
the cart, and whose word counts for each slot.

**Admin chat** (`AdminChat`): one-time tokens, the approved snapshot, the re-check at
confirmation and the audit log, interleaved with all requests of the ledger.

**Chunking** (`Chunker`, `ChunkRules`): the loop with its backward inner loop against a
specification by windows of sentences, which is shown to have exactly one solution, and what
it means for the lengths of the chunks.

**Product search** (`ProductQuery`): the SQL part and the in-memory part of a query against
the query as asked.

## Properties that fail, and exactly when they hold

- A cancellation restocks everything that was ordered, also units already delivered, and a
  delivery of a cancelled order can still be handed over (`Shelf.DeliveredUnitsComeBack`, two
  runs from an opening). What one request makes the books miss can be read off before it
  (`Shelf.StepMisses`), and the books agree with the shelf if and only if no request of the
  run missed anything (`Shelf.BookMatchesShelfIff`).
- A chat order need not be what was quoted. Affirming a product choice drops the open line
  and orders the rest without any quote (`ChatCases.OrderWithoutQuote`), and a confirming
  message may change the lines it confirms (`ChatCases.ConfirmedWithNewLines`). While products
  and prices stand, the order is the quoted one if and only if the state is a summary and the
  message leaves its lines (`ChatRuns.OrderIsAsQuotedIff`).
- "No, add it" may give a product a second line (`ChatCases.SecondLineOfAProduct`); it does
  not exactly when no line has that product (`ChatUnique.AppendedPendingUniqueIff`).
- A coupon edit may put a coupon beyond its limits (`CouponCase.LimitCutBelowUse`), exactly
  when it is accepted and its terms do not cover the use already made
  (`LedgerRuns.EditKeepsLimitsIff`).
- An approved price may not be the price that goes live (`AdminChat.ThirdDecimalIsLost`); it
  is, to the last digit, if and only if it is a whole number of hundredths
  (`AdminChat.StoredExactlyIff`).

The comment of `_allocated_quantities` speaks of deliveries that are not cancelled; the code
also leaves out failed ones, and so does the model.

## Model

| member | source | states |
|---|---|---|
| OrderDesk.Desk.CreateOrder | backend/app/services/order_service.py:69-199 | success leaves the books of the atomic checkout and an order that is right in every field, price and discount; a failure changes nothing and says something true of a product, the stock or the coupon |
| OrderDesk.GroupLines | backend/app/services/order_service.py:99-110 | the lines of a cart grouped by product: keys in order of first occurrence, the total quantity and the exchange mark of each |
| OrderDesk.CheckProducts | backend/app/services/order_service.py:84-97 | passes exactly when every product exists and is active; otherwise names one that does not |
| OrderDesk.PriceItems | backend/app/services/order_service.py:101-133 | passes exactly when the grouped quantities are in stock, and then gives the items, the subtotal and the fee that the ungrouped cart is worth |
| OrderDesk.CalculateShipping | backend/app/services/order_service.py:370-382 | the fee summed over grouped products equals the fee of the cart line by line |
| OrderDesk.Assess | backend/app/services/order_service.py:84-150 | a refusal says something true of a product, the stock or the coupon; an acceptance gives the totals |
| Ledger.RefusedIffJustified | backend/app/services/order_service.py:84-146 | a checkout is refused if and only if some error applies to it: missing, inactive or short product, or a coupon problem |
| CheckoutTerms.CheckoutSucceedsIff | backend/app/services/coupon_service.py:39-110 | a new checkout succeeds if and only if every product is active and in stock, lines taken together, and the coupon, if any, exists, is active, has begun and not ended, meets its minimum order, and is within its total and per-account limits |
| CheckoutTerms.JustifiedIsReal | backend/app/services/coupon_service.py:55-66 | each error a refused checkout may report is true, down to each complaint about a coupon |
| CheckoutTerms.NewOrderIsRight | backend/app/services/order_service.py:99-188 | the order a checkout stores: its customer, its items with all units asked for at the price charged, fee, discount and total, and the stock that is left |
| CheckoutTerms.ItemsAreRight | backend/app/utils/pricing.py:9-17 | each item is charged the sale price where it is a discount on the list price, else the list price |
| CheckoutTerms.DiscountAmount | backend/app/repositories/coupon_repository.py:117-129 | the discount is the fixed amount, or the percentage to the nearest hundredth with ties to even, brought down to the cap and the subtotal |
| CheckoutTerms.FeeIsForWater | backend/app/services/order_service.py:40-53 | the delivery fee is 5000 dong per bottle of water and nothing for gas |
| CheckoutTerms.UsesAreRows | backend/app/repositories/coupon_repository.py:54-64 | the uses that the limits compare with are the numbers of redemption rows, of the coupon and of one account |
| OrderDesk.Desk.TakeStock | backend/app/repositories/product_repository.py:147-161 | the stock of every product falls by what the cart asks of it and nothing else changes |
| OrderDesk.Desk.RecordRedemption | backend/app/repositories/coupon_repository.py:66-82 | one use is counted and one redemption row added |
| OrderDesk.Desk.CreateOrderWithRetry | backend/app/api/v1/endpoints/orders.py:62-74 | three attempts of which any may be rolled back: a success is one atomic checkout, a failure changes nothing, and it gives up exactly after a fault that is not a serialization failure or after three |
| OrderDesk.Desk.UpdateOrderStatus | backend/app/services/order_service.py:311-333 | follows the transition table, restocks a cancelled order, and reports the first error that applies |
| OrderDesk.Desk.CancelOrder | backend/app/services/order_service.py:335-355 | cancels a pending or confirmed order for someone who may see it and restocks it; otherwise changes nothing |
| OrderRules.StaffUpdateRules | backend/app/repositories/order_repository.py:17-23 | exactly the six moves of the table are accepted, from staff and administrators only; every refusal changes nothing and its error is true; a cancellation gives every unit back |
| OrderRules.CancelRules | backend/app/services/order_service.py:335-355 | an order is cancelled if and only if it is pending or confirmed and the caller is staff, its account, or knows its phone number; a stranger never cancels |
| OrderDesk.Desk.ReturnUnits | backend/app/services/order_service.py:328-332 | each stock rises by the units of that product in the order |
| OrderDesk.AllocatedQuantities | backend/app/services/delivery_service.py:213-222 | for every item, the units on deliveries that neither failed nor were cancelled |
| OrderDesk.DeliveredQuantities | backend/app/services/delivery_service.py:230-236 | for every item, the units on delivered deliveries |
| OrderDesk.CheckLines | backend/app/services/delivery_service.py:141-163 | the error of the first faulty delivery line: repeated item, foreign item, or more than remains |
| OrderDesk.DeriveStatus | backend/app/services/delivery_service.py:224-249 | delivered when every item has arrived in full, else shipping when a delivery is on its way and the order was not, else unchanged |
| OrderDesk.Desk.CreateDelivery | backend/app/services/delivery_service.py:130-184 | adds one pending delivery with the next code, and the status of the order follows its deliveries; or reports why not |
| OrderDesk.Desk.MoveDelivery | backend/app/services/delivery_service.py:90-121 | moves a delivery along its table for staff or its driver, and the status of the order follows its deliveries; or reports why not |
| OrderRules.StatusFollowsInEveryRun | backend/app/services/delivery_service.py:224-249 | in every run from an opening, an order whose deliveries change becomes delivered if and only if it was open and all items have now arrived, shipping if and only if it was not under way and some delivery is, and else keeps its status |
| OrderRules.DeliveryMoveRules | backend/app/services/delivery_service.py:20-26 | exactly the seven moves of the table are accepted, for staff through the order, the assigned driver, or an administrator; nothing but that delivery and the order status changes |
| OrderRules.NewDeliveryRules | backend/app/services/delivery_service.py:130-184 | a delivery is created if and only if the order is not cancelled and its lines are distinct items of it with no more than is not promised yet |
| OrderRules.DeliveryErrorsAreReal | backend/app/services/delivery_service.py:138-163 | each error about a new delivery or a move is true |
| OrderRules.DriverRules | backend/app/services/delivery_service.py:42-55 | only drivers and administrators are assigned, and nothing else changes |
| OrderRules.CarriedIsListed | backend/app/services/delivery_service.py:213-222 | a delivery carries of each item what its line says, and nothing else |
| OrderRules.DeliveredIsArrived | backend/app/services/delivery_service.py:230-236 | delivered units are those on deliveries that were delivered |
| OrderDesk.Desk.RollUpOrderStatus | backend/app/services/delivery_service.py:224-249 | writes that status into the one order and nothing else |
| OrderDesk.Desk.UpdateProduct | backend/app/services/product_service.py:278-288 | a partial update is stored only if the payload and the resulting row are both valid |
| CatalogRules.ProductEditRules | backend/app/services/product_service.py:278-288 | an edit is accepted if and only if it comes from an administrator, names an allowed size, and leads to a sane row; each column named takes its value and every other stands |
| CatalogRules.ProductErrorsAreReal | backend/app/schemas/product.py:78-118 | each error about an edit is true |
| CatalogRules.CouponRules | backend/app/services/coupon_service.py:125-184 | terms are accepted if and only if they are sane; an edit leaves the use count alone, a creation starts it at zero |
| OrderDesk.Desk.Reorder | backend/app/services/order_service.py:227-292 | rebuilds the lines of a past order against the catalog of today, with a reason for each skipped line |
| CatalogRules.ReorderRules | backend/app/services/order_service.py:227-240 | only the account that placed an order can reorder it |
| Pricing.HalfEven | backend/app/repositories/coupon_repository.py:117-129 | division rounds to a nearest integer, ties to even |
| Pricing.RoundingMonotone | backend/app/repositories/coupon_repository.py:117-129 | half-even rounding is monotone |
| Pricing.DiscountBounds | backend/app/repositories/coupon_repository.py:117-129 | a discount lies between zero and the subtotal and never exceeds the cap |
| Pricing.DiscountMonotone | backend/app/repositories/coupon_repository.py:117-129 | for a percentage of at most 100, the discount and what is left to pay both grow with the subtotal, rounding included |
| Pricing.PercentMonotone | backend/app/repositories/coupon_repository.py:117-129 | a rounded percentage grows with the subtotal, and by no more than it, from 0 to 100 percent; negative and larger rates are covered with what remains true of them |
| Pricing.TotalNeverClamped | backend/app/services/order_service.py:148-150 | the clamp of the total at zero never takes effect |
| Grouping.GroupedValue | backend/app/services/order_service.py:101-133 | grouping by product leaves the value of a cart unchanged, repeated products included |
| Grouping.GroupedFee | backend/app/services/order_service.py:370-382 | grouping by product leaves the delivery fee unchanged |
| Grouping.ItemSubtotals | backend/app/services/order_service.py:112-133 | the stored item subtotals add up to the value of the cart |
| Grouping.ItemUnits | backend/app/services/order_service.py:99-133 | the stored items hold exactly the units the cart asked for |
| LedgerInvariants.CheckoutKeeps | backend/app/services/order_service.py:69-199 | a checkout keeps the invariant: valid catalog, one item per product, money adds up, unique keys, gap-free numbers, coupon counters equal to redemption rows |
| LedgerInvariants.StepKeeps | backend/app/db/session.py:42-53 | every request, also one rolled back, keeps the invariant |
| LedgerInvariants.RunKeeps | backend/app/db/session.py:42-53 | every run keeps the invariant, so stock is never negative in any reachable state |
| LedgerInvariants.OpeningOk | backend/app/services/order_service.py:69-199 | a shop that has sold nothing satisfies the invariant |
| LedgerInvariants.CreateDeliveryKeeps | backend/app/services/delivery_service.py:130-184 | creating a delivery never allocates more of an item than was ordered |
| LedgerInvariants.MoveDeliveryKeeps | backend/app/services/delivery_service.py:186-211 | moving a delivery keeps the invariant |
| LedgerInvariants.MoveNeverAllocates | backend/app/services/delivery_service.py:186-222 | moving a delivery never raises what an item has allocated |
| LedgerInvariants.FullyDeliveredExactly | backend/app/services/delivery_service.py:237-242 | when an order counts as fully delivered, each item was delivered exactly in full: the comparison is an equality |
| LedgerInvariants.DeliveryCodesDistinct | backend/app/services/delivery_service.py:165-165 | the codes D1, D2, ... of an order never repeat |
| LedgerInvariants.CouponsAfterCheckout | backend/app/services/coupon_service.py:112-123 | after a checkout the use counter still equals the redemption rows, with one row for an order that carries a coupon and none for others |
| LedgerRuns.StepConserves | backend/app/services/order_service.py:152-153 | one request changes stock plus units held by orders that are not cancelled by the administrator adjustment alone |
| LedgerRuns.RunConserves | backend/app/services/order_service.py:311-355 | over every run, stock plus held units equals the supply plus the net of administrator settings, for each product |
| LedgerRuns.StepAdvances | backend/app/repositories/order_repository.py:168-196 | the transition table and the roll-up together never lower the rank of an order and never leave delivered or cancelled |
| LedgerRuns.RunAdvances | backend/app/repositories/order_repository.py:17-23 | the same over every run; the contract of an order never changes |
| LedgerRuns.RestockedExactlyOnce | backend/app/services/order_service.py:328-355 | an order gives its units back exactly once if it ends cancelled and never otherwise |
| LedgerRuns.GivenBackInFull | backend/app/services/order_service.py:351-354 | the request that gives units back raises each stock by exactly the units of that order |
| LedgerRuns.KeyIsForever | backend/app/repositories/order_repository.py:107-112 | an idempotency key once used finds the same order after any further requests |
| LedgerRuns.ExactlyOnce | backend/app/services/order_service.py:79-82 | a repeated checkout with a used key returns the same order and changes nothing, whatever happened in between |
| LedgerRuns.AtMostOneOrderPerKey | backend/app/services/order_service.py:79-82 | no run stores two orders under one key |
| LedgerRuns.NumbersWithoutGaps | backend/app/repositories/order_repository.py:56-74 | the numbers issued on a day are exactly 1 to n, none repeats, and failed requests use none |
| LedgerRuns.EditKeepsLimitsIff | backend/app/services/coupon_service.py:152-166 | a coupon edit keeps every coupon within its limits exactly when it is refused or its terms cover the use already made |
| CouponCase.LimitCutBelowUse | backend/app/services/coupon_service.py:152-184 | a run from an opening: a coupon for two uses is used twice, then limited to one, and is beyond its limit |
| LedgerRuns.StepKeepsLimits | backend/app/services/coupon_service.py:39-110 | every other request keeps total and per-user redemptions within the limits |
| LedgerRuns.RunKeepsLimits | backend/app/services/coupon_service.py:39-123 | over every run in which no accepted coupon edit undercuts the use made, redemptions stay within usage_limit and per_user_limit |
| LedgerRuns.ReorderChecksOut | backend/app/services/order_service.py:227-292 | the cart a reorder rebuilds passes the checkout while the catalog is unchanged |
| LedgerRuns.RebuiltAccountsForAll | backend/app/services/order_service.py:227-292 | each past line is accounted for once: a product that can be ordered comes back with the smaller of its quantity and the stock, any other is reported with its reason |
| OrderNumbers.CounterRoundTrip | backend/app/repositories/order_repository.py:56-74 | the zero-padded counter prints and parses back to itself for every n, also past 999 |
| OrderNumbers.NumbersLookLikeThis | backend/app/repositories/order_repository.py:56-74 | numbers read GB-, the day, and a counter of at least three digits |
| OrderNumbers.OneDay | backend/app/repositories/order_repository.py:56-74 | a number belongs to one day |
| OrderNumbers.IssueNext | backend/app/repositories/order_repository.py:56-74 | the next number is new, is the counter after all of its day, and keeps the numbers gap-free |
| CheckoutProtocol.CommitRefines | backend/app/services/order_service.py:77-199 | a commit computed from rows read under locks equals the atomic checkout at the moment of the commit |
| CheckoutProtocol.LocksStayHeld | backend/app/repositories/product_repository.py:140-145 | locks are held only by running transactions |
| CheckoutProtocol.EventKeeps | backend/app/repositories/product_repository.py:140-161 | whatever a running transaction has read stays what the tables hold |
| CheckoutProtocol.InterleavingIsSerial | backend/app/services/order_service.py:77-153 | every interleaving of any number of checkouts, aborts and other requests ends in the tables of a serial run, so committed stock is never negative |
| CheckoutProtocol.AnswersAreSerial | backend/app/services/order_service.py:416-422 | a transaction that ends successfully answers what the atomic checkout would answer at that moment |
| DeliveryProtocol.StepSettles | backend/app/services/delivery_service.py:224-249 | no request leaves an order on which one more roll-up would change anything (what a roll-up does is stated in OrderRules) |
| DeliveryProtocol.NewDeliverySettles | backend/app/services/delivery_service.py:183-183 | the roll-up after creating a delivery never changes the status of a settled order |
| DeliveryProtocol.StillAccepted | backend/app/services/delivery_service.py:141-163 | lines accepted for an order as it was read stay acceptable while its deliveries move on |
| DeliveryProtocol.InsertRefines | backend/app/services/delivery_service.py:130-184 | an insertion decided on the order read under its lock equals the atomic creation on the order as it is |
| DeliveryProtocol.InterleavingIsSerial | backend/app/repositories/order_repository.py:83-96 | every interleaving of creations, delivery moves and other requests ends in the tables of a serial run |
| DeliveryProtocol.NoOverAllocation | backend/app/services/delivery_service.py:133-139 | in every interleaving from the opening on, no item is over-allocated and no delivery code repeats |
| Shelf.BookMatchesShelfIff | backend/app/services/order_service.py:351-354 | over every run from the opening, free stock plus units waited for equals the supply less everything delivered if and only if no request, seen before it ran, missed a unit |
| Shelf.StepMisses | backend/app/services/delivery_service.py:90-121 | one request puts the books off by exactly what can be read off before it: an accepted cancellation by what the order had delivered, an accepted hand-over for a cancelled order by what the delivery carries, anything else by nothing |
| Shelf.DeliveredUnitsComeBack | backend/app/services/order_service.py:335-355 | two runs from an opening shop with three bottles: ordered, two handed over, cancelled; and ordered, two under way, cancelled, handed over. Both end with three bottles on the books, of which two are gone |
| AdminChat.Assistant.PlanCommand | backend/app/services/admin_chat_service.py:76-104 | a sensible instruction is stored as said, with the value it was approved on; it is neither expired nor stale for its planner as long as nothing moves, expired for everybody else, and earlier plans stand; any other stores nothing |
| AdminChat.Assistant.ExecutePending | backend/app/services/admin_chat_service.py:108-167 | an execution carries the instruction out as said and logs it as said; the token is used up for everybody whatever the reply, and any other reply changes no table |
| AdminChat.ExecutionEffect | backend/app/services/admin_chat_service.py:108-167 | an execution writes the approved value to one field of one product and logs the value it replaced |
| AdminChat.ExecutedAsSaid | backend/app/services/admin_chat_service.py:222-241 | stock n gives stock n, active b gives active b, price x gives the price nearest to x, and the audit row says the same value |
| AdminChat.ExecutesIff | backend/app/services/admin_chat_service.py:108-167 | a confirmation is executed if and only if it comes from the planner, an administrator, while the token is pending, the product exists and the field is as approved; a new price must stay above the sale price |
| AdminChat.PlannableIff | backend/app/services/admin_chat_service.py:211-220 | every positive price, every non-negative stock and both states can be planned, nothing else |
| AdminChat.RefusalIsReal | backend/app/services/admin_chat_service.py:108-148 | each reply to a refused confirmation is true |
| AdminChat.RefusalEffect | backend/app/services/admin_chat_service.py:108-167 | a refusal changes no table and no log, and still uses the token up |
| AdminChat.MovedValueRefused | backend/app/services/admin_chat_service.py:132-148 | while the live value differs from the snapshot nobody can execute the plan |
| AdminChat.SecondPlanStale | backend/app/services/admin_chat_service.py:132-148 | of two plans on the same value the second is refused once the first has changed it |
| AdminChat.StoredExactlyIff | backend/app/services/admin_chat_service.py:222-232 | an approved price is stored to the last digit if and only if it is a whole number of hundredths |
| AdminChat.ThirdDecimalIsLost | backend/app/services/admin_chat_service.py:222-232 | a concrete price with a third decimal is stored without it |
| AdminChat.TokenExecutesAtMostOnce | backend/app/services/admin_chat_service.py:249-267 | over every run a token executes at most once |
| AdminChat.PendingWasPlanned | backend/app/services/admin_chat_service.py:249-277 | every pending plan stems from a planning message of the run, with the value live at that moment |
| AdminChat.ExecutedAsApproved | backend/app/services/admin_chat_service.py:108-167 | whoever executes a plan made it, and the value replaced is the value live when it was made |
| AdminChat.AuditReplaysToLive | backend/app/services/admin_chat_service.py:150-167 | if admin chat alone writes a field, replaying its audit rows gives the live value and each row starts where the one before ended |
| AdminChat.NextKeepsLedger | backend/app/services/admin_chat_service.py:76-167 | planning and confirming keep the ledger invariant |
| Chunker.ChunkText | backend/app/rag/text_processor.py:38-82 | the chunks of a short text are the text; those of a long one are the texts of windows that meet the chunking specification |
| Chunker.Restart | backend/app/rag/text_processor.py:61-75 | a new chunk starts with the shortest tail reaching the overlap, then the sentence that did not fit, and its running length is the joined length plus one |
| Chunker.WindowsAdvance | backend/app/rag/text_processor.py:46-82 | window ends strictly increase, starts never decrease, each window starts at or before the previous end |
| Chunker.ChunksCoverText | backend/app/rag/text_processor.py:46-82 | the first window starts at the first sentence, the last ends at the last, and dropping the overlaps gives back the sentence list |
| Chunker.ChunkLengthBound | backend/app/rag/text_processor.py:51-81 | a chunk that is not one oversize sentence is at most twice chunk_size plus overlap long, and at most chunk_size without overlap |
| ChunkRules.OverlapRules | backend/app/rag/text_processor.py:61-75 | a chunk repeats the shortest tail of the previous one that reaches the overlap, or all of it; nothing around an oversize sentence or without overlap |
| ChunkRules.FullRules | backend/app/rag/text_processor.py:51-78 | a chunk ends where the next sentence would not fit and not before; an oversize sentence stands alone |
| Chunker.ChunkingIsUnique | backend/app/rag/text_processor.py:38-82 | the chunking specification has exactly one solution |
| ProductQuery.FilterProducts | backend/app/services/product_query.py:165-199 | exactly the matching products, ascending by list price |
| ProductQuery.MatchesMeans | backend/app/services/product_query.py:150-197 | a product matches if and only if brand, size and category are those asked for, the colour too when a brand or size is named, and its price is at most, at least, or within six percent of the amount |
| ProductQuery.FindProducts | backend/app/services/product_service.py:79-109 | a price-ordered prefix of all wanted products, all of them when the SQL matches fit the limit, the cheapest first |
| ProductQuery.PushDown | backend/app/services/product_service.py:79-109 | the conditions pushed into SQL lose no wanted product, and the residual filter removes every other one |
| ProductQuery.ValidatorAcceptsIff | backend/app/schemas/product.py:234-244 | the search validator accepts every question except one about prices around a negative amount |
| ProductQuery.ReadQuestionsAreAccepted | backend/app/services/product_query.py:55-72 | no question with an amount read from a text, which is never negative, trips the validator, whatever gas size it names |
| ProductQuery.WholePage | backend/app/repositories/product_repository.py:89-138 | when the SQL matches do not exceed the limit the page holds all of them |
| ProductQuery.SortCorrect | backend/app/services/product_query.py:165-199 | sorting by price permutes the rows into ascending order |
| ProductQuery.SortStable | backend/app/services/product_query.py:165-199 | rows of equal price keep their order |
| ChatCart.FindMatchingItemIndex | backend/app/services/conversation_service.py:3308-3321 | the first line of the product the candidate names, if any |
| ChatCart.MergeCandidateItems | backend/app/services/conversation_service.py:2704-2723 | what the cart says of a line stands, the candidate fills gaps only, its product has a line afterwards, and no product gets a second one |
| ChatCart.AppendOrderItems | backend/app/services/conversation_service.py:3365-3374 | merges each candidate in turn |
| ChatCart.ReplaceFirstMatchingItem | backend/app/services/conversation_service.py:3324-3340 | one line at most differs and says what the candidate says, no line is lost or added, the product has a line afterwards, and no product gets a second one |
| ChatCart.MergeExistingItems | backend/app/services/conversation_service.py:3343-3358 | overwrites the matching line of each candidate, or adds it |
| ChatCart.RemoveOrderItem | backend/app/services/conversation_service.py:3377-3389 | drops the matching line and no other |
| ChatCart.CartStaysUnique | backend/app/services/conversation_service.py:3307-3389 | any sequence of merge, append_items, replace, merge_existing and remove keeps at most one line per product |
| ChatCart.AppendUnmatched | backend/app/services/conversation_service.py:3361-3362 | the plain append keeps lines unique exactly when no line has the product yet |
| ChatCart.OtherLinesStand | backend/app/services/conversation_service.py:3307-3389 | an operation with one candidate rewrites one line, adds one or drops one; all others stand, and replace without a match touches line 0 |
| ChatCart.UnnamedLinesStand | backend/app/services/conversation_service.py:3365-3374 | append_items with any number of candidates leaves every line in place whose product none of them names |
| ChatCart.RemoveUnique | backend/app/services/conversation_service.py:3377-3389 | after a removal no line has the removed product |
| ChatCart.RecalledIff | backend/app/services/conversation_service.py:2941-2968 | a cart survives being stored and read back exactly when each line is canonical |
| ChatHandler.HandleChatOrder | backend/app/services/conversation_service.py:671-1244 | a turn orders only on an affirmation of a summary or of an open product choice, and only a complete cart; it quotes exactly in summaries, the total of their lines; a cancellation forgets the state |
| ChatRules.ContactRules | backend/app/services/conversation_service.py:989-990 | for every summary and order: the last word of the customer counts, then what was said before, then the account; a number in the message replaces only a missing or invalid phone |
| ChatRules.QuestionRules | backend/app/services/conversation_service.py:1005-1121 | which question a turn ends with: an unclear line first, then the offer of earlier or account data in a new order, then whatever is missing, then summary or order |
| ChatRules.OfferedContact | backend/app/services/conversation_service.py:1052-1088 | offered earlier data fills the contact slots; offered account data leaves a typed address alone |
| ChatRules.ReadyIff | backend/app/services/conversation_service.py:1089-1201 | what an order needs: every line a product on offer with a quantity in stock, a name, a valid phone, a precise address in a delivery zone, a payment method |
| ChatRules.MemoryRules | backend/app/services/conversation_service.py:2922-2989 | every slot comes back from storage without surrounding blanks, and only the confirmation flag is forgotten |
| ChatRules.ChoiceIsAbout | backend/app/services/conversation_service.py:763-767 | a product choice is about the stored line, else the first incomplete one |
| ChatRules.ChangeIsAbout | backend/app/services/conversation_service.py:3415-3424 | a proposed change that was not stored is about a product that was not in the cart, if there is one |
| ChatHandler.HandleChoice | backend/app/services/conversation_service.py:762-825 | giving the open line up, or affirming the rest, drops exactly the incomplete lines and only an affirmation resolves the order; a choice gives the chosen product a line; a size leaves the cart alone |
| ChatHandler.HandleChange | backend/app/services/conversation_service.py:826-892 | after a proposed change: yes adopts the changed cart, no or a word about payment restores the cart as it was, "no, add it" appends the proposed item to it; asking again keeps it |
| ChatHandler.HandleAddOrReplace | backend/app/services/conversation_service.py:893-929 | adding keeps all that the cart says, replacing rewrites one line, no and asking again leave the cart |
| ChatHandler.HandlePlain | backend/app/services/conversation_service.py:930-987 | cue by cue: remove takes the line of the first product away, add keeps what was said and gives each product a line, replace asks and shows the changed cart, later products bring their quantities, a new one is asked about; lines that are not named stand |
| ChatHandler.ClassifyOperation | backend/app/services/conversation_service.py:3170-3203 | remove, add and replace cues decide in this order; without one, an empty cart is set, products that all have lines are merged, others are asked about |
| ChatHandler.FinishOrder | backend/app/services/conversation_service.py:1005-1088 | what is asked before the slots count as complete |
| ChatHandler.ConcludeOrder | backend/app/services/conversation_service.py:1089-1244 | the checks, the summary and the order; the asserts of the program hold on every path that reaches them |
| ChatHandler.MissingSlots | backend/app/services/conversation_service.py:3504-3522 | something is missing exactly when a slot or a line is not filled |
| ChatHandler.CheckLineStock | backend/app/services/conversation_service.py:1178-1191 | passes exactly when the stock covers each line |
| ChatHandler.QuoteTotal | backend/app/services/conversation_service.py:3770-3776 | the quoted total: line values plus the fee on all bottles of water |
| ChatLaws.OrderGate | backend/app/services/conversation_service.py:988-1004 | a turn reaches order creation only by an affirmation of a summary or of a product choice with an incomplete line |
| ChatLaws.PlacedOrderReady | backend/app/services/conversation_service.py:1123-1244 | a placed order has every slot filled, and every line matched, counted and in stock |
| ChatLaws.SummaryIsCartTotal | backend/app/services/conversation_service.py:3770-3776 | the summary total per line is the value of the cart plus its delivery fee |
| ChatLaws.ChargeIsQuote | backend/app/services/conversation_service.py:3761-3776 | the total_amount stored by checkout for the lines of a chat equals the summary total, for any lines including repeated products, while prices are unchanged |
| ChatLaws.CartReadBack | backend/app/services/conversation_service.py:2941-2968 | a stored cart of known products comes back line by line with its products and its positive quantities |
| ChatLaws.SummaryIsReady | backend/app/services/conversation_service.py:1203-1217 | a quote is given exactly by a summary, only for a complete order, and it is the total of its lines |
| ChatLaws.PlacedAsQuotedIff | backend/app/services/conversation_service.py:988-1244 | while the offer is unchanged, an order has the stored lines and the quoted total if and only if it confirms a summary with a message that leaves its lines |
| ChatLaws.NothingNewLeavesLines | backend/app/services/conversation_service.py:930-932 | a message without new lines leaves the lines of a summary |
| ChatLaws.ConfirmationPlacesIff | backend/app/services/conversation_service.py:1178-1244 | a bare confirmation of a summary places the order if and only if the lines are still in stock and every quantity is from 1 to 100 |
| ChatAnswers.ProposalAnswers | backend/app/services/conversation_service.py:826-866 | yes replaces the line, no restores the cart as it was, "no, add it" keeps the cart and appends the proposed line |
| ChatAnswers.AddOrReplaceAnswers | backend/app/services/conversation_service.py:893-912 | add merges the line in, replace overwrites, no leaves the cart as it was |
| ChatUnique.TurnKeepsUnique | backend/app/services/conversation_service.py:762-987 | a turn stores or orders at most one line per product, unless it appends a second line of one |
| ChatUnique.ConversationKeepsUnique | backend/app/services/conversation_service.py:671-1217 | in every conversation without such an append every stored cart has at most one line per product |
| ChatUnique.OrdersAreUnique | backend/app/services/conversation_service.py:1219-1244 | and so has every order it places |
| ChatUnique.AppendedPendingUniqueIff | backend/app/services/conversation_service.py:837-842 | that append keeps lines unique if and only if no previous line has the product |
| ChatKeys.KeyIgnoresLineOrder | backend/app/services/conversation_service.py:3877-3892 | the idempotency key does not depend on the order of the cart lines |
| ChatKeys.SameKeyIff | backend/app/services/conversation_service.py:3877-3892 | two chat orders, no text of which contains the separator, get one key if and only if conversation, phone, address and the bag of product texts with quantities are the same |
| ChatKeys.OtherQuantityOtherKey | backend/app/services/conversation_service.py:3877-3892 | two carts that differ in the quantity of one line have different keys |
| ChatKeys.AscendingUnique | backend/app/services/conversation_service.py:3877-3892 | a bag of lines has exactly one sorted arrangement, whatever sorts it |
| ChatRuns.FindOrderState | backend/app/services/conversation_service.py:3944-3980 | the latest stored state that is fresh and not cancelled; only an affirmation looks past a recorded order |
| ChatRules.LatestStateIsFound | backend/app/services/conversation_service.py:3944-3980 | the latest stored state decides: it is found while at most half an hour old and not a cancellation, and no older one ever is |
| ChatRules.NextAnswersQuestion | backend/app/services/conversation_service.py:3944-3971 | a message within half an hour answers the question asked last |
| ChatRules.AfterOrderStartsOver | backend/app/services/conversation_service.py:3952-3960 | after an order, a message that does not affirm starts over |
| ChatRules.ChangesAreNoted | backend/app/services/conversation_service.py:682-692 | a request for a change is noted as such exactly while a recorded order is in sight |
| ChatRules.OnlyTenAreRead | backend/app/services/conversation_service.py:423-423 | the ten latest messages are read |
| ChatRuns.WhatFollowsAState | backend/app/services/conversation_service.py:3947-3971 | messages after the last state matter only if one records an order and the new message does not affirm |
| ChatRuns.CancelForgets | backend/app/services/conversation_service.py:744-751 | after a cancellation the next message finds no state |
| ChatRuns.QuotedIffSummary | backend/app/services/conversation_service.py:1203-1217 | in every conversation the messages that carry a quote are the summaries |
| ChatRuns.GateInEveryConversation | backend/app/services/conversation_service.py:762-1004 | in every conversation an order is placed only by an affirmation meeting a fresh state; that state carries a quote if and only if it is a summary, and otherwise it is an open product choice |
| ChatRuns.OrderIsAsQuotedIff | backend/app/services/conversation_service.py:762-1244 | in every conversation, while the offer is unchanged, the order placed has the stored lines and the quoted total if and only if the state is a summary and the message leaves its lines; an order from a product choice never has |
| ChatRuns.ChargedAsQuoted | backend/app/services/conversation_service.py:1203-1244 | in every conversation, when a message that leaves the lines confirms the summary of event k, the order row carries the total quoted there, while products and prices of the lines are unchanged |
| ChatRuns.SameKeyTwice | backend/app/services/conversation_service.py:3877-3892 | two bare confirmations of one summary use the same key |
| ChatRuns.ConfirmedTwiceOrderedOnce | backend/app/services/conversation_service.py:1998-2022 | a second confirmation receives the first order and changes nothing, after any requests in between |
| ChatCases.OrderWithoutQuote | backend/app/services/conversation_service.py:770-774 | a concrete conversation in which "ok" to a product choice places an order that was never quoted |
| ChatCases.QuotedThenOrdered | backend/app/services/conversation_service.py:1203-1244 | a concrete conversation that takes the ordinary course: a summary with its total, "ok", and the order of the summarised lines |
| ChatCases.QuotedThenCharged | backend/app/services/conversation_service.py:1219-1244 | the order row of that conversation carries the 130 000 dong of its summary |
| ChatCases.ConfirmedWithNewLines | backend/app/services/conversation_service.py:930-1004 | a concrete confirmation that names five bottles of a summary of two orders five |
| ChatCases.SecondLineOfAProduct | backend/app/services/conversation_service.py:837-842 | a concrete "no, add it" that gives a product a second line |

## Left out

- OrderDesk.Desk.UpdateProduct: the uniqueness of SKUs and the rule that only water has a pricing note are not modelled, since no other part reads these columns; nor are descriptions, images and ratings.
- LedgerRuns.RunConserves: `reserve_stock` is not a request here, since no order is attached to it.
- ChatRuns.ConfirmedTwiceOrderedOnce: covers confirmations that reach the checkout; a second one may instead be answered that a line is out of stock.
- CheckoutProtocol.InterleavingIsSerial: says nothing about progress (deadlocks, lock waits).
- DeliveryProtocol.InterleavingIsSerial: cancellations, staff updates and delivery moves are one atomic step each, although they read before they lock.
- AdminChat.TokenExecutesAtMostOnce: tokens are random in the program; here a new token is one never issued before.
- Database identifiers: orders, deliveries, items and redemptions are numbered by position, products and users by arbitrary numbers.
- Rows are never deleted for good: products are deactivated, which is an edit; parents and the grouped catalog view are absent.
- Widths of columns: NUMERIC and INTEGER overflow and the lengths of text columns.
- Columns that no rule reads: timestamps, addresses, VAT data, snapshots of product names.
- Schema bounds on requests, except quantities of at least 1, at most 100 in a chat order, the product and coupon bounds, and the search validator.
- Normalisation of coupon codes: codes are taken as already normalised.
- Which of several offending products an error names: products are examined in the order of a set, so any of them may be.
- The update of a product through admin chat that fails while the response is built: the tables are rolled back and the token stays used, as in the program, since Redis takes no part in the transaction.
- Admin chat before the plan: reading the command, paging through the catalog, finding the product.
- Sorting is a library call in the program; a stable insertion sort stands for it.
- The window of ten recent messages is modelled; which earlier messages supply contact data for reuse is an arbitrary input.
- An old metadata format with a single product per state, which the program reads but no longer writes.
- Wording of replies, product cards and staff notes; language detection, intent classification, and everything done with the language model.
- The same cart ordered again later in one conversation has the same key and returns the earlier order; this follows from the key and is not treated as a separate case.
- Segmentation of a text into sentences and its normalisation before chunking.
- Authentication, e-mail, payments, statistics, recommendations, retrieval, migrations and the frontend.
