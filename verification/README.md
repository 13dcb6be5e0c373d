# Points and orders: a verified model

This project models the points and order subsystem of the shop backend and proves
what it is for: a buyer's points and a product's stock are never created or lost, a
retried or raced request takes effect once, and concurrent transactions neither
interfere nor deadlock. Beside it stand five smaller parts with properties of their
own: exact decimal strings, the login limiters, the transaction retry loop, the image
volume with its cleanup sweep, and the client's image shrink loop.

`dafny verify dfyconfig.toml` checks everything.

## How the model is built

**Whole calls.** `Tables` holds the database as one value: opening ids, balances,
products, addresses, cart rows, orders with items, and the ledger in commit order, with
the effect of each SQL statement under the schema's unique keys and CHECK constraints.
`Checkout`, `Lifecycle`, `Accounts` and `Catalog` give each call as a function of that
value. `Runs` makes a run any sequence of them. `Invariants` and `Preservation` carry
the facts every step keeps; `History`, `Stock`, `Replay` and `Backstops` prove the
properties of runs.

**Every call written out.** `CheckoutContracts`, `AccountContracts` and `CatalogContracts`, with
`History.MoveExactly` and the approval lemmas of `Backstops`, say of each call when it is accepted,
everything it then writes and the error of every refusal, in terms of the rows and the request alone
and without the functions that compute them.

**The code as it runs.** `Store` is the database as an object. The repositories
(`PaymentRepository`, `ProductRepository`, `CartRepository`, `OrderRepository`,
`AddressService`) are its statements, and the use cases (`CheckoutUsecase`,
`RefundUsecase`, `FulfillmentUsecase`, `AccountUsecases`) are the calls, with their
loops, early returns and rollbacks. Each use case is proved to have exactly the new state
and the answer of the function for the whole call, so every theorem about runs is about
these methods.

**Lock steps.** `LockModel` splits each transaction at its `SELECT ... FOR UPDATE`
statements, at the INSERTs another session can collide with, and at COMMIT. Any number of
calls run interleaved: checkouts, transitions, approvals, adjustments and logins, the last
with their unlocked balance read and with the signup slot before the buyer row. Any of them
can be aborted between steps, and catalogue edits come in between wherever no lock stops
them. `LockInvariant`, `LockSteps` and `LockLocals` prove that the rows a call has read under
its locks are still what it read, `LockRuns` that every interleaving commits what the same
calls commit one at a time, `Races` the exactly-once properties, `LostInserts` what becomes
of the losers of an insert race, with a run in `LostInsertExample`, and `Refusals` which errors
are the ones a whole call would give. `LockOrder` is the lock discipline by itself, kept on any
database and with any bonus, and `Deadlock` proves from it alone that someone can always go on and
that every set of calls can be driven to its answers.

What a transaction has written is private until its commit step: that the database commits
and rolls back as one is an assumption of the model, and what is proved on top of it is that
only winners reach a commit, once, and with effects that agree with what others have
committed in the meantime.

## Promises that do not hold as stated

Each has a concrete input that shows it fails and the exact condition under which it holds.

- The line product at `backend/internal/application/order/create.go:368` is not guarded. A good shop
  sells four units at 2^62 + 1 points for four points (`WrappedCheckoutSucceeds`). The points charged
  are the exact total if and only if no line leaves the int64 range (`ChargedExactTotalExactly`), and
  for every cart, overflowing or not, it is said exactly when the checkout succeeds
  (`CheckoutExactly`).
- The balance guard computes `-delta`, which wraps for -2^63; what refuses that one delta is the
  CHECK constraint, not the guard (`AdjustedExactly`). Ledger conservation therefore needs no
  bound on the deltas.
- A checkout that loses the insert race is always answered with the raw unique violation, never
  with the winner's order and never with an idempotency conflict, as long as ids are fresh: the
  replay after a conflict at `create.go:291-301` is never taken, because a checkout at its INSERT
  still has its rows in the cart and the winner's are consumed (`LostInsertIsRaw`,
  `LostInsertEndsRaw`). `RawViolationHappens` gives such a run, with fresh ids. An adjustment gets
  the row or the conflict (`LostPostAnswer`).
- A refusal in a race need not be the one the whole call would give at that moment; the raw unique
  violation is one that it never gives (`OvertakenHappens`). The two errors agree exactly when nobody
  has overtaken the call, that is, taken its token or key after its replay check or put back a cart
  row it had missed (`RefusalsAreAtomicExactly`).
- An adjustment key fits `VARCHAR(96)` exactly when the Idempotency-Key has at most 46 characters,
  although 64 are accepted (`KeyFitsExactly`, `AcceptedKeyMayNotFit`); that is the only reason
  besides the buyer and the balance for which the modelled part of a new adjustment fails
  (`AdjustSucceedsExactly`).
- The login overwrites the balance. On a stale read that is sound exactly when the signup row exists
  or the balance is still zero (`OverwriteSoundExactly`). One constant bonus guarantees it
  (`StaleLoginIsHarmless`); a bonus raised from nothing to a hundred loses fifty points
  (`RaisedBonusLosesPoints`).
- The image volume can hold one byte more than its capacity: when content is longer than declared,
  the temporary file cannot be removed, and the declared size had filled the volume
  (`LeakExceedsExactly`, `LeakOverfills`). An entry whose size cannot be read is skipped by the
  capacity check, and the volume can end over its capacity by exactly the bytes skipped
  (`SkippedBytesOverfill`). A declared size passes the check exactly when it fits or its sum with the
  usage wraps (`AdmitsExactly`).
- Raising canvas sides to one pixel can exceed the pixel limit: a strip of one pixel by more than four
  times the limit always does (`ThinStripOverflows`, `StripOverflowsCanvas`). For an image and a limit
  the condition is exact: the long side is at most twice the limit plus one times the short side, or
  the first scale at which the short side rounds to nothing already brings the long side within the
  limit (`CanvasFitsImageExactly`). The second case is confined to half a percent beyond that ratio
  (`BeyondTheBandOverflows`).
- A touch that arrives between the re-stat and the deletion does not save a file
  (`LateTouchDoesNotSave`); `DoomedExactly` says which files go. A reference that arrives after the
  lookup does not save it either (`LateReferenceDoesNotSave`); `DanglingExactly` says when the sweep
  leaves a product with a deleted image.

Where the code and its documentation differ, the model follows the code. A refund can be requested
from `shipped` as well as `paid`, and a rejection returns to either;
`docs/architecture/02-backend.md:107` speaks of `paid` only. An approval changes the status last,
not first as line 106 there says; the row lock is what makes that safe. The signup bonus goes to
any buyer with a zero balance and no signup row, not only to a new one. The upper bound on an
address detail is measured before trimming, the others after it.

## Model

| member | source | states |
|---|---|---|
| Races.ExactlyOnceCreation | backend/internal/application/order/create.go:219-305 | In every interleaving, for one (user, token): at most one order exists, every successful call was answered with that order, and at most one call created it |
| Races.LosersHaveNoEffect | backend/internal/application/order/create.go:291-305 | Only a call that ends as a winner (created, moved, approved, posted, logged in) ever changes the database; a replay, refusal, lost race or abort at any lock point changes nothing |
| Races.OneEffectPerCall | backend/internal/application/order/create.go:285-290 | A call changes the committed database in at most one step of the whole run |
| Races.UserLockExcludesInserts | backend/internal/application/order/create.go:249-262 | While one call holds a buyer's row, no other create of that buyer has an uncommitted order |
| Races.RecheckMissesNothing | backend/internal/order/repository.go:147-173 | When the unlocked re-check read finds no order, no call with the token has created one and none is about to commit one |
| Races.InsertNeverWaits | backend/internal/application/order/create.go:219-223 | The order INSERT never waits for another session's uncommitted order of the same token: the buyer's row lock has already ordered them |
| Races.OneWinnerPerEvent | backend/internal/application/refund/refund.go:175-232 | Of any number of racing approvers of an order, adjusters of one key or creators, at most one commits the event |
| Races.AdjustmentOnce | backend/internal/application/points/adjust.go:129-201 | Every successful adjustment of one (administrator, key) asked for the same thing and got the key's one ledger row, also when the requests race and name different buyers |
| Races.AnswersAreAtomic | backend/internal/application/order/create.go:219-305 | Whenever a call answers with success, the same call run in one piece at that moment gives the same answer and the same new database; a refusal leaves the database alone |
| LostInserts.LostInsertIsRaw | backend/internal/application/order/create.go:291-301 | Over every run with fresh ids, a checkout that has lost its insert is answered with the raw unique violation, while an order with its token exists |
| LostInserts.LostInsertEndsRaw | backend/internal/application/order/create.go:291-301 | A checkout that has ever lost its insert ends with the unique violation or is aborted, in every continuation |
| LostInserts.LostPostAnswer | backend/internal/application/points/adjust.go:185-197 | Over every run, an adjustment that has lost its insert finds the key's row and is answered with it exactly when the hashes agree, otherwise with the conflict |
| LostInsertExample.RawViolationHappens | backend/internal/application/order/create.go:219-301 | A run of two checkouts with one token and different cart rows, from a good shop and with fresh ids only: one creates its order, the other is in conflict one step before the end and ends with the unique violation |
| Refusals.RefusalsAreAtomicExactly | backend/internal/application/order/create.go:219-305 | Over every run with fresh ids, a call is refused with the error it would get in one piece at that moment if and only if nobody took its token or key after its replay check, or put a cart row back that it had missed |
| Refusals.OvertakenHappens | backend/internal/application/order/create.go:291-301 | A run, with fresh ids, in which a call is about to be refused with an error that the whole call would not give |
| Races.OneBuyerPerOpenid | backend/internal/user/service.go:97-133 | All logins of one openid, racing first logins included, are answered with the same buyer, who has exactly one signup row when there is a bonus |
| Races.RacesConserve | backend/internal/application/order/create.go:382-432 | Ledger and stock conservation hold in every state any interleaving reaches |
| LockRuns.LockRunsRefineRuns | backend/internal/application/order/create.go:199-290 | The committed database of every interleaving is that of a run of whole calls in commit order |
| LockRuns.IdleIsGood | backend/migrations/0001_init.up.sql:36-222 | With nothing begun, a good database in which every buyer has had the configured bonus is all the facts need |
| LockRuns.CallsBegin | backend/internal/platform/database/database.go:186-212 | Any call may begin and any unfinished one may be aborted |
| LockRuns.EditsComeBetween | backend/internal/product/service.go:273-330 | Where no row is held every catalogue edit may come in between, as the whole call |
| LockRuns.LockRunKeeps | backend/internal/application/order/create.go:219-290 | In every reachable state: the schema and ledger invariants hold, each call's locals agree with the rows it locked, no row is held twice, and each event has its one poster |
| LockLocals.StepOk | backend/internal/application/order/create.go:223-283 | Each lock step re-establishes its own call's facts: what it read under its locks is what is committed |
| LockSteps.StepRefines | backend/internal/application/order/create.go:352-438 | A step changes the database only at its commit, and then exactly as the whole call would at that moment |
| LockSteps.StepFootprint | backend/internal/application/refund/refund.go:175-221 | A step changes no row that its call has not locked |
| LockInvariant.TxStays | backend/internal/application/order/create.go:258-262 | A change outside the rows a call holds disturbs none of what the call knows |
| LockOrder.LockOrderKept | backend/internal/application/order/create.go:199-203 | Every lock a call waits for ranks above everything it holds: order or event, buyer, address, cart rows by id, products by id, unique slots |
| LockOrder.RunKeepsLocks | backend/internal/application/refund/refund.go:153-162 | In every reachable state, from any database and with any bonus: each call holds only rows of the places it has passed, no row is held twice, and a locked buyer row exists |
| LockOrder.GoodIsDisciplined | backend/internal/application/order/create.go:199-203 | The discipline asks for no more than the full system invariant gives |
| LockOrder.LateBonusHoldsSlot | backend/internal/user/service.go:97-108 | A login that waits for the buyer row while it holds the signup slot: an existing buyer who gets the bonus late |
| Deadlock.DeadlockFree | backend/internal/application/refund/refund.go:153-162 | In every reachable state with an unfinished call, some unfinished call can step, whatever the database and the bonus |
| Deadlock.AllCallsCanFinish | backend/internal/application/points/adjust.go:129-144 | From every state the lock discipline allows, all calls in flight can be driven to an answer |
| Deadlock.StepMakesProgress | backend/internal/application/order/create.go:264-283 | Whichever call steps, what is left to do shrinks: no livelock |
| History.LedgerConservation | backend/internal/payment/balance.go:49-71 | Over every run each balance is the sum of the buyer's deltas, each balance_after the prefix sum at its row, and neither is negative |
| History.OrderLedgerCorrespondence | backend/internal/application/order/create.go:419-432 | Every order has exactly one payment row of minus its total, exactly one refund row of plus the total if and only if it is refunded, and no such row is without its order |
| History.OrderForever | backend/internal/application/refund/refund.go:123-136 | No order is ever lost or changes what was bought; completed and refunded are never left |
| History.StepOnOrder | backend/internal/application/order/fulfillment.go:99-112 | Every step moves an order only along the state machine, with the shipping stamp each state carries |
| History.MoveExactly | backend/internal/application/order/fulfillment.go:82-182 | For requests, rejections, shipping and confirmation, in terms of ids, reason, buyer and status: exactly when each is accepted, the whole row it leaves, the error of every refusal, and that nothing else changes |
| History.RowsOfFamilies | backend/migrations/0001_init.up.sql:170-200 | Over every run each ledger row has the sign, order, administrator and request of its family |
| History.OrdersOfStatus | backend/migrations/0001_init.up.sql:99-165 | Over every run each order has a positive total, positive lines of distinct products, and the stamps of its status |
| History.RejectUndoesRequest | backend/internal/application/refund/refund.go:299-312 | Whatever happens in between, a rejection returns the order to the status it had when its latest request was accepted |
| History.CheckoutConsumesCart | backend/internal/cart/repository.go:36-77 | A committed checkout deletes exactly the requested rows, all the buyer's own, and its items mirror them row by row at the current price |
| History.CartRowsFeedOneOrder | backend/internal/application/order/create.go:434-437 | Over a whole run no cart row feeds two orders and none that fed one is still in a cart |
| Stock.StockConservation | backend/internal/product/repository.go:150-184 | For every product, stock plus the units in non-refunded orders is the opening figure plus the net of administrators' edits, and stock is never negative |
| Stock.StepConservesStock | backend/internal/product/service.go:315-320 | Each single step conserves stock plus reserved units up to an accepted edit |
| Replay.HashCanonical | backend/internal/application/order/create.go:97-121 | Whatever the unstable sorts make of whatever item order, the hash payload is the same, because the ids and products are distinct |
| Replay.ReplayAcceptedExactly | backend/internal/application/order/create.go:312-325 | A replay is accepted exactly when it names the consumed rows as a set and the same address at the same version and content; a foreign address is not found, anything else conflicts |
| Replay.VersionDeterminesSnapshot | backend/internal/user/address_service.go:217-222 | Over every run an address keeps its owner, its version never falls, and its content changes only with its version |
| Replay.StepOnAddress | backend/internal/user/address_service.go:286-294 | Clearing another default touches neither version nor content |
| Replay.CreateThenReplay | backend/internal/application/order/create.go:219-235 | Create, let anything happen, call again with the token: no new effect, and success exactly when cart rows and unedited address agree |
| Replay.AdjustThenReplay | backend/internal/application/points/adjust.go:129-141 | After a committed adjustment every later call with its key changes nothing; equal requests get the row back, different ones conflict |
| Replay.LedgerAppendOnly | backend/internal/payment/repository.go:36-38 | The ledger is append-only over every run |
| Replay.FirstLogin | backend/internal/user/service.go:97-128 | A new buyer's first login is answered with the bonus as balance, with the signup row of that amount, and no row when there is no bonus |
| Replay.BonusOnce | backend/internal/user/service.go:101-113 | Once the signup row exists, every later login changes nothing, reports the stored balance, and the row stays the only one |
| CheckoutContracts.CheckoutExactly | backend/internal/application/order/create.go:199-290 | Any first checkout succeeds if and only if the call is well formed, the named address and every cart row are the buyer's own, every product is on sale with enough stock, no line is charged a negative amount and the charge is positive and within the balance |
| CheckoutContracts.CheckoutEffect | backend/internal/application/order/create.go:352-438 | Everything it then writes: every column of the order, its items and its hash, one ledger row, the points, the units of each row's product, the rows; and nothing else |
| CheckoutContracts.CheckoutRefusals | backend/internal/application/order/create.go:199-263 | The errors of a first checkout for the key, the request, the buyer, the address and the cart rows |
| CheckoutContracts.RowRefusal | backend/internal/application/order/create.go:356-380 | In id order the first row that does not pass decides the error: off sale, too little stock, or an amount out of range |
| CheckoutContracts.ChargeRefusal | backend/internal/application/order/create.go:382-399 | When every row passes, a charge above the balance lacks points and a charge of nothing breaks the CHECK |
| CheckoutContracts.ReplayExactly | backend/internal/application/order/create.go:312-325 | Under a used token nothing is written; every answer, in terms of the rows, the address and the stored order |
| CheckoutContracts.OwnAddressAlways | backend/internal/user/address_service.go:267-281 | Whoever gets an order, by a first call or a replay, has named an address row of their own |
| CheckoutContracts.ForeignAddressRefused | backend/internal/user/address_service.go:272-276 | A well-formed call with a missing or foreign address is not found and changes nothing, when the token is used, and when it is not and the buyer exists |
| Backstops.CheckoutSucceedsExactly | backend/internal/application/order/create.go:352-438 | The same for a well-formed call over the locked rows |
| Backstops.FittingCheckoutSucceedsExactly | backend/internal/application/order/create.go:352-438 | When no line overflows, that is if and only if the exact total is within the balance |
| Backstops.ChargedExactTotalExactly | backend/internal/application/order/create.go:355-372 | The points charged for an order never exceed the exact total and equal it if and only if no line overflows |
| Backstops.ShopCanSell | backend/internal/application/order/create.go:204-305 | A shop with one buyer, product, address and cart row meets every condition, and its checkout succeeds at the exact total |
| Backstops.WrappedCheckoutSucceeds | backend/internal/application/order/create.go:368 | The same shop, with a price of 2^62 + 1, sells four units for four points |
| AccountContracts.AdjustSucceedsExactly | backend/internal/application/points/adjust.go:107-158 | Any adjustment under an unused key succeeds if and only if the key has 1 to 64 bytes, is not blank and has at most 46 characters, both ids are set, delta is not zero, the trimmed remark has 1 to 255 characters, the buyer exists and the new balance is a non-negative int64 |
| AccountContracts.AdjustEffect | backend/internal/application/points/adjust.go:146-180 | An accepted adjustment writes the balance and one ledger row, every column of it, and nothing else |
| AccountContracts.AdjustRefusals | backend/internal/application/points/adjust.go:107-158 | The error of every refusal, in the order the tests are made |
| AccountContracts.AdjustReplays | backend/internal/application/points/adjust.go:129-141 | Under a used key nothing is written and the row is the answer exactly for the same buyer, delta and trimmed remark |
| AccountContracts.DeductionHappens | backend/internal/application/points/adjust.go:263-272 | A concrete deduction is accepted |
| AccountContracts.KnownLoginExactly | backend/internal/user/service.go:80-138 | A known buyer gets the bonus exactly on a zero balance without a signup row; the answer is the balance |
| AccountContracts.NewLoginExactly | backend/internal/user/service.go:204-263 | A new openid gets a buyer row, and the bonus with its row when there is one; the error of every refusal |
| Backstops.SmallPricesFit | backend/internal/application/order/create.go:368 | Prices up to 2^32 + 2 keep every line of every cart inside int64 |
| Backstops.InsertsGoThrough | backend/migrations/0001_init.up.sql:98-149 | With a fresh order id and an unused token, no unique or CHECK constraint refuses what a checkout has built |
| Backstops.ApproveSucceedsExactly | backend/internal/application/refund/refund.go:163-232 | An approval succeeds if and only if both ids are set, the order is there with an open request, and points and units still fit their columns |
| Backstops.ApproveEffect | backend/internal/application/refund/refund.go:192-232 | Everything it then writes: the order row, the points with every column of the ledger row, each item's units; and nothing else |
| Backstops.ApproveRefusals | backend/internal/application/refund/refund.go:163-232 | The error of every refused approval, which changes nothing |
| Backstops.BuildSucceedsExactly | backend/internal/application/order/create.go:382-393 | Once the lines are verified only the buyer's points can stop the build |
| Checkout.AcceptedTotal | backend/internal/application/order/create.go:355-372 | An accepted total never exceeds the exact sum, and equals it if and only if no line product overflows |
| Checkout.ChargedExactly | backend/internal/application/order/create.go:355-372 | For every cart the loop accepts exactly when the lines can be had, none is charged a negative amount and the charges sum to an int64, and answers that sum |
| Checkout.TotalAcceptedExactly | backend/internal/application/order/create.go:368-372 | Without a line overflow the guard accepts exactly the sums that fit int64 |
| Checkout.NegativeLineRejected | backend/internal/application/order/create.go:369-371 | A line product that wraps to a negative value is always rejected |
| Checkout.WrappedProductIsSoldCheap | backend/internal/application/order/create.go:368 | A concrete cart whose exact total is beyond int64 is accepted for four points |
| Checkout.SmallPricesNeverOverflow | backend/internal/application/order/create.go:368 | Prices up to 2^32 + 2 cannot overflow a line at any int32 quantity |
| Tables.VerifiedLinesDecrement | backend/internal/application/order/create.go:357-387 | Once the first pass has verified distinct products, the second pass of conditional decrements cannot fail |
| Tables.DecrementAllEffect | backend/internal/product/repository.go:143-163 | Successful decrements leave each product at its old stock minus its units |
| Tables.IncrementAllEffect | backend/internal/product/repository.go:165-184 | Successful increments leave each product at its old stock plus its units |
| Tables.AdjustedExactly | backend/internal/payment/balance.go:60-70 | The balance statement succeeds exactly when the new balance is a non-negative int64, and which refusal a negative one meets |
| Tables.OrderInsertExactly | backend/migrations/0001_init.up.sql:98-169 | Which orders the constraints let in |
| Tables.LedgerInsertExactly | backend/migrations/0001_init.up.sql:171-205 | Which ledger rows the constraints let in |
| EventKeys.KeyTextInjective | backend/internal/payment/ledger.go:30-47 | The four families of event keys never collide and a key names its event |
| EventKeys.KeyTextExactly | backend/internal/payment/ledger.go:30-47 | The stored text of each family |
| EventKeys.UuidTextExactly | backend/internal/payment/ledger.go:30-47 | A UUID in it is 36 characters, hyphens in their places, and 32 lower-case digits that spell the id |
| EventKeys.KeyFitsExactly | backend/internal/platform/database/models.go:208 | Which event keys fit 96 characters |
| EventKeys.AcceptedKeyMayNotFit | backend/internal/application/points/adjust.go:256-261 | An accepted Idempotency-Key whose event key does not fit |
| Sorting.SortCanonical | backend/internal/application/order/create.go:99-101 | With distinct keys every sort of every permutation is the same sequence |
| Base.TrimIdempotent | backend/internal/application/points/adjust.go:120-121 | A stored trimmed text is its own trimmed form, so hash and row agree |
| Base.TrimExactly | backend/internal/application/points/adjust.go:257-267 | Trimming takes exactly the spaces at both ends |
| Base.IsSpaceExactly | backend/internal/application/points/adjust.go:257-267 | The twenty-five code points that count as spaces |
| Base.ByteLenExactly | backend/internal/application/order/create.go:126 | Lengths of keys are UTF-8 bytes |
| Preservation.RunKeeps | backend/migrations/0001_init.up.sql:36-222 | Every run from a good database ends in one: ledger, orders, carts, products, addresses, logins |
| Preservation.CreateKeeps | backend/internal/application/order/create.go:204-305 | A checkout keeps every invariant |
| Preservation.ApproveKeeps | backend/internal/application/refund/refund.go:163-232 | An approval keeps every invariant |
| Preservation.MoveKeeps | backend/internal/application/order/fulfillment.go:82-112 | Request, reject, ship and confirm keep every invariant, the stamp CHECKs among them |
| Preservation.AdjustKeeps | backend/internal/application/points/adjust.go:107-160 | An adjustment keeps every invariant |
| Preservation.LoginKeeps | backend/internal/user/service.go:97-133 | A login with or without bonus keeps every invariant, although it overwrites the balance |
| Preservation.CreateAddressKeeps | backend/internal/user/address_service.go:94-130 | A new address keeps one default per buyer and positive versions |
| Preservation.UpdateAddressKeeps | backend/internal/user/address_service.go:175-241 | An address edit keeps them too |
| Preservation.AddToCartKeeps | backend/internal/cart/service.go:79-140 | Adding to a cart keeps (user, product) unique and quantities in range |
| Preservation.UpdateCartKeeps | backend/internal/cart/service.go:163-201 | A cart edit keeps quantities positive |
| Preservation.DeleteFromCartKeeps | backend/internal/cart/service.go:203-222 | A cart deletion keeps every invariant |
| Preservation.CreateProductKeeps | backend/internal/product/service.go:211-271 | A new product keeps prices positive and stock in range |
| Preservation.UpdateProductKeeps | backend/internal/product/service.go:273-330 | A product edit keeps them too |
| CatalogContracts.CreateAddressExactly | backend/internal/user/address_service.go:94-130 | When an address is created, its row, the other defaults it clears, and the error of every refusal |
| CatalogContracts.UpdateAddressAccepted | backend/internal/user/address_service.go:175-213 | When an update is accepted, and the error of every refusal |
| CatalogContracts.UpdateAddressEffect | backend/internal/user/address_service.go:186-241 | Every accepted update bumps the version by one and takes each field from the update where given and from the row where not |
| CatalogContracts.DeleteAddressExactly | backend/internal/user/address_service.go:244-260 | Exactly an own address row is deleted, and only it |
| CatalogContracts.AddMoreExactly | backend/internal/cart/service.go:79-140 | Adding a product that is in the cart raises that row's quantity |
| CatalogContracts.AddNewExactly | backend/internal/cart/service.go:79-140 | Adding any other product inserts a row; the error of every refusal |
| CatalogContracts.UpdateCartExactly | backend/internal/cart/service.go:163-201 | Exactly an own row gets a quantity of at least one, and only it |
| CatalogContracts.DeleteFromCartExactly | backend/internal/cart/service.go:203-222 | Exactly an own row is deleted, and only it |
| CatalogContracts.CreateProductExactly | backend/internal/product/service.go:211-271 | Which products are created, and their row |
| CatalogContracts.UpdateProductExactly | backend/internal/product/service.go:273-330 | Which edits are accepted, the row they leave, and the error of every refusal |
| LoginRace.StaleLoginIsHarmless | backend/internal/user/service.go:97-113 | With one bonus for the run, a login that finishes on a stale balance changes nothing |
| LoginRace.OverwriteSoundExactly | backend/internal/user/service.go:239-263 | The overwrite keeps the balance equal to the ledger exactly when the row existed or the balance is still zero |
| LoginRace.RaisedBonusLosesPoints | backend/internal/user/service.go:257-260 | Two logins with bonuses nothing and a hundred, and fifty points in between: the balance ends at 100 beside a delta sum of 150 |
| LoginRace.FinishAtOnce | backend/internal/user/service.go:97-133 | A login that finishes at once is the login as one step |
| CheckoutUsecase.Execute | backend/internal/application/order/create.go:204-305 | The transaction with its locks, re-check, rollback and conflict path does exactly what the whole-call function says, new state and answer |
| CheckoutUsecase.BuildAndCommit | backend/internal/application/order/create.go:352-438 | The statements apply exactly the write set, or report the first error in statement order |
| CheckoutUsecase.VerifyLines | backend/internal/application/order/create.go:355-380 | The verification loop computes the guarded total and the item snapshots |
| CheckoutUsecase.DecrementStocks | backend/internal/application/order/create.go:382-387 | The decrement loop is the conditional decrement of all lines |
| CheckoutUsecase.Pay | backend/internal/application/order/create.go:353-393 | Verification, stock and points in order, with the table's products and balance afterwards |
| CheckoutUsecase.Record | backend/internal/application/order/create.go:395-437 | Order, items, ledger row and cart deletion, each constraint reported in its place |
| CheckoutUsecase.DecideReplay | backend/internal/application/order/create.go:312-325 | The hash recomputed from request, items and current address decides replay or conflict |
| CheckoutUsecase.ResolveAfterConflict | backend/internal/application/order/create.go:330-346 | After the rollback the winner's order is replayed or refused |
| CheckoutUsecase.ValidateOrderRequest | backend/internal/application/order/create.go:454-472 | The loop with the seen set accepts exactly the requests without zero or repeated ids |
| CheckoutUsecase.IndexProducts | backend/internal/application/order/create.go:482-488 | The index holds exactly the listed rows |
| CheckoutUsecase.DecrementWithin | backend/internal/application/order/create.go:382-387 | Decrementing in the table is decrementing the locked rows |
| RefundUsecase.RequestRefund | backend/internal/application/refund/refund.go:106-148 | A request's new state and answer |
| RefundUsecase.RejectRefund | backend/internal/application/refund/refund.go:275-343 | A rejection's new state and answer |
| RefundUsecase.ApproveRefund | backend/internal/application/refund/refund.go:163-262 | An approval's new state and answer, rollback included |
| RefundUsecase.Restore | backend/internal/application/refund/refund.go:192-232 | Points, ledger, stock and status in statement order |
| RefundUsecase.PayBack | backend/internal/application/refund/refund.go:192-213 | Points and ledger row, each refusal in its place |
| RefundUsecase.PutBack | backend/internal/application/refund/refund.go:214-232 | Stock and status of the locked order |
| RefundUsecase.RestoreStock | backend/internal/application/refund/refund.go:214-221 | The increment loop is the increment of all items |
| FulfillmentUsecase.ShipOrder | backend/internal/application/order/fulfillment.go:82-142 | Shipping's new state and answer |
| FulfillmentUsecase.ConfirmOrder | backend/internal/application/order/fulfillment.go:147-182 | Confirmation's new state and answer |
| AccountUsecases.ExecuteAdjust | backend/internal/application/points/adjust.go:107-202 | An adjustment's new state and answer, rollback and lost-insert path included |
| AccountUsecases.ResolveLostInsert | backend/internal/application/points/adjust.go:185-197 | The stored row, the conflict, or the error itself |
| AccountUsecases.Upsert | backend/internal/user/service.go:80-138 | A login's new state and reported balance |
| AccountUsecases.InsertOrRead | backend/internal/user/service.go:204-231 | Insert-or-read by openid, with the balance it has seen |
| AccountUsecases.AwardSignupBonus | backend/internal/user/service.go:239-263 | True exactly when the row was inserted, and only then the balance is overwritten |
| AddressService.Create | backend/internal/user/address_service.go:94-130 | Creation's new state and answer, rollback of the cleared default included |
| AddressService.Update | backend/internal/user/address_service.go:175-241 | The partial update's new state and answer |
| AddressService.Delete | backend/internal/user/address_service.go:244-260 | Deletion's new state and answer |
| AddressService.ClearDefaultAddress | backend/internal/user/address_service.go:286-294 | Clears the buyer's other defaults and leaves every version and content alone |
| AddressService.LockForOrder | backend/internal/user/address_service.go:267-281 | The buyer's own row or not found |
| PaymentRepository.AdjustBalance | backend/internal/payment/balance.go:49-71 | The guarded update, its refusals, and its two answers on a missing row |
| PaymentRepository.LockUser | backend/internal/payment/balance.go:30-40 | Not found exactly when the row is missing |
| PaymentRepository.Create | backend/internal/payment/repository.go:36-38 | Appends the row or reports the constraint it breaks |
| PaymentRepository.FindByEventKey | backend/internal/payment/repository.go:41-64 | Finds the row of the unique key |
| ProductRepository.LockByIDs | backend/internal/product/repository.go:121-141 | All requested rows in ascending id order, or not found exactly when one is missing |
| ProductRepository.DecrementStock | backend/internal/product/repository.go:150-163 | One conditional decrement and its remaining stock |
| ProductRepository.IncrementStock | backend/internal/product/repository.go:171-184 | One increment and its new stock |
| CartRepository.LockForOrder | backend/internal/cart/repository.go:36-57 | The buyer's rows in ascending id order, or not found exactly when one is missing or foreign |
| CartRepository.DeleteByIDs | backend/internal/cart/repository.go:63-77 | Deletes exactly the buyer's rows among the ids; succeeds exactly when the count matches |
| CartRepository.LockedRowsDelete | backend/internal/cart/repository.go:59-77 | After a successful lock the count check passes and exactly the requested rows go |
| OrderRepository.FindForReplay | backend/internal/order/repository.go:132-173 | The same-token order, or none |
| OrderRepository.LockForUpdate | backend/internal/order/repository.go:98-110 | The order of the id, or not found |
| OrderRepository.LockForUpdateByUser | backend/internal/order/repository.go:115-127 | Another buyer's order cannot be told from a missing one |
| OrderRepository.UpdateFields | backend/internal/order/repository.go:196-205 | Updates exactly the matching row, or reports a conflict and changes nothing |
| RetryRunner.RunTransaction | backend/internal/platform/database/database.go:186-212 | The attempt loop is its recursive description; the final "exhausted" return is unreachable |
| RetryRunner.RetryPromises | backend/internal/platform/database/database.go:196-211 | At most the allowed attempts, at most one commit, nil exactly after a commit, another attempt only after 40P01 or 40001, and whose error is returned |
| RetryRunner.TransientFailuresRecover | backend/internal/platform/database/database.go:196-211 | If the first commit comes within the allowed attempts and nothing disturbs, the answer is that commit |
| RetryRunner.ClassifiersDisjoint | backend/internal/platform/database/database.go:218-235 | No error, wrapped or not, is both retryable and a unique violation |
| RetryRunner.ClassifiersExactly | backend/internal/platform/database/database.go:218-235 | Retried are exactly 40P01 and 40001, a lost insert is exactly 23505, at any depth of wrapping |
| RetryRunner.RunExactly | backend/internal/platform/database/database.go:186-212 | The attempts made are exactly those up to the first that stops the loop, and the answer is what stopped it |
| DecimalStrings.AddIntString | miniapp/src/lib/points.ts:12-30 | The canonical string of the sum, for digit strings of any length |
| DecimalStrings.MulIntString | miniapp/src/lib/points.ts:32-47 | The canonical string of the product, zero for a non-positive factor, every intermediate below ten times the factor |
| DecimalStrings.SumLineTotal | miniapp/src/lib/points.ts:50-59 | The canonical string of the sum of the line products |
| DecimalStrings.CompareIsOrder | miniapp/src/lib/points.ts:72-78 | The comparison of the strings is the comparison of the numbers |
| DecimalStrings.CanonicalIsDecimal | miniapp/src/lib/points.ts:29 | Canonical strings and numbers correspond one to one |
| DecimalStrings.ValueExactly | miniapp/src/lib/points.ts:12-30 | A string denotes its digits in base ten |
| DecimalStrings.LinesTotalExactly | miniapp/src/lib/points.ts:50-59 | The total is the sum of price times quantity, a quantity below one counting for nothing |
| DecimalStrings.ProductExact | miniapp/src/lib/points.ts:38 | Each product is exact in doubles whenever ten times the factor is at most 2^53 |
| DecimalStrings.FloorDivisionExact | miniapp/src/lib/points.ts:40 | The floored quotient by ten is exact although the division rounds |
| RateLimiters.AccountBudget | backend/internal/admin/rate_limit.go:99-117 | In any span shorter than the account window an account is let through fewer than twice its limit |
| RateLimiters.IpBudget | backend/internal/admin/rate_limit.go:99-117 | In any span shorter than the address window an address is let through fewer than twice its limit |
| RateLimiters.OneDimensionBudget | backend/internal/application/auth/rate_limit.go:59-88 | In the one-dimensional limiter, over any mix of attempts and resets, an address that is not reset is let through fewer than twice its limit in any span shorter than the window |
| RateLimiters.WindowBound | backend/internal/admin/rate_limit.go:121-132 | A window admits at most the limit |
| RateLimiters.SpanBound | backend/internal/application/auth/rate_limit.go:59-78 | Any span shorter than the window admits at most twice the limit minus one |
| RateLimiters.SpanBoundIsTight | backend/internal/application/auth/rate_limit.go:59-78 | That bound is reached for every limit |
| RateLimiters.RejectedAttemptStillCounts | backend/internal/admin/rate_limit.go:108-115 | An address rejection has already cost the account a token |
| RateLimiters.AttemptExactly | backend/internal/admin/rate_limit.go:99-132 | Verdict and both bucket maps after an attempt, in terms of the maps alone |
| RateLimiters.FreshWindowExactly | backend/internal/application/auth/rate_limit.go:59-78 | Of visits within less than a window, to a key without a bucket or after its window, exactly the first limit are let through |
| RateLimiters.FirstAttemptsPass | backend/internal/application/auth/rate_limit.go:59-88 | So it is for an address seen for the first time or after its reset, whatever other addresses do |
| RateLimiters.EventKeepsBuckets | backend/internal/admin/rate_limit.go:121-145 | What the budgets ask of the buckets is kept by every attempt and reset |
| RateLimiters.AdminLoginLimiter.constructor | backend/internal/admin/rate_limit.go:46-68 | Invalid settings are clamped, so the budgets' conditions hold from the start |
| RateLimiters.AdminLoginLimiter.Allow | backend/internal/admin/rate_limit.go:99-117 | An attempt passes if and only if account and address each have no bucket, a window that has passed, or a token left; and the new buckets |
| RateLimiters.AdminLoginLimiter.AllowIntoBucket | backend/internal/admin/rate_limit.go:121-132 | One visit passes if and only if the key has no bucket, a window that has passed, or a token left; and the new bucket |
| RateLimiters.AdminLoginLimiter.Reset | backend/internal/admin/rate_limit.go:137-147 | Clears exactly the two buckets of the tuple |
| RateLimiters.LoginLimiter.Allow | backend/internal/application/auth/rate_limit.go:59-78 | The same for one address; empty addresses share one bucket |
| RateLimiters.LoginLimiter.Reset | backend/internal/application/auth/rate_limit.go:81-88 | Clears exactly the address's bucket |
| ImageVolume.UsageBounded | backend/internal/storage/local_volume.go:43-115 | For any mix of successful and failed uploads and unlocked deletions whose capacity checks read every byte, usage is at most the capacity whenever the lock is free; one byte more at most, and only after a leaked over-long temporary file |
| ImageVolume.CountedExactly | backend/internal/storage/local_volume.go:155-172 | A reading never counts too much, and counts everything exactly when the entries it skips are empty |
| ImageVolume.CountedAppend | backend/internal/storage/local_volume.go:155-172 | Each entry counts with its size unless it is skipped |
| ImageVolume.SkippedBytesOverfill | backend/internal/storage/local_volume.go:164-167 | An upload that fills what a reading left free ends over the capacity by exactly the bytes the reading skipped |
| ImageVolume.LeakExceedsExactly | backend/internal/storage/local_volume.go:65-74 | When the leak of an over-long temporary file breaks the bound |
| ImageVolume.LeakOverfills | backend/internal/storage/local_volume.go:65-74 | A run that breaks it, for every volume and every upload that fills it |
| ImageVolume.AdmitsExactly | backend/internal/storage/local_volume.go:55-61 | The check admits exactly the sizes that fit and those whose sum with the usage leaves int64 |
| ImageVolume.LocalVolume.Put | backend/internal/storage/local_volume.go:43-99 | The answer to everything the operating system can say; on every path all other objects are kept, the key has the new object, the old one or none, and the temporary file is left only if its removal fails |
| ImageVolume.LocalVolume.WriteAndPublish | backend/internal/storage/local_volume.go:62-99 | The part under the lock, from the temporary file to the rename |
| ImageVolume.LocalVolume.Remove | backend/internal/storage/local_volume.go:103-115 | Afterwards the object is gone and every other is kept, a missing object is no error and changes nothing, a failing removal changes nothing |
| ImageVolume.DeleteExactly | backend/internal/storage/local_volume.go:103-115 | A deletion during an upload takes that one name away and leaves the upload alone |
| ImageVolume.UploadStepsExactly | backend/internal/storage/local_volume.go:62-99 | What each step of an upload does to the directory, entry by entry |
| ImageVolume.UsedBytesLocked | backend/internal/storage/local_volume.go:155-172 | The summing loop counts every entry it can read |
| CleanupSweep.Storage.Cleanup | backend/internal/storage/cleanup.go:28-85 | The loop deletes what the sweep's description says and counts it |
| CleanupSweep.SweptExactly | backend/internal/storage/cleanup.go:40-84 | A key is deleted exactly when some listed entry of it is judged doomed at its turn |
| CleanupSweep.DoomedExactly | backend/internal/storage/cleanup.go:41-71 | With a positive grace, deleted are exactly the objects found unreferenced whose re-read age has reached it, no step failing |
| CleanupSweep.JudgeExactly | backend/internal/storage/cleanup.go:40-84 | The verdict with or without a re-stat and a grace period, and that the sweep itself changes only the file it deletes |
| CleanupSweep.ApplyExactly | backend/internal/storage/cleanup.go:40-84 | What uploads, touches, removals and product edits around it do, key by key |
| CleanupSweep.TouchSaves | backend/internal/storage/cleanup.go:51-66 | A touch before the re-stat saves the file, whatever else happens around it |
| CleanupSweep.LateTouchDoesNotSave | backend/internal/storage/cleanup.go:66-73 | A touch after the re-stat does not |
| CleanupSweep.ReferencedExactly | backend/internal/storage/cleanup.go:40-50 | A key is referenced after any operations exactly when a reference was made and not withdrawn after, or was there all along |
| CleanupSweep.ReferenceSaves | backend/internal/storage/cleanup.go:40-50 | A reference made before the lookup and not withdrawn saves the file, whatever its age |
| CleanupSweep.DanglingExactly | backend/internal/storage/cleanup.go:40-73 | A deleted file is left referenced exactly when a reference comes after the lookup and stays, the file is old enough at the re-stat, and no step fails |
| CleanupSweep.LateReferenceDoesNotSave | backend/internal/storage/cleanup.go:40-73 | A reference between the lookup and the re-stat comes too late |
| ImageShrink.FitScale | admin/src/lib/image-compress.ts:128-138 | The shrink loop ends, at a scale whose rounded sides fit, and does not shrink an image that fits |
| ImageShrink.ShrinkProgress | admin/src/lib/image-compress.ts:133-138 | Each shrink takes at least one four-hundredth of a pixel off the width |
| ImageShrink.ClampedStepsFit | admin/src/lib/image-compress.ts:140-144 | Every clamped ladder step fits the pixel limit |
| ImageShrink.ClampExactly | admin/src/lib/image-compress.ts:140-144 | A step is taken as it is unless it is above a fitted scale |
| ImageShrink.RoundExactly | admin/src/lib/image-compress.ts:83-84 | Rounding is to the nearest, halves up |
| ImageShrink.CanvasFitsExactly | admin/src/lib/image-compress.ts:83-84 | When raising the sides to one pixel keeps the limit |
| ImageShrink.CanvasFitsImageExactly | admin/src/lib/image-compress.ts:128-144 | At the scale the loop ends with, the canvas fits if and only if the long side is at most 2 * maxPixels + 1 times the short one, or the largest scale of the loop at which the short side rounds to nothing brings the long side within the limit |
| ImageShrink.BeyondTheBandOverflows | admin/src/lib/image-compress.ts:133-138 | Half a percent beyond that ratio the canvas of a shrunk image is always over the limit |
| ImageShrink.SidesWithinLimitFit | admin/src/lib/image-compress.ts:83-84 | Sides that are each within the pixel limit are never raised past it |
| ImageShrink.ThinStripOverflows | admin/src/lib/image-compress.ts:83-84 | At the exact square-root scale every strip of one pixel by more than four times the limit ends over it |
| ImageShrink.StripOverflowsCanvas | admin/src/lib/image-compress.ts:83-84 | A strip for which it does not |
| ImageShrink.FloorStepFits | admin/src/lib/image-compress.ts:164-173 | The last resort is within the default limit |

## Left out

- SHA-256 and JSON: a request hash is taken to be injective, so the canonical payload stands for it.
- HTTP, routing, tokens, metrics, logging, configuration, the WeChat client and every page.
- Audit rows, role lookup, order numbers, timestamps beyond set or unset, product names and images in order items, `restoredUnits` (it only feeds an audit row).
- Foreign-key share locks, deadlock detection and lock timeouts of the database: an abort at any lock point stands for them.
- Multi-row `FOR UPDATE` statements lock row by row in id order at lock level; address, cart and product edits are one step there.
- Logins at lock level offer one configured bonus for the whole run. Conservation and refinement start from databases in which every buyer has had it; deadlock freedom does not ask for that. `LoginRace` treats the login apart from the locks, with any bonus.
- Races.AnswersAreAtomic: of a refused call it claims the unchanged database only; `RefusalsAreAtomicExactly` says when the error is the whole call's.
- AccountContracts.AdjustSucceedsExactly: a remark with the character U+0000, which PostgreSQL text refuses, and the administrator's row, which `created_by_admin_id` refers to, are not modelled.
- History.CartRowsFeedOneOrder: assumes that ids of consumed cart rows are not handed out again (`FreshCartIds`).
- Replay.VersionDeterminesSnapshot: assumes that the id of the address is not handed out again during the run (`NeverCreated`), because a deleted and re-created address would start at version 1.
- Deadlock.AllCallsCanFinish: assumes fewer calls than there are UUIDs.
- CartRepository.SelectForUpdate: on repeated ids it lists a row once per mention where SQL lists it once; validation turns repeated ids away.
- RefundUsecase.ApproveRefund: requires the stored totals to be int64 values, which the column type gives.
- AccountUsecases.Upsert: requires every openid to name an existing buyer, which is one row in the database.
- EventKeys.KeyFitsExactly: PostgreSQL cuts excess trailing spaces off instead of refusing them; an Idempotency-Key header arrives trimmed, so a key that ends in spaces is not modelled.
- RateLimiters.AdminLoginLimiter.Allow: lower-casing is a parameter, and a clock difference beyond 292 years, where Go saturates, is not modelled.
- LostInserts.LostInsertIsRaw: assumes that ids of existing orders and of consumed cart rows are not handed out again (`FreshRun`).
- ImageVolume.LocalVolume.Put: the operating system's answers are parameters; the interleaving with deletions is `UsageBounded`.
- Listing, paging, admin accounts, permissions, coupon templates and the checkout session page.
- Canvas drawing and encoding, file renaming and the compression plan's list of steps.
