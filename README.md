# gameshop_api — a Dafny model of the store, wallet and lottery handlers

This project models the request handlers of the game-shop REST API:
- the wallet (`wallet_api.ts`): top-up, buying one game, checking out the basket, the admin transaction history;
- the catalog, basket and discount codes (`game_api.ts`): creating, updating, deleting and searching games, adding to and removing from the basket, creating and deleting discount codes, the discount preview;
- the lottery prize draw (`prize_api.ts`): `randPrize` and the draws `rand1_3t`, `updateData`, `rand4t` and `rand5t`.

Each handler is one atomic step on the database. A handler that fails after its transaction began is rolled back, so a failure leaves the tables unchanged.

Modules:
- `Common`: `Option`, `Num` and `Reply`.
  - `Num` is the result of JavaScript's `Number(...)`: NaN or a whole number.
  - `Reply` is an HTTP status with a JSON body.
- `Shop`: the rows of `users`, `game`, `basket`, `usersgamelibrary`, `discountcode`, `gametransaction` and `wallettransaction`.
  - The class `ShopDb` holds the tables. Handlers update its fields in place.
  - The SQL queries and deletes the handlers share are functions.
  - `ShopDb.Valid` is the invariant every handler keeps:
    - no (user, game) pair twice in the basket, and no owned game in it;
    - no game twice in a library;
    - wallets never negative;
    - each code's `remaining_user` between 0 and `max_user`, and code ids unique;
    - ids below the next auto-increment value.
- `WalletApi` and `GameApi`: the handlers, as methods on `ShopDb`.
  - Each method's contract gives the status as a function of the old tables, checked in source order.
  - It also gives the exact new tables.
  - Lemmas state what the handlers promise across calls.
- `JsText`: the parts of JavaScript's string semantics the handlers depend on.
  - `String.prototype.trim`, with its white-space set.
  - Whether `Number(text)` is NaN, which holds exactly when the trimmed text is non-empty and is no StrNumericLiteral (ECMA-262, section 7.1.4.1.1, StringToNumber).
- `Lottery`: the `Lottos` and `Prizes` tables in the class `LottoDb`.
  - Each SQL statement of the draw is a function from table to table.
  - Each draw as a whole (`Draw`, `DeriveTier4`, `DrawTier5`) is a function too.
  - The lemmas say who holds which tier afterwards.
- `PrizeApi`: the draw handlers, as methods on `LottoDb`.
  - They run the statements in source order.
  - Each method's contract gives the new tables as the draw function of the old ones.

Inputs the model treats as parameters:
- Money is in integer cents. The pro-rated checkout line prices are `real`.
- `Math.random()` is a `real` parameter in [0, 1).
- The rows `allLottos()` and `soldLottos()` return are sequences passed in. `lotto_api.ts` is not part of this model.
- Request values are parameters.
  - A JSON body field is a `Raw`: missing, `null`, a number, or a string. A string carries the value `Number` reads from it.
  - A query-string value is a `QueryText`.
  - `WellRead` and `WellReadQuery` tie the NaN-ness of that reading to the StringToNumber grammar.

The lottery is modelled as its code runs:
- `is_sold = 0` draws from the sold tickets and `is_sold = 1` from all of them (prize_api.ts:207-219, with the comments "0 = sold" and "1 = all").
- A tier 1 to 3 draw gives the tier to every row with the drawn number, not to one ticket.
- The suffix draws exclude every number that holds a tier 1 to 4, not only tickets holding a different tier. That set is read after the draw's own tier has been cleared:
  - the tier-4 draw protects only tiers 1 to 3, and can move a tier-5 ticket to tier 4;
  - the tier-5 draw protects tiers 1 to 4.

## Model

| member | source | states |
|---|---|---|
| Common.MaxZero | src/controllers/wallet_api.ts:285 | `Math.max(0, x)` is non-negative, at least `x`, and either 0 or `x` |
| Shop.BasketItems | src/controllers/wallet_api.ts:242-247 | every joined item comes from a basket row of that user whose game exists, with that game's name and price |
| Shop.BasketItemsCover | src/controllers/wallet_api.ts:242-247 | every basket row of the user whose game exists appears among the joined items |
| Shop.BasketItemsDistinct | src/controllers/game_api.ts:278-284 | since adding refuses a pair already in the basket, the joined items name each game once |
| Shop.FindCode | src/controllers/wallet_api.ts:267-271 | `codeRows[0]` is None exactly when no code has the name; otherwise it is the first code of that name |
| Shop.DecrementCode | src/controllers/wallet_api.ts:319-321 | only the codes with the given id lose one from `remaining_user`; the rest are unchanged |
| Shop.DeleteRows | src/controllers/wallet_api.ts:323 | a DELETE keeps exactly the rows that do not match; it shortens the table exactly when some row matches |
| Shop.DeleteUserRows | src/controllers/wallet_api.ts:323 | the user's basket rows are gone, every other row stays, and pair uniqueness is kept |
| Shop.DeleteUserGameRows | src/controllers/wallet_api.ts:191 | the user's rows for that game are gone, every other row stays, and pair uniqueness is kept |
| Shop.DeleteBasketRow | src/controllers/game_api.ts:336-339 | only the row with that bid and owner is gone; the table is unchanged exactly when there is no such row |
| Shop.DeleteRowsKeepsUnique | src/controllers/wallet_api.ts:323 | deleting rows never creates a duplicate (user, game) pair |
| Shop.Grants | src/controllers/wallet_api.ts:309-317 | the checkout adds one library row per basket item, in item order |
| Shop.GrantsKeepLibraryUnique | src/controllers/wallet_api.ts:255-264 | granting distinct games that the user owns none of keeps the library free of duplicates |
| WalletApi.CheckCode | src/controllers/wallet_api.ts:266-290 | checkout code check: no code without a name; Invalid exactly when no code has the name or the first code of that name (`codeRows[0]`) has no uses left; AlreadyUsed exactly when that first code has uses left and this user's transactions name it; otherwise it applies that same first code |
| WalletApi.CheckCodeOnce | src/controllers/wallet_api.ts:146-160 | single-purchase code check: never AlreadyUsed; no code without a name; Invalid exactly when no code has the name or the first code of that name has no uses left; otherwise it applies that first code (`codeRows[0]`) |
| WalletApi.SinglePurchaseSkipsReuseCheck | src/controllers/wallet_api.ts:146-160 | a code the checkout refuses as already used by the account is still redeemed by the single-game purchase |
| WalletApi.ChargeBounds | src/controllers/wallet_api.ts:153-156 | a positive discount charges between 0 and the price, and strictly less for a positive price |
| WalletApi.Lines | src/controllers/wallet_api.ts:309-315 | one game transaction per item, priced `(price / subtotal) * finalPrice`, with the code id |
| WalletApi.LinesSum | src/controllers/wallet_api.ts:309-315 | the line prices add up to `(sum of item prices / subtotal) * finalPrice` |
| WalletApi.ProRatedLinesSumToFinal | src/controllers/wallet_api.ts:309-315 | the pro-rated line prices of a checkout add up to exactly the amount debited |
| WalletApi.TopUpWallet | src/controllers/wallet_api.ts:35-65 | 400 unless the amount is a positive number; 500 and no change for a non-numeric user id; otherwise 200, the user's wallet (when the user exists) grows by the amount, and a top-up row is logged |
| WalletApi.PurchaseGame | src/controllers/wallet_api.ts:127-206 | status in check order (404 game, 500 NaN user, 409 owned, 400 code, 404 user, 402 funds); on success the debit, the wallet and game transactions, the library row, the code's counter and the basket rows of that game, keeping every invariant |
| WalletApi.RecordPurchase | src/controllers/wallet_api.ts:172-191 | the writes of a purchase, table by table |
| WalletApi.SinglePurchaseKeepsTables | src/controllers/wallet_api.ts:185-191 | adding the game to the library and deleting its basket rows keeps the basket and library invariants |
| WalletApi.SinglePurchaseKeepsConsistent | src/controllers/wallet_api.ts:172-191 | a purchase that passed the checks keeps the whole database invariant, including non-negative wallets |
| WalletApi.RedeemKeepsCodesValid | src/controllers/wallet_api.ts:187-189 | decrementing a code with uses left keeps every counter in `[0, max_user]` and the ids unique |
| WalletApi.FindOwned | src/controllers/wallet_api.ts:255-264 | the library loop finds the first basket item the user owns, and finds none exactly when no item is owned |
| WalletApi.PurchaseBasket | src/controllers/wallet_api.ts:235-340 | status in check order (500 NaN user, 404 empty, 409 owned, 400 code, 409 reused, 404 user, 402 funds, 500 zero subtotal); on success the debit, the pro-rated lines, the library rows, the code's counter and the emptied basket, keeping every invariant |
| WalletApi.RecordCheckout | src/controllers/wallet_api.ts:301-323 | the writes of a checkout, table by table |
| WalletApi.CheckoutKeepsConsistent | src/controllers/wallet_api.ts:301-323 | a checkout that passed the checks keeps the whole database invariant |
| WalletApi.CheckoutKeepsTables | src/controllers/wallet_api.ts:309-323 | granting the basket's games and emptying the user's basket keeps the basket and library invariants |
| WalletApi.JoinGames | src/controllers/wallet_api.ts:216-220 | the joined rows are exactly the game transactions whose game still exists, and there are no more of them than rows in the table |
| WalletApi.JoinGamesCounts | src/controllers/wallet_api.ts:216-220 | the join keeps each game transaction whose game exists as many times as the table holds it, and drops every other row |
| WalletApi.AdminHistory | src/controllers/wallet_api.ts:210-222 | every wallet row, debits included, is listed as a top-up; then every joined purchase with its negated price and its game's name |
| GameApi.AddToBasket | src/controllers/game_api.ts:261-296 | 400 for an id that is NaN or not positive, 409 when owned, 409 when already in the basket, otherwise 201 and one new row with a fresh bid, keeping every invariant |
| GameApi.AddKeepsConsistent | src/controllers/game_api.ts:270-291 | inserting a pair that is neither owned nor in the basket keeps the database invariant |
| GameApi.AddTwiceConflicts | src/controllers/game_api.ts:278-284 | adding the same game a second time answers 409 |
| GameApi.RemoveFromBasket | src/controllers/game_api.ts:327-350 | 400 for a bad id; 200 exactly when the user has a row with that bid, and then exactly that row is gone; otherwise 404 and no change |
| GameApi.RemoveDropsOneRow | src/controllers/game_api.ts:336-343 | the owner-scoped delete removes exactly one row when it removes any |
| GameApi.DeleteRowsDropsOne | src/controllers/game_api.ts:336-343 | a delete that exactly one row matches shortens the table by one |
| GameApi.CreateDiscountCode | src/controllers/game_api.ts:400-425 | 400 exactly when the name is missing or the value or limit is not a positive number; otherwise 201 with a new code whose remaining uses equal its limit |
| GameApi.FindCodeAfterCreate | src/controllers/game_api.ts:412-418 | a lookup by the new code's name finds it, unless an older code has that name |
| GameApi.CreatedCodeApplies | src/controllers/game_api.ts:404-418 | a code created under a fresh name applies at checkout and charges `max(0, price - value)` |
| GameApi.ForeignTextRefused | src/controllers/game_api.ts:404-406 | a discount sent as text holding a character no number contains is refused |
| GameApi.DeleteCode | src/controllers/game_api.ts:437 | exactly the codes with that id are gone; the table shrinks exactly when one exists |
| GameApi.DeleteCodeKeepsValid | src/controllers/game_api.ts:437 | deleting a code keeps the remaining counters valid and the ids unique |
| GameApi.DeleteCodeKeepsIdsUnique | src/controllers/game_api.ts:437 | deleting a code keeps code ids unique |
| GameApi.DeleteDiscountCode | src/controllers/game_api.ts:431-448 | 400 for a bad id; 200 exactly when a code has the id, and then it is deleted; otherwise 404 and no change |
| GameApi.ApplyDiscount | src/controllers/game_api.ts:478-530 | 400 for a bad user id or no code name, 404 for an empty basket; for a non-empty basket, 400 exactly when the checkout's check finds the code missing or used up, 409 exactly when it finds it used by the account, and 200 exactly when it would redeem it; on 200 the quoted subtotal is the basket's, the discount is that of the first code of the name, and the final price is `max(0, subtotal - value)` |
| GameApi.QuoteBounds | src/controllers/game_api.ts:514-516 | with valid codes the quoted final price is between 0 and a non-negative subtotal |
| GameApi.QuoteMatchesCheckout | src/controllers/game_api.ts:478-530 | a quoted code passes the checkout's code check, and the checkout charges the quoted final price |
| GameApi.CheckoutCodeIsQuoted | src/controllers/game_api.ts:478-530 | conversely, a code the checkout would redeem for a non-empty basket is quoted, with the checkout's discount and final price |
| GameApi.ApplyDiscountAsWritten | src/controllers/game_api.ts:505-512 | as written the preview never succeeds: it answers 500 exactly where the intended handler answers 200 or 409 |
| GameApi.ApplyDiscountColumnCounterexample | src/controllers/game_api.ts:505-512 | a concrete request the intended handler quotes at 900 while the handler as written answers 500 |
| GameApi.TypeFilterIffNumeric | src/controllers/game_api.ts:173 | the type condition is added exactly when the trimmed `type_id` is a StrNumericLiteral |
| GameApi.DigitTypeIdFilters | src/controllers/game_api.ts:155-176 | a type id of decimal digits with white space around them adds the type condition |
| GameApi.SearchConditions | src/controllers/game_api.ts:162-176 | a name condition exactly for a non-empty term, a type condition exactly when the filter passes, in that order, each with its parameter at the same position |
| GameApi.BuildSearch | src/controllers/game_api.ts:152-184 | a name condition exactly for a non-empty trimmed term and a type condition exactly when the trimmed type id passes the filter, in that order; at each position the parameter is `%term%` for the name condition and `Number(type_id)` for the type condition; the query is the base SELECT, then ` WHERE ` and the conditions joined by ` AND ` when there are any, then the ordering, so it has a WHERE clause exactly when a condition was pushed |
| GameApi.WhereIffConditions | src/controllers/game_api.ts:178-181 | the query has a WHERE clause exactly when some condition was pushed |
| GameApi.UnfilteredSearchSucceeds | src/controllers/game_api.ts:189-194 | with no term and no type id the search answers 200 even for no rows |
| GameApi.NonNumericTypeIdMisses | src/controllers/game_api.ts:173-192 | a non-numeric type id adds no condition but still turns an empty result into 404 |
| GameApi.FoundRowsSucceed | src/controllers/game_api.ts:190-194 | a search that finds rows answers 200 |
| GameApi.CreateGame | src/controllers/game_api.ts:12-39 | 400 for a missing or falsy name, price or type, a NaN price or type, or a negative price; otherwise 201 and a new game under a fresh id, with description and image stored as given or null |
| GameApi.ZeroPriceOnlyAsText | src/controllers/game_api.ts:17-24 | a price of 0 sent as a JSON number is refused, the same price sent as the text "0" is accepted |
| GameApi.BadPriceRefused | src/controllers/game_api.ts:20-24 | a NaN or negative price is refused with 400 |
| GameApi.UpdateGame | src/controllers/game_api.ts:45-72 | 400 for a bad id; 500 and no change for a non-numeric type id; 200 exactly when the game exists, and then it is replaced; otherwise 404 |
| GameApi.DeleteGame | src/controllers/game_api.ts:78-95 | 400 for a bad id; 200 exactly when the game exists, and then it is removed; otherwise 404 |
| JsText.TrimStart | src/controllers/game_api.ts:154-155 | drops exactly the leading white space: what is left is a suffix that starts with no space |
| JsText.TrimEnd | src/controllers/game_api.ts:154-155 | drops exactly the trailing white space: what is left is a prefix that ends with no space |
| JsText.Trim | src/controllers/game_api.ts:154-155 | the trimmed text starts and ends with no white space |
| JsText.TrimIsSlice | src/controllers/game_api.ts:154-155 | the trimmed text is a slice of the input with only white space around it |
| JsText.TrimEmptyIffAllSpace | src/controllers/game_api.ts:154 | a term trims to "" exactly when it is all white space |
| JsText.TrimIdempotent | src/controllers/game_api.ts:154-155 | trimming twice is trimming once |
| JsText.TrimmedNumberIffLiteral | src/controllers/game_api.ts:173 | on trimmed non-empty text, `!isNaN(Number(t))` is exactly the StrNumericLiteral grammar |
| JsText.DigitsAreNumbers | src/controllers/game_api.ts:173 | decimal digits with white space around them do not read as NaN |
| JsText.ForeignCharacterIsNaN | src/controllers/game_api.ts:404 | text holding a character no numeric literal contains reads as NaN |
| Lottery.SetPrize | src/controllers/prize_api.ts:173-176 | the tier's row gets the number, the other rows stay, and a missing tier adds no row |
| Lottery.ResetTier | src/controllers/prize_api.ts:177 | exactly the rows holding the tier drop to 0 |
| Lottery.AssignNumber | src/controllers/prize_api.ts:178-181 | exactly the rows with the number take the tier, whatever they held before |
| Lottery.MarkEligible | src/controllers/prize_api.ts:65-68 | exactly the eligible rows take the tier (suffix match, sold when required, number held by no tier 1 to 4) |
| Lottery.SqlSubstring | src/controllers/prize_api.ts:108-110 | `SUBSTRING(s, 4, 3)` is at most 3 characters, and is characters 4 to 6 when the text is long enough |
| Lottery.PickIndex | src/controllers/prize_api.ts:170 | `Math.floor(Math.random() * len)` is an index in `[0, len)` |
| Lottery.Pad2RoundTrip | src/controllers/prize_api.ts:53-56 | the padded suffix is two digits that read back as the drawn value in 0..99 |
| Lottery.DrawHoldersExact | src/controllers/prize_api.ts:170-181 | after a tier 2 or 3 draw `Prizes` holds the number, exactly the rows with it hold the tier, and every other row is unchanged unless it held the tier |
| Lottery.Tier1HoldersExact | src/controllers/prize_api.ts:169-193 | after a tier-1 draw, followed by the tier-4 derivation, exactly the rows with the drawn number hold tier 1 |
| Lottery.Tier4FollowsTier1 | src/controllers/prize_api.ts:190-193 | drawing tier 1 sets `Prizes[4]` to characters 4 to 6 of the new `Prizes[1]`, and every tier-4 holder's number ends with them |
| Lottery.ResetTier5KeepsHeld | src/controllers/prize_api.ts:64-66 | clearing tier 5 leaves the set of numbers that hold tiers 1 to 4 unchanged |
| Lottery.Tier5Exact | src/controllers/prize_api.ts:59-68 | a tier-5 draw records the suffix, leaves the holders of tiers 1 to 4 as they were, and gives tier 5 exactly to the eligible rows of the table it started from |
| Lottery.Tier4KeepsTopTiers | src/controllers/prize_api.ts:120-124 | the tier-4 derivation leaves the holders of tiers 1 to 3 as they were |
| Lottery.CountAfterMark | src/controllers/prize_api.ts:121-127 | after clearing a tier and assigning it by suffix, the tier count is the number of eligible rows |
| Lottery.Tier4Count | src/controllers/prize_api.ts:120-133 | the count `rand4t` reports is the number of rows eligible for the tier-4 suffix |
| Lottery.Tier5Count | src/controllers/prize_api.ts:64-75 | `numGotPrizes` is the number of rows eligible for the tier-5 suffix |
| PrizeApi.Rand4t | src/controllers/prize_api.ts:105-164 | nothing for an `is_sold` other than 0 or 1; "HAVE NOT LOTTO NUMBER" and no change without a tier-1 row; otherwise the tier-4 derivation and its count |
| PrizeApi.Rand5t | src/controllers/prize_api.ts:52-103 | for tier 5 with `is_sold` 0 or 1: the tier-5 draw for the padded suffix, the tier-5 holders being exactly the eligible rows, tiers 1 to 4 untouched, and the count; otherwise "HAVE NOT LOTTO NUMBER" and no change |
| PrizeApi.UpdateData | src/controllers/prize_api.ts:169-198 | the draw for the pool's ticket at the random index, a message with its number and owner, and the tier-4 message exactly when tier 1 was drawn: "no tier-1 number" when the `Prizes` table has no tier-1 row, otherwise characters 4 to 6 of the drawn number and the count of tier-4 holders |
| PrizeApi.Rand1To3 | src/controllers/prize_api.ts:201-227 | the sold pool for `is_sold` 0 and all tickets for 1; an empty pool, or a tier outside 1 to 3, changes nothing |
| PrizeApi.RandPrize | src/controllers/prize_api.ts:230-245 | 404 and no change exactly when the prize is outside 1 to 5 or `is_sold` outside 0 to 1; prize 5 runs the tier-5 draw, prize 4 changes nothing, prizes 1 to 3 run the draw on the chosen pool |

## Left out

- Transactions, `FOR UPDATE` locks and the shared connection pool: each handler is one atomic step, and a rollback leaves the tables unchanged.
- Foreign keys and other constraints of the schema are not part of this model. A statement is modelled on its own: a top-up for an unknown user logs a row and changes no wallet.
- `DECIMAL` columns returned as strings, and the rounding of stored prices: money is integer cents and the pro-rated prices are exact reals.
  - The pool in pool.ts:7-13 does not set `decimalNumbers`. So `mysql2` would hand `price` and `wallet` to the handlers as strings, and several results change. This is read from the source, not executed.
  - The checkout's `reduce` (wallet_api.ts:250) would concatenate: `0 + "60.00" + "40.00"` is `"060.0040.00"`. A basket of two or more games would then get NaN line prices (wallet_api.ts:310) and answer 500, where the model proves a successful checkout.
  - The codeless single purchase (wallet_api.ts:170) would compare two strings: `"100.00" < "60.00"` is true. It would answer 402 to a user who can pay, where the model answers 200.
- Fractional request values: `Num` holds whole numbers, so `prize = 2.5` or an amount of 10.5 is not modelled.
- What `Number(text)` reads from a numeric string is a parameter (`Raw.Text`, `QueryText`). Only whether it is NaN is tied to the StringToNumber grammar, and `Infinity` is treated as any other number.
- JSON booleans, arrays and objects as request values are not modelled. `Raw` is missing, `null`, a number or a string.
- Timestamps (`NOW()`, the dates of the history endpoints) and the date sort of the admin history: `AdminHistory` keeps the order of the two lists it concatenates.
- The plain read endpoints (catalog lists, library, basket view, user histories, `getPrizes`, `getLottosOfPrizesByPrizeTier`, the `test` handler) and `user_api.ts`, `utilityFunctions.ts`, `lotto_api.ts` and `pool.ts` are not part of this model.
- SQL `LIKE` collation and case folding, and `%` or `_` inside a search term or a suffix: a suffix match is modelled as `EndsWith`.
- The rows the search returns are a count parameter of `SearchStatus`. The `gametype` join is not modelled.
- GameApi.BuildSearch: the number of `?` placeholders in the query is not proved equal to the number of parameters. The conditions and the parameters are proved aligned position by position.
- GameApi.CreateDiscountCode: the 400 answered when the INSERT affects no row (game_api.ts:420) is unreachable for a successful INSERT and is not modelled.
- GameApi.CreateDiscountCode: the INSERT stores the raw `max_user` of the request (game_api.ts:414) next to `remaining_user = Number(max_user)`. The model stores the reading in both columns, so a text that passes the check but that MySQL converts differently (`"0x10"`, say) is not modelled.
- WalletApi.TopUpWallet: the UPDATE and the INSERT use the raw `amount` (wallet_api.ts:48,54), while the check reads `Number(amount)`. The model adds the reading, so a text MySQL converts differently is not modelled.
- GameApi.UpdateGame: name and price are stored as given, without validation, just as the handler does. A missing or non-numeric price, which the database would reject, is not modelled.
- A NaN id reaching SQL: the model answers 500 with no change, which is how the database's rejection of a bare `NaN` surfaces through the handler's `catch`.
- WalletApi.PurchaseBasket: a basket whose prices add up to 0 answers 500, because its pro-rated line prices are `0/0`.
- PrizeApi.UpdateData: the message text "Update success at prize N", and how `rand4t`'s `msg` overrides it in the merged body, are not modelled. The body's data fields, including `rand4t`'s suffix and count, are.
- PrizeApi.Rand1To3: the `allLottos()` and `soldLottos()` queries are parameters, and a `Prizes` row whose number is NULL is not modelled.
- Lottery.LottoDb: the ticket's price, its claimed flag and other columns the draw does not touch are not modelled.

## Findings

| source | as written | input that shows it | evidently intended | confidence | as-written member | corrected member |
|---|---|---|---|---|---|---|
| src/controllers/game_api.ts:507 | the preview's reuse check selects `transaction_id` from `gametransaction`, whose key column is `gametrans_id` (gametransactionModel.ts:3, and the same check at wallet_api.ts:275), so the query fails and the handler answers 500 | a user with one game of 1000 in the basket asks for a preview with an unused code "SALE" worth 100 | 200 with a final price of 900, the same check as the checkout | medium (schema not shown), not executed | GameApi.ApplyDiscountAsWritten, GameApi.ApplyDiscountColumnCounterexample | GameApi.ApplyDiscount, GameApi.QuoteMatchesCheckout, GameApi.CheckoutCodeIsQuoted |
