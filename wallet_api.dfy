/** The wallet handlers: top-up, single-game purchase, basket checkout and
    the admin's combined transaction history. Each handler is one atomic
    step: a rejected request (a ROLLBACK in the source) leaves every table as
    it was. */
module WalletApi {
  import opened Common
  import opened Shop

  // ---------------------------------------------------------------------
  // Discount codes at checkout

  /** What the discount-code branch of a purchase decides. */
  datatype CodeOutcome =
    | NoCode                    // `code_name` absent or ""
    | Invalid                   // no such code, or `remaining_user <= 0`: 400
    | AlreadyUsed               // this account already bought with it: 409
    | Apply(code: DiscountCode) // the code is redeemed

  /** The code check of the basket checkout and of the discount preview:
      the code must exist with `remaining_user > 0`, and no earlier game
      transaction of this account may reference it. */
  function CheckCode(codes: seq<DiscountCode>, gameTxs: seq<GameTransaction>, uid: int, codeName: Option<string>): (r: CodeOutcome)
    ensures r.NoCode? <==> !TruthyText(codeName)
    ensures r.Invalid? <==> (TruthyText(codeName) &&
      (FindCode(codes, codeName.value).None? || FindCode(codes, codeName.value).value.remainingUser <= 0))
    ensures r.AlreadyUsed? <==> (TruthyText(codeName) && FindCode(codes, codeName.value).Some?
      && FindCode(codes, codeName.value).value.remainingUser > 0
      && CodeUsedBy(gameTxs, uid, FindCode(codes, codeName.value).value.codeId))
    ensures r.Apply? ==> && TruthyText(codeName) && r.code in codes && r.code.codeName == codeName.value
                         && FindCode(codes, codeName.value) == Some(r.code)
                         && r.code.remainingUser > 0 && !CodeUsedBy(gameTxs, uid, r.code.codeId)
  {
    if !TruthyText(codeName) then NoCode
    else
      var found := FindCode(codes, codeName.value);
      if found.None? || found.value.remainingUser <= 0 then Invalid
      else if CodeUsedBy(gameTxs, uid, found.value.codeId) then AlreadyUsed
      else Apply(found.value)
  }

  /** The code check of the single-game purchase: only existence and
      `remaining_user > 0`; there is no per-account reuse check. */
  function CheckCodeOnce(codes: seq<DiscountCode>, codeName: Option<string>): (r: CodeOutcome)
    ensures !r.AlreadyUsed?
    ensures r.NoCode? <==> !TruthyText(codeName)
    ensures r.Invalid? <==> (TruthyText(codeName) &&
      (FindCode(codes, codeName.value).None? || FindCode(codes, codeName.value).value.remainingUser <= 0))
    ensures r.Apply? ==> && r.code in codes && r.code.codeName == codeName.value
                         && FindCode(codes, codeName.value) == Some(r.code) && r.code.remainingUser > 0
  {
    if !TruthyText(codeName) then NoCode
    else
      var found := FindCode(codes, codeName.value);
      if found.None? || found.value.remainingUser <= 0 then Invalid
      else Apply(found.value)
  }

  /** The single-game purchase redeems a code that the checkout refuses as
      already used by the same account. */
  lemma SinglePurchaseSkipsReuseCheck(codes: seq<DiscountCode>, gameTxs: seq<GameTransaction>, uid: int, codeName: Option<string>)
    requires CheckCode(codes, gameTxs, uid, codeName).AlreadyUsed?
    ensures CheckCodeOnce(codes, codeName).Apply?
    ensures CodeUsedBy(gameTxs, uid, CheckCodeOnce(codes, codeName).code.codeId)
  {
  }

  /** The amount charged: the full price, or `Math.max(0, price - discount_value)`
      when a code applies. */
  function Charge(price: int, code: CodeOutcome): int {
    if code.Apply? then MaxZero(price - code.code.discountValue) else price
  }

  function DiscountOf(code: CodeOutcome): int {
    if code.Apply? then code.code.discountValue else 0
  }

  function CodeIdOf(code: CodeOutcome): Option<int> {
    if code.Apply? then Some(code.code.codeId) else None
  }

  /** A redeemed code with a positive discount never raises the price and
      never makes it negative. */
  lemma ChargeBounds(price: int, code: CodeOutcome)
    requires code.Apply? && code.code.discountValue > 0 && price >= 0
    ensures 0 <= Charge(price, code) <= price
    ensures price > 0 ==> Charge(price, code) < price
  {
  }

  // ---------------------------------------------------------------------
  // Pro-rated purchase lines

  /** `(item.price / subtotal) * finalPrice`, the share of the final price
      recorded for one basket item. */
  function ProRated(price: int, subtotal: int, finalPrice: int): real
    requires subtotal != 0
  {
    (price as real / subtotal as real) * finalPrice as real
  }

  /** The `gametransaction` rows the checkout writes, one per basket item. */
  function Lines(items: seq<BasketItem>, uid: int, codeId: Option<int>, subtotal: int, finalPrice: int): (r: seq<GameTransaction>)
    requires subtotal != 0
    ensures |r| == |items|
    ensures forall k :: 0 <= k < |items| ==>
      r[k] == GameTransaction(uid, items[k].gameId, codeId, ProRated(items[k].price, subtotal, finalPrice))
  {
    seq(|items|, k requires 0 <= k < |items| =>
      GameTransaction(uid, items[k].gameId, codeId, ProRated(items[k].price, subtotal, finalPrice)))
  }

  function SumPrices(txs: seq<GameTransaction>): real {
    if txs == [] then 0.0 else txs[0].price + SumPrices(txs[1..])
  }

  lemma {:induction false} LinesSum(items: seq<BasketItem>, uid: int, codeId: Option<int>, subtotal: int, finalPrice: int)
    requires subtotal != 0
    ensures SumPrices(Lines(items, uid, codeId, subtotal, finalPrice))
         == (Subtotal(items) as real / subtotal as real) * finalPrice as real
  {
    var lines := Lines(items, uid, codeId, subtotal, finalPrice);
    if items != [] {
      LinesSum(items[1..], uid, codeId, subtotal, finalPrice);
      assert lines[1..] == Lines(items[1..], uid, codeId, subtotal, finalPrice);
      var p, rest, s, f := items[0].price as real, Subtotal(items[1..]) as real, subtotal as real, finalPrice as real;
      assert Subtotal(items) as real == p + rest;
      assert (p / s) * f + (rest / s) * f == ((p + rest) / s) * f;
    }
  }

  /** The pro-rated lines of a checkout add up to the amount debited. */
  lemma ProRatedLinesSumToFinal(items: seq<BasketItem>, uid: int, codeId: Option<int>, finalPrice: int)
    requires Subtotal(items) != 0
    ensures SumPrices(Lines(items, uid, codeId, Subtotal(items), finalPrice)) == finalPrice as real
  {
    LinesSum(items, uid, codeId, Subtotal(items), finalPrice);
  }

  // ---------------------------------------------------------------------
  // Top-up

  datatype Purchase = Purchase(finalPrice: int, discountApplied: int)
  datatype Receipt = Receipt(subtotal: int, discountApplied: int, finalPrice: int, itemsPurchased: nat)

  /** POST /users/:user_id/topup. A user id that is not a number reaches the
      UPDATE as a bare NaN, which the database rejects: 500, rolled back. */
  method TopUpWallet(db: ShopDb, userId: Num, amount: Num) returns (r: Reply<int>)
    requires db.Valid()
    modifies db`users, db`walletTxs
    ensures db.Valid()
    ensures !Positive(amount) ==> r == Failure(400) && unchanged(db)
    ensures Positive(amount) && userId.NaN? ==> r == Failure(500) && unchanged(db)
    ensures Positive(amount) && userId.Finite? ==>
      var uid := userId.v;
      && r == Success(200, uid)
      && db.walletTxs == old(db.walletTxs) + [WalletTransaction(uid, amount.v, TopUpStatus)]
      && db.users == if uid in old(db.users)
                     then old(db.users)[uid := old(db.users)[uid].(wallet := old(db.users)[uid].wallet + amount.v)]
                     else old(db.users)
  {
    if !Positive(amount) {
      return Failure(400);
    }
    if userId.NaN? {
      return Failure(500);
    }
    var uid := userId.v;
    if uid in db.users {
      var u := db.users[uid];
      db.users := db.users[uid := u.(wallet := u.wallet + amount.v)];
    }
    db.walletTxs := db.walletTxs + [WalletTransaction(uid, amount.v, TopUpStatus)];
    r := Success(200, uid);
  }

  // ---------------------------------------------------------------------
  // Single-game purchase

  /** The status of `purchaseGame_api`, its checks in source order; a user
      id that is not a number fails the first query that uses it. */
  function PurchaseStatus(games: map<int, Game>, library: seq<LibraryEntry>, codes: seq<DiscountCode>,
                          users: map<int, User>, userId: Num, gameId: int, codeName: Option<string>): int
  {
    if gameId !in games then 404
    else if userId.NaN? then 500
    else if Owns(library, userId.v, gameId) then 409
    else
      var code := CheckCodeOnce(codes, codeName);
      if code.Invalid? then 400
      else if userId.v !in users then 404
      else if users[userId.v].wallet < Charge(games[gameId].price, code) then 402
      else 200
  }

  /** POST /users/:user_id/purchase */
  method PurchaseGame(db: ShopDb, userId: Num, gameId: int, codeName: Option<string>) returns (r: Reply<Purchase>)
    requires db.Valid()
    modifies db`users, db`walletTxs, db`gameTxs, db`library, db`codes, db`basket
    ensures db.Valid()
    ensures r.status == PurchaseStatus(old(db.games), old(db.library), old(db.codes), old(db.users), userId, gameId, codeName)
    ensures r.Failure? ==> unchanged(db)
    ensures r.Success? ==> gameId in old(db.games) && userId.Finite? && userId.v in old(db.users)
    ensures r.Success? ==>
      var uid := userId.v;
      var code := CheckCodeOnce(old(db.codes), codeName);
      var final := Charge(old(db.games)[gameId].price, code);
      && r.body == Purchase(final, DiscountOf(code))
      && db.users == old(db.users)[uid := old(db.users)[uid].(wallet := old(db.users)[uid].wallet - final)]
      && db.walletTxs == old(db.walletTxs) + [WalletTransaction(uid, final, DebitStatus)]
      && db.gameTxs == old(db.gameTxs) + [GameTransaction(uid, gameId, CodeIdOf(code), final as real)]
      && db.library == old(db.library) + [LibraryEntry(uid, gameId)]
      && db.codes == (if code.Apply? then DecrementCode(old(db.codes), code.code.codeId) else old(db.codes))
      && db.basket == DeleteUserGameRows(old(db.basket), uid, gameId)
  {
    if gameId !in db.games {
      return Failure(404);
    }
    var price := db.games[gameId].price;
    var finalPrice := price;
    if userId.NaN? {
      return Failure(500);
    }
    var uid := userId.v;
    if Owns(db.library, uid, gameId) {
      return Failure(409);
    }
    var code := CheckCodeOnce(db.codes, codeName);
    if code.Invalid? {
      return Failure(400);
    }
    finalPrice := Charge(price, code);
    if uid !in db.users {
      return Failure(404);
    }
    var user := db.users[uid];
    if user.wallet < finalPrice {
      return Failure(402);
    }
    SinglePurchaseKeepsConsistent(db.users, db.games, db.basket, db.library, db.codes, db.nextBid, db.nextCodeId, db.nextGameId,
                                  uid, gameId, code, finalPrice);
    RecordPurchase(db, uid, gameId, code, finalPrice);
    r := Success(200, Purchase(finalPrice, DiscountOf(code)));
  }

  /** Buying one game and deleting its basket rows keeps the basket and
      library invariants. */
  lemma SinglePurchaseKeepsTables(basket: seq<BasketRow>, library: seq<LibraryEntry>, uid: int, gameId: int, nextBid: int)
    requires BidsBelow(basket, nextBid) && BasketUnique(basket) && BasketNotOwned(basket, library) && LibraryUnique(library)
    requires !Owns(library, uid, gameId)
    ensures BasketUnique(DeleteUserGameRows(basket, uid, gameId))
    ensures BasketNotOwned(DeleteUserGameRows(basket, uid, gameId), library + [LibraryEntry(uid, gameId)])
    ensures LibraryUnique(library + [LibraryEntry(uid, gameId)])
    ensures BidsBelow(DeleteUserGameRows(basket, uid, gameId), nextBid)
  {
    var l := library + [LibraryEntry(uid, gameId)];
    forall i, j | 0 <= i < j < |l| ensures l[i] != l[j] {
      if j == |library| { assert l[i] in library; }
    }
  }

  /** The writes of a single-game purchase that passed every check: the
      debit, the game transaction at the charged price, the library row, the
      code's counter, and the game's basket rows. */
  method RecordPurchase(db: ShopDb, userId: int, gameId: int, code: CodeOutcome, finalPrice: int)
    requires userId in db.users
    modifies db`users, db`walletTxs, db`gameTxs, db`library, db`codes, db`basket
    ensures db.users == old(db.users)[userId := old(db.users)[userId].(wallet := old(db.users)[userId].wallet - finalPrice)]
    ensures db.walletTxs == old(db.walletTxs) + [WalletTransaction(userId, finalPrice, DebitStatus)]
    ensures db.gameTxs == old(db.gameTxs) + [GameTransaction(userId, gameId, CodeIdOf(code), finalPrice as real)]
    ensures db.library == old(db.library) + [LibraryEntry(userId, gameId)]
    ensures db.codes == (if code.Apply? then DecrementCode(old(db.codes), code.code.codeId) else old(db.codes))
    ensures db.basket == DeleteUserGameRows(old(db.basket), userId, gameId)
  {
    var user := db.users[userId];
    db.users := db.users[userId := user.(wallet := user.wallet - finalPrice)];
    db.walletTxs := db.walletTxs + [WalletTransaction(userId, finalPrice, DebitStatus)];
    db.gameTxs := db.gameTxs + [GameTransaction(userId, gameId, CodeIdOf(code), finalPrice as real)];
    db.library := db.library + [LibraryEntry(userId, gameId)];
    if code.Apply? {
      db.codes := DecrementCode(db.codes, code.code.codeId);
    }
    db.basket := DeleteUserGameRows(db.basket, userId, gameId);
  }

  /** The tables after a single-game purchase's writes still satisfy the invariants. */
  lemma SinglePurchaseKeepsConsistent(users: map<int, User>, games: map<int, Game>, basket: seq<BasketRow>,
                                      library: seq<LibraryEntry>, codes: seq<DiscountCode>,
                                      nextBid: int, nextCodeId: int, nextGameId: int,
                                      uid: int, gameId: int, code: CodeOutcome, finalPrice: int)
    requires Consistent(users, games, basket, library, codes, nextBid, nextCodeId, nextGameId)
    requires !Owns(library, uid, gameId)
    requires code.Apply? ==> code.code in codes && code.code.remainingUser > 0
    requires uid in users && finalPrice <= users[uid].wallet
    ensures Consistent(users[uid := users[uid].(wallet := users[uid].wallet - finalPrice)], games,
                       DeleteUserGameRows(basket, uid, gameId), library + [LibraryEntry(uid, gameId)],
                       if code.Apply? then DecrementCode(codes, code.code.codeId) else codes,
                       nextBid, nextCodeId, nextGameId)
  {
    SinglePurchaseKeepsTables(basket, library, uid, gameId, nextBid);
    if code.Apply? {
      RedeemKeepsCodesValid(codes, code.code, nextCodeId);
    }
    var u := users[uid := users[uid].(wallet := users[uid].wallet - finalPrice)];
    assert WalletsNonNegative(u);
  }

  /** Redeeming a code with `remaining_user > 0` keeps every counter in
      `[0, max_user]`. */
  lemma RedeemKeepsCodesValid(codes: seq<DiscountCode>, code: DiscountCode, next: int)
    requires CodesValid(codes, next) && code in codes && code.remainingUser > 0
    ensures CodesValid(DecrementCode(codes, code.codeId), next)
  {
    var r := DecrementCode(codes, code.codeId);
    forall c | c in r ensures CodeValid(c, next) {
      var i :| 0 <= i < |r| && r[i] == c;
      if codes[i].codeId == code.codeId {
        var m :| 0 <= m < |codes| && codes[m] == code;
        assert m == i;
      }
    }
  }

  // ---------------------------------------------------------------------
  // Basket checkout

  /** Some joined basket item is a game the user already owns. */
  predicate AnyOwned(library: seq<LibraryEntry>, items: seq<BasketItem>, uid: int) {
    exists k :: 0 <= k < |items| && Owns(library, uid, items[k].gameId)
  }

  /** The library lookup run for each basket item in turn: the first item the
      user already owns, if any. */
  method FindOwned(library: seq<LibraryEntry>, items: seq<BasketItem>, uid: int) returns (r: Option<nat>)
    ensures r.None? <==> !AnyOwned(library, items, uid)
    ensures r.Some? ==> r.value < |items| && Owns(library, uid, items[r.value].gameId)
    ensures r.Some? ==> forall k :: 0 <= k < r.value ==> !Owns(library, uid, items[k].gameId)
  {
    for i := 0 to |items|
      invariant forall k :: 0 <= k < i ==> !Owns(library, uid, items[k].gameId)
    {
      if Owns(library, uid, items[i].gameId) {
        return Some(i);
      }
    }
    return None;
  }

  /** The status of `purchaseGame_api2`, its checks in source order. A user
      id that is not a number fails the first query. A basket whose prices add
      up to 0 fails with 500: its pro-rated line prices are 0/0 = NaN, which
      the INSERT rejects, and the transaction is rolled back. */
  function CheckoutStatus(basket: seq<BasketRow>, games: map<int, Game>, library: seq<LibraryEntry>,
                          codes: seq<DiscountCode>, gameTxs: seq<GameTransaction>, users: map<int, User>,
                          userId: Num, codeName: Option<string>): int
  {
    if userId.NaN? then 500
    else
      var uid := userId.v;
      var items := BasketItems(basket, games, uid);
      var code := CheckCode(codes, gameTxs, uid, codeName);
      if |items| == 0 then 404
      else if AnyOwned(library, items, uid) then 409
      else if code.Invalid? then 400
      else if code.AlreadyUsed? then 409
      else if uid !in users then 404
      else if users[uid].wallet < Charge(Subtotal(items), code) then 402
      else if Subtotal(items) == 0 then 500
      else 200
  }

  /** POST /users/:user_id/purchase-basket */
  method PurchaseBasket(db: ShopDb, userId: Num, codeName: Option<string>) returns (r: Reply<Receipt>)
    requires db.Valid()
    modifies db`users, db`walletTxs, db`gameTxs, db`library, db`codes, db`basket
    ensures db.Valid()
    ensures r.status == CheckoutStatus(old(db.basket), old(db.games), old(db.library), old(db.codes),
                                       old(db.gameTxs), old(db.users), userId, codeName)
    ensures r.Failure? ==> unchanged(db)
    ensures r.Success? ==> userId.Finite? && userId.v in old(db.users)
    ensures r.Success? ==>
      var uid := userId.v;
      var items := BasketItems(old(db.basket), old(db.games), uid);
      var subtotal := Subtotal(items);
      var code := CheckCode(old(db.codes), old(db.gameTxs), uid, codeName);
      var final := Charge(subtotal, code);
      && subtotal != 0
      && r.body == Receipt(subtotal, DiscountOf(code), final, |items|)
      && db.users == old(db.users)[uid := old(db.users)[uid].(wallet := old(db.users)[uid].wallet - final)]
      && db.walletTxs == old(db.walletTxs) + [WalletTransaction(uid, final, DebitStatus)]
      && db.gameTxs == old(db.gameTxs) + Lines(items, uid, CodeIdOf(code), subtotal, final)
      && db.library == old(db.library) + Grants(items, uid)
      && db.codes == (if code.Apply? then DecrementCode(old(db.codes), code.code.codeId) else old(db.codes))
      && db.basket == DeleteUserRows(old(db.basket), uid)
  {
    if userId.NaN? {
      return Failure(500);
    }
    var uid := userId.v;
    var items := BasketItems(db.basket, db.games, uid);
    if |items| == 0 {
      return Failure(404);
    }
    var subtotal := Subtotal(items);
    var finalPrice := subtotal;
    var owned := FindOwned(db.library, items, uid);
    if owned.Some? {
      return Failure(409);
    }
    var code := CheckCode(db.codes, db.gameTxs, uid, codeName);
    if code.Invalid? {
      return Failure(400);
    } else if code.AlreadyUsed? {
      return Failure(409);
    }
    finalPrice := Charge(subtotal, code);
    if uid !in db.users {
      return Failure(404);
    }
    var user := db.users[uid];
    if user.wallet < finalPrice {
      return Failure(402);
    }
    if subtotal == 0 {
      return Failure(500);
    }
    CheckoutKeepsConsistent(db.users, db.games, db.basket, db.library, db.codes, db.nextBid, db.nextCodeId, db.nextGameId,
                            uid, code, finalPrice);
    RecordCheckout(db, uid, items, code, finalPrice);
    r := Success(200, Receipt(subtotal, DiscountOf(code), finalPrice, |items|));
  }

  /** The writes of a checkout that passed every check: the debit, one
      pro-rated game transaction and one library row per item, the code's
      counter, and the emptied basket. */
  method RecordCheckout(db: ShopDb, userId: int, items: seq<BasketItem>, code: CodeOutcome, finalPrice: int)
    requires Subtotal(items) != 0
    requires userId in db.users
    modifies db`users, db`walletTxs, db`gameTxs, db`library, db`codes, db`basket
    ensures db.users == old(db.users)[userId := old(db.users)[userId].(wallet := old(db.users)[userId].wallet - finalPrice)]
    ensures db.walletTxs == old(db.walletTxs) + [WalletTransaction(userId, finalPrice, DebitStatus)]
    ensures db.gameTxs == old(db.gameTxs) + Lines(items, userId, CodeIdOf(code), Subtotal(items), finalPrice)
    ensures db.library == old(db.library) + Grants(items, userId)
    ensures db.codes == (if code.Apply? then DecrementCode(old(db.codes), code.code.codeId) else old(db.codes))
    ensures db.basket == DeleteUserRows(old(db.basket), userId)
  {
    var subtotal := Subtotal(items);
    ghost var U0, T0, L0, B0, C0 := db.users, db.gameTxs, db.library, db.basket, db.codes;
    var user := db.users[userId];
    db.users := db.users[userId := user.(wallet := user.wallet - finalPrice)];
    db.walletTxs := db.walletTxs + [WalletTransaction(userId, finalPrice, DebitStatus)];
    ghost var U1, W1 := db.users, db.walletTxs;
    var discountId := CodeIdOf(code);
    ghost var lines, grants := Lines(items, userId, discountId, subtotal, finalPrice), Grants(items, userId);
    for j := 0 to |items|
      invariant db.users == U1 && db.walletTxs == W1 && db.basket == B0 && db.codes == C0
      invariant db.gameTxs == T0 + lines[..j]
      invariant db.library == L0 + grants[..j]
    {
      var linePrice := ProRated(items[j].price, subtotal, finalPrice);
      db.gameTxs := db.gameTxs + [GameTransaction(userId, items[j].gameId, discountId, linePrice)];
      db.library := db.library + [LibraryEntry(userId, items[j].gameId)];
      assert lines[..j + 1] == lines[..j] + [lines[j]];
      assert grants[..j + 1] == grants[..j] + [grants[j]];
    }
    assert lines[..|items|] == lines && grants[..|items|] == grants;

    if code.Apply? {
      db.codes := DecrementCode(db.codes, code.code.codeId);
    }
    db.basket := DeleteUserRows(db.basket, userId);
  }

  /** The tables after a checkout's writes still satisfy the invariants. */
  lemma CheckoutKeepsConsistent(users: map<int, User>, games: map<int, Game>, basket: seq<BasketRow>,
                                library: seq<LibraryEntry>, codes: seq<DiscountCode>,
                                nextBid: int, nextCodeId: int, nextGameId: int,
                                uid: int, code: CodeOutcome, finalPrice: int)
    requires Consistent(users, games, basket, library, codes, nextBid, nextCodeId, nextGameId)
    requires !AnyOwned(library, BasketItems(basket, games, uid), uid)
    requires code.Apply? ==> code.code in codes && code.code.remainingUser > 0
    requires uid in users && finalPrice <= users[uid].wallet
    ensures Consistent(users[uid := users[uid].(wallet := users[uid].wallet - finalPrice)], games,
                       DeleteUserRows(basket, uid), library + Grants(BasketItems(basket, games, uid), uid),
                       if code.Apply? then DecrementCode(codes, code.code.codeId) else codes,
                       nextBid, nextCodeId, nextGameId)
  {
    CheckoutKeepsTables(basket, library, games, uid, nextBid);
    if code.Apply? {
      RedeemKeepsCodesValid(codes, code.code, nextCodeId);
    }
    var u := users[uid := users[uid].(wallet := users[uid].wallet - finalPrice)];
    assert WalletsNonNegative(u);
  }

  /** Checking out a basket none of whose games the user owns, and emptying
      the user's basket, keeps the basket and library invariants. */
  lemma CheckoutKeepsTables(basket: seq<BasketRow>, library: seq<LibraryEntry>, games: map<int, Game>, uid: int, nextBid: int)
    requires BidsBelow(basket, nextBid) && BasketUnique(basket) && BasketNotOwned(basket, library) && LibraryUnique(library)
    requires !AnyOwned(library, BasketItems(basket, games, uid), uid)
    ensures BasketNotOwned(DeleteUserRows(basket, uid), library + Grants(BasketItems(basket, games, uid), uid))
    ensures LibraryUnique(library + Grants(BasketItems(basket, games, uid), uid))
    ensures BidsBelow(DeleteUserRows(basket, uid), nextBid)
  {
    var items := BasketItems(basket, games, uid);
    BasketItemsDistinct(basket, games, uid);
    GrantsKeepLibraryUnique(library, items, uid);
    var g := Grants(items, uid);
    forall row | row in DeleteUserRows(basket, uid)
      ensures LibraryEntry(row.uid, row.gameId) !in library + g
    {
      assert row.uid != uid;
    }
  }

  // ---------------------------------------------------------------------
  // Admin transaction history

  datatype HistoryKind = TopUpRow | PurchaseRow
  datatype HistoryRow = HistoryRow(kind: HistoryKind, userId: int, amount: real, gameName: Option<string>)

  /** `gametransaction gt JOIN game g ON gt.game_id = g.game_id`, in table order */
  function JoinGames(gameTxs: seq<GameTransaction>, games: map<int, Game>): (r: seq<GameTransaction>)
    ensures |r| <= |gameTxs|
    ensures forall t :: t in r <==> t in gameTxs && t.gameId in games
  {
    if gameTxs == [] then []
    else
      var rest := JoinGames(gameTxs[1..], games);
      assert forall t :: t in gameTxs <==> t == gameTxs[0] || t in gameTxs[1..];
      if gameTxs[0].gameId in games then [gameTxs[0]] + rest else rest
  }

  /** The join keeps every purchase row whose game exists as often as the
      table holds it, and no other row. */
  lemma {:induction false} JoinGamesCounts(gameTxs: seq<GameTransaction>, games: map<int, Game>, t: GameTransaction)
    ensures multiset(JoinGames(gameTxs, games))[t] == if t.gameId in games then multiset(gameTxs)[t] else 0
  {
    if gameTxs != [] {
      JoinGamesCounts(gameTxs[1..], games, t);
      assert gameTxs == [gameTxs[0]] + gameTxs[1..];
    }
  }

  /** `[...walletRows, ...purchaseRows]` of `getAdminTransactionHistory_api`:
      every wallet row is listed as a top-up, debits included, and every
      purchase with an existing game as its negated price. */
  function AdminHistory(walletTxs: seq<WalletTransaction>, gameTxs: seq<GameTransaction>, games: map<int, Game>): (r: seq<HistoryRow>)
    ensures |r| == |walletTxs| + |JoinGames(gameTxs, games)|
    ensures forall k :: 0 <= k < |walletTxs| ==>
      r[k] == HistoryRow(TopUpRow, walletTxs[k].userId, walletTxs[k].amount as real, None)
    ensures forall k :: |walletTxs| <= k < |r| ==>
      var t := JoinGames(gameTxs, games)[k - |walletTxs|];
      && t in gameTxs && t.gameId in games
      && r[k] == HistoryRow(PurchaseRow, t.userId, -t.price, Some(games[t.gameId].name))
  {
    var joined := JoinGames(gameTxs, games);
    var walletRows := seq(|walletTxs|, k requires 0 <= k < |walletTxs| =>
      HistoryRow(TopUpRow, walletTxs[k].userId, walletTxs[k].amount as real, None));
    var purchaseRows := seq(|joined|, k requires 0 <= k < |joined| =>
      HistoryRow(PurchaseRow, joined[k].userId, joined[k].price * -1.0, Some(games[joined[k].gameId].name)));
    walletRows + purchaseRows
  }
}
