/** The basket, discount-code and catalog handlers: add to and remove from
    the basket, create and delete discount codes, the read-only discount
    preview, the search query's assembly, and the admin's game create,
    update and delete. */
module GameApi {
  import opened Common
  import opened Shop
  import opened WalletApi
  import opened JsText

  // ---------------------------------------------------------------------
  // Request body fields

  /** A field of a JSON request body: missing, `null`, a JSON number (money
      in cents, ids whole), or a JSON string together with what `Number(...)`
      reads from it. */
  datatype Raw = Absent | Null | Numeric(n: int) | Text(text: string, reading: Num)

  /** `!!x` */
  predicate TruthyRaw(x: Raw) {
    match x
    case Numeric(n) => n != 0
    case Text(t, _) => t != []
    case _ => false
  }

  /** `Number(x)`: undefined is NaN, null is 0. */
  function NumberOf(x: Raw): Num {
    match x
    case Absent => NaN
    case Null => Finite(0)
    case Numeric(n) => Finite(n)
    case Text(_, reading) => reading
  }

  /** The reading of a text field is NaN exactly when ECMAScript's
      StringToNumber gives NaN, and blank text reads as 0. */
  predicate WellRead(x: Raw) {
    x.Text? ==> (x.reading.NaN? <==> IsNaNText(x.text)) && (Trim(x.text) == [] ==> x.reading == Finite(0))
  }

  /** `s || null` for an optional text field. */
  function OrNull(s: Option<string>): Option<string> {
    if TruthyText(s) then s else None
  }

  // ---------------------------------------------------------------------
  // Basket

  /** The status of `addToBasket_api`, its checks in source order. */
  function AddStatus(library: seq<LibraryEntry>, basket: seq<BasketRow>, uid: Num, gameId: Num): int {
    if !Positive(uid) || !Positive(gameId) then 400
    else if Owns(library, uid.v, gameId.v) then 409
    else if InBasket(basket, uid.v, gameId.v) then 409
    else 201
  }

  /** POST /users/:user_id/basket/:game_id */
  method AddToBasket(db: ShopDb, uid: Num, gameId: Num) returns (r: Reply<int>)
    requires db.Valid()
    modifies db`basket, db`nextBid
    ensures db.Valid()
    ensures r.status == AddStatus(old(db.library), old(db.basket), uid, gameId)
    ensures r.Failure? ==> unchanged(db)
    ensures r.Success? ==> Positive(uid) && Positive(gameId)
    ensures r.Success? ==> && r.body == old(db.nextBid) && db.nextBid == old(db.nextBid) + 1
                           && db.basket == old(db.basket) + [BasketRow(old(db.nextBid), uid.v, gameId.v)]
  {
    if !Positive(uid) || !Positive(gameId) {
      return Failure(400);
    }
    if Owns(db.library, uid.v, gameId.v) {
      return Failure(409);
    }
    if InBasket(db.basket, uid.v, gameId.v) {
      return Failure(409);
    }
    AddKeepsConsistent(db.users, db.games, db.basket, db.library, db.codes, db.nextBid, db.nextCodeId, db.nextGameId,
                       uid.v, gameId.v);
    var bid := db.nextBid;
    db.basket := db.basket + [BasketRow(bid, uid.v, gameId.v)];
    db.nextBid := bid + 1;
    r := Success(201, bid);
  }

  /** The new row takes a fresh bid and a pair that is neither in the basket
      nor in the library, so the basket stays free of duplicate pairs and of
      owned games. */
  lemma AddKeepsConsistent(users: map<int, User>, games: map<int, Game>, basket: seq<BasketRow>,
                           library: seq<LibraryEntry>, codes: seq<DiscountCode>,
                           nextBid: int, nextCodeId: int, nextGameId: int, uid: int, gameId: int)
    requires Consistent(users, games, basket, library, codes, nextBid, nextCodeId, nextGameId)
    requires uid > 0 && !Owns(library, uid, gameId) && !InBasket(basket, uid, gameId)
    ensures Consistent(users, games, basket + [BasketRow(nextBid, uid, gameId)], library, codes,
                       nextBid + 1, nextCodeId, nextGameId)
  {
    var row := BasketRow(nextBid, uid, gameId);
    var b := basket + [row];
    forall i, j | 0 <= i < j < |b| ensures Apart(b[i], b[j]) {
      if j == |basket| {
        assert b[i] == basket[i] && b[i] in basket;
      } else {
        assert b[i] == basket[i] && b[j] == basket[j];
      }
    }
  }

  /** Once an add succeeds, adding the same game again is refused as a
      duplicate. */
  lemma AddTwiceConflicts(library: seq<LibraryEntry>, basket: seq<BasketRow>, uid: Num, gameId: Num, bid: int)
    requires AddStatus(library, basket, uid, gameId) == 201
    ensures AddStatus(library, basket + [BasketRow(bid, uid.v, gameId.v)], uid, gameId) == 409
  {
    var row := BasketRow(bid, uid.v, gameId.v);
    assert row in basket + [row];
  }

  /** Some basket row has this bid and belongs to this user. */
  predicate HasRow(basket: seq<BasketRow>, bid: int, uid: int) {
    exists row :: row in basket && row.bid == bid && row.uid == uid
  }

  /** DELETE /users/:user_id/basket/:bid */
  method RemoveFromBasket(db: ShopDb, uid: Num, bid: Num) returns (r: Reply<()>)
    requires db.Valid()
    modifies db`basket
    ensures db.Valid()
    ensures !Positive(uid) || !Positive(bid) ==> r == Failure(400)
    ensures Positive(uid) && Positive(bid) ==>
      (r.Success? <==> HasRow(old(db.basket), bid.v, uid.v)) && (r.Failure? ==> r.status == 404)
    ensures r.Failure? ==> unchanged(db)
    ensures r.Success? ==> && r.status == 200
                           && db.basket == DeleteBasketRow(old(db.basket), bid.v, uid.v)
                           && |db.basket| == |old(db.basket)| - 1
  {
    if !Positive(uid) || !Positive(bid) {
      return Failure(400);
    }
    var rest := DeleteBasketRow(db.basket, bid.v, uid.v);
    if rest == db.basket {
      return Failure(404);
    }
    RemoveDropsOneRow(db.basket, bid.v, uid.v);
    db.basket := rest;
    r := Success(200, ());
  }

  /** bids are unique, so the owner-scoped delete removes exactly one row
      when it removes any. */
  lemma RemoveDropsOneRow(basket: seq<BasketRow>, bid: int, uid: int)
    requires BasketUnique(basket) && HasRow(basket, bid, uid)
    ensures |DeleteBasketRow(basket, bid, uid)| == |basket| - 1
  {
    var drop := (row: BasketRow) => row.bid == bid && row.uid == uid;
    var row :| row in basket && row.bid == bid && row.uid == uid;
    var i :| 0 <= i < |basket| && basket[i] == row;
    forall j | 0 <= j < |basket| && j != i ensures !drop(basket[j]) {
      if j < i { assert Apart(basket[j], basket[i]); } else { assert Apart(basket[i], basket[j]); }
    }
    DeleteRowsDropsOne(basket, drop, i);
  }

  /** Deleting with a condition that exactly one row meets shortens the
      table by one. */
  lemma {:induction false} DeleteRowsDropsOne(basket: seq<BasketRow>, drop: BasketRow -> bool, i: nat)
    requires i < |basket| && drop(basket[i])
    requires forall j :: 0 <= j < |basket| && j != i ==> !drop(basket[j])
    ensures |DeleteRows(basket, drop)| == |basket| - 1
  {
    var rest := DeleteRows(basket[1..], drop);
    if i == 0 {
      assert forall row :: row in basket[1..] ==> !drop(row);
    } else {
      DeleteRowsDropsOne(basket[1..], drop, i - 1);
    }
  }

  // ---------------------------------------------------------------------
  // Discount codes

  /** The guard of `createDiscountCode_api`: a name, and a positive number
      for both the discount and the user limit. */
  predicate CodeRequestValid(codeName: Option<string>, discountValue: Raw, maxUser: Raw) {
    TruthyText(codeName) && Positive(NumberOf(discountValue)) && Positive(NumberOf(maxUser))
  }

  /** POST /admin/discounts */
  method CreateDiscountCode(db: ShopDb, codeName: Option<string>, discountValue: Raw, maxUser: Raw) returns (r: Reply<int>)
    requires db.Valid()
    modifies db`codes, db`nextCodeId
    ensures db.Valid()
    ensures r.Failure? <==> !CodeRequestValid(codeName, discountValue, maxUser)
    ensures r.Failure? ==> r.status == 400 && unchanged(db)
    ensures r.Success? ==> && r.status == 201 && r.body == old(db.nextCodeId)
                           && db.nextCodeId == old(db.nextCodeId) + 1
                           && db.codes == old(db.codes) + [DiscountCode(old(db.nextCodeId), codeName.value,
                                NumberOf(discountValue).v, NumberOf(maxUser).v, NumberOf(maxUser).v)]
  {
    if !CodeRequestValid(codeName, discountValue, maxUser) {
      return Failure(400);
    }
    var value := NumberOf(discountValue).v;
    var remaining := NumberOf(maxUser).v;
    var code := DiscountCode(db.nextCodeId, codeName.value, value, remaining, remaining);
    assert CodesValid(db.codes + [code], db.nextCodeId + 1) by {
      var c := db.codes + [code];
      forall i, j | 0 <= i < j < |c| ensures c[i].codeId != c[j].codeId {
        assert c[i] == db.codes[i] && c[i] in db.codes;
      }
    }
    db.codes := db.codes + [code];
    db.nextCodeId := db.nextCodeId + 1;
    r := Success(201, code.codeId);
  }

  /** A new code is what a lookup by its name finds, unless an older code
      already has that name: `codeRows[0]` is the older one. */
  lemma {:induction false} FindCodeAfterCreate(codes: seq<DiscountCode>, code: DiscountCode)
    ensures FindCode(codes + [code], code.codeName)
         == (if FindCode(codes, code.codeName).Some? then FindCode(codes, code.codeName) else Some(code))
  {
    if codes != [] {
      assert (codes + [code])[1..] == codes[1..] + [code];
      FindCodeAfterCreate(codes[1..], code);
    }
  }

  /** A code created under a fresh name is redeemable at checkout by any
      account: it applies and charges `max(0, price - discount_value)`. */
  lemma CreatedCodeApplies(codes: seq<DiscountCode>, gameTxs: seq<GameTransaction>, uid: int, price: int,
                           code: DiscountCode)
    requires code.codeName != [] && code.remainingUser > 0
    requires forall c :: c in codes ==> c.codeName != code.codeName
    requires forall t :: t in gameTxs ==> t.codeId != Some(code.codeId)
    ensures CheckCode(codes + [code], gameTxs, uid, Some(code.codeName)) == Apply(code)
    ensures Charge(price, Apply(code)) == MaxZero(price - code.discountValue)
  {
    FindCodeAfterCreate(codes, code);
  }

  /** A discount or user limit sent as text that holds a character no
      number can contain is refused. */
  lemma ForeignTextRefused(codeName: Option<string>, discountValue: Raw, maxUser: Raw, k: nat)
    requires WellRead(discountValue) && discountValue.Text?
    requires k < |Trim(discountValue.text)|
    requires !IsHexDigit(Trim(discountValue.text)[k]) && Trim(discountValue.text)[k] !in "+-.xXoOInfinity"
    ensures !CodeRequestValid(codeName, discountValue, maxUser)
  {
    ForeignCharacterIsNaN(discountValue.text, k);
  }

  /** `DELETE FROM discountcode WHERE code_id = ?` */
  function DeleteCode(codes: seq<DiscountCode>, codeId: int): (r: seq<DiscountCode>)
    ensures forall c :: c in r <==> c in codes && c.codeId != codeId
    ensures |r| <= |codes|
    ensures |r| == |codes| <==> forall c :: c in codes ==> c.codeId != codeId
  {
    if codes == [] then []
    else
      var rest := DeleteCode(codes[1..], codeId);
      assert forall c :: c in codes <==> c == codes[0] || c in codes[1..];
      if codes[0].codeId == codeId then rest else [codes[0]] + rest
  }

  /** Deleting a code keeps the remaining codes valid and their ids unique. */
  lemma DeleteCodeKeepsValid(codes: seq<DiscountCode>, codeId: int, next: int)
    requires CodesValid(codes, next)
    ensures CodesValid(DeleteCode(codes, codeId), next)
  {
    DeleteCodeKeepsIdsUnique(codes, codeId);
  }

  lemma {:induction false} DeleteCodeKeepsIdsUnique(codes: seq<DiscountCode>, codeId: int)
    requires CodeIdsUnique(codes)
    ensures CodeIdsUnique(DeleteCode(codes, codeId))
  {
    if codes != [] {
      var tail := codes[1..];
      TailIdsUnique(codes);
      DeleteCodeKeepsIdsUnique(tail, codeId);
      if codes[0].codeId != codeId {
        HeadIdNotInTail(codes);
        ConsIdsUnique(codes[0], DeleteCode(tail, codeId));
      }
    }
  }

  lemma TailIdsUnique(codes: seq<DiscountCode>)
    requires codes != [] && CodeIdsUnique(codes)
    ensures CodeIdsUnique(codes[1..])
  {
    var tail := codes[1..];
    forall i, j | 0 <= i < j < |tail| ensures tail[i].codeId != tail[j].codeId {
      assert tail[i] == codes[i + 1] && tail[j] == codes[j + 1];
    }
  }

  lemma HeadIdNotInTail(codes: seq<DiscountCode>)
    requires codes != [] && CodeIdsUnique(codes)
    ensures forall c :: c in codes[1..] ==> c.codeId != codes[0].codeId
  {
    forall c | c in codes[1..] ensures c.codeId != codes[0].codeId {
      var m :| 0 <= m < |codes[1..]| && codes[1..][m] == c;
      assert codes[m + 1] == c;
    }
  }

  lemma ConsIdsUnique(head: DiscountCode, rest: seq<DiscountCode>)
    requires CodeIdsUnique(rest)
    requires forall c :: c in rest ==> c.codeId != head.codeId
    ensures CodeIdsUnique([head] + rest)
  {
    var r := [head] + rest;
    forall i, j | 0 <= i < j < |r| ensures r[i].codeId != r[j].codeId {
      assert r[j] == rest[j - 1] && rest[j - 1] in rest;
      if i > 0 {
        assert r[i] == rest[i - 1];
      }
    }
  }

  /** DELETE /admin/discounts/:code_id */
  method DeleteDiscountCode(db: ShopDb, codeId: Num) returns (r: Reply<()>)
    requires db.Valid()
    modifies db`codes
    ensures db.Valid()
    ensures !Positive(codeId) ==> r == Failure(400)
    ensures Positive(codeId) ==>
      (r.Success? <==> exists c :: c in old(db.codes) && c.codeId == codeId.v) && (r.Failure? ==> r.status == 404)
    ensures r.Failure? ==> unchanged(db)
    ensures r.Success? ==> r.status == 200 && db.codes == DeleteCode(old(db.codes), codeId.v)
  {
    if !Positive(codeId) {
      return Failure(400);
    }
    var rest := DeleteCode(db.codes, codeId.v);
    if |rest| == |db.codes| {
      return Failure(404);
    }
    DeleteCodeKeepsValid(db.codes, codeId.v, db.nextCodeId);
    db.codes := rest;
    r := Success(200, ());
  }

  // ---------------------------------------------------------------------
  // Discount preview

  /** The body of a successful `applyDiscount_api`. */
  datatype Quote = Quote(codeName: string, subtotal: int, discountValue: int, finalPrice: int)

  /** POST /users/:user_id/apply-discount: reads the basket and the code,
      writes nothing. */
  function ApplyDiscount(basket: seq<BasketRow>, games: map<int, Game>, codes: seq<DiscountCode>,
                         gameTxs: seq<GameTransaction>, uid: Num, codeName: Option<string>): (r: Reply<Quote>)
    ensures !Positive(uid) || !TruthyText(codeName) ==> r == Failure(400)
    ensures Positive(uid) && TruthyText(codeName) && |BasketItems(basket, games, uid.v)| == 0 ==> r == Failure(404)
    ensures r.Success? ==>
      && r.status == 200
      && Positive(uid) && TruthyText(codeName) && r.body.codeName == codeName.value
      && |BasketItems(basket, games, uid.v)| > 0
      && r.body.subtotal == Subtotal(BasketItems(basket, games, uid.v))
      && (exists c :: c in codes && c.codeName == codeName.value && c.remainingUser > 0
                      && !CodeUsedBy(gameTxs, uid.v, c.codeId) && c.discountValue == r.body.discountValue)
      && r.body.finalPrice == MaxZero(r.body.subtotal - r.body.discountValue)
    ensures Positive(uid) && TruthyText(codeName) && |BasketItems(basket, games, uid.v)| > 0 ==>
      var code := CheckCode(codes, gameTxs, uid.v, codeName);
      && (r == Failure(400) <==> code.Invalid?)
      && (r == Failure(409) <==> code.AlreadyUsed?)
      && (r.Success? <==> code.Apply?)
    ensures r.Success? ==> r.body.discountValue == FindCode(codes, codeName.value).value.discountValue
  {
    if !Positive(uid) || !TruthyText(codeName) then Failure(400)
    else
      var items := BasketItems(basket, games, uid.v);
      if |items| == 0 then Failure(404)
      else
        var subtotal := Subtotal(items);
        var found := FindCode(codes, codeName.value);
        if found.None? || found.value.remainingUser <= 0 then Failure(400)
        else if CodeUsedBy(gameTxs, uid.v, found.value.codeId) then Failure(409)
        else
          var discount := found.value.discountValue;
          Success(200, Quote(codeName.value, subtotal, discount, MaxZero(subtotal - discount)))
  }

  /** With valid codes (positive discounts), the quoted final price lies
      between 0 and a non-negative subtotal. */
  lemma QuoteBounds(basket: seq<BasketRow>, games: map<int, Game>, codes: seq<DiscountCode>,
                    gameTxs: seq<GameTransaction>, uid: Num, codeName: Option<string>, next: int)
    requires CodesValid(codes, next)
    requires ApplyDiscount(basket, games, codes, gameTxs, uid, codeName).Success?
    ensures var q := ApplyDiscount(basket, games, codes, gameTxs, uid, codeName).body;
      0 <= q.finalPrice && (q.subtotal >= 0 ==> q.finalPrice <= q.subtotal)
  {
    var q := ApplyDiscount(basket, games, codes, gameTxs, uid, codeName).body;
    var c :| c in codes && c.codeName == codeName.value && c.discountValue == q.discountValue;
    assert CodeValid(c, next);
  }

  /** The preview agrees with the checkout: the checkout's code check lets
      the same code through, and charges the quoted final price. */
  lemma QuoteMatchesCheckout(basket: seq<BasketRow>, games: map<int, Game>, codes: seq<DiscountCode>,
                             gameTxs: seq<GameTransaction>, uid: Num, codeName: Option<string>)
    requires ApplyDiscount(basket, games, codes, gameTxs, uid, codeName).Success?
    ensures var q := ApplyDiscount(basket, games, codes, gameTxs, uid, codeName).body;
      var code := CheckCode(codes, gameTxs, uid.v, codeName);
      && code.Apply? && DiscountOf(code) == q.discountValue
      && Charge(Subtotal(BasketItems(basket, games, uid.v)), code) == q.finalPrice
  {
  }

  /** Conversely, whenever the checkout's code check would redeem the code
      for a non-empty basket, the preview quotes it, with the discount and
      final price the checkout uses. */
  lemma CheckoutCodeIsQuoted(basket: seq<BasketRow>, games: map<int, Game>, codes: seq<DiscountCode>,
                             gameTxs: seq<GameTransaction>, uid: Num, codeName: Option<string>)
    requires Positive(uid) && |BasketItems(basket, games, uid.v)| > 0
    requires CheckCode(codes, gameTxs, uid.v, codeName).Apply?
    ensures var r := ApplyDiscount(basket, games, codes, gameTxs, uid, codeName);
      var code := CheckCode(codes, gameTxs, uid.v, codeName);
      && r.Success?
      && r.body.discountValue == DiscountOf(code)
      && r.body.finalPrice == Charge(Subtotal(BasketItems(basket, games, uid.v)), code)
  {
  }

  /** `applyDiscount_api` as written: its reuse check selects the column
      `transaction_id`, while a game transaction's key is `gametrans_id`, so
      that query fails and a request that passes the code check answers 500. */
  function ApplyDiscountAsWritten(basket: seq<BasketRow>, games: map<int, Game>, codes: seq<DiscountCode>,
                                  gameTxs: seq<GameTransaction>, uid: Num, codeName: Option<string>): (r: Reply<Quote>)
    ensures r.Failure?
    ensures var intended := ApplyDiscount(basket, games, codes, gameTxs, uid, codeName);
      r.status == 500 <==> intended.Success? || intended.status == 409
    ensures r.status != 500 ==> r == ApplyDiscount(basket, games, codes, gameTxs, uid, codeName)
  {
    if !Positive(uid) || !TruthyText(codeName) then Failure(400)
    else if |BasketItems(basket, games, uid.v)| == 0 then Failure(404)
    else
      var found := FindCode(codes, codeName.value);
      if found.None? || found.value.remainingUser <= 0 then Failure(400)
      else Failure(500)
  }

  /** One game of 1000 in the basket and an unused code "SALE" worth 100: the
      intended preview quotes 900, the handler as written answers 500. */
  lemma ApplyDiscountColumnCounterexample()
    ensures var basket := [BasketRow(1, 1, 7)];
      var games := map[7 := Game("g", 1000, None, None, 1)];
      var codes := [DiscountCode(3, "SALE", 100, 5, 5)];
      && ApplyDiscount(basket, games, codes, [], Finite(1), Some("SALE")) == Success(200, Quote("SALE", 1000, 100, 900))
      && ApplyDiscountAsWritten(basket, games, codes, [], Finite(1), Some("SALE")) == Failure(500)
  {
    var basket := [BasketRow(1, 1, 7)];
    var games := map[7 := Game("g", 1000, None, None, 1)];
    assert BasketItems(basket, games, 1) == [BasketItem(1, 7, "g", 1000)];
  }

  // ---------------------------------------------------------------------
  // Search

  /** A condition of the search's WHERE clause. */
  datatype Condition = NameLike | TypeEquals

  function ConditionSql(c: Condition): string {
    match c
    case NameLike => "g.name LIKE ?"
    case TypeEquals => "g.type_id = ?"
  }

  /** A value bound to a `?`: the LIKE pattern, or `Number(type_id)`. */
  datatype SearchParam = Pattern(pattern: string) | TypeNumber(n: int)

  /** A query-string value: its text, and what `Number(...)` reads from it. */
  datatype QueryText = QueryText(text: string, reading: Num)

  /** The reading is NaN exactly when ECMAScript's StringToNumber gives NaN. */
  predicate WellReadQuery(x: QueryText) {
    x.reading.NaN? <==> IsNaNText(x.text)
  }

  const SearchBase: string :=
    "\n        SELECT g.game_id, g.name, g.price, g.image, t.typename AS type\n        FROM game g\n        JOIN gametype t ON g.type_id = t.type_id\n    "
  const OrderBy: string := " ORDER BY g.name ASC"

  /** `whereConditions.join(' AND ')` */
  function JoinAnd(conditions: seq<Condition>): string {
    if conditions == [] then ""
    else if |conditions| == 1 then ConditionSql(conditions[0])
    else ConditionSql(conditions[0]) + " AND " + JoinAnd(conditions[1..])
  }

  function WhereClause(conditions: seq<Condition>): string {
    if conditions == [] then "" else " WHERE " + JoinAnd(conditions)
  }

  /** The search term: `(q as string)?.trim() || ''` */
  function SearchTerm(q: Option<string>): string {
    if q.Some? then Trim(q.value) else ""
  }

  /** `(type_id as string)?.trim()`; `Number` reads the same value from
      the trimmed text. */
  function TrimmedQuery(x: Option<QueryText>): Option<QueryText> {
    if x.Some? then Some(QueryText(Trim(x.value.text), x.value.reading)) else None
  }

  /** `type_id && !isNaN(Number(type_id))` on the trimmed type id. */
  predicate TypeFilter(typeText: Option<QueryText>) {
    typeText.Some? && typeText.value.text != [] && typeText.value.reading.Finite?
  }

  /** The type filter passes exactly when the trimmed type id is a
      StrNumericLiteral. */
  lemma TypeFilterIffNumeric(typeId: Option<QueryText>)
    requires typeId.Some? ==> WellReadQuery(typeId.value)
    ensures TypeFilter(TrimmedQuery(typeId)) <==> typeId.Some? && NumericLiteral(Trim(typeId.value.text))
  {
    EmptyNotNumericLiteral();
  }

  /** A type id of decimal digits, with any white space around them, adds
      the type condition. */
  lemma DigitTypeIdFilters(typeId: QueryText, i: nat, j: nat)
    requires WellReadQuery(typeId)
    requires i <= j <= |typeId.text|
    requires forall k :: 0 <= k < i ==> IsJsSpace(typeId.text[k])
    requires forall k :: j <= k < |typeId.text| ==> IsJsSpace(typeId.text[k])
    requires DigitRun(typeId.text[i..j], IsDecimalDigit)
    ensures TypeFilter(TrimmedQuery(Some(typeId)))
  {
    DigitsAreNumbers(typeId.text, i, j);
  }

  /** The conditions `searchGames_api` pushes for the trimmed term and type
      id: one for a non-empty term, one for a numeric type id, in that order,
      each with its parameter at the same position. */
  method SearchConditions(term: string, typeText: Option<QueryText>)
    returns (conditions: seq<Condition>, params: seq<SearchParam>)
    ensures NameLike in conditions <==> term != []
    ensures TypeEquals in conditions <==> TypeFilter(typeText)
    ensures |conditions| <= 2 && (|conditions| == 2 ==> conditions == [NameLike, TypeEquals])
    ensures |params| == |conditions|
    ensures forall k :: 0 <= k < |conditions| ==>
      && (conditions[k] == NameLike ==> params[k] == Pattern("%" + term + "%"))
      && (conditions[k] == TypeEquals ==> params[k] == TypeNumber(typeText.value.reading.v))
  {
    conditions, params := [], [];
    if term != [] {
      conditions := conditions + [NameLike];
      params := params + [Pattern("%" + term + "%")];
    }
    if TypeFilter(typeText) {
      conditions := conditions + [TypeEquals];
      params := params + [TypeNumber(typeText.value.reading.v)];
    }
  }

  /** The query `searchGames_api` sends: the base SELECT, a WHERE clause
      joining the conditions with AND when there are any, and the ordering. */
  method BuildSearch(q: Option<string>, typeId: Option<QueryText>)
    returns (conditions: seq<Condition>, params: seq<SearchParam>, sql: string)
    ensures NameLike in conditions <==> SearchTerm(q) != []
    ensures TypeEquals in conditions <==> TypeFilter(TrimmedQuery(typeId))
    ensures |conditions| <= 2 && (|conditions| == 2 ==> conditions == [NameLike, TypeEquals])
    ensures |params| == |conditions|
    ensures forall k :: 0 <= k < |conditions| ==>
      && (conditions[k] == NameLike ==> params[k] == Pattern("%" + SearchTerm(q) + "%"))
      && (conditions[k] == TypeEquals ==> params[k] == TypeNumber(TrimmedQuery(typeId).value.reading.v))
    ensures sql == SearchBase + WhereClause(conditions) + OrderBy
    ensures var tail := WhereClause(conditions) + OrderBy;
      |tail| >= 7 && (tail[..7] == " WHERE " <==> conditions != [])
  {
    var term := SearchTerm(q);
    var typeText := TrimmedQuery(typeId);
    conditions, params := SearchConditions(term, typeText);
    sql := SearchBase;
    if |conditions| > 0 {
      sql := sql + (" WHERE " + JoinAnd(conditions));
    }
    sql := sql + OrderBy;
    WhereIffConditions(conditions);
  }

  /** The query has a WHERE clause exactly when some condition was pushed. */
  lemma WhereIffConditions(conditions: seq<Condition>)
    ensures var tail := WhereClause(conditions) + OrderBy;
      |tail| >= 7 && (tail[..7] == " WHERE " <==> conditions != [])
  {
    if conditions == [] {
      assert WhereClause(conditions) + OrderBy == OrderBy;
      assert OrderBy[..7][1] == 'O';
    } else {
      assert (" WHERE " + JoinAnd(conditions) + OrderBy)[..7] == " WHERE ";
    }
  }

  /** The status of `searchGames_api` for the number of rows found: 404
      when nothing matched a search that had a term or a type id. */
  function SearchStatus(q: Option<string>, typeId: Option<QueryText>, rowCount: nat): int {
    var typeGiven := typeId.Some? && Trim(typeId.value.text) != [];
    if rowCount == 0 && (SearchTerm(q) != [] || typeGiven) then 404 else 200
  }

  /** A search with no term and no type id never answers 404, even when the
      catalogue is empty. */
  lemma UnfilteredSearchSucceeds(q: Option<string>, typeId: Option<QueryText>, rowCount: nat)
    requires q.None? || forall k :: 0 <= k < |q.value| ==> IsJsSpace(q.value[k])
    requires typeId.None? || forall k :: 0 <= k < |typeId.value.text| ==> IsJsSpace(typeId.value.text[k])
    ensures SearchStatus(q, typeId, rowCount) == 200
  {
    if q.Some? { TrimEmptyIffAllSpace(q.value); }
    if typeId.Some? { TrimEmptyIffAllSpace(typeId.value.text); }
  }

  /** A type id that is not a number adds no condition, yet still makes an
      empty result a 404. */
  lemma NonNumericTypeIdMisses(q: Option<string>, typeId: QueryText)
    requires WellReadQuery(typeId) && typeId.reading.NaN?
    ensures !TypeFilter(TrimmedQuery(Some(typeId)))
    ensures SearchStatus(q, Some(typeId), 0) == 404
  {
  }

  /** A search that finds rows answers 200. */
  lemma FoundRowsSucceed(q: Option<string>, typeId: Option<QueryText>, rowCount: nat)
    requires rowCount > 0
    ensures SearchStatus(q, typeId, rowCount) == 200
  {
  }

  // ---------------------------------------------------------------------
  // Game CRUD

  /** The status of `createGame_api` before the INSERT. */
  function CreateGameStatus(name: Option<string>, price: Raw, typeId: Raw): int {
    if !TruthyText(name) || !TruthyRaw(price) || !TruthyRaw(typeId) then 400
    else if NumberOf(price).NaN? || NumberOf(typeId).NaN? || NumberOf(price).v < 0 then 400
    else 201
  }

  /** POST /admin/games */
  method CreateGame(db: ShopDb, name: Option<string>, price: Raw, description: Option<string>,
                    image: Option<string>, typeId: Raw) returns (r: Reply<int>)
    requires db.Valid()
    modifies db`games, db`nextGameId
    ensures db.Valid()
    ensures r.status == CreateGameStatus(name, price, typeId)
    ensures r.Failure? ==> unchanged(db)
    ensures r.Success? ==> && TruthyText(name) && NumberOf(price).Finite? && NumberOf(typeId).Finite?
                           && NumberOf(price).v >= 0
    ensures r.Success? ==> && r.body == old(db.nextGameId) && db.nextGameId == old(db.nextGameId) + 1
                           && db.games == old(db.games)[old(db.nextGameId) := Game(name.value, NumberOf(price).v,
                                OrNull(description), OrNull(image), NumberOf(typeId).v)]
  {
    if !TruthyText(name) || !TruthyRaw(price) || !TruthyRaw(typeId) {
      return Failure(400);
    }
    var numPrice := NumberOf(price);
    var numTypeId := NumberOf(typeId);
    if numPrice.NaN? || numTypeId.NaN? || numPrice.v < 0 {
      return Failure(400);
    }
    var id := db.nextGameId;
    db.games := db.games[id := Game(name.value, numPrice.v, OrNull(description), OrNull(image), numTypeId.v)];
    db.nextGameId := id + 1;
    r := Success(201, id);
  }

  /** A free game sent as the JSON number 0 is refused by the truthiness
      test, while the same price sent as the text "0" is accepted. */
  lemma ZeroPriceOnlyAsText(name: Option<string>, typeId: Raw)
    requires TruthyText(name) && TruthyRaw(typeId) && NumberOf(typeId).Finite?
    ensures CreateGameStatus(name, Numeric(0), typeId) == 400
    ensures WellRead(Text("0", Finite(0))) && CreateGameStatus(name, Text("0", Finite(0)), typeId) == 201
  {
    ZeroTextReadsAsZero();
  }

  /** The text "0" is not blank and does not read as NaN. */
  lemma ZeroTextReadsAsZero()
    ensures Trim("0") == "0" && WellRead(Text("0", Finite(0)))
  {
    assert Trim("0") == "0" by {
      assert TrimStart("0") == "0";
      assert TrimEnd("0") == "0";
    }
    DigitsAreNumbers("0", 0, 1);
  }

  /** A negative or non-numeric price is refused. */
  lemma BadPriceRefused(name: Option<string>, price: Raw, typeId: Raw)
    requires NumberOf(price).NaN? || NumberOf(price).v < 0
    ensures CreateGameStatus(name, price, typeId) == 400
  {
  }

  /** PUT /admin/games/:game_id. The body is not validated: a type id that
      is not a number reaches the UPDATE as a bare NaN and fails it (500). */
  method UpdateGame(db: ShopDb, gameId: Num, name: string, price: int, description: Option<string>,
                    image: Option<string>, typeId: Num) returns (r: Reply<()>)
    requires db.Valid()
    modifies db`games
    ensures db.Valid()
    ensures !Positive(gameId) ==> r == Failure(400)
    ensures Positive(gameId) && typeId.NaN? ==> r == Failure(500)
    ensures Positive(gameId) && typeId.Finite? ==>
      (r.Success? <==> gameId.v in old(db.games)) && (r.Failure? ==> r.status == 404)
    ensures r.Failure? ==> unchanged(db)
    ensures r.Success? ==> && r.status == 200 && typeId.Finite?
                           && db.games == old(db.games)[gameId.v := Game(name, price, OrNull(description), OrNull(image), typeId.v)]
  {
    if !Positive(gameId) {
      return Failure(400);
    }
    if typeId.NaN? {
      return Failure(500);
    }
    if gameId.v !in db.games {
      return Failure(404);
    }
    db.games := db.games[gameId.v := Game(name, price, OrNull(description), OrNull(image), typeId.v)];
    r := Success(200, ());
  }

  /** DELETE /admin/games/:game_id */
  method DeleteGame(db: ShopDb, gameId: Num) returns (r: Reply<()>)
    requires db.Valid()
    modifies db`games
    ensures db.Valid()
    ensures !Positive(gameId) ==> r == Failure(400)
    ensures Positive(gameId) ==> (r.Success? <==> gameId.v in old(db.games)) && (r.Failure? ==> r.status == 404)
    ensures r.Failure? ==> unchanged(db)
    ensures r.Success? ==> r.status == 200 && db.games == old(db.games) - {gameId.v}
  {
    if !Positive(gameId) {
      return Failure(400);
    }
    if gameId.v !in db.games {
      return Failure(404);
    }
    db.games := db.games - {gameId.v};
    r := Success(200, ());
  }
}
