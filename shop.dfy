/** The storefront's tables (users, game, basket, usersgamelibrary,
    discountcode, gametransaction, wallettransaction) held in memory, with the
    queries the handlers share and the invariants the handlers keep. */
module Shop {
  import opened Common

  datatype Role = Member | Admin

  /** A row of `users`, keyed by user_id in ShopDb.users. */
  datatype User = User(username: string, email: string, wallet: int, role: Role)

  /** A row of `game`, keyed by game_id in ShopDb.games; price in cents. */
  datatype Game = Game(name: string, price: int, description: Option<string>, image: Option<string>, typeId: int)

  /** A row of `discountcode`; discount_value in cents. */
  datatype DiscountCode = DiscountCode(codeId: int, codeName: string, discountValue: int, remainingUser: int, maxUser: int)

  /** A row of `basket`. */
  datatype BasketRow = BasketRow(bid: int, uid: int, gameId: int)

  /** A row of `usersgamelibrary`. */
  datatype LibraryEntry = LibraryEntry(userId: int, gameId: int)

  /** A row of `gametransaction`; the price may be a pro-rated share. */
  datatype GameTransaction = GameTransaction(userId: int, gameId: int, codeId: Option<int>, price: real)

  /** A row of `wallettransaction`; status 0 is a top-up, 1 a debit. */
  datatype WalletTransaction = WalletTransaction(userId: int, amount: int, status: int)

  const TopUpStatus := 0
  const DebitStatus := 1

  /** A row of `basket b JOIN game g ON b.game_id = g.game_id`. */
  datatype BasketItem = BasketItem(bid: int, gameId: int, name: string, price: int)

  class ShopDb {
    var users: map<int, User>
    var games: map<int, Game>
    var basket: seq<BasketRow>
    var library: seq<LibraryEntry>
    var codes: seq<DiscountCode>
    var gameTxs: seq<GameTransaction>
    var walletTxs: seq<WalletTransaction>
    // AUTO_INCREMENT counters of basket.bid, discountcode.code_id, game.game_id
    var nextBid: int
    var nextCodeId: int
    var nextGameId: int

    ghost predicate Valid()
      reads this
    {
      Consistent(users, games, basket, library, codes, nextBid, nextCodeId, nextGameId)
    }

    constructor ()
      ensures Valid()
      ensures users == map[] && games == map[] && basket == [] && library == []
      ensures codes == [] && gameTxs == [] && walletTxs == []
    {
      users, games := map[], map[];
      basket, library, codes := [], [], [];
      gameTxs, walletTxs := [], [];
      nextBid, nextCodeId, nextGameId := 1, 1, 1;
    }
  }

  // ---------------------------------------------------------------------
  // Invariants of the tables

  /** What every handler keeps true of the tables. */
  ghost predicate Consistent(users: map<int, User>, games: map<int, Game>, basket: seq<BasketRow>,
                             library: seq<LibraryEntry>, codes: seq<DiscountCode>,
                             nextBid: int, nextCodeId: int, nextGameId: int)
  {
    && nextBid > 0 && nextCodeId > 0 && nextGameId > 0
    && BidsBelow(basket, nextBid)
    && BasketUnique(basket)
    && BasketNotOwned(basket, library)
    && LibraryUnique(library)
    && CodesValid(codes, nextCodeId)
    && GameIdsBelow(games, nextGameId)
    && WalletsNonNegative(users)
  }

  ghost predicate GameIdsBelow(games: map<int, Game>, next: int) {
    forall id :: id in games ==> 0 < id < next
  }

  /** Two basket rows that differ in bid and in their (uid, game_id) pair. */
  predicate Apart(a: BasketRow, b: BasketRow) {
    a.bid != b.bid && (a.uid != b.uid || a.gameId != b.gameId)
  }

  /** bids are unique and no (uid, game_id) pair is in the basket twice */
  ghost predicate BasketUnique(basket: seq<BasketRow>) {
    forall i, j :: 0 <= i < j < |basket| ==> Apart(basket[i], basket[j])
  }

  /** no basket row holds a game its user already owns */
  ghost predicate BasketNotOwned(basket: seq<BasketRow>, library: seq<LibraryEntry>) {
    forall row :: row in basket ==> LibraryEntry(row.uid, row.gameId) !in library
  }

  ghost predicate LibraryUnique(library: seq<LibraryEntry>) {
    forall i, j :: 0 <= i < j < |library| ==> library[i] != library[j]
  }

  ghost predicate BidsBelow(basket: seq<BasketRow>, next: int) {
    forall row :: row in basket ==> 0 < row.bid < next
  }

  ghost predicate CodeValid(c: DiscountCode, next: int) {
    0 < c.codeId < next && c.discountValue > 0 && 0 <= c.remainingUser <= c.maxUser
  }

  ghost predicate CodesValid(codes: seq<DiscountCode>, next: int) {
    && (forall c :: c in codes ==> CodeValid(c, next))
    && CodeIdsUnique(codes)
  }

  ghost predicate CodeIdsUnique(codes: seq<DiscountCode>) {
    forall i, j :: 0 <= i < j < |codes| ==> codes[i].codeId != codes[j].codeId
  }

  ghost predicate WalletsNonNegative(users: map<int, User>) {
    forall u :: u in users ==> users[u].wallet >= 0
  }

  // ---------------------------------------------------------------------
  // Queries the handlers share

  /** `SELECT * FROM usersgamelibrary WHERE user_id = ? AND game_id = ?` finds a row */
  predicate Owns(library: seq<LibraryEntry>, uid: int, gameId: int) {
    LibraryEntry(uid, gameId) in library
  }

  /** `SELECT * FROM basket WHERE uid = ? AND game_id = ?` finds a row */
  predicate InBasket(basket: seq<BasketRow>, uid: int, gameId: int) {
    exists row :: row in basket && row.uid == uid && row.gameId == gameId
  }

  /** `SELECT ... FROM basket b JOIN game g ON b.game_id = g.game_id WHERE b.uid = ?`:
      the user's basket rows whose game exists, in table order. */
  function BasketItems(basket: seq<BasketRow>, games: map<int, Game>, uid: int): (items: seq<BasketItem>)
    ensures |items| <= |basket|
    ensures forall k :: 0 <= k < |items| ==>
      && BasketRow(items[k].bid, uid, items[k].gameId) in basket
      && items[k].gameId in games
      && items[k].price == games[items[k].gameId].price
      && items[k].name == games[items[k].gameId].name
  {
    if basket == [] then []
    else
      var row := basket[0];
      var rest := BasketItems(basket[1..], games, uid);
      if row.uid == uid && row.gameId in games then
        var g := games[row.gameId];
        var items := [BasketItem(row.bid, row.gameId, g.name, g.price)] + rest;
        assert forall k :: 1 <= k < |items| ==> items[k] == rest[k - 1];
        items
      else rest
  }

  predicate HasItem(items: seq<BasketItem>, bid: int, gameId: int) {
    exists k :: 0 <= k < |items| && items[k].bid == bid && items[k].gameId == gameId
  }

  predicate DistinctGames(items: seq<BasketItem>) {
    forall i, j :: 0 <= i < j < |items| ==> items[i].gameId != items[j].gameId
  }

  /** Every basket row of the user whose game exists is among the joined items. */
  lemma {:induction false} BasketItemsCover(basket: seq<BasketRow>, games: map<int, Game>, uid: int, row: BasketRow)
    requires row in basket && row.uid == uid && row.gameId in games
    ensures HasItem(BasketItems(basket, games, uid), row.bid, row.gameId)
  {
    var items := BasketItems(basket, games, uid);
    var rest := BasketItems(basket[1..], games, uid);
    if row == basket[0] {
      assert items == [BasketItem(row.bid, row.gameId, games[row.gameId].name, games[row.gameId].price)] + rest;
      assert items[0].bid == row.bid && items[0].gameId == row.gameId;
    } else {
      assert row in basket[1..];
      BasketItemsCover(basket[1..], games, uid, row);
      var k :| 0 <= k < |rest| && rest[k].bid == row.bid && rest[k].gameId == row.gameId;
      if basket[0].uid == uid && basket[0].gameId in games {
        assert items[k + 1] == rest[k];
      } else {
        assert items == rest;
      }
    }
  }

  /** the `reduce((sum, item) => sum + item.price, 0)` over the joined items */
  function Subtotal(items: seq<BasketItem>): int {
    if items == [] then 0 else items[0].price + Subtotal(items[1..])
  }

  /** `SELECT ... FROM discountcode WHERE code_name = ?` and take `codeRows[0]`:
      the first code of that name. */
  function FindCode(codes: seq<DiscountCode>, name: string): (r: Option<DiscountCode>)
    ensures r.None? <==> forall c :: c in codes ==> c.codeName != name
    ensures r.Some? ==> r.value in codes && r.value.codeName == name
    ensures r.Some? ==> exists i :: 0 <= i < |codes| && codes[i] == r.value && NoCodeNamedBefore(codes, i, name)
  {
    if codes == [] then None
    else if codes[0].codeName == name then Some(codes[0])
    else
      var r := FindCode(codes[1..], name);
      assert forall c :: c in codes[1..] ==> c in codes;
      assert r.Some? ==> exists i :: 0 <= i < |codes| && codes[i] == r.value && NoCodeNamedBefore(codes, i, name) by {
        if r.Some? {
          var i :| 0 <= i < |codes[1..]| && codes[1..][i] == r.value && NoCodeNamedBefore(codes[1..], i, name);
          assert codes[i + 1] == r.value;
          assert NoCodeNamedBefore(codes, i + 1, name) by {
            forall j | 0 <= j < i + 1 ensures codes[j].codeName != name {
              if j > 0 { assert codes[j] == codes[1..][j - 1]; }
            }
          }
        }
      }
      r
  }

  predicate NoCodeNamedBefore(codes: seq<DiscountCode>, i: int, name: string)
    requires 0 <= i <= |codes|
  {
    forall j :: 0 <= j < i ==> codes[j].codeName != name
  }

  /** `SELECT ... FROM gametransaction WHERE user_id = ? AND code_id = ?` finds a row:
      the account already redeemed the code. */
  predicate CodeUsedBy(gameTxs: seq<GameTransaction>, uid: int, codeId: int) {
    exists t :: t in gameTxs && t.userId == uid && t.codeId == Some(codeId)
  }

  /** `UPDATE discountcode SET remaining_user = remaining_user - 1 WHERE code_id = ?` */
  function DecrementCode(codes: seq<DiscountCode>, codeId: int): (r: seq<DiscountCode>)
    ensures |r| == |codes|
    ensures forall i :: 0 <= i < |codes| ==>
      r[i] == codes[i].(remainingUser := codes[i].remainingUser - (if codes[i].codeId == codeId then 1 else 0))
  {
    seq(|codes|, i requires 0 <= i < |codes| =>
      if codes[i].codeId == codeId then codes[i].(remainingUser := codes[i].remainingUser - 1) else codes[i])
  }

  /** `DELETE FROM basket WHERE <drop>`: the rows that do not match, in table order. */
  function DeleteRows(basket: seq<BasketRow>, drop: BasketRow -> bool): (r: seq<BasketRow>)
    ensures forall row :: row in r <==> row in basket && !drop(row)
    ensures |r| <= |basket|
    ensures |r| == |basket| <==> forall row :: row in basket ==> !drop(row)
    ensures |r| == |basket| ==> r == basket
  {
    if basket == [] then []
    else
      var rest := DeleteRows(basket[1..], drop);
      assert forall row :: row in basket <==> row == basket[0] || row in basket[1..];
      if drop(basket[0]) then rest else [basket[0]] + rest
  }

  /** `DELETE FROM basket WHERE uid = ?` */
  function DeleteUserRows(basket: seq<BasketRow>, uid: int): (r: seq<BasketRow>)
    ensures forall row :: row in r <==> row in basket && row.uid != uid
    ensures BasketUnique(basket) ==> BasketUnique(r)
  {
    var drop := (row: BasketRow) => row.uid == uid;
    DeleteRowsKeepsUnique(basket, drop);
    DeleteRows(basket, drop)
  }

  /** `DELETE FROM basket WHERE uid = ? AND game_id = ?` */
  function DeleteUserGameRows(basket: seq<BasketRow>, uid: int, gameId: int): (r: seq<BasketRow>)
    ensures forall row :: row in r <==> row in basket && !(row.uid == uid && row.gameId == gameId)
    ensures BasketUnique(basket) ==> BasketUnique(r)
  {
    var drop := (row: BasketRow) => row.uid == uid && row.gameId == gameId;
    DeleteRowsKeepsUnique(basket, drop);
    DeleteRows(basket, drop)
  }

  /** `DELETE FROM basket WHERE bid = ? AND uid = ?`; the rows are unchanged
      exactly when no row matched (`affectedRows === 0`). */
  function DeleteBasketRow(basket: seq<BasketRow>, bid: int, uid: int): (r: seq<BasketRow>)
    ensures forall row :: row in r <==> row in basket && !(row.bid == bid && row.uid == uid)
    ensures r == basket <==> forall row :: row in basket ==> !(row.bid == bid && row.uid == uid)
    ensures BasketUnique(basket) ==> BasketUnique(r)
  {
    var drop := (row: BasketRow) => row.bid == bid && row.uid == uid;
    DeleteRowsKeepsUnique(basket, drop);
    DeleteRows(basket, drop)
  }

  /** Deleting rows keeps bids and (uid, game_id) pairs unique. */
  lemma {:induction false} DeleteRowsKeepsUnique(basket: seq<BasketRow>, drop: BasketRow -> bool)
    ensures BasketUnique(basket) ==> BasketUnique(DeleteRows(basket, drop))
  {
    if basket != [] && BasketUnique(basket) {
      var rest := DeleteRows(basket[1..], drop);
      assert BasketUnique(basket[1..]) by {
        forall i, j | 0 <= i < j < |basket[1..]| ensures Apart(basket[1..][i], basket[1..][j]) {
          assert basket[1..][i] == basket[i + 1] && basket[1..][j] == basket[j + 1];
        }
      }
      DeleteRowsKeepsUnique(basket[1..], drop);
      if !drop(basket[0]) {
        var r := [basket[0]] + rest;
        forall i, j | 0 <= i < j < |r| ensures Apart(r[i], r[j]) {
          if i == 0 {
            assert r[j] == rest[j - 1];
            assert rest[j - 1] in basket[1..];
            var m :| 0 <= m < |basket[1..]| && basket[1..][m] == rest[j - 1];
            assert Apart(basket[0], basket[m + 1]);
          } else {
            assert r[i] == rest[i - 1] && r[j] == rest[j - 1];
          }
        }
      }
    }
  }

  /** the items' game ids, as `usersgamelibrary` rows of the buyer */
  function Grants(items: seq<BasketItem>, uid: int): (r: seq<LibraryEntry>)
    ensures |r| == |items|
    ensures forall k :: 0 <= k < |items| ==> r[k] == LibraryEntry(uid, items[k].gameId)
  {
    seq(|items|, k requires 0 <= k < |items| => LibraryEntry(uid, items[k].gameId))
  }

  /** A unique basket joins to items with pairwise different games. */
  lemma {:induction false} BasketItemsDistinct(basket: seq<BasketRow>, games: map<int, Game>, uid: int)
    requires BasketUnique(basket)
    ensures DistinctGames(BasketItems(basket, games, uid))
  {
    if basket != [] {
      var rest := BasketItems(basket[1..], games, uid);
      assert BasketUnique(basket[1..]) by {
        forall i, j | 0 <= i < j < |basket[1..]| ensures Apart(basket[1..][i], basket[1..][j]) {
          assert basket[1..][i] == basket[i + 1] && basket[1..][j] == basket[j + 1];
        }
      }
      BasketItemsDistinct(basket[1..], games, uid);
      var row := basket[0];
      if row.uid == uid && row.gameId in games {
        var items := BasketItems(basket, games, uid);
        assert items == [BasketItem(row.bid, row.gameId, games[row.gameId].name, games[row.gameId].price)] + rest;
        assert forall k :: 1 <= k < |items| ==> items[k] == rest[k - 1];
        forall i, j | 0 <= i < j < |items| ensures items[i].gameId != items[j].gameId {
          if i == 0 {
            var other := BasketRow(rest[j - 1].bid, uid, rest[j - 1].gameId);
            assert other in basket[1..];
            var m :| 0 <= m < |basket[1..]| && basket[1..][m] == other;
            assert Apart(basket[0], basket[m + 1]);
            assert items[0].gameId == row.gameId;
            assert items[j].gameId == other.gameId;
          } else {
            assert items[i] == rest[i - 1] && items[j] == rest[j - 1];
            assert rest[i - 1].gameId != rest[j - 1].gameId;
          }
        }
      }
    }
  }

  /** Granting the games of a unique basket whose games the user does not own
      keeps the library free of duplicates. */
  lemma GrantsKeepLibraryUnique(library: seq<LibraryEntry>, items: seq<BasketItem>, uid: int)
    requires LibraryUnique(library)
    requires DistinctGames(items)
    requires forall k :: 0 <= k < |items| ==> !Owns(library, uid, items[k].gameId)
    ensures LibraryUnique(library + Grants(items, uid))
  {
    var g := Grants(items, uid);
    var l := library + g;
    forall i, j | 0 <= i < j < |l| ensures l[i] != l[j] {
      if j >= |library| {
        assert l[j] == g[j - |library|];
        if i >= |library| {
          assert l[i] == g[i - |library|];
        } else {
          assert l[i] in library;
        }
      }
    }
  }
}
