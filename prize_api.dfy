/** The prize draw handler: `randPrize` and the draws it dispatches to, each
    an ordered sequence of statements on the lottery tables. */
module PrizeApi {
  import opened Common
  import opened Lottery

  /** What `rand4t` returns: nothing for an `is_sold` other than 0 or 1,
      "HAVE NOT LOTTO NUMBER", or the tier-4 suffix and how many rows won. */
  datatype Tier4Msg = NoTier1Number | Tier4Drawn(lottoNum: string, count: nat)

  /** The JSON body of a draw. `Drawn` carries the fields of `updateData`'s
      message, merged with `rand4t`'s when tier 1 was drawn. */
  datatype DrawMsg =
    | NoLottoNumber                         // "HAVE NOT LOTTO NUMBER"
    | NoLottos                              // "HAVE NOT LOTTOS NUMBER"
    | WrongTier                             // the request does not name tier 1 to 3
    | Tier5Drawn(randLast2Num: string, numGotPrizes: nat)
    | Drawn(tier: int, lottoRand: string, uidGetPrize: Option<int>, tier4: Option<Tier4Msg>)

  /** `rand4t(is_sold)`: derive tier 4 from the tier-1 number. */
  method Rand4t(db: LottoDb, isSold: int) returns (m: Option<Tier4Msg>)
    modifies db
    ensures isSold != 0 && isSold != 1 ==> m.None? && unchanged(db)
    ensures (isSold == 0 || isSold == 1) && 1 !in old(db.prizes) ==> m == Some(NoTier1Number) && unchanged(db)
    ensures (isSold == 0 || isSold == 1) && 1 in old(db.prizes) ==>
      var suffix := SqlSubstring(old(db.prizes)[1], 4, 3);
      && db.State() == DeriveTier4(old(db.State()), isSold == 0)
      && m == Some(Tier4Drawn(suffix, CountTier(db.lottos, 4)))
  {
    if isSold != 0 && isSold != 1 {
      return None;
    }
    if 1 !in db.prizes {
      return Some(NoTier1Number);
    }
    var t4 := SqlSubstring(db.prizes[1], 4, 3);
    db.prizes := SetPrize(db.prizes, 4, t4);
    db.lottos := ResetTier(db.lottos, 4);
    db.lottos := AssignSuffix(db.lottos, 4, t4, isSold == 0);
    m := Some(Tier4Drawn(t4, CountTier(db.lottos, 4)));
  }

  /** `rand5t(pt, is_sold)`: draw a two-digit suffix and give tier 5 to the
      tickets that end with it. */
  method Rand5t(db: LottoDb, pt: int, isSold: int, rand: real) returns (msg: DrawMsg)
    requires 0.0 <= rand < 1.0
    modifies db
    ensures !(pt == 5 && (isSold == 0 || isSold == 1)) ==> msg == NoLottoNumber && unchanged(db)
    ensures pt == 5 && (isSold == 0 || isSold == 1) ==>
      var suffix := Pad2(PickIndex(rand, 100));
      && db.State() == DrawTier5(old(db.State()), suffix, isSold == 0)
      && msg == Tier5Drawn(suffix, CountTier(db.lottos, 5))
      && (forall k :: 0 <= k < |db.lottos| ==>
            (db.lottos[k].pid == 5 <==> Eligible(old(db.lottos)[k], suffix, isSold == 0, HeldNumbers(old(db.lottos)))))
      && (forall k :: 0 <= k < |db.lottos| && 0 < old(db.lottos)[k].pid < 5 ==> db.lottos[k] == old(db.lottos)[k])
  {
    var randLast2Num := Pad2(PickIndex(rand, 100));
    if pt == 5 && (isSold == 0 || isSold == 1) {
      ghost var before := db.State();
      db.prizes := SetPrize(db.prizes, 5, randLast2Num);
      db.lottos := ResetTier(db.lottos, 5);
      db.lottos := AssignSuffix(db.lottos, 5, randLast2Num, isSold == 0);
      msg := Tier5Drawn(randLast2Num, CountTier(db.lottos, 5));
      Tier5Exact(before, randLast2Num, isSold == 0);
    } else {
      msg := NoLottoNumber;
    }
  }

  /** `updateData(pt, pool, is_sold)`: draw a ticket of the pool for tier
      `pt`; drawing tier 1 also derives tier 4. The draws call it with an
      `is_sold` of 0 or 1 and a pool that is not empty. */
  method UpdateData(db: LottoDb, pt: int, pool: seq<Lotto>, isSold: int, rand: real) returns (msg: DrawMsg)
    requires pool != [] && 0.0 <= rand < 1.0
    requires isSold == 0 || isSold == 1
    modifies db
    ensures var drawn := pool[PickIndex(rand, |pool|)];
      && db.State() == Draw(old(db.State()), pt, drawn.lottoNumber, isSold == 0)
      && msg.Drawn? && msg.tier == pt && msg.lottoRand == drawn.lottoNumber && msg.uidGetPrize == drawn.uid
      && (pt != 1 <==> msg.tier4.None?)
      && (pt == 1 ==> msg.tier4 == Some(if 1 in old(db.prizes)
                                        then Tier4Drawn(SqlSubstring(drawn.lottoNumber, 4, 3), CountTier(db.lottos, 4))
                                        else NoTier1Number))
  {
    var ranNum := PickIndex(rand, |pool|);
    var lottoRand := pool[ranNum].lottoNumber;
    db.prizes := SetPrize(db.prizes, pt, lottoRand);
    db.lottos := ResetTier(db.lottos, pt);
    db.lottos := AssignNumber(db.lottos, pt, lottoRand);
    msg := Drawn(pt, lottoRand, pool[ranNum].uid, None);
    if pt == 1 {
      var msg2 := Rand4t(db, isSold);
      msg := msg.(tier4 := msg2);
    }
  }

  /** The tickets `rand1_3t` draws from: the sold ones for `is_sold` 0, all
      of them for 1. */
  function Pool(isSold: int, all: seq<Lotto>, sold: seq<Lotto>): seq<Lotto> {
    if isSold == 0 then sold else all
  }

  /** `rand1_3t(pt, is_sold)`, given the rows `allLottos()` and
      `soldLottos()` return. */
  method Rand1To3(db: LottoDb, pt: int, isSold: int, all: seq<Lotto>, sold: seq<Lotto>, rand: real) returns (msg: DrawMsg)
    requires 0.0 <= rand < 1.0
    modifies db
    ensures !(0 < pt <= 3 && (isSold == 0 || isSold == 1)) ==> msg == WrongTier && unchanged(db)
    ensures 0 < pt <= 3 && (isSold == 0 || isSold == 1) ==>
      var pool := Pool(isSold, all, sold);
      && (pool == [] ==> msg == NoLottos && unchanged(db))
      && (pool != [] ==>
            msg.Drawn? && db.State() == Draw(old(db.State()), pt, pool[PickIndex(rand, |pool|)].lottoNumber, isSold == 0))
  {
    if isSold == 0 && pt > 0 && pt <= 3 {
      if |sold| <= 0 {
        return NoLottos;
      }
      msg := UpdateData(db, pt, sold, isSold, rand);
    } else if isSold == 1 && pt > 0 && pt <= 3 {
      if |all| <= 0 {
        return NoLottos;
      }
      msg := UpdateData(db, pt, all, isSold, rand);
    } else {
      msg := WrongTier;
    }
  }

  /** The guard of `randPrize` on `Number(prize)` and `Number(is_sold)`. */
  predicate InRange(prize: Num, isSold: Num) {
    prize.Finite? && 0 < prize.v <= 5 && isSold.Finite? && 0 <= isSold.v <= 1
  }

  /** `randPrize`: 404 unless the prize is 1 to 5 and `is_sold` is 0 or 1;
      otherwise 200 with the message of the tier-5 draw or of `rand1_3t`. */
  method RandPrize(db: LottoDb, prize: Num, isSold: Num, all: seq<Lotto>, sold: seq<Lotto>, rand: real)
    returns (r: Reply<DrawMsg>)
    requires 0.0 <= rand < 1.0
    modifies db
    ensures r.Failure? <==> !InRange(prize, isSold)
    ensures r.Failure? ==> r.status == 404 && unchanged(db)
    ensures r.Success? ==> r.status == 200
    ensures r.Success? && prize.v == 5 ==>
      var suffix := Pad2(PickIndex(rand, 100));
      db.State() == DrawTier5(old(db.State()), suffix, isSold.v == 0) && r.body == Tier5Drawn(suffix, CountTier(db.lottos, 5))
    ensures r.Success? && prize.v == 4 ==> r.body == WrongTier && unchanged(db)
    ensures r.Success? && prize.v < 4 ==>
      var pool := Pool(isSold.v, all, sold);
      && (pool == [] ==> r.body == NoLottos && unchanged(db))
      && (pool != [] ==> db.State() == Draw(old(db.State()), prize.v, pool[PickIndex(rand, |pool|)].lottoNumber, isSold.v == 0))
  {
    if InRange(prize, isSold) {
      var msg;
      if prize.v == 5 {
        msg := Rand5t(db, prize.v, isSold.v, rand);
      } else {
        msg := Rand1To3(db, prize.v, isSold.v, all, sold, rand);
      }
      r := Success(200, msg);
    } else {
      r := Failure(404);
    }
  }
}
