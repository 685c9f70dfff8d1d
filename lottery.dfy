/** The lottery tables (`Lottos`, `Prizes`) and the SQL statements the prize
    draw runs on them, each statement as a function from table to table. */
module Lottery {
  import opened Common

  /** A row of `Lottos`: the ticket's number, `is_sold` (1 once sold), its
      owner, and `pid`, the prize tier it holds (0 for none). */
  datatype Lotto = Lotto(lottoNumber: string, isSold: int, uid: Option<int>, pid: int)

  /** Both tables: `Lottos` in table order, and `Prizes` as prize_tier to
      lotto_number (the winning number, or the winning suffix for tiers 4
      and 5). */
  datatype Tables = Tables(lottos: seq<Lotto>, prizes: map<int, string>)

  class LottoDb {
    var lottos: seq<Lotto>
    var prizes: map<int, string>

    function State(): Tables
      reads this
    {
      Tables(lottos, prizes)
    }

    constructor (lottos: seq<Lotto>, prizes: map<int, string>)
      ensures State() == Tables(lottos, prizes)
    {
      this.lottos, this.prizes := lottos, prizes;
    }
  }

  // ---------------------------------------------------------------------
  // The statements

  /** `UPDATE Prizes SET lotto_number = ? WHERE prize_tier = ?`: no change
      when the tier has no row. */
  function SetPrize(prizes: map<int, string>, tier: int, number: string): (r: map<int, string>)
    ensures r.Keys == prizes.Keys
    ensures tier in prizes ==> r[tier] == number
    ensures forall t :: t in prizes && t != tier ==> r[t] == prizes[t]
  {
    if tier in prizes then prizes[tier := number] else prizes
  }

  /** `UPDATE Lottos SET pid = 0 WHERE pid = ?` */
  function ResetTier(lottos: seq<Lotto>, tier: int): (r: seq<Lotto>)
    ensures |r| == |lottos|
    ensures forall k :: 0 <= k < |r| ==> r[k] == if lottos[k].pid == tier then lottos[k].(pid := 0) else lottos[k]
  {
    seq(|lottos|, k requires 0 <= k < |lottos| =>
      if lottos[k].pid == tier then lottos[k].(pid := 0) else lottos[k])
  }

  /** `UPDATE Lottos SET pid = ? WHERE lotto_number = ?` */
  function AssignNumber(lottos: seq<Lotto>, tier: int, number: string): (r: seq<Lotto>)
    ensures |r| == |lottos|
    ensures forall k :: 0 <= k < |r| ==>
      r[k] == if lottos[k].lottoNumber == number then lottos[k].(pid := tier) else lottos[k]
  {
    seq(|lottos|, k requires 0 <= k < |lottos| =>
      if lottos[k].lottoNumber == number then lottos[k].(pid := tier) else lottos[k])
  }

  /** `SELECT lotto_number FROM Lottos WHERE pid < 5 AND pid > 0`: the
      numbers that hold one of the tiers 1 to 4. */
  function HeldNumbers(lottos: seq<Lotto>): set<string> {
    set l | l in lottos && 0 < l.pid < 5 :: l.lottoNumber
  }

  /** `lotto_number LIKE '%suffix'` for a suffix of digits. */
  predicate EndsWith(s: string, suffix: string) {
    |suffix| <= |s| && s[|s| - |suffix|..] == suffix
  }

  /** The rows a suffix draw assigns: the number ends with the suffix, the
      ticket is sold when only sold tickets take part, and its number holds
      none of the tiers 1 to 4. */
  predicate Eligible(l: Lotto, suffix: string, soldOnly: bool, held: set<string>) {
    EndsWith(l.lottoNumber, suffix) && (!soldOnly || l.isSold == 1) && l.lottoNumber !in held
  }

  function MarkEligible(lottos: seq<Lotto>, tier: int, suffix: string, soldOnly: bool, held: set<string>): (r: seq<Lotto>)
    ensures |r| == |lottos|
    ensures forall k :: 0 <= k < |r| ==>
      r[k] == if Eligible(lottos[k], suffix, soldOnly, held) then lottos[k].(pid := tier) else lottos[k]
  {
    seq(|lottos|, k requires 0 <= k < |lottos| =>
      if Eligible(lottos[k], suffix, soldOnly, held) then lottos[k].(pid := tier) else lottos[k])
  }

  /** `UPDATE Lottos SET pid = ? WHERE lotto_number like ? [AND is_sold = 1]
      AND lotto_number NOT IN (SELECT ... WHERE pid < 5 AND pid > 0)`. The
      subquery is materialised before the update, so the held numbers are
      those of the table the statement starts from. */
  function AssignSuffix(lottos: seq<Lotto>, tier: int, suffix: string, soldOnly: bool): seq<Lotto> {
    MarkEligible(lottos, tier, suffix, soldOnly, HeldNumbers(lottos))
  }

  /** `SELECT COUNT(lotto_number) FROM Lottos WHERE pid = ?` */
  function CountTier(lottos: seq<Lotto>, tier: int): nat {
    if lottos == [] then 0 else (if lottos[0].pid == tier then 1 else 0) + CountTier(lottos[1..], tier)
  }

  /** The number of rows a suffix draw would assign. */
  function CountEligible(lottos: seq<Lotto>, suffix: string, soldOnly: bool, held: set<string>): nat {
    if lottos == [] then 0
    else (if Eligible(lottos[0], suffix, soldOnly, held) then 1 else 0) + CountEligible(lottos[1..], suffix, soldOnly, held)
  }

  /** SQL's `SUBSTRING(s, pos, len)` for a position counted from 1. */
  function SqlSubstring(s: string, pos: nat, len: nat): (r: string)
    requires pos >= 1
    ensures |r| <= len
    ensures pos - 1 + len <= |s| ==> r == s[pos - 1..pos - 1 + len]
  {
    if pos - 1 >= |s| then ""
    else if pos - 1 + len <= |s| then s[pos - 1..pos - 1 + len]
    else s[pos - 1..]
  }

  /** `Math.floor(Math.random() * len)` for a random value in [0, 1). */
  function PickIndex(rand: real, len: nat): (i: nat)
    requires 0.0 <= rand < 1.0 && len > 0
    ensures i < len
  {
    var x := rand * len as real;
    assert x < len as real;
    x.Floor
  }

  function DigitChar(d: nat): char
    requires d < 10
  {
    ('0' as int + d) as char
  }

  /** `String(n).padStart(2, "0")` */
  function Pad2(n: nat): string
    requires n < 100
  {
    [DigitChar(n / 10), DigitChar(n % 10)]
  }

  /** The value of a two-digit string. */
  function TwoDigitValue(s: string): int
    requires |s| == 2
  {
    (s[0] as int - '0' as int) * 10 + (s[1] as int - '0' as int)
  }

  /** The padded suffix is two digits that read back as the drawn value. */
  lemma Pad2RoundTrip(n: nat)
    requires n < 100
    ensures |Pad2(n)| == 2 && '0' <= Pad2(n)[0] <= '9' && '0' <= Pad2(n)[1] <= '9'
    ensures TwoDigitValue(Pad2(n)) == n
  {
  }

  // ---------------------------------------------------------------------
  // The draws, as sequences of statements

  /** `updateData` for tier `pt` and the drawn number: record it in
      `Prizes`, clear the tier, and give the tier to every row with that
      number; drawing tier 1 then derives tier 4. */
  function Draw(t: Tables, pt: int, number: string, soldOnly: bool): Tables {
    var drawn := Tables(AssignNumber(ResetTier(t.lottos, pt), pt, number), SetPrize(t.prizes, pt, number));
    if pt == 1 then DeriveTier4(drawn, soldOnly) else drawn
  }

  /** `rand4t`: with no tier-1 row nothing changes; otherwise characters 4
      to 6 of the tier-1 number become the tier-4 suffix. */
  function DeriveTier4(t: Tables, soldOnly: bool): Tables {
    if 1 !in t.prizes then t
    else
      var suffix := SqlSubstring(t.prizes[1], 4, 3);
      Tables(AssignSuffix(ResetTier(t.lottos, 4), 4, suffix, soldOnly), SetPrize(t.prizes, 4, suffix))
  }

  /** `rand5t` for a drawn suffix. */
  function DrawTier5(t: Tables, suffix: string, soldOnly: bool): Tables {
    Tables(AssignSuffix(ResetTier(t.lottos, 5), 5, suffix, soldOnly), SetPrize(t.prizes, 5, suffix))
  }

  // ---------------------------------------------------------------------
  // Properties of the draws

  /** After a tier 1 to 3 draw the tier is held by exactly the rows with the
      drawn number, `Prizes` records that number, and every other row is
      unchanged unless it held the tier before. */
  lemma DrawHoldersExact(t: Tables, pt: int, number: string, soldOnly: bool)
    requires 2 <= pt <= 3
    ensures var r := Draw(t, pt, number, soldOnly);
      && |r.lottos| == |t.lottos|
      && (pt in t.prizes ==> r.prizes[pt] == number)
      && (forall k :: 0 <= k < |r.lottos| ==> (r.lottos[k].pid == pt <==> t.lottos[k].lottoNumber == number))
      && (forall k :: 0 <= k < |r.lottos| && t.lottos[k].lottoNumber != number && t.lottos[k].pid != pt ==>
            r.lottos[k] == t.lottos[k])
  {
  }

  /** The same for tier 1, on the rows the derived tier-4 draw leaves with
      tier 1: the drawn number's rows keep tier 1, and no other row has it. */
  lemma Tier1HoldersExact(t: Tables, number: string, soldOnly: bool)
    requires exists k :: 0 <= k < |t.lottos| && t.lottos[k].lottoNumber == number
    ensures var r := Draw(t, 1, number, soldOnly);
      && |r.lottos| == |t.lottos|
      && (1 in t.prizes ==> r.prizes[1] == number)
      && (forall k :: 0 <= k < |r.lottos| ==> (r.lottos[k].pid == 1 <==> t.lottos[k].lottoNumber == number))
  {
    var drawn := Tables(AssignNumber(ResetTier(t.lottos, 1), 1, number), SetPrize(t.prizes, 1, number));
    if 1 in drawn.prizes {
      var suffix := SqlSubstring(drawn.prizes[1], 4, 3);
      var reset := ResetTier(drawn.lottos, 4);
      var k :| 0 <= k < |t.lottos| && t.lottos[k].lottoNumber == number;
      assert reset[k] in reset && 0 < reset[k].pid < 5;
      assert number in HeldNumbers(reset);
    }
  }

  /** Drawing tier 1 derives tier 4 from it: when both rows exist and the
      number has six digits, the tier-4 suffix is its characters 4 to 6,
      and the tier-4 holders are exactly the eligible rows for it. */
  lemma Tier4FollowsTier1(t: Tables, number: string, soldOnly: bool)
    requires 1 in t.prizes && 4 in t.prizes && |number| == 6
    ensures var r := Draw(t, 1, number, soldOnly);
      && r.prizes[1] == number
      && r.prizes[4] == number[3..6] == r.prizes[1][3..]
      && EndsWith(number, r.prizes[4])
      && |r.lottos| == |t.lottos|
      && (forall k :: 0 <= k < |r.lottos| && r.lottos[k].pid == 4 ==> EndsWith(t.lottos[k].lottoNumber, number[3..]))
  {
  }

  /** Clearing tier 5 changes none of the numbers that hold tiers 1 to 4. */
  lemma {:induction false} ResetTier5KeepsHeld(lottos: seq<Lotto>)
    ensures HeldNumbers(ResetTier(lottos, 5)) == HeldNumbers(lottos)
  {
    var r := ResetTier(lottos, 5);
    forall n | n in HeldNumbers(lottos) ensures n in HeldNumbers(r) {
      var l :| l in lottos && 0 < l.pid < 5 && l.lottoNumber == n;
      var k :| 0 <= k < |lottos| && lottos[k] == l;
      assert r[k] == l;
    }
    forall n | n in HeldNumbers(r) ensures n in HeldNumbers(lottos) {
      var l :| l in r && 0 < l.pid < 5 && l.lottoNumber == n;
      var k :| 0 <= k < |r| && r[k] == l;
      assert lottos[k] == l;
    }
  }

  /** A tier-5 draw leaves every holder of tiers 1 to 4 as it was, gives
      tier 5 exactly to the eligible rows (numbers holding none of tiers 1
      to 4), and records the suffix. */
  lemma Tier5Exact(t: Tables, suffix: string, soldOnly: bool)
    ensures var r := DrawTier5(t, suffix, soldOnly);
      && |r.lottos| == |t.lottos|
      && (5 in t.prizes ==> r.prizes[5] == suffix)
      && (forall k :: 0 <= k < |t.lottos| && 0 < t.lottos[k].pid < 5 ==> r.lottos[k] == t.lottos[k])
      && (forall k :: 0 <= k < |t.lottos| ==>
            (r.lottos[k].pid == 5 <==> Eligible(t.lottos[k], suffix, soldOnly, HeldNumbers(t.lottos))))
  {
    ResetTier5KeepsHeld(t.lottos);
    var r := DrawTier5(t, suffix, soldOnly);
    forall k | 0 <= k < |t.lottos| && 0 < t.lottos[k].pid < 5 ensures r.lottos[k] == t.lottos[k] {
      assert t.lottos[k] in t.lottos;
    }
  }

  /** The tier-4 draw leaves the holders of tiers 1 to 3 as they were. A
      row holding tier 5 is not protected: it can be moved to tier 4. */
  lemma Tier4KeepsTopTiers(t: Tables, soldOnly: bool)
    ensures var r := DeriveTier4(t, soldOnly);
      forall k :: 0 <= k < |t.lottos| && 0 < t.lottos[k].pid < 4 ==> r.lottos[k] == t.lottos[k]
  {
    if 1 in t.prizes {
      var reset := ResetTier(t.lottos, 4);
      forall k | 0 <= k < |t.lottos| && 0 < t.lottos[k].pid < 4
        ensures t.lottos[k].lottoNumber in HeldNumbers(reset)
      {
        assert reset[k] in reset;
      }
    }
  }

  /** The count the suffix draws report is the number of eligible rows,
      since the tier was cleared before the assignment. */
  lemma {:induction false} CountAfterMark(lottos: seq<Lotto>, tier: int, suffix: string, soldOnly: bool, held: set<string>)
    requires forall k :: 0 <= k < |lottos| ==> lottos[k].pid != tier
    ensures CountTier(MarkEligible(lottos, tier, suffix, soldOnly, held), tier) == CountEligible(lottos, suffix, soldOnly, held)
  {
    if lottos != [] {
      var r := MarkEligible(lottos, tier, suffix, soldOnly, held);
      assert r[1..] == MarkEligible(lottos[1..], tier, suffix, soldOnly, held);
      CountAfterMark(lottos[1..], tier, suffix, soldOnly, held);
    }
  }

  /** The count `rand4t` reports: the eligible rows once tier 4 is cleared. */
  lemma Tier4Count(t: Tables, soldOnly: bool)
    requires 1 in t.prizes
    ensures var reset := ResetTier(t.lottos, 4);
      CountTier(DeriveTier4(t, soldOnly).lottos, 4)
        == CountEligible(reset, SqlSubstring(t.prizes[1], 4, 3), soldOnly, HeldNumbers(reset))
  {
    var reset := ResetTier(t.lottos, 4);
    CountAfterMark(reset, 4, SqlSubstring(t.prizes[1], 4, 3), soldOnly, HeldNumbers(reset));
  }

  /** `numGotPrizes` of a tier-5 draw: the eligible rows of the table it
      started from. */
  lemma Tier5Count(t: Tables, suffix: string, soldOnly: bool)
    ensures CountTier(DrawTier5(t, suffix, soldOnly).lottos, 5)
         == CountEligible(ResetTier(t.lottos, 5), suffix, soldOnly, HeldNumbers(t.lottos))
  {
    ResetTier5KeepsHeld(t.lottos);
    CountAfterMark(ResetTier(t.lottos, 5), 5, suffix, soldOnly, HeldNumbers(ResetTier(t.lottos, 5)));
  }
}
