/** Battle pass: XP, one claim per level, wallet bonuses, and premium purchases. */
module BattlePass {
  import opened Common
  import opened Lists
  import opened Joins
  import opened Wallet

  datatype Season = Season(id: Id, premiumCents: int)

  datatype Reward = Reward(seasonId: Id, level: int, premiumOnly: bool, cosmeticId: Option<Id>, walletBonusCents: int)

  datatype Pass = Pass(isPremium: bool, currentXp: nat, claimedLevels: seq<int>)

  type PassKey = (Id, Id) // (operatorId, seasonId)

  datatype PassError =
    | NoOperatorProfile | NoSeason | NoProgress | LevelNotReached | AlreadyClaimed | CreditFailed
    | InsufficientFunds | GrantFailed

  function XpToLevel(xp: nat): int {
    xp / 1000 + 1
  }

  predicate Applies(r: Reward, premium: bool) {
    !r.premiumOnly || premium
  }

  function AtLevel(seasonId: Id, level: int): Reward -> bool {
    (r: Reward) => r.seasonId == seasonId && r.level == level
  }

  function RewardsOf(rewards: seq<Reward>, seasonId: Id, level: int): seq<Reward> {
    Filter(rewards, AtLevel(seasonId, level))
  }

  /** What one reward is worth in money to a player. */
  function Bonus(premium: bool): Reward -> int {
    (r: Reward) => if Applies(r, premium) && r.walletBonusCents > 0 then r.walletBonusCents else 0
  }

  function BonusEntry(op: Id, r: Reward): Entry {
    CreditEntry(op, r.walletBonusCents, REFERRAL_BONUS, None)
  }

  /** The credit of one reward, if it has one; None when it does not fit. */
  function PayBonus(b: Books, r: Reward, op: Id, premium: bool): Option<Books> {
    if Bonus(premium)(r) == 0 then Some(b)
    else
      var o := Opened(b, op);
      if CanPost(o.balances[op], r.walletBonusCents) then Some(Posted(o, BonusEntry(op, r))) else None
  }

  /** The credits of a claim in order; None when one does not fit. */
  function PayBonuses(b: Books, rewards: seq<Reward>, op: Id, premium: bool): Option<Books> {
    if rewards == [] then Some(b)
    else
      var paid := PayBonuses(b, rewards[..|rewards| - 1], op, premium);
      if paid.None? then None else PayBonus(paid.value, rewards[|rewards| - 1], op, premium)
  }

  /** The cosmetics a claim hands out. */
  function Cosmetics(rewards: seq<Reward>, op: Id, premium: bool): set<(Id, Id)> {
    set r | r in rewards && Applies(r, premium) && r.cosmeticId.Some? :: (op, r.cosmeticId.value)
  }

  datatype Passes = Passes(books: Books, passes: map<PassKey, Pass>, owned: set<(Id, Id)>)

  /** The claim of one level of the active season by one operator. */
  function Claim(s: Passes, rewards: seq<Reward>, op: Id, seasonId: Id, level: int): Result<Passes, PassError> {
    var key := (op, seasonId);
    if key !in s.passes then Err(NoProgress)
    else
      var pass := s.passes[key];
      if XpToLevel(pass.currentXp) < level then Err(LevelNotReached)
      else if level in pass.claimedLevels then Err(AlreadyClaimed)
      else
        var due := RewardsOf(rewards, seasonId, level);
        var paid := PayBonuses(s.books, due, op, pass.isPremium);
        if paid.None? then Err(CreditFailed)
        else Ok(Passes(paid.value,
                       s.passes[key := pass.(claimedLevels := pass.claimedLevels + [level])],
                       s.owned + Cosmetics(due, op, pass.isPremium)))
  }

  function AddXp(passes: map<PassKey, Pass>, key: PassKey, amount: nat): map<PassKey, Pass> {
    var pass := OrElse(Lookup(passes, key), Pass(false, 0, []));
    passes[key := pass.(currentXp := pass.currentXp + amount)]
  }

  /** Looking at the progress creates the pass. */
  function ViewPass(passes: map<PassKey, Pass>, key: PassKey): map<PassKey, Pass> {
    if key in passes then passes else passes[key := Pass(false, 0, [])]
  }

  function GrantPremium(passes: map<PassKey, Pass>, key: PassKey): map<PassKey, Pass> {
    var pass := OrElse(Lookup(passes, key), Pass(true, 0, []));
    passes[key := pass.(isPremium := true)]
  }

  /**
   * A debit, committed on its own, and then the grant; `granted` says whether
   * that second write succeeds. A wallet without the price is opened and
   * nothing more.
   */
  function BuyPremium(s: Passes, op: Id, season: Season, granted: bool): Passes {
    var o := Opened(s.books, op);
    if o.balances[op] < season.premiumCents then s.(books := o)
    else s.(books := Posted(o, DebitEntry(op, season.premiumCents, ADJUSTMENT, None)),
            passes := if granted then GrantPremium(s.passes, (op, season.id)) else s.passes)
  }

  // ---------- Premium is charged whenever it can be ----------

  predicate IsPremium(s: Passes, key: PassKey) {
    key in s.passes && s.passes[key].isPremium
  }

  /** A purchase adds a debit row exactly when the balance covers the price, whatever the pass is already. */
  lemma PremiumChargedExactlyWhen(s: Passes, op: Id, season: Season, granted: bool)
    ensures var after := BuyPremium(s, op, season, granted);
            && (after.books.ledger == s.books.ledger + [DebitEntry(op, season.premiumCents, ADJUSTMENT, None)]
                <==> BalanceOf(s.books, op) >= season.premiumCents)
            && (after.books.ledger == s.books.ledger <==> BalanceOf(s.books, op) < season.premiumCents)
            && (IsPremium(after, (op, season.id)) <==>
                IsPremium(s, (op, season.id)) || (granted && BalanceOf(s.books, op) >= season.premiumCents))
  {
  }

  /** n purchases in a row. */
  function BuyPremiumTimes(s: Passes, op: Id, season: Season, n: nat): Passes {
    if n == 0 then s else BuyPremium(BuyPremiumTimes(s, op, season, n - 1), op, season, true)
  }

  /** How often the price goes into a balance, and at most n times. */
  function Charges(balance: int, price: int, n: nat): int
    requires balance >= 0 && price > 0
  {
    if balance / price < n then balance / price else n
  }

  /** The pass is premium after the first charge, but every further purchase the balance covers is charged as well. */
  lemma {:induction false} PremiumChargesAddUp(s: Passes, op: Id, season: Season, n: nat)
    requires BalanceOf(s.books, op) >= 0 && season.premiumCents > 0
    ensures var after := BuyPremiumTimes(s, op, season, n);
        var k := Charges(BalanceOf(s.books, op), season.premiumCents, n);
            && BalanceOf(after.books, op) == BalanceOf(s.books, op) - k * season.premiumCents
            && |after.books.ledger| == |s.books.ledger| + k
            && (k > 0 ==> IsPremium(after, (op, season.id)))
  {
    if n > 0 {
      PremiumChargesAddUp(s, op, season, n - 1);
      OneMoreCharge(BalanceOf(s.books, op), season.premiumCents, n);
    }
  }

  lemma OneMoreCharge(balance: int, price: int, n: nat)
    requires balance >= 0 && price > 0 && n > 0
    ensures var k := Charges(balance, price, n - 1);
            Charges(balance, price, n) == if balance - k * price >= price then k + 1 else k
    ensures var k := Charges(balance, price, n - 1); (k + 1) * price == k * price + price
  {
    var q := balance / price;
    assert balance == q * price + balance % price;
    if n <= q {
      assert n * price <= q * price;
      assert (n - 1) * price == n * price - price;
    }
  }

  /** Buying premium twice debits twice, as soon as the balance covers the price twice. */
  lemma PremiumTwiceDebitsTwice(s: Passes, op: Id, season: Season)
    requires season.premiumCents > 0 && BalanceOf(s.books, op) >= 2 * season.premiumCents
    ensures var once := BuyPremiumTimes(s, op, season, 1); var twice := BuyPremiumTimes(s, op, season, 2);
            && IsPremium(once, (op, season.id))
            && BalanceOf(once.books, op) == BalanceOf(s.books, op) - season.premiumCents
            && BalanceOf(twice.books, op) == BalanceOf(s.books, op) - 2 * season.premiumCents
  {
    var o := BuyPremiumTimes(s, op, season, 0);
    assert BuyPremiumTimes(s, op, season, 1) == BuyPremium(o, op, season, true);
    assert BuyPremiumTimes(s, op, season, 2) == BuyPremium(BuyPremiumTimes(s, op, season, 1), op, season, true);
  }

  // ---------- Claims, in XP and cents ----------

  /** Level L is from 1000 (L - 1) XP on and below 1000 L. */
  lemma LevelInXp(xp: nat, level: int)
    ensures XpToLevel(xp) == level <==> 1000 * (level - 1) <= xp < 1000 * level
    ensures level <= XpToLevel(xp) <==> 1000 * (level - 1) <= xp
  {
  }

  /** The rewards of a level that a player is due: all of them with premium, the free ones without. */
  function Due(seasonId: Id, level: int, premium: bool): Reward -> bool {
    (r: Reward) => r.seasonId == seasonId && r.level == level && (r.premiumOnly ==> premium)
  }

  /** What a reward that is due is worth in money. */
  function Cents(seasonId: Id, level: int, premium: bool): Reward -> int {
    (r: Reward) => if Due(seasonId, level, premium)(r) && r.walletBonusCents > 0 then r.walletBonusCents else 0
  }

  lemma BonusIsCents(rewards: seq<Reward>, seasonId: Id, level: int, premium: bool)
    ensures Sum(RewardsOf(rewards, seasonId, level), Bonus(premium)) == Sum(rewards, Cents(seasonId, level, premium))
  {
    var bonus, cents := Bonus(premium), Cents(seasonId, level, premium);
    forall r | r in rewards ensures cents(r) == if AtLevel(seasonId, level)(r) then bonus(r) else 0 {
      assert Due(seasonId, level, premium)(r) <==> AtLevel(seasonId, level)(r) && Applies(r, premium);
    }
    SumOfFilter(rewards, AtLevel(seasonId, level), bonus, cents);
  }

  lemma {:induction false} BonusesFit(b: Books, rewards: seq<Reward>, op: Id, premium: bool)
    requires -0x8000_0000 <= BalanceOf(b, op) < 0x8000_0000
    requires forall r :: r in rewards ==> r.walletBonusCents < 0x8000_0000
    ensures PayBonuses(b, rewards, op, premium).Some? <==>
            BalanceOf(b, op) + Sum(rewards, Bonus(premium)) < 0x8000_0000
    ensures Sum(rewards, Bonus(premium)) >= 0
    decreases |rewards|
  {
    if rewards != [] {
      var init, r := rewards[..|rewards| - 1], rewards[|rewards| - 1];
      assert rewards == init + [r];
      SumAppend(init, [r], Bonus(premium));
      BonusesFit(b, init, op, premium);
      if PayBonuses(b, init, op, premium).Some? {
        BonusesPaid(b, init, op, premium, op);
      }
    }
  }

  /**
   * A claim goes through exactly when there is a pass with the XP of the level,
   * the level is not claimed, and the money due fits the balance. It marks the
   * level, and hands out exactly the cosmetics due.
   */
  lemma ClaimExactly(s: Passes, rewards: seq<Reward>, op: Id, seasonId: Id, level: int)
    requires -0x8000_0000 <= BalanceOf(s.books, op) < 0x8000_0000
    requires forall r :: r in rewards ==> r.walletBonusCents < 0x8000_0000
    ensures var key := (op, seasonId); var r := Claim(s, rewards, op, seasonId, level);
            && (r.Ok? <==>
                  && key in s.passes && s.passes[key].currentXp >= 1000 * (level - 1)
                  && level !in s.passes[key].claimedLevels
                  && BalanceOf(s.books, op) + Sum(rewards, Cents(seasonId, level, s.passes[key].isPremium))
                     < 0x8000_0000)
            && (r.Ok? ==>
                  var was := s.passes[key];
                  && r.value.passes ==
                     s.passes[key := Pass(was.isPremium, was.currentXp, was.claimedLevels + [level])]
                  && forall o: Id, c: Id :: (o, c) in r.value.owned <==>
                       (o, c) in s.owned || (o == op && Hands(rewards, seasonId, level, was.isPremium, c)))
  {
    var key := (op, seasonId);
    if key in s.passes {
      var premium := s.passes[key].isPremium;
      LevelInXp(s.passes[key].currentXp, level);
      BonusIsCents(rewards, seasonId, level, premium);
      BonusesFit(s.books, RewardsOf(rewards, seasonId, level), op, premium);
      forall o: Id, c: Id
        ensures (o, c) in Cosmetics(RewardsOf(rewards, seasonId, level), op, premium) <==>
                o == op && Hands(rewards, seasonId, level, premium, c)
      {
        CosmeticsExactly(rewards, op, seasonId, level, premium, o, c);
      }
    }
  }

  /** Some reward due carries the cosmetic. */
  predicate Hands(rewards: seq<Reward>, seasonId: Id, level: int, premium: bool, cosmetic: Id) {
    exists r :: r in rewards && Due(seasonId, level, premium)(r) && r.cosmeticId == Some(cosmetic)
  }

  lemma CosmeticsExactly(rewards: seq<Reward>, op: Id, seasonId: Id, level: int, premium: bool, o: Id, c: Id)
    ensures (o, c) in Cosmetics(RewardsOf(rewards, seasonId, level), op, premium) <==>
            o == op && Hands(rewards, seasonId, level, premium, c)
  {
    var due := RewardsOf(rewards, seasonId, level);
    if r :| r in rewards && Due(seasonId, level, premium)(r) && r.cosmeticId == Some(c) && o == op {
      assert AtLevel(seasonId, level)(r) && r in due && Applies(r, premium);
    }
    if (o, c) in Cosmetics(due, op, premium) {
      var r :| r in due && Applies(r, premium) && r.cosmeticId.Some? && (op, r.cosmeticId.value) == (o, c);
      assert Due(seasonId, level, premium)(r);
    }
  }

  /** What one award, look or grant does to each pass: XP adds up, a new pass starts free, empty and unclaimed. */
  lemma PassesAfter(passes: map<PassKey, Pass>, key: PassKey, amount: nat, other: PassKey)
    ensures Lookup(AddXp(passes, key, amount), other) ==
            if other != key then Lookup(passes, other)
            else if key !in passes then Some(Pass(false, amount, []))
            else Some(Pass(passes[key].isPremium, passes[key].currentXp + amount, passes[key].claimedLevels))
    ensures Lookup(ViewPass(passes, key), other) ==
            if other == key && key !in passes then Some(Pass(false, 0, [])) else Lookup(passes, other)
    ensures Lookup(GrantPremium(passes, key), other) ==
            if other != key then Lookup(passes, other)
            else if key !in passes then Some(Pass(true, 0, []))
            else Some(Pass(true, passes[key].currentXp, passes[key].claimedLevels))
  {
  }

  /** A purchase of premium, in cents: debited when the balance covers the price, and granted if that write succeeds. */
  lemma PremiumExactly(s: Passes, op: Id, season: Season, granted: bool)
    ensures var after := BuyPremium(s, op, season, granted);
            && IsDebited(s.books, after.books, season.premiumCents,
                         Entry(op, ADJUSTMENT, TxCompleted, -season.premiumCents, None))
            && after.owned == s.owned
            && after.passes ==
               if BalanceOf(s.books, op) >= season.premiumCents && granted
               then GrantPremium(s.passes, (op, season.id)) else s.passes
  {
    OpenAndDebitExactly(s.books, DebitEntry(op, season.premiumCents, ADJUSTMENT, None));
  }

  // ---------- Invariants ----------

  /** No level is claimed twice, and only reached levels are claimed. */
  ghost predicate PassesOk(passes: map<PassKey, Pass>) {
    forall k :: k in passes ==>
      Distinct(passes[k].claimedLevels) && forall l :: l in passes[k].claimedLevels ==>
          l <= XpToLevel(passes[k].currentXp)
  }

  lemma XpRaisesLevel(a: nat, b: nat)
    requires a <= b
    ensures XpToLevel(a) <= XpToLevel(b)
  {
  }

  lemma AddXpKeepsPasses(passes: map<PassKey, Pass>, key: PassKey, amount: nat)
    requires PassesOk(passes)
    ensures PassesOk(AddXp(passes, key, amount))
  {
    if key in passes {
      XpRaisesLevel(passes[key].currentXp, passes[key].currentXp + amount);
    }
  }

  lemma ClaimKeepsPasses(s: Passes, rewards: seq<Reward>, op: Id, seasonId: Id, level: int)
    requires PassesOk(s.passes)
    ensures var r := Claim(s, rewards, op, seasonId, level); r.Ok? ==> PassesOk(r.value.passes)
  {
  }

  lemma {:induction false} BonusesKeepBalance(b: Books, rewards: seq<Reward>, op: Id, premium: bool)
    requires Balanced(b)
    ensures var paid := PayBonuses(b, rewards, op, premium); paid.Some? ==> Balanced(paid.value)
    decreases |rewards|
  {
    if rewards != [] {
      var init, r := rewards[..|rewards| - 1], rewards[|rewards| - 1];
      BonusesKeepBalance(b, init, op, premium);
      var paid := PayBonuses(b, init, op, premium);
      if paid.Some? && Bonus(premium)(r) > 0 {
        OpenAndCreditKeepsBalance(paid.value, BonusEntry(op, r));
      }
    }
  }

  lemma {:induction false} BonusesKeepMatch(b: Books, rewards: seq<Reward>, op: Id, premium: bool)
    requires Matched(b)
    ensures var paid := PayBonuses(b, rewards, op, premium); paid.Some? ==> Matched(paid.value)
    decreases |rewards|
  {
    if rewards != [] {
      var init, r := rewards[..|rewards| - 1], rewards[|rewards| - 1];
      BonusesKeepMatch(b, init, op, premium);
      var paid := PayBonuses(b, init, op, premium);
      if paid.Some? {
        OpenAndCreditKeepsMatch(paid.value, BonusEntry(op, r));
      }
    }
  }

  lemma ClaimKeepsBooks(s: Passes, rewards: seq<Reward>, op: Id, seasonId: Id, level: int)
    ensures var r := Claim(s, rewards, op, seasonId, level);
            r.Ok? ==> (Matched(s.books) ==> Matched(r.value.books)) && (Balanced(s.books) ==> Balanced(r.value.books))
  {
    if Claim(s, rewards, op, seasonId, level).Ok? {
      var premium := s.passes[(op, seasonId)].isPremium;
      if Matched(s.books) {
        BonusesKeepMatch(s.books, RewardsOf(rewards, seasonId, level), op, premium);
      }
      if Balanced(s.books) {
        BonusesKeepBalance(s.books, RewardsOf(rewards, seasonId, level), op, premium);
      }
    }
  }

  lemma PremiumKeepsBooks(s: Passes, op: Id, season: Season, granted: bool)
    requires season.premiumCents >= 0
    ensures Matched(s.books) ==> Matched(BuyPremium(s, op, season, granted).books)
    ensures Balanced(s.books) ==> Balanced(BuyPremium(s, op, season, granted).books)
  {
    KeepsMatchAndBalance(s.books, DebitEntry(op, season.premiumCents, ADJUSTMENT, None));
  }

  lemma {:induction false} BonusesPaid(b: Books, rewards: seq<Reward>, op: Id, premium: bool, w: Id)
    requires PayBonuses(b, rewards, op, premium).Some?
    ensures var paid := PayBonuses(b, rewards, op, premium).value; var bonus := Sum(rewards, Bonus(premium));
            && BalanceOf(paid, w) == BalanceOf(b, w) + (if w == op then bonus else 0)
            && Total(paid.balances) == Total(b.balances) + bonus
    decreases |rewards|
  {
    if rewards != [] {
      var init, r := rewards[..|rewards| - 1], rewards[|rewards| - 1];
      BonusesPaid(b, init, op, premium, w);
      assert rewards == init + [r];
      SumAppend(init, [r], Bonus(premium));
      PostingMovesItsAmount(PayBonuses(b, init, op, premium).value, BonusEntry(op, r));
    }
  }

  /**
   * A successful claim pays the operator exactly the bonuses of the level that
   * are due to them, pays no one else, and marks the level, which was reached,
   * as claimed.
   */
  lemma ClaimPaysOnce(s: Passes, rewards: seq<Reward>, op: Id, seasonId: Id, level: int, w: Id)
    requires Claim(s, rewards, op, seasonId, level).Ok?
    ensures var after := Claim(s, rewards, op, seasonId, level).value; var pass := s.passes[(op, seasonId)];
            var bonus := Sum(rewards, Cents(seasonId, level, pass.isPremium));
            && BalanceOf(after.books, w) == BalanceOf(s.books, w) + (if w == op then bonus else 0)
            && Total(after.books.balances) == Total(s.books.balances) + bonus
            && pass.currentXp >= 1000 * (level - 1)
            && IsClaimed(after.passes, (op, seasonId), level)
  {
    var pass := s.passes[(op, seasonId)];
    BonusesPaid(s.books, RewardsOf(rewards, seasonId, level), op, pass.isPremium, w);
    BonusIsCents(rewards, seasonId, level, pass.isPremium);
    var claimed := pass.claimedLevels + [level];
    assert claimed[|claimed| - 1] == level;
  }

  predicate IsClaimed(passes: map<PassKey, Pass>, key: PassKey, level: int) {
    key in passes && level in passes[key].claimedLevels
  }

  /** Whatever is done to passes afterwards, a claimed level stays claimed and a new claim of it is refused. */
  lemma ClaimedStaysClaimed(s: Passes, key: PassKey, level: int, rewards: seq<Reward>,
                            other: PassKey, otherLevel: int, amount: nat, season: Season, granted: bool)
    requires IsClaimed(s.passes, key, level)
    ensures Claim(s, rewards, key.0, key.1, level).Err?
    ensures IsClaimed(AddXp(s.passes, other, amount), key, level)
    ensures IsClaimed(ViewPass(s.passes, other), key, level)
    ensures IsClaimed(BuyPremium(s, other.0, season, granted).passes, key, level)
    ensures var r := Claim(s, rewards, other.0, other.1, otherLevel); r.Ok? ==> IsClaimed(r.value.passes, key, level)
  {
  }

  lemma {:induction false} BonusFailureStays(b: Books, rewards: seq<Reward>, op: Id, premium: bool, k: nat)
    requires k <= |rewards| && PayBonuses(b, rewards[..k], op, premium).None?
    ensures PayBonuses(b, rewards, op, premium).None?
    decreases |rewards| - k
  {
    if k < |rewards| {
      assert rewards[..k + 1][..k] == rewards[..k];
      BonusFailureStays(b, rewards, op, premium, k + 1);
    } else {
      assert rewards[..k] == rewards;
    }
  }

  /** The turn of the loop for reward i: what PayBonus and the cosmetic of one more reward add. */
  lemma OneMoreReward(b: Books, due: seq<Reward>, i: nat, op: Id, premium: bool)
    requires i < |due| && PayBonuses(b, due[..i], op, premium).Some?
    ensures PayBonuses(b, due[..i + 1], op, premium) == PayBonus(PayBonuses(b, due[..i], op, premium).value, due[i],
        op, premium)
    ensures Cosmetics(due[..i + 1], op, premium) ==
            Cosmetics(due[..i], op, premium)
            + if Applies(due[i], premium) && due[i].cosmeticId.Some? then {(op, due[i].cosmeticId.value)} else {}
    ensures PayBonuses(b, due[..i + 1], op, premium).None? ==> PayBonuses(b, due, op, premium).None?
  {
    assert due[..i + 1] == due[..i] + [due[i]] && due[..i + 1][..i] == due[..i];
    CosmeticsOfOneMore(due[..i], due[i], op, premium);
    if PayBonuses(b, due[..i + 1], op, premium).None? {
      BonusFailureStays(b, due, op, premium, i + 1);
    }
  }

  lemma CosmeticsOfOneMore(init: seq<Reward>, r: Reward, op: Id, premium: bool)
    ensures Cosmetics(init + [r], op, premium) ==
            Cosmetics(init, op, premium) + if Applies(r, premium) && r.cosmeticId.Some? then {(op, r.cosmeticId.value)}
                else {}
  {
    assert forall x :: x in init + [r] <==> x in init || x == r;
  }

  // ---------- The service ----------

  class BattlePassService {
    const wallets: WalletService
    var season: Option<Season> // the active one
    var rewards: seq<Reward>
    var passes: map<PassKey, Pass>
    var owned: set<(Id, Id)> // (operatorId, cosmeticId)

    constructor (wallets: WalletService, season: Option<Season>, rewards: seq<Reward>)
      ensures this.wallets == wallets && this.season == season && this.rewards == rewards
      ensures passes == map[] && owned == {} && PassesOk(passes)
    {
      this.wallets, this.season, this.rewards := wallets, season, rewards;
      passes, owned := map[], {};
    }

    ghost function ThePasses(): Passes
      reads this, wallets
    {
      Passes(wallets.TheBooks(), passes, owned)
    }

    method AwardXp(operatorId: Id, amount: int) returns (r: Result<(), PassError>)
      requires PassesOk(passes)
      modifies this`passes
      ensures PassesOk(passes)
      ensures passes == if amount > 0 && season.Some? then AddXp(old(passes), (operatorId, season.value.id), amount)
          else old(passes)
      ensures r == if amount > 0 && season.None? then Err(NoSeason) else Ok(())
    {
      if amount <= 0 {
        return Ok(());
      }
      if season.None? {
        return Err(NoSeason);
      }
      AddXpKeepsPasses(passes, (operatorId, season.value.id), amount);
      var key := (operatorId, season.value.id);
      if key in passes {
        passes := passes[key := passes[key].(currentXp := passes[key].currentXp + amount)];
      } else {
        passes := passes[key := Pass(false, amount, [])];
      }
      return Ok(());
    }

    method GetMyProgress(userId: Id) returns (r: Result<int, PassError>)
      modifies this`passes
      ensures old(PassesOk(passes)) ==> PassesOk(passes)
      ensures passes == if userId in wallets.operators && season.Some?
                        then ViewPass(old(passes), (wallets.operators[userId], season.value.id)) else old(passes)
      ensures r == if userId !in wallets.operators then Err(NoOperatorProfile)
                   else if season.None? then Err(NoSeason)
                   else Ok(XpToLevel(passes[(wallets.operators[userId], season.value.id)].currentXp))
    {
      if userId !in wallets.operators {
        return Err(NoOperatorProfile);
      }
      if season.None? {
        return Err(NoSeason);
      }
      var key := (wallets.operators[userId], season.value.id);
      if key !in passes {
        passes := passes[key := Pass(false, 0, [])];
      }
      return Ok(XpToLevel(passes[key].currentXp));
    }

    /** The loop over rewards inside the transaction. */
    method GiveRewards(due: seq<Reward>, op: Id, premium: bool) returns (ok: bool)
      modifies this`owned, wallets`balances, wallets`ledger
      ensures PayBonuses(old(wallets.TheBooks()), due, op, premium) == if ok then Some(wallets.TheBooks()) else None
      ensures ok ==> owned == old(owned) + Cosmetics(due, op, premium)
    {
      ghost var books := wallets.TheBooks();
      for i := 0 to |due|
        invariant PayBonuses(books, due[..i], op, premium) == Some(wallets.TheBooks())
        invariant owned == old(owned) + Cosmetics(due[..i], op, premium)
      {
        OneMoreReward(books, due, i, op, premium);
        var given := GiveReward(due[i], op, premium);
        if !given {
          return false;
        }
      }
      assert due[..|due|] == due;
      return true;
    }

    /** One turn of the loop. */
    method GiveReward(r: Reward, op: Id, premium: bool) returns (ok: bool)
      modifies this`owned, wallets`balances, wallets`ledger
      ensures PayBonus(old(wallets.TheBooks()), r, op, premium) == if ok then Some(wallets.TheBooks()) else None
      ensures owned == old(owned) + if Applies(r, premium) && r.cosmeticId.Some? then {(op, r.cosmeticId.value)} else {}
    {
      if r.premiumOnly && !premium {
        return true;
      }
      if r.cosmeticId.Some? {
        owned := owned + {(op, r.cosmeticId.value)};
      }
      if r.walletBonusCents > 0 {
        wallets.Upsert(op);
        var credited := wallets.Credit(op, r.walletBonusCents, REFERRAL_BONUS, None);
        return credited.Ok?;
      }
      return true;
    }

    method ClaimLevel(userId: Id, level: int) returns (r: Result<Pass, PassError>)
      requires PassesOk(passes)
      modifies this`passes, this`owned, wallets`balances, wallets`ledger
      ensures PassesOk(passes)
      ensures old(Matched(wallets.TheBooks())) ==> Matched(wallets.TheBooks())
      ensures old(Balanced(wallets.TheBooks())) ==> Balanced(wallets.TheBooks())
      ensures userId !in wallets.operators ==> r == Err(NoOperatorProfile)
      ensures userId in wallets.operators && season.None? ==> r == Err(NoSeason)
      ensures r.Err? ==> ThePasses() == old(ThePasses())
      ensures userId in wallets.operators && season.Some? ==>
                match Claim(old(ThePasses()), rewards, wallets.operators[userId], season.value.id, level)
                case Ok(after) => r.Ok? && ThePasses() == after &&
                    r.value == passes[(wallets.operators[userId], season.value.id)]
                case Err(e) => r == Err(e)
    {
      if userId !in wallets.operators {
        return Err(NoOperatorProfile);
      }
      var op := wallets.operators[userId];
      if season.None? {
        return Err(NoSeason);
      }
      var key := (op, season.value.id);
      ghost var before := ThePasses();
      ClaimKeepsPasses(before, rewards, op, season.value.id, level);
      if key !in passes {
        return Err(NoProgress);
      }
      var pass := passes[key];
      if XpToLevel(pass.currentXp) < level {
        return Err(LevelNotReached);
      }
      if level in pass.claimedLevels {
        return Err(AlreadyClaimed);
      }
      var due := RewardsOf(rewards, season.value.id, level);
      ClaimKeepsBooks(before, rewards, op, season.value.id, level);
      var balances, ledger, owned0 := wallets.balances, wallets.ledger, owned; // for the rollback
      var ok := GiveRewards(due, op, pass.isPremium);
      if !ok {
        wallets.balances, wallets.ledger, owned := balances, ledger, owned0;
        return Err(CreditFailed);
      }
      passes := passes[key := pass.(claimedLevels := pass.claimedLevels + [level])];
      return Ok(passes[key]);
    }

    /**
     * Checks and debits the wallet, then grants; `grantUp` says whether the
     * write of the grant succeeds. It does not look whether the pass is
     * premium already.
     */
    method PurchasePremium(userId: Id, grantUp: bool) returns (r: Result<Pass, PassError>)
      requires PassesOk(passes)
      requires season.Some? ==> season.value.premiumCents >= 0
      modifies this`passes, wallets`balances, wallets`ledger
      ensures PassesOk(passes)
      ensures old(Matched(wallets.TheBooks())) ==> Matched(wallets.TheBooks())
      ensures old(Balanced(wallets.TheBooks())) ==> Balanced(wallets.TheBooks())
      ensures ThePasses() == if userId in wallets.operators && season.Some?
                             then BuyPremium(old(ThePasses()), wallets.operators[userId], season.value, grantUp)
                             else old(ThePasses())
      ensures r == if userId !in wallets.operators then Err(NoOperatorProfile)
                   else if season.None? then Err(NoSeason)
                   else if BalanceOf(old(wallets.TheBooks()),
                       wallets.operators[userId]) < season.value.premiumCents then Err(InsufficientFunds)
                   else if !grantUp then Err(GrantFailed)
                   else Ok(GrantPremium(old(passes),
                       (wallets.operators[userId], season.value.id))[(wallets.operators[userId], season.value.id)])
    {
      if userId !in wallets.operators {
        return Err(NoOperatorProfile);
      }
      if season.None? {
        return Err(NoSeason);
      }
      PremiumKeepsBooks(ThePasses(), wallets.operators[userId], season.value, grantUp);
      var wallet := wallets.GetOrCreate(userId);
      var op := wallet.value;
      if wallets.balances[op] < season.value.premiumCents {
        return Err(InsufficientFunds);
      }
      var debited := wallets.Debit(op, season.value.premiumCents, ADJUSTMENT, None);
      if !grantUp {
        return Err(GrantFailed);
      }
      var key := (op, season.value.id);
      passes := passes[key := if key in passes then passes[key].(isPremium := true) else Pass(true, 0, [])];
      return Ok(passes[key]);
    }
  }
}
