/** Every money-moving operation of the platform, in any order. */
module Platform {
  import opened Common
  import opened Lists
  import Wallet
  import Marketplace
  import BattlePass
  import CosmeticsShop
  import Payments

  datatype World = World(
    operators: map<Id, Id>,
    books: Wallet.Books,
    products: seq<Marketplace.Product>,
    orders: seq<Marketplace.Order>,
    passes: map<BattlePass.PassKey, BattlePass.Pass>,
    rewards: seq<BattlePass.Reward>,
    catalogue: map<Id, CosmeticsShop.Cosmetic>,
    owned: set<(Id, Id)>)

  /** One call by a user, an admin or a provider; a flag says whether a write after a committed debit succeeds. */
  datatype Action =
    | Deposit(userId: Id, cents: int)
    | Withdraw(userId: Id, cents: int)
    | Order(userId: Id, items: seq<Marketplace.Item>, orderId: Id)
    | AddProduct(userId: Id, productId: Id, priceCents: int)
    | UpdateProduct(userId: Id, productId: Id, patch: Marketplace.Patch)
    | RemoveProduct(userId: Id, productId: Id)
    | RemoveByAdmin(productId: Id)
    | CreateOperator(userId: Id, operatorId: Id)
    | ViewWallet(userId: Id)
    | ViewPass(userId: Id, seasonId: Id)
    | BuyCosmetic(userId: Id, cosmeticId: Id, stored: bool)
    | AwardXp(operatorId: Id, seasonId: Id, amount: nat)
    | Claim(userId: Id, seasonId: Id, level: int)
    | BuyPremium(userId: Id, season: BattlePass.Season, stored: bool)
    | Webhook(delivery: Payments.Delivery)

  /** What the request parsers and the price column guarantee; nothing is asked of webhooks. */
  predicate Acceptable(a: Action) {
    match a
    case Order(_, items, _) => Marketplace.ItemsOk(items)
    case AddProduct(_, _, priceCents) => priceCents > 0
    case UpdateProduct(_, _, patch) => Marketplace.PatchOk(patch)
    case BuyPremium(_, season, _) => season.premiumCents >= 0
    case _ => true
  }

  ghost function Step(w: World, a: Action): World {
    match a
    case Deposit(userId, cents) =>
      if cents > 0 && userId in w.operators
      then w.(books := Wallet.OpenAndCredit(w.books, Wallet.CreditEntry(w.operators[userId], cents, Wallet.DEPOSIT,
          None)))
      else w
    case Withdraw(userId, cents) =>
      if cents > 0 && userId in w.operators
      then w.(books := Wallet.OpenAndDebit(w.books, Wallet.WithdrawEntry(w.operators[userId], cents)))
      else w
    case Order(userId, items, orderId) =>
      if userId !in w.operators then w
      else
        var start := Marketplace.Shop(Wallet.Opened(w.books, w.operators[userId]), w.products, w.orders);
        var r := Marketplace.PlaceOrder(start, w.operators[userId], items, orderId);
        var s := if r.Ok? then r.value else start;
        w.(books := s.books, products := s.products, orders := s.orders)
    case AddProduct(userId, id, priceCents) =>
      if userId in w.operators then w.(products := Marketplace.Added(w.products, w.operators[userId], id, priceCents))
          else w
    case UpdateProduct(userId, id, patch) =>
      if userId in w.operators then w.(products := Marketplace.Updated(w.products, w.operators[userId], id, patch))
          else w
    case RemoveProduct(userId, id) =>
      if userId in w.operators then w.(products := Marketplace.Removed(w.products, w.operators[userId], id)) else w
    case RemoveByAdmin(id) => w.(products := Marketplace.RemovedByAdmin(w.products, id))
    case CreateOperator(userId, op) =>
      if userId in w.operators || op in w.operators.Values then w else w.(operators := w.operators[userId := op])
    case ViewWallet(userId) => if userId in w.operators then w.(books := Wallet.Opened(w.books, w.operators[userId]))
        else w
    case ViewPass(userId, seasonId) =>
      if userId in w.operators then w.(passes := BattlePass.ViewPass(w.passes, (w.operators[userId], seasonId))) else w
    case BuyCosmetic(userId, cosmeticId, stored) =>
      if userId !in w.operators then w
      else
        var s := CosmeticsShop.Buy(CosmeticsShop.Closet(w.books, w.owned), w.catalogue, w.operators[userId],
            cosmeticId, stored);
        w.(books := s.books, owned := s.owned)
    case AwardXp(op, seasonId, amount) => w.(passes := BattlePass.AddXp(w.passes, (op, seasonId), amount))
    case Claim(userId, seasonId, level) =>
      if userId !in w.operators then w
      else
        var start := BattlePass.Passes(w.books, w.passes, w.owned);
        var r := BattlePass.Claim(start, w.rewards, w.operators[userId], seasonId, level);
        var s := if r.Ok? then r.value else start;
        w.(books := s.books, passes := s.passes, owned := s.owned)
    case BuyPremium(userId, season, stored) =>
      if userId !in w.operators then w
      else
        var s := BattlePass.BuyPremium(BattlePass.Passes(w.books, w.passes, w.owned), w.operators[userId], season,
            stored);
        w.(books := s.books, passes := s.passes)
    case Webhook(d) => w.(books := Payments.Handle(w.books, w.operators, d))
  }

  ghost function Run(w: World, actions: seq<Action>): World {
    if actions == [] then w else Step(Run(w, actions[..|actions| - 1]), actions[|actions| - 1])
  }

  /** Every balance is its ledger sum, products have keys and prices, and no level is claimed twice. */
  ghost predicate Sound(w: World) {
    Wallet.Matched(w.books) && Marketplace.CatalogOk(w.products) && BattlePass.PassesOk(w.passes)
  }

  /** A webhook whose negative amount is written and exceeds the balance. */
  predicate Overdraws(w: World, a: Action) {
    a.Webhook? && Payments.Overdraws(w.books, w.operators, a.delivery)
  }

  lemma StepKeepsSound(w: World, a: Action)
    requires Sound(w) && Acceptable(a)
    ensures Sound(Step(w, a))
    ensures Wallet.Balanced(w.books) && !a.Webhook? ==> Wallet.Balanced(Step(w, a).books)
  {
    match a
    case Deposit(userId, cents) =>
      if cents > 0 && userId in w.operators {
        Wallet.KeepsMatchAndBalance(w.books, Wallet.CreditEntry(w.operators[userId], cents, Wallet.DEPOSIT, None));
      }
    case Withdraw(userId, cents) =>
      if cents > 0 && userId in w.operators {
        Wallet.KeepsMatchAndBalance(w.books, Wallet.WithdrawEntry(w.operators[userId], cents));
      }
    case Order(userId, items, orderId) =>
      if userId in w.operators {
        Marketplace.OrderKeepsBooks(w.books, w.products, w.orders, w.operators[userId], items, orderId);
      }
    case AddProduct(userId, id, priceCents) =>
      if userId in w.operators {
        Marketplace.AddingKeepsCatalogue(w.products, w.operators[userId], id, priceCents);
      }
    case UpdateProduct(userId, id, patch) =>
      if userId in w.operators {
        Marketplace.EditsKeepCatalogue(w.products, w.operators[userId], id, patch);
      }
    case RemoveProduct(userId, id) =>
      if userId in w.operators {
        Marketplace.RemovalKeepsCatalogue(w.products, w.operators[userId], id);
      }
    case RemoveByAdmin(id) => Marketplace.PatchingKeepsCatalogue(w.products, id,
        Marketplace.Patch(None, Some(Marketplace.REMOVED)));
    case CreateOperator(_, _) =>
    case ViewPass(_, _) =>
    case ViewWallet(userId) =>
      if userId in w.operators {
        Wallet.OpeningKeepsMatch(w.books, w.operators[userId]);
      }
    case BuyCosmetic(userId, cosmeticId, stored) =>
      if userId in w.operators {
        CosmeticsShop.BuyKeepsBooks(CosmeticsShop.Closet(w.books, w.owned), w.catalogue, w.operators[userId],
            cosmeticId, stored);
      }
    case AwardXp(op, seasonId, amount) => BattlePass.AddXpKeepsPasses(w.passes, (op, seasonId), amount);
    case Claim(userId, seasonId, level) =>
      if userId in w.operators {
        var start := BattlePass.Passes(w.books, w.passes, w.owned);
        BattlePass.ClaimKeepsPasses(start, w.rewards, w.operators[userId], seasonId, level);
        BattlePass.ClaimKeepsBooks(start, w.rewards, w.operators[userId], seasonId, level);
      }
    case BuyPremium(userId, season, stored) =>
      if userId in w.operators {
        BattlePass.PremiumKeepsBooks(BattlePass.Passes(w.books, w.passes, w.owned), w.operators[userId], season,
            stored);
      }
    case Webhook(d) =>
      if Payments.Pending(w.books, w.operators, d) {
        var deposit := Payments.DepositOf(d).value;
        Wallet.OpenAndCreditKeepsMatch(w.books, Wallet.CreditEntry(w.operators[deposit.userId], deposit.cents,
            Wallet.DEPOSIT, Some(deposit.ref)));
      }
  }

  /** A call keeps every balance from going negative exactly when it is no webhook that overdraws. */
  lemma StepBalancedExactlyWhen(w: World, a: Action)
    requires Sound(w) && Acceptable(a) && Wallet.Balanced(w.books)
    ensures Wallet.Balanced(Step(w, a).books) <==> !Overdraws(w, a)
  {
    if a.Webhook? {
      Payments.BalancedExactlyWhen(w.books, w.operators, a.delivery);
    } else {
      StepKeepsSound(w, a);
    }
  }

  lemma {:induction false} EveryRunIsSound(w: World, actions: seq<Action>)
    requires Sound(w) && forall i :: 0 <= i < |actions| ==> Acceptable(actions[i])
    ensures Sound(Run(w, actions))
    decreases |actions|
  {
    if actions != [] {
      EveryRunIsSound(w, actions[..|actions| - 1]);
      StepKeepsSound(Run(w, actions[..|actions| - 1]), actions[|actions| - 1]);
    }
  }

  ghost function BalancedAfter(w: World): seq<Action> -> bool {
    (run: seq<Action>) => Wallet.Balanced(Run(w, run).books)
  }

  ghost function NotOverdrawing(w: World): (seq<Action>, Action) -> bool {
    (run: seq<Action>, a: Action) => !Overdraws(Run(w, run), a)
  }

  lemma RunSnoc(w: World, actions: seq<Action>, k: nat)
    requires k < |actions|
    ensures Run(w, actions[..k + 1]) == Step(Run(w, actions[..k]), actions[k])
  {
    assert actions[..k + 1][..k] == actions[..k];
  }

  /**
   * In every serialised run, whatever the webhooks carry, each wallet's balance
   * is the sum of its ledger rows, pending ones included, and no battle-pass
   * level is claimed twice. No balance is ever negative exactly when no webhook
   * overdraws one.
   */
  lemma EveryRunKeepsTheBooks(w: World, actions: seq<Action>)
    requires Sound(w) && Wallet.Balanced(w.books) && forall i :: 0 <= i < |actions| ==> Acceptable(actions[i])
    ensures Sound(Run(w, actions))
    ensures var b := Run(w, actions).books;
            && (forall op :: op in b.balances ==> b.balances[op] == Wallet.LedgerSum(b.ledger, op))
            && Wallet.Total(b.balances) == Wallet.LedgerTotal(b.ledger)
    ensures (forall k :: 0 <= k <= |actions| ==> Wallet.Balanced(Run(w, actions[..k]).books))
            <==> forall i :: 0 <= i < |actions| ==> !Overdraws(Run(w, actions[..i]), actions[i])
  {
    EveryRunIsSound(w, actions);
    Wallet.AllWalletsHoldTheLedger(Run(w, actions).books);
    forall k | 0 <= k < |actions| && BalancedAfter(w)(actions[..k])
      ensures BalancedAfter(w)(actions[..k + 1]) <==> NotOverdrawing(w)(actions[..k], actions[k])
    {
      RunSnoc(w, actions, k);
      EveryRunIsSound(w, actions[..k]);
      StepBalancedExactlyWhen(Run(w, actions[..k]), actions[k]);
    }
    AlwaysExactlyWhen(actions, BalancedAfter(w), NotOverdrawing(w));
    assert forall k :: 0 <= k <= |actions| ==>
        BalancedAfter(w)(actions[..k]) == Wallet.Balanced(Run(w, actions[..k]).books);
    assert forall i :: 0 <= i < |actions| ==>
        NotOverdrawing(w)(actions[..i], actions[i]) == !Overdraws(Run(w, actions[..i]), actions[i]);
  }

  // ---------- SOLD ----------

  /** The seller of a product removes it, or an admin does. */
  predicate Removes(w: World, a: Action, id: Id, seller: Id) {
    || (a.RemoveProduct? && a.productId == id && a.userId in w.operators && w.operators[a.userId] == seller)
    || (a.RemoveByAdmin? && a.productId == id)
  }

  /** Of all calls, exactly these end that a product is SOLD. */
  lemma StepKeepsSoldUnlessRemoved(w: World, a: Action, id: Id, seller: Id)
    requires Marketplace.SoldBy(w.products, id, seller)
    ensures Marketplace.IsSold(Step(w, a).products, id) <==> !Removes(w, a, id, seller)
    ensures Marketplace.IsSold(Step(w, a).products, id) ==> Marketplace.SoldBy(Step(w, a).products, id, seller)
  {
    match a
    case Order(userId, items, orderId) =>
      if userId in w.operators {
        var start := Marketplace.Shop(Wallet.Opened(w.books, w.operators[userId]), w.products, w.orders);
        Marketplace.OrderKeepsSold(start, w.operators[userId], items, orderId, id, seller);
      }
    case AddProduct(userId, added, priceCents) =>
      if userId in w.operators {
        Marketplace.AddingKeepsSold(w.products, w.operators[userId], added, priceCents, id, seller);
      }
    case UpdateProduct(userId, edited, patch) =>
      if userId in w.operators {
        Marketplace.UpdateKeepsSold(w.products, w.operators[userId], edited, patch, id, seller);
      }
    case RemoveProduct(userId, removed) =>
      if userId in w.operators {
        Marketplace.RemovalEndsSold(w.products, w.operators[userId], removed, id, seller);
      }
    case RemoveByAdmin(removed) => Marketplace.AdminEndsSold(w.products, removed, id, seller);
    case _ =>
  }

  /** An admin's removal ends SOLD with no call by the seller. */
  lemma AdminRemovesSold(w: World, id: Id, seller: Id)
    requires Marketplace.SoldBy(w.products, id, seller)
    ensures !Marketplace.IsSold(Step(w, RemoveByAdmin(id)).products, id)
  {
    StepKeepsSoldUnlessRemoved(w, RemoveByAdmin(id), id, seller);
  }

  ghost function SoldAfter(w: World, id: Id): seq<Action> -> bool {
    (run: seq<Action>) => Marketplace.IsSold(Run(w, run).products, id)
  }

  ghost function NotRemoving(w: World, id: Id, seller: Id): (seq<Action>, Action) -> bool {
    (run: seq<Action>, a: Action) => !Removes(Run(w, run), a, id, seller)
  }

  lemma {:induction false} SellerStays(w: World, actions: seq<Action>, id: Id, seller: Id)
    requires Marketplace.SoldBy(w.products, id, seller)
    requires Always(actions, SoldAfter(w, id))
    ensures Marketplace.SoldBy(Run(w, actions).products, id, seller)
    decreases |actions|
  {
    if actions != [] {
      var n := |actions| - 1;
      AlwaysSnoc(actions, SoldAfter(w, id));
      SellerStays(w, actions[..n], id, seller);
      assert SoldAfter(w, id)(actions);
      StepKeepsSoldUnlessRemoved(Run(w, actions[..n]), actions[n], id, seller);
    }
  }

  /**
   * A sold product is SOLD in every state of a run exactly when neither its
   * seller nor an admin removes it in that run.
   */
  lemma SoldUntilRemoved(w: World, actions: seq<Action>, id: Id, seller: Id)
    requires Marketplace.SoldBy(w.products, id, seller)
    ensures (forall k :: 0 <= k <= |actions| ==> Marketplace.IsSold(Run(w, actions[..k]).products, id))
            <==> forall i :: 0 <= i < |actions| ==> !Removes(Run(w, actions[..i]), actions[i], id, seller)
  {
    SoldThroughout(w, actions, id, seller);
    assert forall k :: 0 <= k <= |actions| ==>
      SoldAfter(w, id)(actions[..k]) == Marketplace.IsSold(Run(w, actions[..k]).products, id);
    assert forall i :: 0 <= i < |actions| ==>
      NotRemoving(w, id, seller)(actions[..i], actions[i]) == !Removes(Run(w, actions[..i]), actions[i], id, seller);
  }

  lemma {:induction false} SoldThroughout(w: World, actions: seq<Action>, id: Id, seller: Id)
    requires Marketplace.SoldBy(w.products, id, seller)
    ensures Always(actions, SoldAfter(w, id)) <==> AtEachStep(actions, NotRemoving(w, id, seller))
    decreases |actions|
  {
    if actions != [] {
      var n := |actions| - 1;
      var init := actions[..n];
      SoldThroughout(w, init, id, seller);
      AlwaysSnoc(actions, SoldAfter(w, id));
      AtEachStepSnoc(actions, NotRemoving(w, id, seller));
      if Always(init, SoldAfter(w, id)) {
        SellerStays(w, init, id, seller);
        StepKeepsSoldUnlessRemoved(Run(w, init), actions[n], id, seller);
        assert SoldAfter(w, id)(actions) == Marketplace.IsSold(Run(w, actions).products, id);
        assert NotRemoving(w, id, seller)(init, actions[n]) == !Removes(Run(w, init), actions[n], id, seller);
      }
    }
  }

  // ---------- Claims ----------

  lemma ClaimedAfterStep(w: World, a: Action, key: BattlePass.PassKey, level: int)
    requires BattlePass.IsClaimed(w.passes, key, level)
    ensures BattlePass.IsClaimed(Step(w, a).passes, key, level)
  {
    var s := BattlePass.Passes(w.books, w.passes, w.owned);
    match a
    case AwardXp(op, seasonId, amount) =>
      BattlePass.ClaimedStaysClaimed(s, key, level, w.rewards, (op, seasonId), level, amount,
          BattlePass.Season(seasonId, 0), true);
    case ViewPass(userId, seasonId) =>
      if userId in w.operators {
        BattlePass.ClaimedStaysClaimed(s, key, level, w.rewards, (w.operators[userId], seasonId), level, 0,
                                       BattlePass.Season(seasonId, 0), true);
      }
    case Claim(userId, seasonId, l) =>
      if userId in w.operators {
        BattlePass.ClaimedStaysClaimed(s, key, level, w.rewards, (w.operators[userId], seasonId), l, 0,
            BattlePass.Season(seasonId, 0), true);
      }
    case BuyPremium(userId, season, stored) =>
      if userId in w.operators {
        BattlePass.ClaimedStaysClaimed(s, key, level, w.rewards, (w.operators[userId], season.id), level, 0, season,
            stored);
      }
    case _ =>
  }

  lemma OperatorsStay(w: World, a: Action, userId: Id)
    requires userId in w.operators
    ensures userId in Step(w, a).operators && Step(w, a).operators[userId] == w.operators[userId]
  {
  }

  lemma {:induction false} ClaimedAfterRun(w: World, actions: seq<Action>, userId: Id, seasonId: Id, level: int)
    requires userId in w.operators && BattlePass.IsClaimed(w.passes, (w.operators[userId], seasonId), level)
    ensures userId in Run(w, actions).operators && Run(w, actions).operators[userId] == w.operators[userId]
    ensures BattlePass.IsClaimed(Run(w, actions).passes, (w.operators[userId], seasonId), level)
    decreases |actions|
  {
    if actions != [] {
      var before, last := Run(w, actions[..|actions| - 1]), actions[|actions| - 1];
      ClaimedAfterRun(w, actions[..|actions| - 1], userId, seasonId, level);
      OperatorsStay(before, last, userId);
      ClaimedAfterStep(before, last, (w.operators[userId], seasonId), level);
    }
  }

  lemma ClaimIsRefused(w: World, userId: Id, seasonId: Id, level: int)
    requires userId in w.operators && BattlePass.IsClaimed(w.passes, (w.operators[userId], seasonId), level)
    ensures Step(w, Claim(userId, seasonId, level)) == w
  {
  }

  /**
   * Once a level is claimed, no run of calls of any kind lets its operator
   * claim it again: a further claim leaves the whole platform as it is.
   */
  lemma ClaimedForever(w: World, actions: seq<Action>, userId: Id, seasonId: Id, level: int)
    requires userId in w.operators && BattlePass.IsClaimed(w.passes, (w.operators[userId], seasonId), level)
    ensures userId in Run(w, actions).operators && Run(w, actions).operators[userId] == w.operators[userId]
    ensures BattlePass.IsClaimed(Run(w, actions).passes, (w.operators[userId], seasonId), level)
    ensures Step(Run(w, actions), Claim(userId, seasonId, level)) == Run(w, actions)
  {
    ClaimedAfterRun(w, actions, userId, seasonId, level);
    ClaimIsRefused(Run(w, actions), userId, seasonId, level);
  }

  // ---------- XP ----------

  function XpOf(passes: map<BattlePass.PassKey, BattlePass.Pass>, key: BattlePass.PassKey): nat {
    if key in passes then passes[key].currentXp else 0
  }

  function Awarded(key: BattlePass.PassKey): Action -> int {
    (a: Action) => if a.AwardXp? && a.operatorId == key.0 && a.seasonId == key.1 then a.amount else 0
  }

  lemma PassesUntouched(w: World, a: Action)
    requires !a.AwardXp? && !a.ViewPass? && !a.BuyPremium? && !a.Claim?
    ensures Step(w, a).passes == w.passes
  {
  }

  lemma XpAfterClaim(w: World, userId: Id, seasonId: Id, level: int, key: BattlePass.PassKey)
    ensures XpOf(Step(w, Claim(userId, seasonId, level)).passes, key) == XpOf(w.passes, key)
  {
  }

  lemma XpAfterStep(w: World, a: Action, key: BattlePass.PassKey)
    ensures XpOf(Step(w, a).passes, key) == XpOf(w.passes, key) + Awarded(key)(a)
  {
    match a
    case AwardXp(op, seasonId, amount) => BattlePass.PassesAfter(w.passes, (op, seasonId), amount, key);
    case ViewPass(userId, seasonId) =>
      if userId in w.operators {
        BattlePass.PassesAfter(w.passes, (w.operators[userId], seasonId), 0, key);
      }
    case BuyPremium(userId, season, stored) =>
      if userId in w.operators {
        var before := BattlePass.Passes(w.books, w.passes, w.owned);
        BattlePass.PremiumExactly(before, w.operators[userId], season, stored);
        BattlePass.PassesAfter(w.passes, (w.operators[userId], season.id), 0, key);
      }
    case Claim(userId, seasonId, level) => XpAfterClaim(w, userId, seasonId, level, key);
    case _ => PassesUntouched(w, a);
  }

  /** The XP of a pass is what was awarded to its operator in its season, whatever else is called in between. */
  lemma {:induction false} XpIsWhatWasAwarded(w: World, actions: seq<Action>, key: BattlePass.PassKey)
    ensures XpOf(Run(w, actions).passes, key) == XpOf(w.passes, key) + Sum(actions, Awarded(key))
    decreases |actions|
  {
    if actions != [] {
      var n := |actions| - 1;
      XpIsWhatWasAwarded(w, actions[..n], key);
      XpAfterStep(Run(w, actions[..n]), actions[n], key);
      assert actions == actions[..n] + [actions[n]];
      SumAppend(actions[..n], [actions[n]], Awarded(key));
    }
  }

  // ---------- Deposits and withdrawals ----------

  /** A deposit or a withdrawal of a known user moves the positive amount asked for, or only opens the wallet. */
  lemma MoneyInAndOut(w: World, userId: Id, cents: int)
    ensures var after := Step(w, Deposit(userId, cents));
            if cents > 0 && userId in w.operators then
              && after == w.(books := after.books)
              && Wallet.IsCredited(w.books, after.books,
                     Wallet.Entry(w.operators[userId], Wallet.DEPOSIT, Wallet.TxCompleted, cents, None))
            else after == w
    ensures var after := Step(w, Withdraw(userId, cents));
            if cents > 0 && userId in w.operators then
              && after == w.(books := after.books)
              && Wallet.IsDebited(w.books, after.books, cents,
                     Wallet.Entry(w.operators[userId], Wallet.WITHDRAW, Wallet.TxPending, -cents, None))
            else after == w
  {
    if userId in w.operators {
      Wallet.OpenAndCreditExactly(w.books, Wallet.CreditEntry(w.operators[userId], cents, Wallet.DEPOSIT, None));
      Wallet.OpenAndDebitExactly(w.books, Wallet.WithdrawEntry(w.operators[userId], cents));
    }
  }

  /** An operator profile is created for a user without one; looking at a wallet or a pass creates it, empty. */
  lemma FirstLooks(w: World, userId: Id, id: Id)
    ensures Step(w, CreateOperator(userId, id)) ==
            if userId !in w.operators && id !in w.operators.Values
            then w.(operators := w.operators[userId := id]) else w
    ensures Step(w, ViewWallet(userId)) ==
            if userId in w.operators && w.operators[userId] !in w.books.balances
            then w.(books := Wallet.Books(w.books.balances[w.operators[userId] := 0], w.books.ledger)) else w
    ensures Step(w, ViewPass(userId, id)) ==
            if userId in w.operators && (w.operators[userId], id) !in w.passes
            then w.(passes := w.passes[(w.operators[userId], id) := BattlePass.Pass(false, 0, [])]) else w
  {
  }

  // ---------- Premium over runs ----------

  /**
   * After any run, a purchase for a pass that is premium already is free of
   * charge exactly when the balance is below the price.
   */
  lemma PremiumAgainIsFreeExactlyWhen(w: World, actions: seq<Action>, userId: Id, season: BattlePass.Season,
      stored: bool)
    requires var s := Run(w, actions);
             userId in s.operators
             && BattlePass.IsPremium(BattlePass.Passes(s.books, s.passes, s.owned), (s.operators[userId], season.id))
    ensures var s := Run(w, actions);
            Step(s, BuyPremium(userId, season, stored)).books.ledger == s.books.ledger
            <==> Wallet.BalanceOf(s.books, s.operators[userId]) < season.premiumCents
  {
    var s := Run(w, actions);
    BattlePass.PremiumChargedExactlyWhen(BattlePass.Passes(s.books, s.passes, s.owned), s.operators[userId], season,
        stored);
  }
}
