/** Payment webhooks: Stripe and Pagar.me deliveries credit a wallet once per event id. */
module Payments {
  import opened Common
  import opened Wallet

  /** A signed and verified Stripe event. */
  datatype StripeEvent = StripeEvent(id: Id, succeeded: bool, userId: Option<Id>, amount: int)

  /** A Pagar.me body: unreadable JSON, or an event. */
  datatype PagarmeBody = Unreadable | PagarmeEvent(id: Id, orderPaid: bool, userId: Option<Id>, amount: Option<int>)

  datatype Delivery = Stripe(stripe: StripeEvent) | Pagarme(pagarme: PagarmeBody)

  datatype Outcome = Ignored | Deduped | Credited | Failed(error: WalletError)

  predicate Recorded(ledger: seq<Entry>, ref: Id) {
    exists i :: 0 <= i < |ledger| && ledger[i].externalRef == Some(ref)
  }

  /** A deposit an event asks for. */
  datatype Deposit = Deposit(ref: Id, userId: Id, cents: int)

  function DepositOf(d: Delivery): Option<Deposit> {
    match d
    case Stripe(e) => if e.succeeded && e.userId.Some? then Some(Deposit(e.id, e.userId.value, e.amount)) else None
    case Pagarme(Unreadable) => None
    case Pagarme(PagarmeEvent(id, paid, userId, amount)) =>
      if paid && userId.Some? && amount.Some? && amount.value != 0 then Some(Deposit(id, userId.value, amount.value))
          else None
  }

  /** The books after one delivery. */
  function Handle(b: Books, operators: map<Id, Id>, d: Delivery): Books {
    var deposit := DepositOf(d);
    if deposit.None? || Recorded(b.ledger, deposit.value.ref) || deposit.value.userId !in operators then b
    else OpenAndCredit(b, CreditEntry(operators[deposit.value.userId], deposit.value.cents, DEPOSIT,
        Some(deposit.value.ref)))
  }

  // ---------- What a delivery does to the balance ----------

  /** The delivery asks for a deposit that the ledger does not hold yet, of a known user. */
  predicate Pending(b: Books, operators: map<Id, Id>, d: Delivery) {
    DepositOf(d).Some? && !Recorded(b.ledger, DepositOf(d).value.ref) && DepositOf(d).value.userId in operators
  }

  predicate Credits(b: Books, operators: map<Id, Id>, d: Delivery) {
    Pending(b, operators, d) && CanPost(BalanceOf(b, operators[DepositOf(d).value.userId]), DepositOf(d).value.cents)
  }

  /** The write fails because a column overflows. */
  predicate Refused(b: Books, operators: map<Id, Id>, d: Delivery) {
    Pending(b, operators, d) && !Credits(b, operators, d)
  }

  /** A negative amount that is written and takes the balance below zero. */
  predicate Overdraws(b: Books, operators: map<Id, Id>, d: Delivery) {
    Credits(b, operators, d) && BalanceOf(b, operators[DepositOf(d).value.userId]) + DepositOf(d).value.cents < 0
  }

  /** No ledger row refers to the event. */
  predicate Unheard(b: Books, ref: Id) {
    forall x :: x in b.ledger ==> x.externalRef != Some(ref)
  }

  lemma UnheardExactly(b: Books, ref: Id)
    ensures Unheard(b, ref) <==> !Recorded(b.ledger, ref)
  {
    if i :| 0 <= i < |b.ledger| && b.ledger[i].externalRef == Some(ref) {
      assert b.ledger[i] in b.ledger;
    }
  }

  /** A Stripe event deposits its amount exactly when it succeeded, names a known user and was not heard of before. */
  lemma StripeExactly(b: Books, operators: map<Id, Id>, e: StripeEvent)
    ensures var after := Handle(b, operators, Stripe(e));
            if e.succeeded && e.userId.Some? && e.userId.value in operators && Unheard(b, e.id)
            then IsCredited(b, after, Entry(operators[e.userId.value], DEPOSIT, TxCompleted, e.amount, Some(e.id)))
            else after == b
  {
    UnheardExactly(b, e.id);
    if e.userId.Some? && e.userId.value in operators {
      OpenAndCreditExactly(b, Entry(operators[e.userId.value], DEPOSIT, TxCompleted, e.amount, Some(e.id)));
    }
  }

  /** A Pagar.me body does when it is a paid order with a known user and an amount that is not zero, of any sign. */
  lemma PagarmeExactly(b: Books, operators: map<Id, Id>, body: PagarmeBody)
    ensures var after := Handle(b, operators, Pagarme(body));
            if body.PagarmeEvent? && body.orderPaid && body.userId.Some? && body.userId.value in operators &&
               body.amount.Some? && body.amount.value != 0 && Unheard(b, body.id)
            then IsCredited(b, after,
                            Entry(operators[body.userId.value], DEPOSIT, TxCompleted, body.amount.value, Some(body.id)))
            else after == b
  {
    if body.PagarmeEvent? {
      UnheardExactly(b, body.id);
      if body.userId.Some? && body.userId.value in operators && body.amount.Some? {
        OpenAndCreditExactly(b,
            Entry(operators[body.userId.value], DEPOSIT, TxCompleted, body.amount.value, Some(body.id)));
      }
    }
  }

  /**
   * The sign of a Pagar.me amount is not checked. Balanced books stay balanced
   * exactly when there is no deposit to make, or it was made before, or its
   * user is unknown, or the write fails, or the balance covers the amount.
   */
  lemma BalancedExactlyWhen(b: Books, operators: map<Id, Id>, d: Delivery)
    requires Balanced(b)
    ensures Balanced(Handle(b, operators, d)) <==>
            var deposit := DepositOf(d);
            || deposit.None?
            || Recorded(b.ledger, deposit.value.ref)
            || deposit.value.userId !in operators
            || !CanPost(BalanceOf(b, operators[deposit.value.userId]), deposit.value.cents)
            || BalanceOf(b, operators[deposit.value.userId]) + deposit.value.cents >= 0
    ensures Balanced(Handle(b, operators, d)) <==> !Overdraws(b, operators, d)
  {
    if Pending(b, operators, d) {
      var deposit := DepositOf(d).value;
      CreditBalancedExactlyWhen(b, CreditEntry(operators[deposit.userId], deposit.cents, DEPOSIT, Some(deposit.ref)));
    }
  }

  /** A single unsigned body with amount -500 for a user without money. */
  lemma NegativeAmountOverdraws(operators: map<Id, Id>, eventId: Id, userId: Id)
    requires userId in operators
    ensures var d := Pagarme(PagarmeEvent(eventId, true, Some(userId), Some(-500)));
            Balanced(Books(map[], [])) && !Balanced(Handle(Books(map[], []), operators, d))
  {
    BalancedExactlyWhen(Books(map[], []), operators, Pagarme(PagarmeEvent(eventId, true, Some(userId), Some(-500))));
  }

  class PaymentsService {
    const wallets: WalletService

    constructor (wallets: WalletService)
      ensures this.wallets == wallets
    {
      this.wallets := wallets;
    }

    /** Looks the event id up before it looks at the user. */
    method HandleStripeWebhook(e: StripeEvent) returns (outcome: Outcome)
      modifies wallets`balances, wallets`ledger
      ensures wallets.TheBooks() == Handle(old(wallets.TheBooks()), wallets.operators, Stripe(e))
      ensures outcome == if !e.succeeded then Ignored
                         else if Recorded(old(wallets.ledger), e.id) then Deduped
                         else if e.userId.None? then Ignored
                         else if e.userId.value !in wallets.operators then Failed(NoOperator)
                         else if CanPost(BalanceOf(old(wallets.TheBooks()), wallets.operators[e.userId.value]),
                             e.amount) then Credited
                         else Failed(OutOfRange)
      ensures outcome == Credited ==> Recorded(wallets.ledger, e.id) && !Recorded(old(wallets.ledger), e.id)
    {
      if !e.succeeded {
        return Ignored;
      }
      if Recorded(wallets.ledger, e.id) {
        return Deduped;
      }
      if e.userId.None? {
        return Ignored;
      }
      outcome := CreditDeposit(Deposit(e.id, e.userId.value, e.amount));
    }

    /** Looks at the user and the amount before it looks the event id up. */
    method HandlePagarmeWebhook(body: PagarmeBody) returns (outcome: Outcome)
      modifies wallets`balances, wallets`ledger
      ensures wallets.TheBooks() == Handle(old(wallets.TheBooks()), wallets.operators, Pagarme(body))
      ensures outcome == if DepositOf(Pagarme(body)).None? then Ignored
                         else if Recorded(old(wallets.ledger), body.id) then Deduped
                         else if body.userId.value !in wallets.operators then Failed(NoOperator)
                         else if CanPost(BalanceOf(old(wallets.TheBooks()), wallets.operators[body.userId.value]),
                             body.amount.value) then Credited
                         else Failed(OutOfRange)
      ensures body.PagarmeEvent? && outcome == Credited
           ==> Recorded(wallets.ledger, body.id) && !Recorded(old(wallets.ledger), body.id)
    {
      if body.Unreadable? || !body.orderPaid {
        return Ignored;
      }
      if body.userId.None? || body.amount.None? || body.amount.value == 0 {
        return Ignored;
      }
      if Recorded(wallets.ledger, body.id) {
        return Deduped;
      }
      outcome := CreditDeposit(Deposit(body.id, body.userId.value, body.amount.value));
    }

    method CreditDeposit(d: Deposit) returns (outcome: Outcome)
      modifies wallets`balances, wallets`ledger
      ensures wallets.TheBooks() ==
              if d.userId in wallets.operators
              then OpenAndCredit(old(wallets.TheBooks()), CreditEntry(wallets.operators[d.userId], d.cents, DEPOSIT,
                  Some(d.ref)))
              else old(wallets.TheBooks())
      ensures outcome == if d.userId !in wallets.operators then Failed(NoOperator)
                         else if CanPost(BalanceOf(old(wallets.TheBooks()), wallets.operators[d.userId]), d.cents) then
                             Credited
                         else Failed(OutOfRange)
      ensures outcome == Credited ==> Recorded(wallets.ledger, d.ref)
    {
      var wallet := wallets.GetOrCreate(d.userId);
      if wallet.Err? {
        return Failed(wallet.error);
      }
      var credited := wallets.Credit(wallet.value, d.cents, DEPOSIT, Some(d.ref));
      if credited.Err? {
        return Failed(credited.error);
      }
      var n := |wallets.ledger| - 1;
      assert wallets.ledger[n].externalRef == Some(d.ref);
      return Credited;
    }
  }

  // ---------- Replay ----------

  function EventId(d: Delivery): Option<Id> {
    match d
    case Stripe(e) => Some(e.id)
    case Pagarme(Unreadable) => None
    case Pagarme(PagarmeEvent(id, _, _, _)) => Some(id)
  }

  function Run(b: Books, operators: map<Id, Id>, ds: seq<Delivery>): Books {
    if ds == [] then b else Handle(Run(b, operators, ds[..|ds| - 1]), operators, ds[|ds| - 1])
  }

  predicate Repeats(ds: seq<Delivery>, d: Delivery) {
    EventId(d).Some? && exists i :: 0 <= i < |ds| && EventId(ds[i]) == EventId(d)
  }

  /** The deliveries that are the first with their event id. */
  function FirstOccurrences(ds: seq<Delivery>): seq<Delivery> {
    if ds == [] then []
    else
      var init, last := ds[..|ds| - 1], ds[|ds| - 1];
      FirstOccurrences(init) + if Repeats(init, last) then [] else [last]
  }

  /** A provider sends the same payload every time it repeats an event. */
  predicate SamePayload(ds: seq<Delivery>) {
    forall i, j :: 0 <= i < |ds| && 0 <= j < |ds| && EventId(ds[i]).Some? && EventId(ds[i]) == EventId(ds[j]) ==>
        ds[i] == ds[j]
  }

  predicate NotNegative(d: Delivery) {
    DepositOf(d).Some? ==> DepositOf(d).value.cents >= 0
  }

  /** Delivering d again would change nothing. */
  predicate Settled(b: Books, operators: map<Id, Id>, d: Delivery) {
    Handle(b, operators, d) == b
  }

  lemma RunSnoc(b: Books, operators: map<Id, Id>, ds: seq<Delivery>, d: Delivery)
    ensures Run(b, operators, ds + [d]) == Handle(Run(b, operators, ds), operators, d)
  {
    assert (ds + [d])[..|ds|] == ds;
  }

  lemma FirstsSnoc(ds: seq<Delivery>, d: Delivery)
    ensures FirstOccurrences(ds + [d]) == if Repeats(ds, d) then FirstOccurrences(ds) else FirstOccurrences(ds) + [d]
  {
    assert (ds + [d])[..|ds|] == ds;
    assert FirstOccurrences(ds) + [] == FirstOccurrences(ds);
  }

  lemma HandledIsSettled(b: Books, operators: map<Id, Id>, d: Delivery)
    ensures Settled(Handle(b, operators, d), operators, d)
  {
    var after := Handle(b, operators, d);
    if |after.ledger| > |b.ledger| {
      assert after.ledger[|b.ledger|].externalRef == Some(DepositOf(d).value.ref);
    }
  }

  lemma LedgerGrows(b: Books, operators: map<Id, Id>, e: Delivery, ref: Id)
    ensures b.ledger <= Handle(b, operators, e).ledger
    ensures Recorded(Handle(b, operators, e).ledger, ref) <==>
            Recorded(b.ledger, ref) || (Credits(b, operators, e) && DepositOf(e).value.ref == ref)
    ensures b.balances.Keys <= Handle(b, operators, e).balances.Keys
  {
    var after := Handle(b, operators, e);
    assert forall i :: 0 <= i < |b.ledger| ==> after.ledger[i] == b.ledger[i];
    if Credits(b, operators, e) {
      assert after.ledger[|b.ledger|].externalRef == Some(DepositOf(e).value.ref);
    }
  }

  /** Stored balances fit their column. */
  predicate ColumnsFit(b: Books) {
    forall w :: w in b.balances ==> Fits(b.balances[w])
  }

  lemma HandlingFits(b: Books, operators: map<Id, Id>, e: Delivery)
    requires ColumnsFit(b)
    ensures ColumnsFit(Handle(b, operators, e))
  {
  }

  /** A refused deposit that another event of the same wallet makes fit. */
  predicate Unblocks(b: Books, operators: map<Id, Id>, d: Delivery, e: Delivery) {
    && Refused(b, operators, d) && Credits(b, operators, e)
    && DepositOf(e).value.ref != DepositOf(d).value.ref
    && operators[DepositOf(e).value.userId] == operators[DepositOf(d).value.userId]
    && CanPost(BalanceOf(b, operators[DepositOf(d).value.userId]) + DepositOf(e).value.cents, DepositOf(d).value.cents)
  }

  /**
   * Whatever other event is handled, what is settled stays settled, unless it
   * was refused and the other event makes it fit.
   */
  lemma SettledStays(b: Books, operators: map<Id, Id>, d: Delivery, e: Delivery)
    requires Settled(b, operators, d)
    ensures Settled(Handle(b, operators, e), operators, d) <==> !Unblocks(b, operators, d, e)
    ensures ColumnsFit(b) && NotNegative(d) && NotNegative(e) ==> !Unblocks(b, operators, d, e)
  {
    if DepositOf(d).Some? {
      LedgerGrows(b, operators, e, DepositOf(d).value.ref);
      if Pending(b, operators, d) {
        assert operators[DepositOf(d).value.userId] in b.balances;
        assert Refused(b, operators, d);
      }
    }
  }

  lemma {:induction false} RunFits(b: Books, operators: map<Id, Id>, ds: seq<Delivery>)
    requires ColumnsFit(b)
    ensures ColumnsFit(Run(b, operators, ds))
    decreases |ds|
  {
    if ds != [] {
      RunFits(b, operators, ds[..|ds| - 1]);
      HandlingFits(Run(b, operators, ds[..|ds| - 1]), operators, ds[|ds| - 1]);
    }
  }

  lemma {:induction false} RepeatIsSettled(b: Books, operators: map<Id, Id>, ds: seq<Delivery>, k: nat)
    requires ColumnsFit(b) && k < |ds| && forall i :: 0 <= i < |ds| ==> NotNegative(ds[i])
    ensures Settled(Run(b, operators, ds), operators, ds[k])
    decreases |ds|
  {
    var n := |ds| - 1;
    var init := ds[..n];
    if k == n {
      HandledIsSettled(Run(b, operators, init), operators, ds[n]);
    } else {
      RepeatIsSettled(b, operators, init, k);
      RunFits(b, operators, init);
      SettledStays(Run(b, operators, init), operators, ds[k], ds[n]);
    }
  }

  /** Once a delivery was handled, its deposit is recorded or its wallet is open. */
  lemma {:induction false} HandledIsOpen(b: Books, operators: map<Id, Id>, ds: seq<Delivery>, k: nat)
    requires k < |ds|
    ensures var after := Run(b, operators, ds);
            Pending(after, operators, ds[k]) ==> operators[DepositOf(ds[k]).value.userId] in after.balances
    decreases |ds|
  {
    var n := |ds| - 1;
    var init := ds[..n];
    var before := Run(b, operators, init);
    if DepositOf(ds[k]).Some? {
      LedgerGrows(before, operators, ds[n], DepositOf(ds[k]).value.ref);
      if k < n {
        HandledIsOpen(b, operators, init, k);
      }
    }
  }

  /** A repeat that is credited after all. */
  predicate RepeatCredited(b: Books, operators: map<Id, Id>, ds: seq<Delivery>, k: nat)
    requires k < |ds|
  {
    Repeats(ds[..k], ds[k]) && Credits(Run(b, operators, ds[..k]), operators, ds[k])
  }

  lemma PrefixCredits(b: Books, operators: map<Id, Id>, ds: seq<Delivery>, n: nat, k: nat)
    requires k < n <= |ds|
    ensures RepeatCredited(b, operators, ds[..n], k) == RepeatCredited(b, operators, ds, k)
  {
    assert ds[..n][..k] == ds[..k];
  }

  lemma {:induction false} SafeWithoutCreditedRepeat(b: Books, operators: map<Id, Id>, ds: seq<Delivery>)
    requires SamePayload(ds) && forall k :: 0 <= k < |ds| ==> !RepeatCredited(b, operators, ds, k)
    ensures Run(b, operators, ds) == Run(b, operators, FirstOccurrences(ds))
    decreases |ds|
  {
    if ds != [] {
      var n := |ds| - 1;
      var init := ds[..n];
      forall k | 0 <= k < n ensures !RepeatCredited(b, operators, init, k) {
        PrefixCredits(b, operators, ds, n, k);
      }
      SafeWithoutCreditedRepeat(b, operators, init);
      assert !RepeatCredited(b, operators, ds, n);
      assert ds == init + [ds[n]];
      if Repeats(init, ds[n]) {
        var i :| 0 <= i < |init| && EventId(init[i]) == EventId(ds[n]);
        assert init[i] == ds[i] == ds[n];
        UncreditedRepeat(b, operators, init, ds[n], i);
        FirstsSnoc(init, ds[n]);
      } else {
        OneMoreFirst(b, operators, init, ds[n]);
      }
    }
  }

  lemma OneMoreFirst(b: Books, operators: map<Id, Id>, init: seq<Delivery>, last: Delivery)
    requires !Repeats(init, last) && Run(b, operators, init) == Run(b, operators, FirstOccurrences(init))
    ensures Run(b, operators, init + [last]) == Run(b, operators, FirstOccurrences(init + [last]))
  {
    FirstsSnoc(init, last);
    RunSnoc(b, operators, init, last);
    RunSnoc(b, operators, FirstOccurrences(init), last);
  }

  /** A repeat that is not credited changes nothing: its wallet was opened the first time. */
  lemma UncreditedRepeat(b: Books, operators: map<Id, Id>, init: seq<Delivery>, last: Delivery, i: nat)
    requires i < |init| && init[i] == last && !Credits(Run(b, operators, init), operators, last)
    ensures Run(b, operators, init + [last]) == Run(b, operators, init)
  {
    RunSnoc(b, operators, init, last);
    HandledIsOpen(b, operators, init, i);
  }

  /** A credited repeat leaves a ledger row that the first occurrences alone never write. */
  lemma {:induction false} CreditedRepeatShows(b: Books, operators: map<Id, Id>, ds: seq<Delivery>, k: nat)
      returns (ref: Id)
    requires SamePayload(ds) && k < |ds| && RepeatCredited(b, operators, ds, k)
    ensures Recorded(Run(b, operators, ds).ledger, ref) &&
        !Recorded(Run(b, operators, FirstOccurrences(ds)).ledger, ref)
    ensures exists i :: 0 <= i < |ds| && EventId(ds[i]) == Some(ref)
    decreases |ds|
  {
    var n := |ds| - 1;
    var init, last := ds[..n], ds[n];
    assert ds == init + [last];
    if j :| 0 <= j < n && RepeatCredited(b, operators, init, j) {
      ref := CreditedRepeatShows(b, operators, init, j);
      var i :| 0 <= i < n && EventId(init[i]) == Some(ref);
      assert EventId(ds[i]) == Some(ref);
      StillShows(b, operators, init, last, ref, i);
    } else {
      if k < n {
        PrefixCredits(b, operators, ds, n, k);
        assert false;
      }
      ref := DepositOf(last).value.ref;
      LastShows(b, operators, init, last);
      assert EventId(ds[n]) == Some(ref);
    }
  }

  lemma LastShows(b: Books, operators: map<Id, Id>, init: seq<Delivery>, last: Delivery)
    requires SamePayload(init) && forall k :: 0 <= k < |init| ==> !RepeatCredited(b, operators, init, k)
    requires Repeats(init, last) && Credits(Run(b, operators, init), operators, last)
    ensures var ref := DepositOf(last).value.ref;
            && Recorded(Run(b, operators, init + [last]).ledger, ref)
            && !Recorded(Run(b, operators, FirstOccurrences(init + [last])).ledger, ref)
  {
    RunSnoc(b, operators, init, last);
    FirstsSnoc(init, last);
    SafeWithoutCreditedRepeat(b, operators, init);
    LedgerGrows(Run(b, operators, init), operators, last, DepositOf(last).value.ref);
  }

  lemma StillShows(b: Books, operators: map<Id, Id>, init: seq<Delivery>, last: Delivery, ref: Id, i: nat)
    requires i < |init| && EventId(init[i]) == Some(ref)
    requires Recorded(Run(b, operators, init).ledger, ref) &&
        !Recorded(Run(b, operators, FirstOccurrences(init)).ledger, ref)
    ensures Recorded(Run(b, operators, init + [last]).ledger, ref)
    ensures !Recorded(Run(b, operators, FirstOccurrences(init + [last])).ledger, ref)
  {
    var firsts := FirstOccurrences(init);
    RunSnoc(b, operators, init, last);
    RunSnoc(b, operators, firsts, last);
    FirstsSnoc(init, last);
    LedgerGrows(Run(b, operators, init), operators, last, ref);
    LedgerGrows(Run(b, operators, firsts), operators, last, ref);
    assert Repeats(init, last) || EventId(last) != Some(ref);
  }

  /** Replay is safe exactly when no repeat finds its deposit still to be made and fitting. */
  lemma ReplaySafeExactlyWhen(b: Books, operators: map<Id, Id>, ds: seq<Delivery>)
    requires SamePayload(ds)
    ensures Run(b, operators, ds) == Run(b, operators, FirstOccurrences(ds))
            <==> forall k :: 0 <= k < |ds| ==> !RepeatCredited(b, operators, ds, k)
  {
    if k :| 0 <= k < |ds| && RepeatCredited(b, operators, ds, k) {
      var ref := CreditedRepeatShows(b, operators, ds, k);
    } else {
      SafeWithoutCreditedRepeat(b, operators, ds);
    }
  }

  /** A deposit that is not refused is never pending again. */
  lemma {:induction false} HandledIsNotPending(b: Books, operators: map<Id, Id>, ds: seq<Delivery>, k: nat)
    requires k < |ds| && !Refused(Run(b, operators, ds[..k]), operators, ds[k])
    ensures !Pending(Run(b, operators, ds), operators, ds[k])
    decreases |ds|
  {
    var n := |ds| - 1;
    var init := ds[..n];
    if DepositOf(ds[k]).Some? {
      LedgerGrows(Run(b, operators, init), operators, ds[n], DepositOf(ds[k]).value.ref);
      if k < n {
        assert init[..k] == ds[..k];
        HandledIsNotPending(b, operators, init, k);
      }
    }
  }

  /**
   * Replay safety: any list of deliveries, repeated in any order, leaves the
   * books that the first occurrences of each event leave alone, for amounts of
   * any sign as long as no write of the run is refused, and even if writes are
   * refused as long as no amount is negative.
   */
  lemma OnlyFirstOccurrencesCount(b: Books, operators: map<Id, Id>, ds: seq<Delivery>)
    requires SamePayload(ds) && ColumnsFit(b)
    requires (forall i :: 0 <= i < |ds| ==> !Refused(Run(b, operators, ds[..i]), operators, ds[i]))
             || forall i :: 0 <= i < |ds| ==> NotNegative(ds[i])
    ensures Run(b, operators, ds) == Run(b, operators, FirstOccurrences(ds))
  {
    forall k | 0 <= k < |ds| ensures !RepeatCredited(b, operators, ds, k) {
      var init := ds[..k];
      if Repeats(init, ds[k]) {
        var i :| 0 <= i < k && EventId(init[i]) == EventId(ds[k]);
        assert init[i] == ds[i] == ds[k] && init[..i] == ds[..i];
        if Refused(Run(b, operators, ds[..i]), operators, ds[i]) {
          RepeatIsSettled(b, operators, init, i);
        } else {
          HandledIsNotPending(b, operators, init, i);
        }
      }
    }
    SafeWithoutCreditedRepeat(b, operators, ds);
  }

  /** With a refused write and a negative amount together, a repeat can count: here it does. */
  lemma RefusedDepositCanReturn(b: Books, operators: map<Id, Id>, userId: Id, deposit: Id, correction: Id)
    requires userId in operators && deposit != correction && BalanceOf(b, operators[userId]) == MAX_INT4
    requires !Recorded(b.ledger, deposit) && !Recorded(b.ledger, correction)
    ensures var d := Stripe(StripeEvent(deposit, true, Some(userId), 1));
            var e := Pagarme(PagarmeEvent(correction, true, Some(userId), Some(-1)));
            Run(b, operators, [d, e, d]) != Run(b, operators, FirstOccurrences([d, e, d]))
  {
    var d := Stripe(StripeEvent(deposit, true, Some(userId), 1));
    var e := Pagarme(PagarmeEvent(correction, true, Some(userId), Some(-1)));
    var ds := [d, e, d];
    assert ds[..2] == [d, e] && [d, e][..1] == [d] && [d][..0] == [];
    assert Run(b, operators, [d]) == Handle(b, operators, d) == Opened(b, operators[userId]);
    LedgerGrows(Opened(b, operators[userId]), operators, e, deposit);
    assert EventId(ds[..2][0]) == EventId(d);
    assert RepeatCredited(b, operators, ds, 2);
    ReplaySafeExactlyWhen(b, operators, ds);
  }

  function CountRef(ledger: seq<Entry>, ref: Id): nat {
    if ledger == [] then 0
    else CountRef(ledger[..|ledger| - 1], ref) + if ledger[|ledger| - 1].externalRef == Some(ref) then 1 else 0
  }

  lemma {:induction false} UnrecordedCountsZero(ledger: seq<Entry>, ref: Id)
    requires !Recorded(ledger, ref)
    ensures CountRef(ledger, ref) == 0
    decreases |ledger|
  {
    if ledger != [] {
      var init := ledger[..|ledger| - 1];
      assert ledger[|ledger| - 1].externalRef != Some(ref);
      UnrecordedCountsZero(init, ref);
    }
  }

  /** An event id that was not in the ledger is credited at most once by any run, consistent or not. */
  lemma {:induction false} CreditedAtMostOnce(b: Books, operators: map<Id, Id>, ds: seq<Delivery>, ref: Id)
    requires !Recorded(b.ledger, ref)
    ensures CountRef(Run(b, operators, ds).ledger, ref) <= 1
    decreases |ds|
  {
    if ds == [] {
      UnrecordedCountsZero(b.ledger, ref);
    } else {
      var n := |ds| - 1;
      CreditedAtMostOnce(b, operators, ds[..n], ref);
      var before, after := Run(b, operators, ds[..n]), Run(b, operators, ds);
      if after.ledger != before.ledger {
        assert after.ledger[..|before.ledger|] == before.ledger;
        if !Recorded(before.ledger, ref) {
          UnrecordedCountsZero(before.ledger, ref);
        }
      }
    }
  }
}
