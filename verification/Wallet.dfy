/**
 * Wallet bookkeeping: balances and the transaction ledger. A wallet is named
 * by its operator, which is unique among wallets. Amounts are integer cents;
 * columns are 32-bit, and a write that does not fit fails.
 */
module Wallet {
  import opened Common

  const MAX_INT4 := 0x7FFF_FFFF
  const MIN_INT4 := -0x8000_0000

  datatype TxKind = DEPOSIT | WITHDRAW | REFERRAL_BONUS | MARKETPLACE_SALE | MARKETPLACE_PURCHASE | ADJUSTMENT

  datatype TxStatus = TxPending | TxCompleted

  datatype Entry = Entry(wallet: Id, kind: TxKind, status: TxStatus, amountCents: int, externalRef: Option<Id>)

  datatype Books = Books(balances: map<Id, int>, ledger: seq<Entry>)

  datatype WalletError = NoOperator | WalletNotFound | InsufficientBalance | AmountNotPositive | OutOfRange

  predicate Fits(cents: int) {
    MIN_INT4 <= cents <= MAX_INT4
  }

  /** A credit is written when its ledger row and the new balance fit their columns. */
  predicate CanPost(balance: int, cents: int) {
    Fits(cents) && Fits(balance + cents)
  }

  // ---------- Balance and ledger in step ----------

  /** What the ledger says a wallet holds; PENDING withdrawals count. */
  function LedgerSum(ledger: seq<Entry>, w: Id): int {
    if ledger == [] then 0
    else
      var last := ledger[|ledger| - 1];
      LedgerSum(ledger[..|ledger| - 1], w) + if last.wallet == w then last.amountCents else 0
  }

  /** Every balance is the sum of its ledger rows. */
  ghost predicate Matched(b: Books) {
    && (forall w :: w in b.balances ==> b.balances[w] == LedgerSum(b.ledger, w))
    && (forall i :: 0 <= i < |b.ledger| ==> b.ledger[i].wallet in b.balances)
  }

  /** Matched books in which no balance is negative or beyond its column. */
  ghost predicate Balanced(b: Books) {
    Matched(b) && forall w :: w in b.balances ==> 0 <= b.balances[w] <= MAX_INT4
  }

  /** A wallet is created with balance zero the first time it is needed. */
  function Opened(b: Books, w: Id): Books {
    if w in b.balances then b else b.(balances := b.balances[w := 0])
  }

  /** What a wallet holds: nothing, as long as it is not open. */
  function BalanceOf(b: Books, w: Id): int {
    Opened(b, w).balances[w]
  }

  /** One balance update and its ledger row. */
  function Posted(b: Books, e: Entry): Books
    requires e.wallet in b.balances
  {
    Books(b.balances[e.wallet := b.balances[e.wallet] + e.amountCents], b.ledger + [e])
  }

  lemma {:induction false} UnknownWalletHasNoEntries(ledger: seq<Entry>, w: Id)
    requires forall i :: 0 <= i < |ledger| ==> ledger[i].wallet != w
    ensures LedgerSum(ledger, w) == 0
    decreases |ledger|
  {
    if ledger != [] {
      UnknownWalletHasNoEntries(ledger[..|ledger| - 1], w);
    }
  }

  lemma OpeningKeepsMatch(b: Books, w: Id)
    requires Matched(b)
    ensures Matched(Opened(b, w))
  {
    if w !in b.balances {
      UnknownWalletHasNoEntries(b.ledger, w);
    }
  }

  /** A posting of any amount keeps every balance its ledger sum. */
  lemma PostingKeepsMatch(b: Books, e: Entry)
    requires Matched(b) && e.wallet in b.balances
    ensures Matched(Posted(b, e))
  {
    assert (b.ledger + [e])[..|b.ledger|] == b.ledger;
  }

  lemma OpeningKeepsBalance(b: Books, w: Id)
    requires Balanced(b)
    ensures Balanced(Opened(b, w))
  {
    OpeningKeepsMatch(b, w);
  }

  lemma PostingKeepsBalance(b: Books, e: Entry)
    requires Balanced(b) && e.wallet in b.balances && 0 <= b.balances[e.wallet] + e.amountCents <= MAX_INT4
    ensures Balanced(Posted(b, e))
  {
    PostingKeepsMatch(b, e);
  }

  // ---------- Specification of the public operations ----------

  function CreditEntry(w: Id, cents: int, kind: TxKind, ref: Option<Id>): Entry {
    Entry(w, kind, TxCompleted, cents, ref)
  }

  function DebitEntry(w: Id, cents: int, kind: TxKind, ref: Option<Id>): Entry {
    Entry(w, kind, TxCompleted, -cents, ref)
  }

  function WithdrawEntry(w: Id, cents: int): Entry {
    Entry(w, WITHDRAW, TxPending, -cents, None)
  }

  /** Opens the wallet and credits it; a credit that does not fit leaves it open and unchanged. */
  function OpenAndCredit(b: Books, e: Entry): Books {
    var o := Opened(b, e.wallet);
    if CanPost(o.balances[e.wallet], e.amountCents) then Posted(o, e) else o
  }

  /** A credit of any sign keeps every balance its ledger sum. */
  lemma OpenAndCreditKeepsMatch(b: Books, e: Entry)
    requires Matched(b)
    ensures Matched(OpenAndCredit(b, e))
  {
    OpeningKeepsMatch(b, e.wallet);
    PostingKeepsMatch(Opened(b, e.wallet), e);
  }

  /**
   * From balanced books, a credit leaves a negative balance exactly when it is
   * written and exceeds the balance downwards.
   */
  lemma CreditBalancedExactlyWhen(b: Books, e: Entry)
    requires Balanced(b)
    ensures var balance := Opened(b, e.wallet).balances[e.wallet];
            Balanced(OpenAndCredit(b, e)) <==> balance + e.amountCents >= 0 || !CanPost(balance, e.amountCents)
  {
    OpeningKeepsBalance(b, e.wallet);
    var o := Opened(b, e.wallet);
    PostingKeepsMatch(o, e);
    assert Posted(o, e).balances[e.wallet] == o.balances[e.wallet] + e.amountCents;
  }

  lemma OpenAndCreditKeepsBalance(b: Books, e: Entry)
    requires Balanced(b) && e.amountCents >= 0
    ensures Balanced(OpenAndCredit(b, e))
  {
    CreditBalancedExactlyWhen(b, e);
    OpeningKeepsBalance(b, e.wallet);
  }

  /** Opens the wallet and debits it if the money is there. */
  function OpenAndDebit(b: Books, e: Entry): Books {
    var o := Opened(b, e.wallet);
    if o.balances[e.wallet] >= -e.amountCents then Posted(o, e) else o
  }

  lemma OpenAndDebitKeepsMatch(b: Books, e: Entry)
    requires Matched(b)
    ensures Matched(OpenAndDebit(b, e))
  {
    OpeningKeepsMatch(b, e.wallet);
    PostingKeepsMatch(Opened(b, e.wallet), e);
  }

  lemma OpenAndDebitKeepsBalance(b: Books, e: Entry)
    requires Balanced(b) && e.amountCents <= 0
    ensures Balanced(OpenAndDebit(b, e))
  {
    OpeningKeepsBalance(b, e.wallet);
    if Opened(b, e.wallet).balances[e.wallet] >= -e.amountCents {
      PostingKeepsBalance(Opened(b, e.wallet), e);
    }
  }

  /**
   * Crediting a wallet that may not be open: the balance and one ledger row, or
   * just the open wallet when the amount or the new balance exceeds 32 bits.
   */
  predicate IsCredited(b: Books, after: Books, e: Entry) {
    var balance := if e.wallet in b.balances then b.balances[e.wallet] else 0;
    if -0x8000_0000 <= e.amountCents < 0x8000_0000 && -0x8000_0000 <= balance + e.amountCents < 0x8000_0000
    then after == Books(b.balances[e.wallet := balance + e.amountCents], b.ledger + [e])
    else after == Books(b.balances[e.wallet := balance], b.ledger)
  }

  /** Taking an amount from one: the balance and one ledger row if the money is there. */
  predicate IsDebited(b: Books, after: Books, cents: int, e: Entry) {
    var balance := if e.wallet in b.balances then b.balances[e.wallet] else 0;
    if balance >= cents then after == Books(b.balances[e.wallet := balance - cents], b.ledger + [e])
    else after == Books(b.balances[e.wallet := balance], b.ledger)
  }

  lemma OpenAndCreditExactly(b: Books, e: Entry)
    ensures IsCredited(b, OpenAndCredit(b, e), e)
  {
    if e.wallet in b.balances {
      assert b.balances[e.wallet := b.balances[e.wallet]] == b.balances;
    }
  }

  lemma OpenAndDebitExactly(b: Books, e: Entry)
    ensures IsDebited(b, OpenAndDebit(b, e), -e.amountCents, e)
  {
    if e.wallet in b.balances {
      assert b.balances[e.wallet := b.balances[e.wallet]] == b.balances;
    }
  }

  class WalletService {
    var operators: map<Id, Id> // userId to operatorId, both unique
    var balances: map<Id, int>
    var ledger: seq<Entry>

    constructor (operators: map<Id, Id>)
      ensures this.operators == operators && TheBooks() == Books(map[], []) && Balanced(TheBooks())
    {
      this.operators, balances, ledger := operators, map[], [];
    }

    ghost function TheBooks(): Books
      reads this
    {
      Books(balances, ledger)
    }

    method GetOrCreate(userId: Id) returns (r: Result<Id, WalletError>)
      modifies this`balances
      ensures r == if userId in operators then Ok(operators[userId]) else Err(NoOperator)
      ensures TheBooks() == if r.Ok? then Opened(old(TheBooks()), r.value) else old(TheBooks())
    {
      if userId !in operators {
        return Err(NoOperator);
      }
      var op := operators[userId];
      Upsert(op);
      return Ok(op);
    }

    /** Creates the wallet unless it exists. */
    method Upsert(op: Id)
      modifies this`balances
      ensures TheBooks() == Opened(old(TheBooks()), op)
    {
      if op !in balances {
        balances := balances[op := 0];
      }
    }

    /** Increments the balance and writes the ledger row, or fails and changes nothing. */
    method Credit(wallet: Id, cents: int, kind: TxKind, ref: Option<Id>) returns (r: Result<int, WalletError>)
      modifies this`balances, this`ledger
      ensures r.Ok? <==> wallet in old(balances) && CanPost(old(balances)[wallet], cents)
      ensures r.Ok? ==> TheBooks() == Posted(old(TheBooks()), CreditEntry(wallet, cents, kind, ref))
      ensures r.Ok? ==> r.value == balances[wallet]
      ensures r.Err? ==> TheBooks() == old(TheBooks()) && r.error == (if wallet in old(balances) then OutOfRange
          else WalletNotFound)
    {
      if wallet !in balances {
        return Err(WalletNotFound);
      }
      if !CanPost(balances[wallet], cents) {
        return Err(OutOfRange);
      }
      balances := balances[wallet := balances[wallet] + cents];
      ledger := ledger + [Entry(wallet, kind, TxCompleted, cents, ref)];
      return Ok(balances[wallet]);
    }

    /** Checks the balance, decrements it and writes the ledger row, or changes nothing. */
    method Debit(wallet: Id, cents: int, kind: TxKind, ref: Option<Id>) returns (r: Result<int, WalletError>)
      modifies this`balances, this`ledger
      ensures r.Ok? <==> wallet in old(balances) && old(balances)[wallet] >= cents
      ensures r.Ok? ==> TheBooks() == Posted(old(TheBooks()), DebitEntry(wallet, cents, kind, ref))
      ensures r.Ok? ==> r.value == balances[wallet]
      ensures r.Err? ==> TheBooks() == old(TheBooks()) && (r.error == InsufficientBalance <==> wallet in old(balances))
    {
      if wallet !in balances {
        return Err(WalletNotFound);
      }
      if balances[wallet] < cents {
        return Err(InsufficientBalance);
      }
      balances := balances[wallet := balances[wallet] - cents];
      ledger := ledger + [Entry(wallet, kind, TxCompleted, -cents, ref)];
      return Ok(balances[wallet]);
    }

    /** The new balance, or the reason why nothing was deposited. */
    method StubDeposit(userId: Id, cents: int) returns (r: Result<int, WalletError>)
      modifies this`balances, this`ledger
      ensures old(Matched(TheBooks())) ==> Matched(TheBooks())
      ensures old(Balanced(TheBooks())) ==> Balanced(TheBooks())
      ensures TheBooks() == if cents > 0 && userId in operators
                            then OpenAndCredit(old(TheBooks()), CreditEntry(operators[userId], cents, DEPOSIT, None))
                            else old(TheBooks())
      ensures cents > 0 && userId in operators ==>
                IsCredited(old(TheBooks()), TheBooks(), Entry(operators[userId], DEPOSIT, TxCompleted, cents, None))
      ensures r == if cents <= 0 then Err(AmountNotPositive)
                   else if userId !in operators then Err(NoOperator)
                   else if |ledger| == |old(ledger)| then Err(OutOfRange)
                   else Ok(balances[operators[userId]])
    {
      if cents <= 0 {
        return Err(AmountNotPositive);
      }
      ghost var before := TheBooks();
      var wallet := GetOrCreate(userId);
      if wallet.Err? {
        return Err(wallet.error);
      }
      ghost var e := CreditEntry(wallet.value, cents, DEPOSIT, None);
      KeepsMatchAndBalance(before, e);
      OpenAndCreditExactly(before, e);
      r := Credit(wallet.value, cents, DEPOSIT, None);
    }

    /** The money leaves the balance at once; the ledger row is PENDING. */
    method RequestWithdrawal(userId: Id, cents: int) returns (r: Result<int, WalletError>)
      modifies this`balances, this`ledger
      ensures old(Matched(TheBooks())) ==> Matched(TheBooks())
      ensures old(Balanced(TheBooks())) ==> Balanced(TheBooks())
      ensures TheBooks() == if cents > 0 && userId in operators
                            then OpenAndDebit(old(TheBooks()), WithdrawEntry(operators[userId], cents))
                            else old(TheBooks())
      ensures cents > 0 && userId in operators ==>
                IsDebited(old(TheBooks()), TheBooks(), cents,
                          Entry(operators[userId], WITHDRAW, TxPending, -cents, None))
      ensures r == if cents <= 0 then Err(AmountNotPositive)
                   else if userId !in operators then Err(NoOperator)
                   else if |ledger| == |old(ledger)| then Err(InsufficientBalance)
                   else Ok(balances[operators[userId]])
    {
      if cents <= 0 {
        return Err(AmountNotPositive);
      }
      ghost var before := TheBooks();
      var wallet := GetOrCreate(userId);
      if wallet.Err? {
        return Err(wallet.error);
      }
      var w := wallet.value;
      KeepsMatchAndBalance(before, WithdrawEntry(w, cents));
      OpenAndDebitExactly(before, WithdrawEntry(w, cents));
      if balances[w] < cents {
        return Err(InsufficientBalance);
      }
      balances := balances[w := balances[w] - cents];
      ledger := ledger + [Entry(w, WITHDRAW, TxPending, -cents, None)];
      return Ok(balances[w]);
    }
  }

  /** What the two calls above keep. */
  lemma KeepsMatchAndBalance(b: Books, e: Entry)
    ensures Matched(b) ==> Matched(OpenAndCredit(b, e)) && Matched(OpenAndDebit(b, e))
    ensures Balanced(b) && e.amountCents >= 0 ==> Balanced(OpenAndCredit(b, e))
    ensures Balanced(b) && e.amountCents <= 0 ==> Balanced(OpenAndDebit(b, e))
  {
    if Matched(b) {
      OpenAndCreditKeepsMatch(b, e);
      OpenAndDebitKeepsMatch(b, e);
    }
    if Balanced(b) && e.amountCents >= 0 {
      OpenAndCreditKeepsBalance(b, e);
    }
    if Balanced(b) && e.amountCents <= 0 {
      OpenAndDebitKeepsBalance(b, e);
    }
  }

  // ---------- Totals ----------

  /** The sum of all balances. */
  ghost function Total(balances: map<Id, int>): int
    decreases |balances|
  {
    if balances == map[] then 0
    else
      var w :| w in balances;
      balances[w] + Total(balances - {w})
  }

  /** Taking any one wallet out of the sum. */
  lemma {:induction false} TotalWithout(balances: map<Id, int>, w: Id)
    requires w in balances
    ensures Total(balances) == balances[w] + Total(balances - {w})
    decreases |balances|
  {
    var x :| x in balances && Total(balances) == balances[x] + Total(balances - {x});
    if x != w {
      TotalWithout(balances - {x}, w);
      TotalWithout(balances - {w}, x);
      assert balances - {x} - {w} == balances - {w} - {x};
    }
  }

  lemma TotalUpdate(balances: map<Id, int>, w: Id, cents: int)
    ensures Total(balances[w := cents]) == Total(balances) + cents - (if w in balances then balances[w] else 0)
  {
    var after := balances[w := cents];
    TotalWithout(after, w);
    if w in balances {
      TotalWithout(balances, w);
      assert after - {w} == balances - {w};
    } else {
      assert after - {w} == balances;
    }
  }

  /** Opening moves no money, and a posting moves exactly its amount. */
  lemma PostingMovesItsAmount(b: Books, e: Entry)
    ensures Total(Opened(b, e.wallet).balances) == Total(b.balances)
    ensures Total(Posted(Opened(b, e.wallet), e).balances) == Total(b.balances) + e.amountCents
  {
    var o := Opened(b, e.wallet);
    TotalUpdate(b.balances, e.wallet, 0);
    TotalUpdate(o.balances, e.wallet, o.balances[e.wallet] + e.amountCents);
  }

  function LedgerTotal(ledger: seq<Entry>): int {
    if ledger == [] then 0 else LedgerTotal(ledger[..|ledger| - 1]) + ledger[|ledger| - 1].amountCents
  }

  function Sums(wallets: set<Id>, ledger: seq<Entry>): map<Id, int> {
    map w | w in wallets :: LedgerSum(ledger, w)
  }

  lemma {:induction false} TotalOfZeros(balances: map<Id, int>)
    requires forall w :: w in balances ==> balances[w] == 0
    ensures Total(balances) == 0
    decreases |balances|
  {
    if w :| w in balances {
      TotalWithout(balances, w);
      TotalOfZeros(balances - {w});
    }
  }

  lemma {:induction false} SumsTotal(wallets: set<Id>, ledger: seq<Entry>)
    requires forall i :: 0 <= i < |ledger| ==> ledger[i].wallet in wallets
    ensures Total(Sums(wallets, ledger)) == LedgerTotal(ledger)
    decreases |ledger|
  {
    if ledger == [] {
      TotalOfZeros(Sums(wallets, ledger));
    } else {
      var init, e := ledger[..|ledger| - 1], ledger[|ledger| - 1];
      SumsTotal(wallets, init);
      var before := Sums(wallets, init);
      assert Sums(wallets, ledger) == before[e.wallet := before[e.wallet] + e.amountCents];
      TotalUpdate(before, e.wallet, before[e.wallet] + e.amountCents);
    }
  }

  /** All wallets together hold exactly what the whole ledger adds up to. */
  lemma AllWalletsHoldTheLedger(b: Books)
    requires Matched(b)
    ensures Total(b.balances) == LedgerTotal(b.ledger)
  {
    SumsTotal(b.balances.Keys, b.ledger);
    assert Sums(b.balances.Keys, b.ledger) == b.balances;
  }
}
