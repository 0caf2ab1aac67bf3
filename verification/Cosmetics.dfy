/** Cosmetic purchases. */
module CosmeticsShop {
  import opened Common
  import opened Wallet

  datatype Cosmetic = Cosmetic(priceCents: int, available: bool)

  datatype BuyError = NoOperatorProfile | NotFound | NotAvailable | AlreadyOwned | InsufficientFunds | StoreFailed

  datatype Closet = Closet(books: Books, owned: set<(Id, Id)>)

  /** The debit is committed on its own; `stored` says whether the ownership row can be written after it. */
  function Buy(s: Closet, catalogue: map<Id, Cosmetic>, op: Id, cosmeticId: Id, stored: bool): Closet {
    if cosmeticId !in catalogue || !catalogue[cosmeticId].available || (op, cosmeticId) in s.owned then s
    else
      var price := catalogue[cosmeticId].priceCents;
      var paid := if price > 0 then OpenAndDebit(s.books, DebitEntry(op, price, ADJUSTMENT, Some(cosmeticId)))
          else s.books;
      if (price > 0 && |paid.ledger| == |s.books.ledger|) || !stored then s.(books := paid)
      else Closet(paid, s.owned + {(op, cosmeticId)})
  }

  /**
   * A purchase is charged exactly when the cosmetic is on offer, not owned, has
   * a price and the balance covers it; it is owned afterwards exactly when it
   * was owned, or was on offer, free or charged, and could be stored. A charge
   * that is not followed by the ownership row stays.
   */
  lemma BuyExactly(s: Closet, catalogue: map<Id, Cosmetic>, op: Id, cosmeticId: Id, stored: bool)
    ensures var after := Buy(s, catalogue, op, cosmeticId, stored);
            var offered := cosmeticId in catalogue && catalogue[cosmeticId].available && (op, cosmeticId) !in s.owned;
            var price := if offered then catalogue[cosmeticId].priceCents else 0;
            var e := Entry(op, ADJUSTMENT, TxCompleted, -price, Some(cosmeticId));
            && (if offered && price > 0 then IsDebited(s.books, after.books, price, e) else after.books == s.books)
            && after.owned ==
               if offered && stored && (price <= 0 || BalanceOf(s.books, op) >= price)
               then s.owned + {(op, cosmeticId)} else s.owned
  {
    if cosmeticId in catalogue {
      OpenAndDebitExactly(s.books, DebitEntry(op, catalogue[cosmeticId].priceCents, ADJUSTMENT, Some(cosmeticId)));
    }
  }

  lemma BuyKeepsBooks(s: Closet, catalogue: map<Id, Cosmetic>, op: Id, cosmeticId: Id, stored: bool)
    ensures Matched(s.books) ==> Matched(Buy(s, catalogue, op, cosmeticId, stored).books)
    ensures Balanced(s.books) ==> Balanced(Buy(s, catalogue, op, cosmeticId, stored).books)
  {
    if cosmeticId in catalogue && catalogue[cosmeticId].priceCents > 0 {
      KeepsMatchAndBalance(s.books, DebitEntry(op, catalogue[cosmeticId].priceCents, ADJUSTMENT, Some(cosmeticId)));
    }
  }

  class CosmeticsService {
    const wallets: WalletService
    var catalogue: map<Id, Cosmetic>
    var owned: set<(Id, Id)> // (operatorId, cosmeticId)

    constructor (wallets: WalletService, catalogue: map<Id, Cosmetic>)
      ensures this.wallets == wallets && this.catalogue == catalogue && owned == {}
    {
      this.wallets, this.catalogue, owned := wallets, catalogue, {};
    }

    /** A cosmetic becomes owned only if its price was debited. */
    method BuyCosmetic(userId: Id, cosmeticId: Id, storeUp: bool) returns (r: Result<(), BuyError>)
      modifies this`owned, wallets`balances, wallets`ledger
      ensures old(Matched(wallets.TheBooks())) ==> Matched(wallets.TheBooks())
      ensures old(Balanced(wallets.TheBooks())) ==> Balanced(wallets.TheBooks())
      ensures Closet(wallets.TheBooks(), owned) ==
              if userId in wallets.operators
              then Buy(old(Closet(wallets.TheBooks(), owned)), catalogue, wallets.operators[userId], cosmeticId,
                  storeUp)
              else old(Closet(wallets.TheBooks(), owned))
      ensures r.Ok? <==> userId in wallets.operators && owned == old(owned) + {(wallets.operators[userId], cosmeticId)}
                         && (wallets.operators[userId], cosmeticId) !in old(owned)
      ensures r.Ok? ==> cosmeticId in catalogue && (catalogue[cosmeticId].priceCents > 0 ==>
                wallets.ledger == old(wallets.ledger) +
                  [DebitEntry(wallets.operators[userId], catalogue[cosmeticId].priceCents, ADJUSTMENT,
                      Some(cosmeticId))])
    {
      if userId !in wallets.operators {
        return Err(NoOperatorProfile);
      }
      var op := wallets.operators[userId];
      BuyKeepsBooks(Closet(wallets.TheBooks(), owned), catalogue, op, cosmeticId, storeUp);
      if cosmeticId !in catalogue {
        return Err(NotFound);
      }
      var cosmetic := catalogue[cosmeticId];
      if !cosmetic.available {
        return Err(NotAvailable);
      }
      if (op, cosmeticId) in owned {
        return Err(AlreadyOwned);
      }
      if cosmetic.priceCents > 0 {
        var wallet := wallets.GetOrCreate(userId);
        var debited := wallets.Debit(wallet.value, cosmetic.priceCents, ADJUSTMENT, Some(cosmeticId));
        if debited.Err? {
          return Err(InsufficientFunds);
        }
      }
      if !storeUp {
        return Err(StoreFailed);
      }
      owned := owned + {(op, cosmeticId)};
      return Ok(());
    }
  }
}
