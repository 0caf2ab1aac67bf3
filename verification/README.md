# Verification model of the operations backend

A Dafny model of the backend of an airsoft operations platform: positions that
drive missions, wallets and orders, report files, paged history, standings,
rounds, squads, sessions and anti-cheat. Tables are maps or sequences with
their unique keys, one service call or one queue delivery is one atomic step,
and the properties are about whole runs of such steps. `dafny verify
dfyconfig.toml` checks everything.

| files | part of the system |
|---|---|
| `MissionEngine.dfy`, `MissionRuns.dfy` | the per-(mission, operator) progress rows, and what they are after any run of positions |
| `Positions.dfy`, `PositionRuns.dfy` | deduplication, clock clamp, history, live snapshot, the two downstream queues |
| `Csv.dfy`, `CsvReader.dfy` | the report printers, a reader for section 2 of RFC 4180 that undoes them, and what then stands under each heading |
| `Aar.dfy`, `AarWalk.dfy` | keyset pagination of the position history, and the walk from page to page |
| `Wallet.dfy`, `Marketplace.dfy`, `Payments.dfy`, `BattlePass.dfy`, `Cosmetics.dfy`, `Platform.dfy` | balances and ledger, orders and moderation, webhooks, battle pass, cosmetics; `Platform` runs them all together |
| `EventTables.dfy`, `Ranking.dfy`, `Analytics.dfy`, `StandingsAgree.dfy` | ranking (join, then aggregate) and analytics (aggregate, then join) over the same tables |
| `Competitive.dfy`, `Mvp.dfy` | rounds and eliminations; what each call asks for and writes; MVPs |
| `Squads.dfy` | rosters; what each call asks for and writes, and who is in which squad after any run |
| `Auth.dfy`, `Logins.dfy`, `AntiCheat.dfy` | tokens, who can sign in after any run, reputation |
| `Rosters.dfy` | what reachable squads mean for ranking and the match MVP |
| `Common.dfy`, `Lists.dfy` | options and lookups; filtering, sorting, sums; joins and groupings |

Each service is a class whose fields are its tables. Its methods follow the
service step by step and are proved against functions over the table values;
the theorems are about those functions and about runs of them, so they hold of
any sequence of method calls. What such a function computes is stated again on
the raw columns, in lemmas that do not name it (most are called `...Exactly`).
A database transaction that fails is modelled by putting back the tables as
they were when it began.

## Where the code differs from what is said about it

- The ranking service says an operator in a squad of another event still
  appears with a null squad and team. The WHERE clause drops such an operator
  (`Ranking.ListedExactlyWhen`, `Ranking.PlayerOfAnotherEventIsLeftOut`).
- The comment on the position cursor says a collision drops a single row. It
  drops every row tied with the last row of a page and sorted after it
  (`AarWalk.CursorSkipsTheTie`, `AarWalk.TieDropsAllTheRest`). It also relies
  on times finer than a millisecond, but the cursor keeps only milliseconds:
  with such times a page can name its own cursor
  (`AarWalk.CursorStuckExactlyWhen`), and a walk ends exactly when none of its
  pages does (`AarWalk.WalkEndsExactlyWhen`). The position worker only stores
  whole milliseconds, which is what the other walk theorems ask of the table.
- A delivery that fails after the deduplication step is retried by its queue,
  but its key is taken, so the retry is skipped as a duplicate.
  `PositionRuns.StoredExactlyWhen` and `PositionRuns.KeptIffFirstSucceeds` say
  exactly which positions are stored, shown and queued;
  `PositionRuns.RetryIsSkipped` is one that is not.
- SOLD is not a final product status (`Marketplace.SoldCanBeListedAgain`); a
  product stays SOLD exactly until its seller or an admin removes it
  (`Platform.SoldUntilRemoved`). An admin's removal looks neither at the seller
  nor at the status (`Platform.AdminRemovesSold`).
- A PATCH of a round without a status does not check that the winner belongs
  to the event; winners stay in their event exactly as long as no such PATCH
  names a foreign team (`Competitive.WinnersOkUnlessForeign`). A foreign team
  can then be deleted while its own event is DRAFT, which clears the winner of
  a round that is closed (`Competitive.ForeignWinCanBeErased`,
  `Competitive.ClosedRoundKeptExactlyWhen`).
- Buying premium does not look whether the pass is premium already; it is
  charged whenever the balance covers the price
  (`BattlePass.PremiumChargedExactlyWhen`, `BattlePass.PremiumChargesAddUp`).
- Pagar.me amounts are not checked for sign. A negative one can take a balance
  below zero (`Payments.NegativeAmountOverdraws`); when exactly is
  `Payments.BalancedExactlyWhen` for one delivery and
  `Platform.EveryRunKeepsTheBooks` for runs. With negative amounts and columns
  that overflow, a replay can count (`Payments.RefusedDepositCanReturn`); when
  exactly is `Payments.ReplaySafeExactlyWhen`.

## Choices

- Times are integer milliseconds (microseconds in `Aar.dfy` and `AarWalk.dfy`). The engine keeps
  accumulated seconds as a double; the model keeps milliseconds as an integer.
- A wallet is named by its operator, which is unique among wallets. Balances
  and ledger amounts are 32-bit columns: a credit beyond the range is a failed
  write.
- A write after a committed one (the premium grant, the ownership of a
  cosmetic, a suspicion, a penalty, the stores behind a position) may fail;
  whether it does is an argument.
- A queue takes no job whose id it still holds; which ids it has let go of is
  an argument of each delivery.
- 5 percent and 90 percent are rounded to the nearest cent, halves up, as
  `Math.round` does on the doubles for 0.05 and 0.9.
- SET NX EX is a map from key to expiry time; a key can be taken when its
  expiry time has come.
- A join onto a primary key is a lookup. A query without a total ORDER BY
  returns rows in table order; the theorems about loops over such rows do not
  depend on it.
- PostGIS containment and the distance between two points are arbitrary
  functions. Token hashes are injective, so token tables are keyed by what was
  hashed, and a JWT is its claims plus whether its signature verifies.
- Random ids come in as arguments. Repeated primary keys are failed writes for
  squads, teams, events, users and tokens, and do not occur for eliminations.
- Request parsers' bounds are preconditions: limit at least 1, quantities and
  prices positive, PATCH of a round only to COMPLETED or CANCELLED, PATCH of a
  product never to SOLD. Nothing is asked of webhook amounts.

## Model

| member | source | states |
|---|---|---|
| MissionEngine.AfterAt | src/modules/mission-engine/mission-engine.service.ts:58-71 | Every row after a delivery is given mission by mission: the upsert of its own old row with its own zone answer if that mission has a decision, the old row otherwise; the order of missions does not matter |
| MissionEngine.BatchedZonesAreDirect | src/modules/mission-engine/mission-engine.service.ts:51-59 | Asking all zones of the batch once gives each mission the decision it would get by asking its own zone |
| MissionEngine.AfterOneMore | src/modules/mission-engine/mission-engine.service.ts:58-71 | One more turn of the mission loop extends the specified table by exactly that mission, whichever missions were handled before |
| MissionEngine.MissionEngineService.UpsertProgress | src/modules/mission-engine/mission-engine.service.ts:147-234 | Writes exactly the row of the key, computed from its old row and the decision, and leaves every other row |
| MissionEngine.MissionEngineService.ProcessPosition | src/modules/mission-engine/mission-engine.service.ts:36-72 | For any order of missions and a crash after any number of them, the table is that of the handled subset of live missions; without a crash all were handled |
| MissionRuns.RetryConverges | src/modules/mission-engine/mission-engine.service.ts:36-72 | Any number of attempts that died after any subsets of their missions, with any positions of other operators between them, and then a full attempt leave the rows of one complete delivery followed by those positions |
| MissionRuns.CumulativeClosedForm | src/modules/mission-engine/mission-engine.service.ts:156-211 | For ticks in any time order: the accumulator is the sum of the forward gaps between adjacent ticks that are both inside; COMPLETED iff that reaches the target iff a completion time is set |
| MissionRuns.StampedByFirstTick | src/modules/mission-engine/mission-engine.service.ts:179-211 | The completion time is, at the end of any run, the time of the first tick whose prefix met the target |
| MissionRuns.NoMoreThanElapsed | src/modules/mission-engine/mission-engine.service.ts:164-173 | If times never decrease, the accumulated time is between zero and last minus first |
| MissionRuns.RowAfterJob | src/modules/mission-engine/mission-engine.service.ts:36-72 | A job changes a row iff the mission is there and neither completed nor cancelled, the job is of that operator and event, and the mission decides on it |
| MissionRuns.RunFoldsItsTicks | src/modules/mission-engine/mission-engine.service.ts:98-110 | Over any run of jobs of all operators, events and missions, a CAPTURE, HOLD or DEFEND row is the fold of its own mission's and operator's ticks alone |
| MissionRuns.CumulativeRowExactly | src/modules/mission-engine/mission-engine.service.ts:98-211 | Over any run the row of a pending or active CAPTURE, HOLD or DEFEND mission with a zone exists iff the operator reported a position of the event; it is COMPLETED iff it is stamped iff the time inside the zone is at least 1000 ms for each of thresholdSeconds, or else durationSeconds, or else none; the stamp is the time of the first tick that got there |
| MissionRuns.QualifiesExactlyWhen | src/modules/mission-engine/mission-engine.service.ts:86-136 | For every type of mission: CHECKPOINT decides iff the point is in its zone; CAPTURE, HOLD and DEFEND iff they have a zone; TIME iff the time is in the window and, if there is a zone, the point is in it; SQUAD and FACTION never |
| MissionRuns.DiscreteClosedForm | src/modules/mission-engine/mission-engine.service.ts:214-234 | Over any run a CHECKPOINT or TIME row exists iff some job qualified, is COMPLETED, and carries the time of the first job that did, a TIME row also as its hit |
| MissionRuns.NeverTouched | src/modules/mission-engine/mission-engine.service.ts:36-96 | No run writes a row of an unknown, completed or cancelled mission, of SQUAD or FACTION, or of a mission that lacks the zone it needs |
| MissionRuns.CompletionIsAbsorbing | src/modules/mission-engine/mission-engine.service.ts:189-194 | From any table, through any run, COMPLETED never regresses and a set completion time never changes |
| MissionRuns.CompletionSurvivesEdits | src/modules/mission-engine/mission-engine.service.ts:189-194 | The same while missions and zones are edited between the positions |
| Positions.AdjustTimestamp | src/modules/positions/positions.processor.ts:166-184 | The stored time is within five minutes of the receive time, equals the client time whenever that is within the limit, and is the receive time otherwise |
| Positions.TakenKeyStands | src/modules/positions/positions.processor.ts:45-51 | After a delivery took its key, the key can be taken again from 300 s on and no earlier; other keys are unaffected, and a rejected delivery changes nothing |
| Positions.PositionsProcessor.Process | src/modules/positions/positions.processor.ts:42-158 | One delivery updates key, history, snapshot and both queues as specified, including failed history and snapshot writes, queues that are down and job ids that are still held |
| PositionRuns.KeyOfLastAccepted | src/modules/positions/positions.processor.ts:45-51 | In every in-order run, a key's expiry time is that of the last accepted delivery of its client event |
| PositionRuns.AcceptedIffNotBlocked | src/modules/positions/positions.processor.ts:45-51 | A delivery is accepted iff no accepted delivery of the same client event came less than 300 s before it |
| PositionRuns.AcceptedFarApart | src/modules/positions/positions.processor.ts:45-51 | Two accepted deliveries of one client event are at least 300 s apart |
| PositionRuns.StoresAgree | src/modules/positions/positions.processor.ts:53-158 | In every run the history and both queues show, in order and column by column, the deliveries that reached them, with one and the same time: the client's if it is within 300,000 ms of the receive time, else the receive time; a queue takes no job whose id it still holds |
| PositionRuns.SnapshotIsLatest | src/modules/positions/positions.processor.ts:71-83 | A reader sees the snapshot of an operator's last job that got that far, column by column and with the same clamped time, for 60,000 ms after its delivery and no longer |
| PositionRuns.IngestedTimesAreQueued | src/modules/positions/positions.processor.ts:96-112 | Whenever the mission queue was up, the event, operator and time of an ingested position are queued, by it or by another |
| PositionRuns.HeldIdsComeOnce | src/modules/positions/positions.processor.ts:109-112 | As long as the queue lets go of no job id, no event, operator and time is queued twice |
| PositionRuns.RejectedCanBeRemoved | src/modules/positions/positions.processor.ts:45-51 | Removing any set of rejected deliveries from a run leaves every store as it was |
| PositionRuns.DuplicatesChangeNoProgress | src/modules/positions/positions.processor.ts:45-118 | End to end: adding or removing duplicates inside the window leaves the stores, and the mission progress one worker computes from the queue, unchanged |
| PositionRuns.CarriedExactlyWhen | src/modules/positions/positions.processor.ts:45-158 | Over every run a store has something of a client event iff some delivery of it got that far |
| PositionRuns.StoredExactlyWhen | src/modules/positions/positions.processor.ts:45-69 | Over every run the history has a row of a client event iff some accepted delivery of it found the history store up |
| PositionRuns.KeptIffFirstSucceeds | src/modules/positions/positions.processor.ts:45-158 | When all deliveries of a client event come within 300 s of the first, it is stored iff that first one found the history up, live iff also the snapshot store, and queued for missions and for inspection iff then the queue was up and the id free |
| PositionRuns.RetryIsSkipped | src/modules/positions/positions.processor.ts:45-69 | A failed history write, a retry one second later with everything up: nothing is stored or queued |
| CsvReader.CellRoundTrip | src/modules/tactical/reports/csv.ts:130-135 | Reading a printed cell by the RFC 4180 field grammar gives back the cell, for every string, with whatever follows left over |
| CsvReader.RecordRoundTrip | src/modules/tactical/reports/csv.ts:126-128 | Reading a printed row gives back exactly its cells |
| CsvReader.FileRoundTrip | src/modules/tactical/reports/csv.ts:63-63 | Reading the lines of any records gives back exactly those records |
| CsvReader.SectionsRoundTrip | src/modules/tactical/reports/csv.ts:3-11 | Since table rows have two cells or more, headings and blank lines split the records unambiguously into the printed sections |
| CsvReader.DocumentRoundTrip | src/modules/tactical/reports/csv.ts:15-64 | Reading a whole document after the BOM gives back its records and its sections |
| CsvReader.SameTextSameTables | src/modules/tactical/reports/csv.ts:15-64 | Two documents have the same text iff they have the same tables |
| CsvReader.DecimalReads | src/modules/tactical/reports/csv.ts:27-34 | A count in a cell reads back as that count |
| CsvReader.DecimalIsDigits | src/modules/tactical/reports/csv.ts:27-34 | A count is printed as digits only, without leading zeros |
| CsvReader.FixedReads | src/modules/tactical/reports/csv.ts:103-103 | A completion rate in a cell reads back as the ten-thousandth nearest to it, halves up |
| CsvTables.InstructorsSay | src/modules/tactical/reports/csv.ts:38-42 | Under userId, displayName, email and assignedAt stand these fields of the instructor of that row, and there are as many rows as instructors |
| CsvTables.UnitSummarySays | src/modules/tactical/reports/csv.ts:25-35 | Three counts and two breakdowns, each metric beside its own number, read as a number |
| CsvTables.UnitClassesSay | src/modules/tactical/reports/csv.ts:45-61 | Each of seven fields of the class of that row stands under its heading, a missing end as nothing, the exercise count as a number |
| CsvTables.ClassSectionsSay | src/modules/tactical/reports/csv.ts:66-118 | The meta fields and the exercises each under its heading, and in the summary the exercise count, the rate to the nearest ten-thousandth and the breakdown, each beside its own metric |
| CsvTables.ExercisesSay | src/modules/tactical/reports/csv.ts:109-115 | Each of six fields of the exercise of that row stands under its heading, missing ones as nothing |
| CsvPrinters.BreakdownLines | src/modules/tactical/reports/csv.ts:30-35 | The loop over a status breakdown pushes one row per status, in order, after what was there |
| CsvPrinters.UnitMetaLines | src/modules/tactical/reports/csv.ts:18-22 | The pushed lines are, one by one and after what was there, the rows of the unit's meta table, whose cells `CsvTables.UnitMetaSays` gives by heading |
| CsvPrinters.UnitSummaryLines | src/modules/tactical/reports/csv.ts:25-35 | The pushed lines are, one by one and after what was there, the rows of the unit's summary table, whose cells `CsvTables.UnitSummarySays` gives by heading |
| CsvPrinters.InstructorLines | src/modules/tactical/reports/csv.ts:38-42 | The pushed lines are, one by one and after what was there, the rows of the instructor table, whose cells `CsvTables.InstructorsSay` gives by heading |
| CsvPrinters.UnitClassLines | src/modules/tactical/reports/csv.ts:45-61 | The pushed lines are, one by one and after what was there, the rows of the class table, whose cells `CsvTables.UnitClassesSay` gives by heading |
| CsvPrinters.UnitReportToCsv | src/modules/tactical/reports/csv.ts:15-64 | From the text of every unit report the reader recovers four tables, in order, in which each cell under a heading is that field of the meta record, summary, instructor or class of its row, and there are no other rows |
| CsvPrinters.ClassMetaLines | src/modules/tactical/reports/csv.ts:69-97 | The pushed lines are, one by one and after what was there, the rows of the class's meta table, whose cells `CsvTables.ClassMetaSays` gives by heading |
| CsvPrinters.ClassSummaryLines | src/modules/tactical/reports/csv.ts:100-106 | The pushed lines are, one by one and after what was there, the rows of the class's summary table, whose cells `CsvTables.ClassSectionsSay` gives by heading |
| CsvPrinters.ExerciseLines | src/modules/tactical/reports/csv.ts:109-115 | The pushed lines are, one by one and after what was there, the rows of the exercise table, whose cells `CsvTables.ExercisesSay` gives by heading |
| CsvPrinters.ClassReportToCsv | src/modules/tactical/reports/csv.ts:66-118 | From the text of every class report the reader recovers three tables, in order, in which each cell under a heading is that field of the meta record, summary or exercise of its row, and there are no other rows |
| Aar.ToIso | src/modules/aar/aar.service.ts:211-211 | A cursor is the greatest whole millisecond not after the row's time |
| AarWalk.PageIsPrefix | src/modules/aar/aar.service.ts:171-226 | A page shows the first `limit` of the rows asked for, each with its own id, operator, callsign, reading and time, and has a cursor at the last one's millisecond iff rows are left. The rows asked for are, by time, each stored row of the event, of the operator if one is named, from fromAt to toAt inclusive, of a known operator and after the cursor, as often as it is stored, and no other |
| AarWalk.CursorSkipsTheTie | src/modules/aar/aar.service.ts:163-169 | A strict cursor at a row's time skips exactly the rows up to it and the rows tied with it |
| AarWalk.NextCursorIsExact | src/modules/aar/aar.service.ts:163-213 | A page is the first `limit` rows ahead, and its cursor leads to the rows behind the tie of its last row, which are strictly fewer |
| AarWalk.WalkCovers | src/modules/aar/aar.service.ts:151-227 | The walk ends, and page by page misses exactly the rows tied with, and sorted after, the last row of each page |
| AarWalk.CompleteUnlessCut | src/modules/aar/aar.service.ts:163-213 | Pages that cover a list concatenate to it iff no page ends between two rows of one time |
| AarWalk.PagesAreTheListUnlessCut | src/modules/aar/aar.service.ts:151-227 | Walking from the start yields exactly the filtered, sorted list iff no page cuts a tie; distinct times are enough |
| AarWalk.WholeWalkIsTheAnswer | src/modules/aar/aar.service.ts:151-227 | The client of a whole walk holds every stored row of the event, operator and times asked for, as often as it is stored and no other, by time and each with its own columns, iff no page cuts a tie |
| AarWalk.TieDropsAllTheRest | src/modules/aar/aar.service.ts:163-169 | When all rows have one time only the first page is ever returned, however many rows there are |
| AarWalk.WalkRepeatsNothing | src/modules/aar/aar.service.ts:163-169 | No row comes twice in a walk, ties or not |
| AarWalk.CursorStuckExactlyWhen | src/modules/aar/aar.service.ts:163-211 | For any table, filter and limit: after a whole-millisecond cursor with more than `limit` rows ahead, the next cursor is the same one iff the page's last row lies within the cursor's millisecond, and is later otherwise |
| AarWalk.StuckForever | src/modules/aar/aar.service.ts:163-211 | If a page names its own cursor, the walk stays at that cursor however many pages follow |
| AarWalk.WalkEndsExactlyWhen | src/modules/aar/aar.service.ts:163-211 | For any table, times finer than a millisecond included, the walk from a whole-millisecond cursor ends iff no cursor it reaches is stuck |
| Wallet.WalletService.constructor | src/modules/wallet/wallet.service.ts:32-32 | With no wallets and no rows, balances are the ledger sums |
| Wallet.WalletService.GetOrCreate | src/modules/wallet/wallet.service.ts:34-41 | Opens the operator's wallet with balance zero unless it exists; fails and changes nothing without an operator |
| Wallet.WalletService.Upsert | src/modules/marketplace/marketplace.service.ts:170-174 | Opens a wallet unless it exists and changes no other |
| Wallet.WalletService.Credit | src/modules/wallet/wallet.service.ts:96-117 | Moves the balance and appends the ledger row of the same amount together, or changes nothing |
| Wallet.WalletService.Debit | src/modules/wallet/wallet.service.ts:119-147 | Succeeds iff the wallet exists and holds the amount; then moves balance and ledger together, else changes nothing and names the reason |
| Wallet.WalletService.StubDeposit | src/modules/wallet/wallet.service.ts:57-66 | Keeps every balance its ledger sum and not negative; a positive amount of a known user goes to the balance and one DEPOSIT row, or only opens the wallet when it exceeds 32 bits; answers with the new balance or the reason |
| Wallet.WalletService.RequestWithdrawal | src/modules/wallet/wallet.service.ts:68-92 | Takes the amount iff the balance covers it, with a PENDING row that counts at once: every balance stays its ledger sum and not negative; answers with the new balance or the reason |
| Wallet.CreditBalancedExactlyWhen | src/modules/wallet/wallet.service.ts:96-117 | From balanced books, a credit of any sign leaves no balance negative iff it fails or the balance covers it |
| Wallet.OpenAndCreditKeepsMatch | src/modules/wallet/wallet.service.ts:96-117 | A credit of any sign keeps every balance its ledger sum |
| Wallet.OpenAndDebitKeepsBalance | src/modules/wallet/wallet.service.ts:119-147 | The balance check keeps every balance its ledger sum and not negative through any debit |
| Wallet.PostingMovesItsAmount | src/modules/wallet/wallet.service.ts:96-147 | Opening a wallet moves no money, and a posting changes the sum of all wallets by exactly its amount |
| Wallet.AllWalletsHoldTheLedger | src/modules/wallet/wallet.service.ts:96-147 | All wallets together hold what the whole ledger adds up to |
| Marketplace.ShippingCents | src/modules/marketplace/marketplace.service.ts:128-128 | The unique whole cent nearest to 5 percent, halves up |
| Marketplace.SellerCut | src/modules/marketplace/marketplace.service.ts:168-169 | The unique whole cent nearest to 90 percent, halves up |
| Marketplace.FoundAreTheItems | src/modules/marketplace/marketplace.service.ts:112-118 | If as many ACTIVE products are found as items asked for, the items are pairwise distinct and name exactly those products |
| Marketplace.SellerLoopVisitsEachItem | src/modules/marketplace/marketplace.service.ts:123-127 | Any amount of the subtotal sums to the same over products in any query order as over items in request order |
| Marketplace.OrderConservesMoney | src/modules/marketplace/marketplace.service.ts:109-192 | A successful order lowers the sum of all wallets by exactly shipping plus the fees |
| Marketplace.TakeIsFifteenPercent | src/modules/marketplace/marketplace.service.ts:124-169 | That take is not negative and within (n + 1) / 2 cents of 15 percent of the item total |
| Marketplace.EachWalletAfterOrder | src/modules/marketplace/marketplace.service.ts:109-192 | The buyer pays the order total, each seller gets the cuts of their own products at catalogue price times quantity, nobody else is touched, and the buyer is no seller |
| Marketplace.OrderRecordsTheSale | src/modules/marketplace/marketplace.service.ts:136-191 | One order is added, with the given id and buyer, whose lines are the items at catalogue prices and add up to its total less shipping, the cents nearest to 5 percent; exactly the ordered products, ACTIVE until then, become SOLD |
| Marketplace.OrderAnswer | src/modules/marketplace/marketplace.service.ts:109-183 | An order goes through iff its items name different ACTIVE products, none is the buyer's, the balance is at least items plus shipping, and each seller's credit in turn fits 32 bits; otherwise the first of these that fails is the reason |
| Marketplace.OrderInTheLedger | src/modules/marketplace/marketplace.service.ts:154-183 | The ledger gains the buyer's purchase row and then one sale row per product found, in query order, all under the order id |
| Marketplace.OrderKeepsBalance | src/modules/marketplace/marketplace.service.ts:109-192 | A successful order keeps every balance its ledger sum, in range and not negative |
| Marketplace.SoldCanBeListedAgain | src/modules/marketplace/marketplace.service.ts:61-85 | A sold product refuses edits, but once removed, by its seller or an admin, the seller can patch it to ACTIVE and an order finds it again |
| Marketplace.UpdatedRow | src/modules/marketplace/marketplace.service.ts:61-72 | An edit changes only the seller's own unsold product, and there only the price and status it names |
| Marketplace.RemovedRow | src/modules/marketplace/marketplace.service.ts:74-85 | A removal sets REMOVED on that product, for a seller only on their own, and changes nothing else |
| Marketplace.UpdateKeepsSold | src/modules/marketplace/marketplace.service.ts:61-72 | No edit by anyone changes that a product is SOLD and whose it is |
| Marketplace.RemovalEndsSold | src/modules/marketplace/marketplace.service.ts:74-85 | A removal ends SOLD iff it is of that product by its own seller |
| Marketplace.AdminEndsSold | src/modules/admin/admin.service.ts:114-121 | An admin's removal ends SOLD iff it is of that product, whoever sells it |
| Marketplace.AdminService.RemoveProductAsAdmin | src/modules/admin/admin.service.ts:114-121 | Afterwards the product is not SOLD but REMOVED, whatever it was; without the product nothing changes |
| Platform.StepKeepsSoldUnlessRemoved | src/modules/marketplace/marketplace.service.ts:61-192 | Of all calls of the platform, exactly a removal by its seller or by an admin ends that a product is SOLD |
| Platform.SoldUntilRemoved | src/modules/marketplace/marketplace.service.ts:61-192 | A sold product is SOLD in every state of a run iff neither its seller nor an admin removes it in that run |
| Platform.AdminRemovesSold | src/modules/admin/admin.service.ts:114-121 | An admin takes a sold product out of SOLD with no call by the seller |
| Marketplace.MarketplaceService.SumItems | src/modules/marketplace/marketplace.service.ts:124-127 | The loop over the request's items computes the item total |
| Marketplace.MarketplaceService.CreditSellers | src/modules/marketplace/marketplace.service.ts:166-183 | The loop over products in query order posts the specified credits, or reports that one did not fit |
| Marketplace.MarketplaceService.OrderTransaction | src/modules/marketplace/marketplace.service.ts:109-192 | The transaction ends in the specified tables, or fails with the specified reason |
| Marketplace.MarketplaceService.CreateOrder | src/modules/marketplace/marketplace.service.ts:105-193 | A failed order leaves wallets, ledger, orders and products as they were once the buyer's wallet was open; a successful one is the specified transaction; balances stay ledger sums and not negative |
| Marketplace.MarketplaceService.UpdateProduct | src/modules/marketplace/marketplace.service.ts:61-72 | Succeeds iff the product exists, is the caller's and is not SOLD, and then changes only that product; names the reason otherwise |
| Marketplace.MarketplaceService.RemoveProduct | src/modules/marketplace/marketplace.service.ts:74-85 | Succeeds iff the product exists and is the caller's, SOLD or not, and then changes only that product; names the reason otherwise |
| Marketplace.MarketplaceService.CreateProduct | src/modules/marketplace/marketplace.service.ts:54-59 | Adds one ACTIVE product of the caller under a new id |
| Payments.PaymentsService.HandleStripeWebhook | src/modules/payments/payments.service.ts:95-127 | One delivery changes the books as specified and answers ignored, deduplicated, credited or failed exactly as the ledger, the user and the column ranges decide |
| Payments.PaymentsService.HandlePagarmeWebhook | src/modules/payments/payments.service.ts:130-157 | The same for Pagar.me bodies, unreadable ones and negative amounts included |
| Payments.PaymentsService.CreditDeposit | src/modules/payments/payments.service.ts:114-126 | Credits the user's wallet under the event id, or changes no balance, and says which |
| Payments.StripeExactly | src/modules/payments/payments.service.ts:95-127 | A Stripe event credits its amount under its id to the wallet of its user iff it succeeded, names a known user, was not heard of before and fits 32 bits; else no balance changes |
| Payments.PagarmeExactly | src/modules/payments/payments.service.ts:130-157 | A Pagar.me body does so iff it is a paid order with a known user and an amount that is not zero, of any sign |
| Payments.BalancedExactlyWhen | src/modules/payments/payments.service.ts:130-157 | Balanced books stay balanced iff there is no deposit to make, it was made before, its user is unknown, the write fails, or the balance covers the amount |
| Payments.NegativeAmountOverdraws | src/modules/payments/payments.service.ts:138-151 | One body with amount -500 takes an empty wallet below zero |
| Payments.HandledIsSettled | src/modules/payments/payments.service.ts:99-127 | Delivering the same event again at once changes nothing, whatever became of it |
| Payments.SettledStays | src/modules/payments/payments.service.ts:99-127 | An event whose redelivery changes nothing stays so through any other event, iff that event does not make a refused deposit of the same wallet fit |
| Payments.OnlyFirstOccurrencesCount | src/modules/payments/payments.service.ts:99-156 | Any list of deliveries with repeats in any order leaves the books that the first occurrences leave: for amounts of any sign if no write of the run is refused, and even then if no amount is negative |
| Payments.ReplaySafeExactlyWhen | src/modules/payments/payments.service.ts:99-156 | For every run, replay leaves the books of the first occurrences iff no repeat finds its deposit still unrecorded and fitting |
| Payments.RefusedDepositCanReturn | src/modules/payments/payments.service.ts:99-156 | A refused deposit, a negative one and the first again: the repeat counts |
| Payments.CreditedAtMostOnce | src/modules/payments/payments.service.ts:99-156 | No run credits an event id twice, even if a provider changes the payload |
| BattlePass.ClaimPaysOnce | src/modules/battle-pass/battle-pass.service.ts:74-130 | A claim pays the operator exactly the positive bonuses of that season and level, premium-only ones only with premium, pays nobody else, and only with 1000 XP per level below, which is then claimed |
| BattlePass.ClaimExactly | src/modules/battle-pass/battle-pass.service.ts:74-130 | A claim goes through iff there is a pass with at least 1000 (level - 1) XP, the level is not claimed and the money due fits the balance; it marks the level and hands out exactly the cosmetics due |
| BattlePass.LevelInXp | src/modules/battle-pass/battle-pass.service.ts:158-161 | Level L is reached from 1000 (L - 1) XP on and left at 1000 L |
| BattlePass.PremiumExactly | src/modules/battle-pass/battle-pass.service.ts:134-156 | A purchase debits the price iff the balance covers it, and then makes the pass premium iff the grant is written |
| BattlePass.ClaimedStaysClaimed | src/modules/battle-pass/battle-pass.service.ts:88-90 | A claimed level can not be claimed again and no XP, premium purchase or other claim brings it back |
| BattlePass.BattlePassService.AwardXp | src/modules/battle-pass/battle-pass.service.ts:56-69 | Raises one pass's XP and keeps every claimed level reached and claimed once; amounts that are not positive change nothing, and without a season it says so |
| BattlePass.BattlePassService.GetMyProgress | src/modules/battle-pass/battle-pass.service.ts:38-52 | Looking at the progress creates the pass if there is none, changes nothing else, and answers the level |
| BattlePass.BattlePassService.ClaimLevel | src/modules/battle-pass/battle-pass.service.ts:74-130 | A refused or failed claim changes no table; a successful one is the specified step; balances stay ledger sums and no level is claimed twice |
| BattlePass.BattlePassService.GiveRewards | src/modules/battle-pass/battle-pass.service.ts:96-124 | The loop over rewards hands out the cosmetics and credits that apply, or reports that a credit did not fit |
| BattlePass.BattlePassService.GiveReward | src/modules/battle-pass/battle-pass.service.ts:97-123 | One turn: a premium reward is skipped for a free pass, a cosmetic is owned, a bonus is credited |
| BattlePass.BattlePassService.PurchasePremium | src/modules/battle-pass/battle-pass.service.ts:134-157 | The debit is committed before the grant: the answer says whether money was short or the grant failed after the debit; balances stay ledger sums and claims stay sound |
| BattlePass.PremiumChargedExactlyWhen | src/modules/battle-pass/battle-pass.service.ts:134-157 | A purchase adds a debit row iff the balance covers the price, whatever the pass is already |
| BattlePass.PremiumChargesAddUp | src/modules/battle-pass/battle-pass.service.ts:134-157 | n purchases in a row charge the price as often as it goes into the balance, at most n times, though the pass is premium from the first on |
| BattlePass.PremiumTwiceDebitsTwice | src/modules/battle-pass/battle-pass.service.ts:134-157 | Two purchases debit a wallet that covers both twice |
| Platform.PremiumAgainIsFreeExactlyWhen | src/modules/battle-pass/battle-pass.service.ts:134-157 | After any run, a purchase for a premium pass writes nothing to the ledger iff the balance is below the price |
| CosmeticsShop.CosmeticsService.BuyCosmetic | src/modules/cosmetics/cosmetics.service.ts:35-67 | Succeeds iff the cosmetic becomes newly owned, and then its price was debited; the debit is committed before the ownership row; balances stay ledger sums |
| CosmeticsShop.BuyExactly | src/modules/cosmetics/cosmetics.service.ts:35-67 | A purchase is charged iff the cosmetic is on offer, not owned, has a price and the balance covers it, and is owned afterwards iff it was, or was on offer and free or charged and could be stored; a charge without the ownership row stays |
| Platform.ClaimedForever | src/modules/battle-pass/battle-pass.service.ts:88-90 | After a claim, no run of calls of any kind lets the operator claim that level again: a further claim changes nothing on the platform |
| Platform.XpIsWhatWasAwarded | src/modules/battle-pass/battle-pass.service.ts:56-69 | In every run the XP of a pass is what was awarded to its operator in its season, whatever else is called |
| Platform.MoneyInAndOut | src/modules/wallet/wallet.service.ts:57-92 | Among all calls a deposit or withdrawal of a known user moves the positive amount asked for, in step with one ledger row, or only opens the wallet |
| Platform.StepKeepsSound | src/modules/wallet/wallet.service.ts:57-147 | Each call keeps balances equal to ledger sums, catalogue keys and claims, whatever a webhook carries |
| Platform.StepBalancedExactlyWhen | src/modules/payments/payments.service.ts:130-157 | A call keeps every balance from going negative iff it is no webhook that overdraws one |
| Platform.EveryRunKeepsTheBooks | src/modules/wallet/wallet.service.ts:57-147 | In every serialised run of all calls each balance is its ledger sum, PENDING included, and all wallets hold the ledger total; no state of the run has a negative balance iff no webhook of the run overdraws |
| Ranking.SquadPointsAreWon | src/modules/ranking/ranking.service.ts:99-117 | A squad's points, through three joins, are the sum over its members of the points of the missions whose eventId is that event and which the member completed |
| Ranking.SquadRankingExactly | src/modules/ranking/ranking.service.ts:99-119 | The squad ranking has exactly the squads whose team is one of the event, each with what its members won in missions of the event |
| Ranking.TeamIsSumOfSquads | src/modules/ranking/ranking.service.ts:146-169 | A team's points are the sum of the points of its squads as the squad ranking shows them |
| Ranking.TeamPointsAreWon | src/modules/ranking/ranking.service.ts:146-169 | A team's points are what the members of its squads won in missions of the event |
| Ranking.TeamIsSumOfOperators | src/modules/ranking/ranking.service.ts:50-71 | A team's points are the sum of the operator rows that carry the team |
| Ranking.OneRowPerOperator | src/modules/ranking/ranking.service.ts:50-71 | With one squad per operator and event, no operator has two rows |
| Ranking.ListedExactlyWhen | src/modules/ranking/ranking.service.ts:62-67 | An operator is listed iff they completed a mission whose eventId is that event and are in no squad at all or in a squad whose team is one of the event |
| Ranking.KeysExactly | src/modules/ranking/ranking.service.ts:50-71 | The rows of the operator ranking are exactly: whoever completed a mission of the event, under each squad and team of the event they play for, or under none if they are in no squad |
| Ranking.PlayerOfAnotherEventIsLeftOut | src/modules/ranking/ranking.service.ts:34-67 | An operator with points who plays only in a squad of another event is not listed |
| Ranking.OperatorRowIsTotal | src/modules/ranking/ranking.service.ts:50-71 | An operator's row, through the join with memberships, shows exactly the points of the missions of the event that they completed |
| Analytics.SquadColumnsExactly | src/modules/analytics/analytics.service.ts:139-178 | Aggregating per operator and joining afterwards gives each squad the points its members won, and the missions they completed and started, in missions whose eventId is that event; no row counts twice through the positions join |
| Analytics.OperatorMissionsExactly | src/modules/analytics/analytics.service.ts:54-66 | The subquery has one row for whoever has progress in a mission of the event, with how many they started and completed and what they won there |
| Analytics.OperatorPositionsExactly | src/modules/analytics/analytics.service.ts:67-75 | The positions subquery has one row for whoever sent a position of the event, with how many they sent |
| Analytics.SquadFixesExactly | src/modules/analytics/analytics.service.ts:139-178 | A squad's position fixes are those its members sent in the event, none counted twice through the join with missions |
| Analytics.ClampIsIdle | src/modules/analytics/analytics.service.ts:212-218 | Efficiency is the plain ratio whenever completed is at most attempted |
| Analytics.OperatorCompletedAtMostAttempted | src/modules/analytics/analytics.service.ts:54-66 | In every row of the per-operator subquery completed is at least zero and at most attempted, for any table |
| Analytics.SquadEfficiencyIsBetween | src/modules/analytics/analytics.service.ts:139-191 | A squad never completes more than it attempts, and its efficiency lies between those of two members who attempted something |
| StandingsAgree.SquadPointsAgree | src/modules/analytics/analytics.service.ts:139-178 | Ranking and analytics list the same squads with the same points, for every database state: the squads of the event's teams, with what their members won in missions of the event |
| StandingsAgree.OperatorPointsAgree | src/modules/analytics/analytics.service.ts:43-94 | The ranking lists exactly the analytics rows whose operator completed a mission of the event, under the same squad and team and with the same points, which are those of the missions of the event they completed |
| Analytics.KeysExactly | src/modules/analytics/analytics.service.ts:43-94 | Analytics lists exactly: whoever sent a position of the event or has progress in one of its missions, under each squad and team of the event they play for, or under none if they are in no squad |
| Competitive.NumbersAreExactly | src/modules/competitive/competitive.service.ts:58-69 | The round numbers of an event are exactly 1..n, each once, in order |
| Competitive.EveryRunIsValid | src/modules/competitive/competitive.service.ts:46-204 | In every run, deletions of teams and events included: numbers 1..n, only the newest round ACTIVE, an end time iff not ACTIVE, no winner of a cancelled round, one elimination per round and victim, and only activated events have rounds |
| Competitive.ClosedRoundsAreFrozen | src/modules/competitive/competitive.service.ts:102-106 | While every winner is a team of its own event, no run of calls changes a closed round |
| Competitive.ClosedRoundAfter | src/modules/teams/teams.service.ts:72-81 | A step leaves a closed round as it is, except that deleting the team that won it, or its DRAFT event, clears the winner |
| Competitive.ClosedRoundKeptExactlyWhen | prisma/schema.prisma:711-711 | Through any run a closed round keeps every column but the winner, and the winner iff no step deletes the team that won |
| Competitive.ForeignWinCanBeErased | src/modules/competitive/competitive.service.ts:108-131 | A PATCH without status to a team of a DRAFT event, a completion and the deletion of that team end in a closed round that lost its winner |
| Competitive.WinnersOkUnlessForeign | src/modules/competitive/competitive.service.ts:108-131 | A step, deletions of teams and events included, keeps every winner a team of its event iff it is not a PATCH without status naming another event's team |
| RoundCalls.CreateExactly | src/modules/competitive/competitive.service.ts:46-72 | A round starts iff the event is competitive and activated and has no ACTIVE round, and is then the next in number, ACTIVE, started now, without end or winner |
| RoundCalls.CompletionRecordsWinner | src/modules/competitive/competitive.service.ts:99-137 | Completing an ACTIVE round with a winner goes through iff the team is one of the event, and records that team and the time |
| RoundCalls.RecordExactly | src/modules/competitive/competitive.service.ts:141-182 | An elimination goes through iff the round is ACTIVE, victim and killer are rostered and different and the victim has none in the round, and is stored with its round, victim and killer |
| RoundCalls.DeleteExactly | src/modules/competitive/competitive.service.ts:200-204 | Taking an elimination back goes through iff it is there, and removes one row with its id and no other |
| Competitive.SurvivedIsExact | src/modules/competitive/competitive.service.ts:281-326 | Deaths are at most the rounds played, and roundsSurvived is the number of rounds without the operator's elimination |
| Competitive.CompetitiveService.FindLatest | src/modules/competitive/competitive.service.ts:58-62 | The scan finds the largest round number of the event, or zero |
| Competitive.CompetitiveService.StartRound | src/modules/competitive/competitive.service.ts:46-72 | Adds round n + 1 of an event that has n, or changes nothing with the specified error; the invariant is kept |
| Competitive.CompetitiveService.PatchRound | src/modules/competitive/competitive.service.ts:99-137 | Changes one ACTIVE round as specified or nothing; the invariant is kept |
| Competitive.CompetitiveService.Eliminate | src/modules/competitive/competitive.service.ts:141-182 | Records one elimination in an ACTIVE round between rostered operators or changes nothing; the invariant is kept |
| Competitive.CompetitiveService.Undo | src/modules/competitive/competitive.service.ts:200-204 | Removes exactly the named elimination or changes nothing; the invariant is kept |
| Mvp.SqlOrderIsBetter | src/modules/competitive/competitive.service.ts:423-427 | Among operators with kills, the query's order by kills, null-first ratio and callsign is kills, then fewer deaths, then callsign |
| Mvp.MvpIsUniqueMaximum | src/modules/competitive/competitive.service.ts:401-427 | The match MVP is the unique maximum of that order, and there is none iff nobody has a kill |
| Mvp.MvpLeadsTheScoreboard | src/modules/competitive/competitive.service.ts:401-428 | There is an MVP iff somebody rostered has a kill in the event; with the kills and deaths recorded in its rounds, the MVP has more kills than every other, or as many and fewer deaths, or as many of both and an earlier callsign |
| Mvp.StringLessExactly | src/modules/competitive/competitive.service.ts:427-427 | Callsigns compare by their first difference, and a prefix comes first |
| Mvp.RoundMvpLeads | src/modules/competitive/competitive.service.ts:345-386 | A round's MVP is one of its killers, with the kills recorded in it, who has more kills than every other killer, or as many and alone survived, or the same and an earlier callsign; there is none iff nobody was eliminated by another |
| Rosters.OneRowInEveryState | src/modules/ranking/ranking.service.ts:50-71 | In every reachable state of the squads the operator ranking has one row per operator |
| Rosters.MvpInEveryState | src/modules/competitive/competitive.service.ts:401-427 | In every reachable state of the squads, as soon as a rostered operator has a kill there is one MVP, who leads by kills and then by fewer deaths |
| Squads.StepKeepsValid | src/modules/squads/squads.service.ts:17-169 | Every call on events, teams, squads or members keeps one squad per operator and event, leaders members, names unique, keys resolved |
| Squads.EveryRunIsValid | src/modules/squads/squads.service.ts:17-169 | The same in every reachable state |
| Squads.DisbandedIsTerminal | src/modules/squads/squads.service.ts:164-169 | A disbanded squad is disbanded or deleted ever after and never gains a member |
| Squads.EndedIsFrozen | src/modules/squads/squads.service.ts:50-157 | Once an event is ENDED it stays so, and no run of calls adds, changes or removes a team, squad or membership of it |
| Memberships.PatchExactly | src/modules/squads/squads.service.ts:50-86 | A PATCH goes through iff the event has not ended, a disbanded squad stays so, the name is free in the team and the leader a member; it writes the fields it names and no other |
| Memberships.JoinExactly | src/modules/squads/squads.service.ts:101-132 | An operator joins iff the squad is not disbanded, its event has not ended and they are in no squad of it, and only that membership is added |
| Memberships.LeaveExactly | src/modules/squads/squads.service.ts:134-157 | A member leaves iff the event has not ended; only that membership goes, and the leader if it was them |
| Memberships.TeamDeletion | src/modules/teams/teams.service.ts:72-81 | A team is deleted iff its event is DRAFT, and with it exactly its squads and their memberships |
| Memberships.MemberExactlyWhen | src/modules/squads/squads.service.ts:88-157 | In every run an operator is in a squad iff they were at the start or joined since, and did not leave, and the squad, its team and its event were not deleted, afterwards |
| Memberships.StartedEventKeepsSquads | src/modules/squads/squads.service.ts:88-97 | Once its event has started, no run deletes a squad or moves it to another team or event |
| Squads.SquadsService.CreateForTeam | src/modules/squads/squads.service.ts:17-34 | Adds one squad, or changes nothing with the specified error |
| Squads.SquadsService.Update | src/modules/squads/squads.service.ts:50-86 | Changes one squad as specified, or nothing with the specified error |
| Squads.UpdateIsIdempotent | src/modules/squads/squads.service.ts:50-86 | A PATCH that was accepted is accepted again and then changes nothing |
| Squads.SquadsService.Remove | src/modules/squads/squads.service.ts:88-97 | Removes a squad of a DRAFT event with its memberships, or changes nothing |
| Squads.SquadsService.Join | src/modules/squads/squads.service.ts:101-132 | Adds one membership, or changes nothing with the specified error |
| Squads.SquadsService.Leave | src/modules/squads/squads.service.ts:134-157 | Removes one membership and clears the leader it leaves behind, or changes nothing |
| Auth.NeverAcceptedTwice | src/modules/auth/auth.service.ts:100-144 | In every run no refresh token is accepted twice |
| Auth.RefreshKeepsCount | src/modules/auth/auth.repository.ts:59-71 | In every run a successful refresh replaces the presented token among its user's unrevoked tokens by the new one, and every user keeps as many |
| Auth.AliveAfter | src/modules/auth/auth.repository.ts:33-113 | After any request a token is unrevoked iff it was and the request does not end it (its own refresh, its logout in time, a reset of its user), or the request issues it |
| Auth.AliveExactlyWhen | src/modules/auth/auth.repository.ts:33-113 | In every run a token is unrevoked iff it was issued, or there at the start, and no later call ended it |
| Auth.RefusedExactlyWhen | src/modules/auth/auth.service.ts:100-131 | In every run a refresh passes all checks iff its token is genuine, a refresh token, unexpired, unrevoked and of an existing user |
| Auth.IssuedTokenIsAccepted | src/modules/auth/auth.service.ts:100-144 | A token just issued is accepted before it expires |
| Auth.ResetEndsEarlierSessions | src/modules/auth/auth.repository.ts:98-113 | After a password reset no refresh token that any earlier call issued to that user is ever accepted |
| Auth.ResetWorksOnce | src/modules/auth/auth.repository.ts:88-113 | In every run a reset secret works at most once |
| Logins.LoginExactlyWhen | src/modules/auth/auth.service.ts:84-98 | In every run from empty tables a login is let in iff its email was registered and its password is the one last set for that user, by their registration or a successful reset with a secret of theirs; its token is a refresh token of that user with the given id that expires at now plus the given time |
| Logins.PasswordsExactly | src/modules/auth/auth.repository.ts:98-113 | In every run a user's password is the one last set by their registration or by a successful reset with a secret given out for them |
| Logins.EmailsExactly | src/modules/auth/auth.service.ts:65-75 | In every run an email is that of the user who first registered it |
| Logins.RegisterExactlyWhen | src/modules/auth/auth.service.ts:65-82 | A registration is turned away as taken iff its email was registered; its token is of the new user and expires at now plus the given time |
| Logins.ResetExactlyWhen | src/modules/auth/auth.service.ts:163-192 | In every run a reset works iff its secret was given out for a registered email, has not expired and was not redeemed since |
| Auth.AuthRepository.CreateRefreshToken | src/modules/auth/auth.repository.ts:33-35 | Inserts iff id and hash are free, else changes nothing |
| Auth.AuthRepository.RotateRefreshToken | src/modules/auth/auth.repository.ts:59-71 | Revokes the old row and inserts the new one, or neither |
| Auth.AuthService.IssueTokens | src/modules/auth/auth.service.ts:227-244 | Stores the refresh token it returns, or fails and stores nothing |
| Auth.AuthService.DoRegister | src/modules/auth/auth.service.ts:65-82 | Registers one new user and signs them in, or changes nothing for a known email |
| Auth.AuthService.DoLogin | src/modules/auth/auth.service.ts:84-98 | Answers as the step of the state machine does, whose logins are characterised by `Logins.LoginExactlyWhen` |
| Auth.AuthService.DoRefresh | src/modules/auth/auth.service.ts:100-144 | Rotates an active genuine refresh token of an existing user, else changes nothing |
| Auth.AuthService.DoLogout | src/modules/auth/auth.service.ts:146-153 | Revokes the token if it is active and always succeeds |
| Auth.AuthService.DoForgotPassword | src/modules/auth/auth.service.ts:163-182 | Accepts every email and stores a reset only for a known one |
| Auth.AuthService.DoResetPassword | src/modules/auth/auth.service.ts:184-192 | Applies an active reset once, else changes nothing |
| AntiCheat.PreviousAreNewest | src/modules/anti-cheat/anti-cheat.service.ts:52-60 | The fixes compared with are the two newest earlier ones of the operator and event, or all if there are fewer, newest first, and none left out is newer |
| AntiCheat.SpeedBands | src/modules/anti-cheat/anti-cheat.service.ts:127-154 | The severity is decided by millimetres against 60, 120 and 250 times the milliseconds passed, without a division; none if no time passed |
| AntiCheat.JumpLimits | src/modules/anti-cheat/anti-cheat.service.ts:166-188 | A jump is more than 500 m in less than 5000 ms, and MAJOR |
| AntiCheat.GpsLimits | src/modules/anti-cheat/anti-cheat.service.ts:190-243 | A GPS hit is three fixes in a row worse than 100 m, or a reported speed more than 50 m/s from the one travelled, and MINOR |
| AntiCheat.HitsExactly | src/modules/anti-cheat/anti-cheat.service.ts:46-75 | An inspection finds exactly what the three detectors find, the first two against the newest earlier fix |
| AntiCheat.JumpComesWithSpeed | src/modules/anti-cheat/anti-cheat.service.ts:166-188 | Every LOCATION_JUMP comes with a SPEED_IMPOSSIBLE in the same inspection, for any distance function |
| AntiCheat.InspectionLowersByStep | src/modules/anti-cheat/anti-cheat.service.ts:92-120 | One inspection lowers the score by 15 for each MAJOR and 50 for each SEVERE hit whose penalty is written, so by 0, 15, 30, 50 or 65, and by nothing if a suspicion is not stored |
| AntiCheat.ScoreStaysInBounds | src/modules/reputation/dto/reputation.dto.ts:12-29 | In every run the score is 100, plus 5, 15 or 50 for each commendation and less as much for each penalty of an admin, less what the inspections cost, which is at most 65 each |
| AntiCheat.ChargesAreOnRecord | src/modules/anti-cheat/anti-cheat.service.ts:77-120 | Whenever an inspection charges anything, each of its hits is on record as a suspicion of that operator and event at the time of the fix |
| AntiCheat.SuspicionsExactly | src/modules/anti-cheat/anti-cheat.service.ts:77-90 | On record are exactly the hits whose inserts succeed, for the operator and event inspected, at the time of the fix |
| AntiCheat.PenaltiesExactly | src/modules/anti-cheat/anti-cheat.service.ts:92-120 | Charged are exactly the MAJOR and SEVERE hits whose writes succeed, with -15 and -50, to the operator inspected, as automatic entries |
| AntiCheat.AntiCheatService.Detect | src/modules/anti-cheat/anti-cheat.service.ts:62-73 | Pushes exactly the hits of the three detectors, in order |
| AntiCheat.AntiCheatService.InspectPosition | src/modules/anti-cheat/anti-cheat.service.ts:46-123 | Every hit becomes a suspicion; if one can not be stored the job fails before any penalty; otherwise each MAJOR or SEVERE hit whose write succeeds is charged, and the score falls by one of the five steps |
| AntiCheat.AntiCheatService.WriteSuspicions | src/modules/anti-cheat/anti-cheat.service.ts:77-90 | Attempts every insert, keeps those that succeed, and succeeds iff all do |
| AntiCheat.AntiCheatService.WritePenalties | src/modules/anti-cheat/anti-cheat.service.ts:92-120 | Appends the penalties of the hits whose writes succeed and skips the others |

## Left out

- Interleavings inside one call: several checks are read outside the transaction that acts on them, so the theorems are about serialised calls.
- MissionRuns.CumulativeClosedForm: sums exact milliseconds, because the doubles the engine adds up round differently from case to case.
- PositionRuns.DuplicatesChangeNoProgress: takes one worker that handles the mission queue in order.
- PositionRuns.StoresAgree: leaves out the realtime channel, whose failures are only logged.
- AarWalk.PagesAreTheListUnlessCut: takes a table that does not change while the client walks, and rows of one time in table order.
- CsvReader.FixedReads: takes the rate as an exact real number below 10^21, not as a double.
- Ranking.TeamIsSumOfOperators: is about points before ORDER BY and LIMIT; the missions_completed columns of squads and teams count rows of all events and add up differently.
- Analytics.SquadEfficiencyIsBetween: leaves out mission seconds, active time and position fixes.
- Mvp.MvpIsUniqueMaximum: compares exact ratios and callsigns in code-point order; the collation of the database, the team totals and the rounding of kdRatio are not modelled.
- Payments.ReplaySafeExactlyWhen: takes the payload to be a function of the event id; signature checks and a Pagar.me body without an id are not modelled.
- BattlePass.BattlePassService.AwardXp: does not model 32-bit overflow of the XP column.
- Auth.NeverAcceptedTwice: takes token hashes to be injective and signatures as a fact about a token; JWT, argon2 and SHA-256 are not modelled, nor are access tokens, email and identity verification.
- AntiCheat.AntiCheatService.InspectPosition: the queue's further attempts at an aborted job, which store suspicions again, are separate inspections.
- AntiCheat.SpeedBands: works on real numbers and any distance function; the trigonometry of the haversine formula and the rounding of doubles are not modelled.
- Squads.EveryRunIsValid: leaves out descriptions, and the names and colours of teams and events.
- Mission, zone and team CRUD, the event timeline and export, and listings: field copying and simple guards.
- Admin searches, operator statuses and the review of suspicions: no table above depends on them.
- Controllers, request parsing, guards, PDF rendering, realtime sockets, MQTT, voice, media and health: plumbing or foreign services.
