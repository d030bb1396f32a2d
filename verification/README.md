# Verification of the gallery shop

A Dafny model of the parts of the shop where several steps, services or
processes must together keep a promise: stock through carts and orders, the
outgoing mail queue, sign-in sessions, the support chat's limits, like counters,
paged lists, and two pieces of string handling.

| files | what they model |
|---|---|
| Entities, Tables, StockLines, Stock | the shop's rows, its constraints, and what an order does to the stock |
| Orders, Cart, Paintings | the services, each method beside the rule it follows |
| Receipts, OrderRequests | checkout as the customer sees it; when every other order request is accepted and what it leaves |
| ShopMachine | every request as an event; what any run keeps |
| RowLocks, RowLockRuns | the order transactions interleaved under row locks; refinement, serial runs, deadlock |
| OrderWriters | every writer of an order row, its read apart from its write |
| MailOutbox, MailSafety, MailDispatcher, MailDrainRuns | the outbox with any number of processes, crashes and lost writes; one process draining it; and its drains as runs of the outbox |
| LetterText, LetterShape, LetterMarkup | escaping and plain text, with a small backtracking regex engine; what the text looks like; what becomes of markup |
| Sessions, Browsers, Undisturbed, AuthService, PasswordLinks, ClientRetry | refresh rotation on the server, the browsers that call it, reset links, and the client's retries |
| RateLimit | the two windows and the sweeper |
| Likes | rows and counters, with requests overlapping |
| Paging, Locale | paged orderings; locale prefixes |

`dafny verify dfyconfig.toml` checks everything.

Services that change rows in place are classes whose methods are proved against
rules on values; the laws are lemmas about the rules. Protocols are state
machines whose steps are the single statements a request makes, a transaction's
writes counting as one where nothing can come between them, so that anything
may come between two steps. Money is whole cents and time is a whole number of
milliseconds that never runs backwards. A transaction is a copy of the tables
assigned back when it commits.

## Where the code falls short of its promise

Each of these is stated exactly: when the promise holds, and an input or a run
where it does not.

- Merging a guest's cart writes a row for zero copies when both carts hold a
  painting that has sold out (`MergeKeepsPositive`, `PositiveKept`). Such a row
  can be bought, and cancelling that order once the painting has sold out again
  puts an empty shelf on sale: the only way there is (`SellableExactlyWhen`, run
  `EmptyShelfOnSale`).
- Whatever writes an order row (a status change, archiving, a payment's status,
  the proof of a payment, deletion) works from a row read earlier and not locked,
  and a save writes the whole of it. Copies of a painting appear or vanish exactly
  by what the order held when it was read, less what it holds now (`WriteMoves`);
  a write keeps them if and only if the order holds copies at both moments or at
  neither, or there are none to hold (`WriteConservesExactlyWhen`). Runs:
  `TwoCancelsAtOnce`, `TwoUncancelsAtOnce`, and with a single status change
  `ProofBesideCancel`, `LastCopyTwice` and `DeleteBesideUncancel`. While nothing
  else that writes an order's row overlaps a cancel or un-cancel of it, none do,
  over any run of all these writers (`WritersConserve`).
- The same saves give an order back to its owner of that moment: a claim made on
  signing in is undone, exactly if the row was read before it
  (`OwnerKeptExactlyWhen`, run `ClaimIsLost`).
- An edit of a painting saves the row it read, too: it brings back exactly the
  copies that have left since, unless it names the amount itself
  (`EditFromOldRead`); beside a checkout, what the customer bought
  (`EditBesideCheckout`).
- Merging a cart is a series of separate writes. Cut short between rounds it can
  be run again to the same end (`MergeResumes`); cut short inside one, the
  guest's copies count twice, exactly when the stock leaves room for them
  (`TornRoundCountsTwice`).
- Restocking a sold-out painting puts it back on sale only if the request says
  so, though the comment says it always does (`RestockingAlone`,
  `RestockedStaysOff`).
- The dispatcher's comment speaks of five attempts; there are five delays, so the
  sixth failure is the last (`AttemptsKept`, `Reschedule`).
- With several dispatcher processes a stale list can bring an attempt forward
  past its delay (`TwoDispatchersHurry`); a run keeps every delay if and only if
  each claim that succeeds finds its row due (`DelaysKeptExactlyWhen`), as it
  always does with one process (`BackoffRespected`).
- The client's comment says start-up shares the single refresh call; start-up
  posts on its own (web/src/auth/bootstrap.ts:31-44). A refresh rotates exactly
  when its token has not gone in the meantime, and a token is taken for a replay
  exactly when it has (`RotatesExactlyWhen`, `UnknownExactlyWhen`); the runs
  `StartupRefreshSignsOut` and `SecondAnswerSignsOut` end with the account signed
  out everywhere.
- Signing out of one device may sign out all of them, though the comment beside
  the code promises otherwise. A refresh is taken for a replay exactly if its
  token is live and its row was deleted (`RevokesExactlyWhen`), and answered with
  a dead token exactly if that happened after its lookup (`PoisonedExactlyWhen`).
  What leads there is signing out with one's own refresh in flight, refreshing
  before the answer has cleared the cookie, or having a session in use ended from
  elsewhere or, expiring, cleared away between lookup and write; nothing else (`FineExactlyWhen`, `FineThroughoutExactlyWhen`).
  Runs: `SigningOutEndsAll`, `SigningOutPoisons`, `EndedDeviceEndsAll`.
- A sign-out deletes nothing exactly if its session has ended, or was given a new
  token after the sign-out was posted (`SignOutMissesExactlyWhen`); in the run
  `SigningOutMisses` the browser ends up signed in.
- A reset link changes a password only in its turn exactly when, at the password
  write, its row is there, unmarked, and no earlier change by it awaits its mark
  (`ChangeIsProper`); the code looks at none of these there. Runs: `UsedTwice`,
  `ReplacedStillChanges`. An account gets a second link exactly when another
  request saved one between this one's delete and insert (`OneEachKept`, run
  `TwoLinks`).
- A like counter stays exact exactly through writes whose read is not out of date
  (`ExactKept`); a double click on a liked painting takes it down twice for one
  row (`TwoUnlikesAtOnce`).
- An archived order whose status is changed, and no other, is on neither tab of
  the order list (`StaysListed`, run `ReopenedIsLost`).

## Model

| member | source | states |
|---|---|---|
| StockLines.StockOrderSorts | backend/src/orders/orders.service.ts:85-90 | the walk is a rearrangement of the lines in ascending painting id |
| StockLines.StockOrderIsUnique | backend/src/orders/orders.service.ts:85-90 | for lines of distinct paintings there is only one such walk, so every transaction agrees on it |
| StockLines.StockOrderIsStrict | backend/src/orders/orders.service.ts:85-90 | along the walk ids strictly increase |
| Stock.TakenIsExact | backend/src/orders/orders.service.ts:265-269 | checks passed, exactly the ordered quantity leaves each row; the clamp at zero never decides |
| Stock.RestoredIsExact | backend/src/orders/orders.service.ts:511-513 | cancelling adds exactly the ordered quantity to each row |
| Stock.RepeatedLineWouldOversell | backend/src/orders/orders.service.ts:530-553 | with two lines for one painting the check passes twice and the clamp hides the shortfall: why lines must be distinct |
| Stock.RestoreThenTakeBack | backend/src/orders/orders.service.ts:498-557 | cancel then un-cancel never fails and returns every row to its amount and price; only a withdrawal from sale is forgotten |
| Stock.TakeBackThenRestore | backend/src/orders/orders.service.ts:498-557 | un-cancel then cancel returns every amount |
| Tables.CartLinesDistinct | backend/src/cart/entities/cart-item.entity.ts:16-17 | one cart row per identity and painting, so an order never has two lines for a painting |
| OrderRules.ToCentsIsNearest | backend/src/orders/orders.service.ts:78-83 | a two-decimal price becomes its exact number of cents; anything else moves by at most half a cent |
| OrderRules.CheckoutRound | backend/src/orders/orders.service.ts:247-280 | one round of the checkout loop: row, order line and running total advance together |
| Orders.OrdersService.Checkout | backend/src/orders/orders.service.ts:138-319 | every rejection in its order; on success stock, order, money and cart change together, otherwise nothing does |
| Orders.OrdersService.TakeLines | backend/src/orders/orders.service.ts:231-280 | the loop succeeds exactly when every line can be sold, and then takes, prices and totals exactly those lines |
| Orders.OrdersService.RestoreStock | backend/src/orders/orders.service.ts:498-516 | the loop restores every line of an order that moves stock and touches nothing for a commission |
| Orders.OrdersService.TakeStockBack | backend/src/orders/orders.service.ts:523-557 | all or nothing: succeeds exactly when every line is covered |
| Orders.OrdersService.LockAndCheck | backend/src/orders/orders.service.ts:529-543 | the first pass accepts exactly when each locked row covers its line |
| Orders.OrdersService.Cancel | backend/src/orders/orders.service.ts:559-601 | the method ends where the rule of the next rows does: one's own order, before it has left |
| OrderRequests.CancelExactlyWhen | backend/src/orders/orders.service.ts:560-585 | accepted if and only if the order is there, is the customer's own, and is PENDING or CONFIRMED; otherwise nothing changes, and of anyone else's order nothing is learnt |
| OrderRequests.CancelLeaves | backend/src/orders/orders.service.ts:587-600 | that order is cancelled, its other columns and every other order stand, and each shelf has its quantities back and is on sale (a commission moves none) |
| OrderRequests.CustomerMovesStatus | backend/src/orders/orders.service.ts:559-601 | of all a customer can ask for, only cancelling an open order of their own changes a status |
| OrderRequests.DepartedStays | backend/src/orders/orders.service.ts:575-585 | no run of customers' requests moves an order that was shipped, completed or cancelled |
| OrderRequests.OnlyOwnersCancel | backend/src/orders/orders.service.ts:559-601 | in any run of customers' requests an order's status moves if and only if somebody who owns it at that moment cancels it while it is open |
| Orders.OrdersService.UpdateStatusAdmin | backend/src/orders/orders.service.ts:951-1015 | stock moves exactly when the status enters or leaves CANCELLED; shipping needs a waybill |
| OrderRequests.UpdateExactlyWhen | backend/src/orders/orders.service.ts:956-1007 | refused for want of the order, of a waybill when shipping, or of the stock to bring it back, and only then |
| OrderRequests.UpdateLeaves | backend/src/orders/orders.service.ts:976-1014 | the status and, on shipping, the waybill are set; the shelf gains or loses the order's quantities exactly when it enters or leaves CANCELLED; all else stands |
| Orders.OrdersService.CreateCommission | backend/src/orders/orders.service.ts:681-780 | refused for a painting that is not repeatable or an offer below the price; no stock moves |
| OrderRequests.CommissionExactlyWhen | backend/src/orders/orders.service.ts:691-720 | accepted if and only if the painting is repeatable and the offer is not below its price; an offer left out is the price |
| OrderRequests.CommissionLeaves | backend/src/orders/orders.service.ts:721-774 | one more order, of one copy, for the offer, in the customer's name; shelf and carts stand |
| Orders.OrdersService.ClaimGuestOrders | backend/src/orders/orders.service.ts:814-824 | the guest's orders, and no others, change hands; answers how many |
| OrderRequests.ClaimLeaves | backend/src/orders/orders.service.ts:814-824 | the owner column of exactly the guest's orders changes, and nothing else |
| Orders.OrdersService.RemoveAdmin | backend/src/orders/orders.service.ts:1194-1208 | only a cancelled order can be deleted; what live orders hold does not change |
| OrderRequests.RemoveExactlyWhen | backend/src/orders/orders.service.ts:1194-1208 | if and only if it is cancelled; the one row goes and nothing else changes |
| Orders.OrdersService.ArchiveAdmin | backend/src/orders/orders.service.ts:1213-1229 | only a completed order can be archived; what live orders hold does not change |
| OrderRequests.ArchiveExactlyWhen | backend/src/orders/orders.service.ts:1213-1229 | if and only if it is completed; its mark is set and nothing else changes |
| Cart.CartService.AddItem | backend/src/cart/cart.service.ts:44-83 | adds to the row there is, or makes one, never beyond the stock; nothing for an unavailable painting |
| Cart.CartService.UpdateItem | backend/src/cart/cart.service.ts:85-111 | sets the quantity when the painting is on sale and has that many copies |
| Cart.CartService.RemoveItem | backend/src/cart/cart.service.ts:113-125 | takes one identity's row for one painting |
| Cart.CartService.ClearCart | backend/src/cart/cart.service.ts:127-131 | empties one identity's cart and no other; no painting is left in it |
| Cart.CartService.MergeGuestCart | backend/src/cart/cart.service.ts:133-158 | the loop over the guest's rows ends where the row-by-row description does |
| CartRules.RequestsChangeOneLine | backend/src/cart/cart.service.ts:44-125 | adding, setting and removing change the one line they name: to min(held + asked, stock), to what was asked, to nothing; one row per key stays, and no other line or cart moves |
| CartRules.RequestsExactlyWhen | backend/src/cart/cart.service.ts:44-125 | adding succeeds exactly if the painting is on sale with a copy left, setting if it is on sale with that many and in the cart, removing if it is in the cart |
| CartRules.MergeByPainting | backend/src/cart/cart.service.ts:133-158 | afterwards the guest has no rows; shared paintings hold min(both, stock), guest-only rows move unchanged, everyone else's carts stay |
| CartRules.MergeKeepsPositive | backend/src/cart/cart.service.ts:143-149 | a merge leaves a row for nothing exactly when both carts hold a painting that has sold out |
| Cart.MergeResumes | backend/src/cart/cart.service.ts:138-155 | cut short between two rounds, one row per key remains and merging again ends where one merge would have |
| Cart.TornRoundCountsTwice | backend/src/cart/cart.service.ts:143-149 | cut short inside a round, merging again counts the guest's copies twice, harmlessly exactly if there are none or the stock had capped the row |
| Receipts.SucceedsExactlyWhen | backend/src/orders/orders.service.ts:138-263 | checkout succeeds exactly when the form is complete, delivery is priced, and the cart is not empty and fully on sale in those numbers |
| Receipts.RefusedBecause | backend/src/orders/orders.service.ts:143-263 | and otherwise which of its five reasons it gives, the first that applies, with nothing changed |
| Receipts.BuysTheCart | backend/src/orders/orders.service.ts:236-308 | the new order is the cart at the shelf's prices with the quoted fees, totalled to the cent; the shelf has exactly that much less and is on sale while anything is left; the cart is empty; no other order or cart changes |
| ShopMachine.CommissionValid | backend/src/orders/orders.service.ts:701-774 | a commission keeps every constraint, its total included, and moves no copies |
| PaintingRules.RestockingAlone | backend/src/paintings/paintings.service.ts:207-216 | after a restock the painting is on sale exactly if the request says so, or says nothing and it already was (the comment beside the code promises more) |
| PaintingRules.RestockedStaysOff | backend/src/paintings/paintings.service.ts:207-216 | such a request |
| Paintings.PaintingsService.Create | backend/src/paintings/paintings.service.ts:83-109 | a new painting has one copy unless told otherwise and is on sale only with copies |
| PaintingRules.CreatedIs | backend/src/paintings/paintings.service.ts:67-109 | priced as asked; on sale exactly if it has copies and is not held back, so with copies and nothing said it is on sale |
| Paintings.PaintingsService.Update | backend/src/paintings/paintings.service.ts:180-219 | a PATCH changes the fields it names; availability is reconciled with the amount |
| PaintingRules.UpdatedIs | backend/src/paintings/paintings.service.ts:180-219 | every column the PATCH names is stored, every other kept; on sale exactly with copies and if the PATCH, or failing that the row, says so |
| Paintings.PaintingsService.Remove | backend/src/paintings/paintings.service.ts:221-245 | refused while an order refers to the painting; its cart rows go with it; afterwards nothing names it |
| PaintingRules.RemovedIs | backend/src/paintings/paintings.service.ts:221-245 | accepted if and only if no order has a line for it; its own cart rows go and no other |
| ShopMachine.ValidKept | backend/src/orders/orders.service.ts:138-1229 | every event keeps one cart row per key, the foreign keys, every order's arithmetic to the cent and every amount at or above zero |
| ShopMachine.Conserved | backend/src/orders/orders.service.ts:484-601 | every event: shelf plus live orders changes by the catalogue's own adjustment and nothing else |
| ShopMachine.RunConserves | backend/src/orders/orders.service.ts:484-601 | the same summed over any run |
| ShopMachine.NoOversell | backend/src/orders/orders.service.ts:236-280 | in any run, live orders hold no more copies than were ever brought in |
| ShopMachine.PositiveKept | backend/src/cart/cart.service.ts:133-158 | every cart and order line keeps asking for at least one copy, except after exactly one kind of event: merging a shared, sold-out painting |
| ShopMachine.SellableExactlyWhen | backend/src/orders/orders.service.ts:511-513 | an event puts a painting with no copies on sale exactly if it cancels an order with a line for none of a painting there is none of |
| ShopMachine.SellableKept | backend/src/paintings/paintings.service.ts:67-74 | so, with every line asking for at least one copy, no event does |
| ShopMachine.RunSellable | backend/src/paintings/paintings.service.ts:213-216 | both over any run without that kind of merge |
| ShopMachine.EmptyShelfOnSale | backend/src/cart/cart.service.ts:143-149 | a run of five events that starts with that merge and ends with an empty shelf on sale |
| RowLocks.StepRefines | backend/src/orders/orders.service.ts:230-311 | each step of any interleaving is one atomic transaction or invisible; a rollback happens only where the atomic one would be refused |
| RowLocks.CommitIsBody | backend/src/orders/orders.service.ts:230-311 | a commit publishes what the transaction would have done alone at that moment |
| RowLocks.RollbackIsRejection | backend/src/orders/orders.service.ts:253-261 | a transaction that fails under lock would have failed alone |
| RowLocks.OthersCommit | backend/src/orders/orders.service.ts:238-246 | a row read under lock cannot change beneath its reader, whatever others commit |
| RowLockRuns.RunIsSerial | backend/src/orders/orders.service.ts:230-311 | any interleaved run ends where its committed transactions, run one by one in commit order, end |
| RowLockRuns.ConcurrentIsSequential | backend/src/orders/orders.service.ts:138-319 | with one status change per order and one checkout per customer in flight, an interleaved run is a run of whole requests, each taking effect at its commit |
| RowLockRuns.ConcurrentConserves | backend/src/orders/orders.service.ts:230-311 | of checkouts, cancels and un-cancels, with status changes of one order kept apart and nothing asked of checkouts: every interleaved run conserves every painting's copies |
| OrderWriters.WriteMoves | backend/src/orders/orders.service.ts:560-1228 | any write of an order row, of any kind: copies move exactly by what the order held when it was read, less what it holds now |
| OrderWriters.WriteConservesExactlyWhen | backend/src/orders/orders.service.ts:560-1228 | so a write keeps every painting's copies if and only if the order, unless it has no copies at all, holds stock at both moments or at neither |
| OrderWriters.StepMoves | backend/src/orders/orders.service.ts:560-1228 | the same over every step of a run in which all writers and all other requests take part |
| OrderWriters.WritersConserve | backend/src/orders/orders.service.ts:560-1228 | while nothing else that writes an order's row overlaps a cancel or un-cancel of it, no run makes or loses a copy |
| OrderWriters.AtOnceIsRequest | backend/src/orders/orders.service.ts:951-1229 | read and written with nothing in between, each is its whole request |
| OrderWriters.CommitIsWritten | backend/src/orders/orders.service.ts:587-594 | a cancel's or un-cancel's commit, in any interleaving of row locks, is that write |
| OrderWriters.ProofBesideCancel | backend/src/orders/orders.service.ts:613-642 | from any order that holds stock: a proof read before a cancel and saved after it doubles the order's copies |
| OrderWriters.LastCopyTwice | backend/src/orders/orders.service.ts:613-642 | such a run from one copy to two |
| OrderWriters.DeleteBesideUncancel | backend/src/orders/orders.service.ts:1194-1205 | from any cancelled order: deleted from a read before an un-cancel, its copies are lost |
| OrderWriters.OwnerKeptExactlyWhen | backend/src/orders/orders.service.ts:814-824 | a save leaves an order with its owner exactly if it had that owner when it was read |
| OrderWriters.ClaimIsLost | backend/src/orders/orders.service.ts:814-824 | a claimed order goes back to the guest when a proof read before the claim is saved |
| OrderWriters.EditFromOldRead | backend/src/paintings/paintings.service.ts:180-218 | an edit of a painting brings in exactly the copies that have left the row since it was read, unless it names the amount |
| OrderWriters.EditBesideCheckout | backend/src/paintings/paintings.service.ts:180-218 | read before a checkout and saved after it, it puts back what was bought |
| RowLockRuns.CommitIsRequest | backend/src/orders/orders.service.ts:559-601 | such a commit is the whole request, checks included |
| RowLockRuns.CancelFromOldRead | backend/src/orders/orders.service.ts:560-594 | the exact copies made when a cancel works from an order row that has moved on: the order's quantities if it was already cancelled, otherwise none |
| RowLockRuns.UncancelFromOldRead | backend/src/orders/orders.service.ts:956-1004 | the exact copies lost when an un-cancel does: the order's quantities if it was live again, otherwise none |
| RowLockRuns.StatusFromOldRead | backend/src/orders/orders.service.ts:956-1014 | any status change, whatever it sets: copies move exactly by whether the order it read and the order there is are live |
| RowLockRuns.StatusWriteIsRequest | backend/src/orders/orders.service.ts:951-1014 | read afresh, those writes are the request itself, the admin's and the customer's |
| RowLockRuns.CommitFromOldRead | backend/src/orders/orders.service.ts:559-601 | the same of a commit in any interleaving |
| RowLockRuns.TwoUncancelsAtOnce | backend/src/orders/orders.service.ts:995-1004 | a run in which an order is brought back twice at once and one copy is lost |
| RowLockRuns.TwoCancelsAtOnce | backend/src/orders/orders.service.ts:560-594 | a run in which customer and admin cancel one order together and one copy becomes two |
| Deadlock.HoldsOnlyBelow | backend/src/orders/orders.service.ts:85-90 | a waiting transaction holds only rows below the one it waits for |
| Deadlock.SomeoneCanStep | backend/src/orders/orders.service.ts:85-90 | in every reachable state with unfinished transactions, some transaction can step |
| Deadlock.StepsRunOut | backend/src/orders/orders.service.ts:247-280 | every step but a beginning leaves strictly less to do |
| Deadlock.AllCanFinish | backend/src/orders/orders.service.ts:85-90 | from every reachable state all transactions begun can be brought to commit or rollback |
| Deadlock.CrosswiseIsStuck | backend/src/orders/orders.service.ts:85-90 | without the ordering, two checkouts of the same two paintings can be stuck for good |
| MailOutbox.AttemptsKept | backend/src/mail/mail.dispatcher.ts:184-215 | any number of processes, any staleness: waiting letters have at most five attempts behind them, dead ones exactly six |
| MailOutbox.AttemptsAlwaysBounded | backend/src/mail/mail.dispatcher.ts:17-23 | the same over any run |
| MailSafety.CopiesKept | backend/src/mail/mail.dispatcher.ts:102-176 | every delivered copy beyond the first is accounted for by a crash after delivery, a lost SENT mark, the admin's button or a release under a live send |
| MailSafety.CopiesAlwaysAccountedFor | backend/src/mail/mail.dispatcher.ts:102-176 | the same over any run |
| MailSafety.AlwaysAlone | backend/src/mail/mail.dispatcher.ts:116-147 | one process: nothing in hand or still queued in the drain is released or becomes due early |
| MailSafety.DeliveredOnce | backend/src/mail/mail.dispatcher.ts:116-176 | one process, any run: copies never exceed 1 plus those excuses, and no letter is released while being sent |
| MailSafety.ExcusesAre | backend/src/mail/mail.dispatcher.ts:162-181 | what counts as an excuse, exactly: SMTP took the letter and the process did not get to say so, or somebody asked to send it again; and releases of a letter still in hand are counted apart; copies grow only by delivery |
| MailSafety.LostMarkIsRetried | backend/src/mail/mail.dispatcher.ts:162-181 | a letter SMTP took, whose row could not be marked so, waits to be sent again like one that was refused |
| MailSafety.SentWasDelivered | backend/src/mail/mail.dispatcher.ts:162-170 | with any number of processes, crashes and lost writes: no letter is SENT that SMTP did not accept |
| MailSafety.OnlySettledLeave | backend/src/mail/mail.service.ts:779-785 | a letter leaves the outbox exactly by being cleared away when SENT or SKIPPED |
| MailSafety.SendAgainIs | backend/src/mail/mail.service.ts:757-775 | sending again is open to any letter not on its way: it is back at its first attempt, due at once, and no other letter moves |
| MailSafety.BackoffRespected | backend/src/mail/mail.dispatcher.ts:202-215 | one process, any run: no claim succeeds before the delay the last recorded failure asked for |
| MailSafety.ClaimIsExclusive | backend/src/mail/mail.dispatcher.ts:153-160 | several processes: between a claim and its outcome or release no other claim of the letter succeeds |
| MailSafety.EarlyIsUndue | backend/src/mail/mail.dispatcher.ts:153-160 | until a claim has taken a row that was not due, a claim comes before its delay exactly if its row is not due |
| MailSafety.DelaysKeptExactlyWhen | backend/src/mail/mail.dispatcher.ts:132-160 | any number of processes: a run keeps every delay if and only if each claim that succeeds finds its row due |
| MailSafety.FirstHurry | backend/src/mail/mail.dispatcher.ts:153-160 | the same of the first claim to break a delay, in any run from an empty outbox |
| MailSafety.TwoDispatchersHurry | backend/src/mail/mail.dispatcher.ts:132-160 | a run of two processes in which a stale list brings an attempt forward past its delay |
| MailDispatcher.Dispatcher.Drain | backend/src/mail/mail.dispatcher.ts:117-126 | a drain asked for during a drain does nothing |
| MailDispatcher.Dispatcher.RunDrain | backend/src/mail/mail.dispatcher.ts:128-147 | the loop releases, fetches twenty by id and attempts each |
| MailDispatcher.Dispatcher.Attempt | backend/src/mail/mail.dispatcher.ts:149-182 | claims only a PENDING row, then records what SMTP answered: SENT, with one copy more, if and only if it accepted |
| MailDrainRuns.AttemptAnswers | backend/src/mail/mail.dispatcher.ts:149-220 | accepted, a letter is SENT with one copy more; refused, its copies stand and it is PENDING at that moment plus the delay for its k-th failure, or FAILED after the sixth; a row no longer PENDING is left alone |
| MailDrainRuns.DrainedIs | backend/src/mail/mail.dispatcher.ts:128-147 | in a whole drain exactly that becomes of each letter in the batch, once, and every other only stops being stuck |
| MailDrainRuns.InBatchExactlyWhen | backend/src/mail/mail.dispatcher.ts:132-139 | the batch is the due letters with fewer than twenty due before them |
| MailDrainRuns.SentMeansOneCopy | backend/src/mail/mail.dispatcher.ts:149-182 | over any drains from fresh letters, whatever SMTP answers: a letter is SENT if and only if exactly one copy of it went out, and none went out of the others |
| MailDrainRuns.DrainIsRun | backend/src/mail/mail.dispatcher.ts:117-220 | every drain is a run of the outbox machine by one process (release, fetch, then for each letter claim, deliver and mark, or refuse and reschedule) that ends in the same letters |
| MailDispatcher.Dispatcher.Reschedule | backend/src/mail/mail.dispatcher.ts:184-220 | the delay for this failure, or FAILED when the delays have run out |
| MailDispatcher.DrainCounts | backend/src/mail/mail.dispatcher.ts:128-147 | a drain uses up at least one attempt for every letter in its batch |
| MailDispatcher.EachBusyDrainCounts | backend/src/mail/mail.dispatcher.ts:128-147 | over any drains, however timed: attempts left afterwards plus drains that found work never exceed attempts left before |
| MailDispatcher.QueueDrains | backend/src/mail/mail.dispatcher.ts:128-220 | so no more drains can find work than there are attempts left, and after that many every letter is SENT or FAILED, whatever SMTP did |
| MailDispatcher.TimerDrains | backend/src/mail/mail.dispatcher.ts:17-29 | with drains at most `gap` apart, however many come in between, all is settled within six hours, five minutes and two gaps for each attempt left |
| MailDispatcher.SettledStays | backend/src/mail/mail.dispatcher.ts:128-147 | and stays so |
| MailDispatcher.NobodyStarves | backend/src/mail/mail.dispatcher.ts:132-139 | a due letter is passed over at most once for every twenty attempts left in the queue |
| LetterText.EscapeIsPerCharacter | backend/src/mail/mail.service.ts:106-112 | the four global replacements are one code per character |
| LetterText.StripTagsLeavesEscaped | backend/src/mail/mail.service.ts:75-85 | no tag pattern matches escaped text |
| LetterText.DecodingUndoesEscaping | backend/src/mail/mail.service.ts:86-91 | decoding the entities in that order undoes escaping, for every string |
| LetterText.EscapedTextReadsBack | backend/src/mail/mail.service.ts:73-112 | escaped into a letter and read back, a text is what the last stage makes of the text itself; the rows below say what that is |
| LetterShape.ReadsBackAsTyped | backend/src/mail/mail.service.ts:73-112 | it is neat, and it has the words of what was typed, in order, on the same lines and in the same paragraphs; words and neatness are told from the text alone |
| LetterShape.VisibleReadsBack | backend/src/mail/mail.service.ts:73-112 | not a character that can be seen is lost, added or moved |
| LetterShape.PlainReadsBack | backend/src/mail/mail.service.ts:73-112 | with blanks, tabs and line ends for white space it is exactly the words: one blank between two, one line end between lines, an empty line between paragraphs |
| LetterShape.NeatReadsBack | backend/src/mail/mail.service.ts:73-112 | a neat text comes back to the letter |
| LetterShape.TextIsNeat | backend/src/mail/mail.service.ts:92-96 | whatever the markup: no white space at either end of a line, no tab, no two blanks together, no three line ends together, none at the ends |
| LetterShape.TidyKeepsWords | backend/src/mail/mail.service.ts:92-96 | tidying keeps the words of any text and how they are set apart |
| LetterShape.NeatTextStands | backend/src/mail/mail.service.ts:92-96 | tidying leaves a neat text alone |
| LetterMarkup.BreakEndsLine | backend/src/mail/mail.service.ts:83 | a line break ends the line |
| LetterMarkup.BlockEndsLine | backend/src/mail/mail.service.ts:84 | the end of a paragraph, division, heading, list item or table row ends the line |
| LetterMarkup.LinksSpeak | backend/src/mail/mail.service.ts:76-82 | a link becomes its trimmed label with the address in brackets, or the address alone where the label says nothing else |
| LetterMarkup.OtherTagsSayNothing | backend/src/mail/mail.service.ts:85 | any other tag goes, and the text on both sides of it stays |
| LetterMarkup.ScriptsSayNothing | backend/src/mail/mail.service.ts:75 | a script or a style goes with everything in it, up to its first end tag, in whatever case the tags are |
| LetterText.EntitiesDecode | backend/src/mail/mail.service.ts:86-91 | each of the six entities stands for its character, and what is around it stands |
| LetterText.AmpersandFirstDecodesTwice | backend/src/mail/mail.service.ts:86-91 | with the ampersand decoded first it would not be |
| LetterText.NoTagSurvives | backend/src/mail/mail.service.ts:75-85 | whatever the markup, broken or nested, no tag is left in the text |
| Regexes.NoFirstCharNoMatch | backend/src/mail/mail.service.ts:75-85 | a pattern that starts with a literal changes nothing in a text without it |
| AuthService.SessionStore.IssueSession | backend/src/auth/auth.service.ts:314-333 | one more row, holding the token handed out |
| AuthService.SessionStore.Refresh | backend/src/auth/auth.service.ts:348-416 | when a refresh succeeds, and what each way of failing deletes |
| AuthService.SessionStore.LogoutByRefreshToken | backend/src/auth/auth.service.ts:425-431 | ends the session of that token and no other |
| AuthService.SessionStore.LogoutEverywhere | backend/src/auth/auth.service.ts:435-439 | ends the account's sessions and no other; answers how many |
| AuthService.SessionStore.EndSession | backend/src/auth/auth.service.ts:463-475 | ends the session only if it belongs to the account |
| AuthService.SessionStore.EndOthers | backend/src/auth/auth.service.ts:588-599 | the loop deletes every row of the account but the one holding the current token |
| AuthService.OnlyThisDeviceStays | backend/src/auth/auth.service.ts:588-599 | after a password change the account's only live token is the one that was shown |
| AuthService.PasswordResets.RequestPasswordReset | backend/src/auth/auth.service.ts:482-520 | the account's only link is the new one; other accounts' links stay |
| AuthService.PasswordResets.ResetPassword | backend/src/auth/auth.service.ts:522-552 | works exactly with a live link of an account that exists; the link is then spent and the account signed out everywhere |
| PasswordLinks.DeadForGood | backend/src/auth/auth.service.ts:522-531 | in any interleaving, every click on a link that has been marked or replaced is refused ever after |
| PasswordLinks.StartIsCalm | backend/src/auth/auth.service.ts:482-552 | an empty table satisfies what the lemmas about runs of links ask of where a run begins |
| PasswordLinks.AskingWorks | backend/src/auth/auth.service.ts:482-520 | asked for with nothing in between, a link is the account's only one and good for an hour; no other account's links change |
| PasswordLinks.ClickingWorks | backend/src/auth/auth.service.ts:522-552 | clicked while it is good, it changes the password once and is good no more; otherwise nothing happens |
| PasswordLinks.ClickPassesAfterChange | backend/src/auth/auth.service.ts:527-546 | a click passes on a link that has changed a password exactly while that change has not been marked |
| PasswordLinks.ChangeIsProper | backend/src/auth/auth.service.ts:539-546 | a password write uses a link neither used nor replaced before exactly if its row is there, unmarked, and no earlier change by it awaits its mark |
| PasswordLinks.UsedTwice | backend/src/auth/auth.service.ts:527-546 | two runs in which one link changes a password twice, one of them without overlapping checks |
| PasswordLinks.ReplacedStillChanges | backend/src/auth/auth.service.ts:492-546 | a run in which a replaced link changes a password |
| PasswordLinks.OneEachKept | backend/src/auth/auth.service.ts:492-505 | an account gets two links exactly when one was saved between another request's delete and insert |
| PasswordLinks.TwoLinks | backend/src/auth/auth.service.ts:492-505 | a run that leaves an account two live links |
| PasswordLinks.EachLinkOnce | backend/src/auth/auth.service.ts:522-546 | if a link is clicked again only once the request that used it has marked it, no link changes a password twice, in any run |
| PasswordLinks.OneLinkEach | backend/src/auth/auth.service.ts:482-505 | if an account asks again only once its last link is saved, it never has two, in any run |
| Sessions.RotateOk | backend/src/auth/auth.service.ts:402-413 | rotation keeps rows, owners and devices; it swaps exactly one token, or changes nothing if the row has moved on |
| Sessions.LiveRowNotExpired | backend/src/auth/auth.service.ts:383-386 | the check on the row's own expiry cannot fire for a token that verified |
| SessionRuns.RotatedAtMostOnce | backend/src/auth/auth.service.ts:288-416 | any interleaving: hashes stay distinct, each token replaces a hash at most once, and never comes back |
| SessionRuns.UnknownExactlyWhen | backend/src/auth/auth.service.ts:363-381 | in any reachable state a live token is taken for a replay exactly when it was rotated away, was signed by a rotation that did not land, or its row was deleted |
| SessionRuns.ReplayIsCaught | backend/src/auth/auth.service.ts:363-381 | a token that has gone in any of these ways is found in no row, however the run goes on |
| SessionRuns.RotatesExactlyWhen | backend/src/auth/auth.service.ts:402-415 | a refresh that found its row rotates exactly when its token has not gone since; otherwise it answers with a token no row holds |
| SessionRuns.OthersArePoisoned | backend/src/auth/auth.service.ts:363-415 | once a token is rotated away, every other refresh with it, in any run, ends the account's sessions or answers with a token that will |
| SessionRuns.StartupRefreshSignsOut | web/src/auth/bootstrap.ts:31-44 | from any signed-in account: a second refresh that looks after the first has written signs it out everywhere |
| SessionRuns.SecondAnswerSignsOut | web/src/auth/bootstrap.ts:31-44 | and one that looked before does so when its answer is next used |
| SessionRuns.RefreshKeepsDevices | backend/src/auth/auth.service.ts:404-413 | a refresh changes neither how many sessions an account has nor their owners and devices |
| SessionRuns.GoodForThirtyDays | backend/src/auth/auth.service.ts:288-333 | the token of a sign-in can be presented for thirty days, to the second |
| Browsers.NeverMistakenForReplay | web/src/api/client.ts:41-61 | any number of browsers that refresh one call at a time, where signing out and refreshing wait for each other and no session in use is ended from elsewhere: a browser at rest has a cookie some row holds or an expired one, and nothing is ever taken for a replay |
| Browsers.RevokesExactlyWhen | backend/src/auth/auth.service.ts:363-381 | in every reachable state, whoever signs out or is ended when: a lookup ends the account's sessions exactly if its token is live and its row was deleted, or it never had one |
| Browsers.PoisonedExactlyWhen | backend/src/auth/auth.service.ts:402-415 | a refresh answers with a token no row holds exactly if its row was deleted between lookup and write |
| Browsers.SignOutMissesExactlyWhen | backend/src/auth/auth.service.ts:425-431 | a sign-out deletes nothing exactly if its session has ended already or has a new token |
| Browsers.FineExactlyWhen | backend/src/auth/auth.service.ts:363-431 | a step puts what some browser has in play at risk if and only if it is one of these: a sign-out with its own refresh in flight, a refresh before the cookie is cleared, the end from elsewhere of a session in use, the clearing away of a row that expired between lookup and write |
| Browsers.FineThroughoutExactlyWhen | backend/src/auth/auth.service.ts:363-431 | the same for whole runs; without such a step no account is ended |
| Undisturbed.SigningInWorks | backend/src/auth/auth.service.ts:314-333 | from any world, a new browser that signs in has a token one row holds, good for thirty days; no other browser or row changes |
| Undisturbed.RefreshingWorks | backend/src/auth/auth.service.ts:348-416 | a browser in use that refreshes with nothing in between has a new token in the same row, and its old one is in none; no other browser or row changes |
| Undisturbed.SigningOutWorks | backend/src/auth/auth.service.ts:418-431 | signing out with nothing in between ends that session, and no other, and leaves the browser without a token |
| Browsers.SigningOutEndsAll | backend/src/auth/auth.controller.ts:148-157 | from any world with a signed-in browser: it signs out with a refresh on its way, and every session of the account ends |
| Browsers.SigningOutPoisons | backend/src/auth/auth.service.ts:402-431 | and with the refresh looked up already, it is left a token that will end them |
| Browsers.EndedDeviceEndsAll | backend/src/auth/auth.service.ts:463-475 | ending one device's session ends all of the account's as soon as that device refreshes |
| Browsers.SigningOutMisses | backend/src/auth/auth.service.ts:418-431 | a sign-out that deletes nothing, after which the browser is signed in again |
| Browsers.StartIsLinked | backend/src/auth/auth.service.ts:314-333 | an empty table and no browsers satisfy what the lemmas about runs ask of where a run begins |
| Browsers.StepLinked | backend/src/auth/auth.service.ts:288-431 | the invariant behind these, kept by every step: no two browsers share a token, and nothing a browser has in play was rotated away by another |
| ClientRetry.AtMostTwice | web/src/api/client.ts:46-115 | any mix of answers, the support socket asking for refreshes as well: at most one refresh in flight, no request sent a third time |
| ClientRetry.StoriesFromIdle | web/src/api/client.ts:46-115 | in any run, every request: it waits for a refresh if and only if its first answer was a 401, or nobody's identity though it bore a token; after one that succeeded it goes out again and that answer is the end of it; after one that failed it does so only as a guest, without a token, when it had no identity, and has otherwise failed |
| ClientRetry.SendsBear | web/src/api/client.ts:24-36 | every send bears a token exactly if the visitor is signed in when it goes out; a second one, if the refresh succeeded, too |
| ClientRetry.SignedInExactlyWhen | web/src/api/client.ts:46-115 | signed in by signing in or a refresh that succeeds, signed out by the button or one that failed, by nothing else |
| ClientRetry.InterceptorStops | web/src/api/client.ts:63-115 | the client takes at most four steps for each request the page makes, and one for each refresh the socket asks for |
| ClientRetry.NothingHangs | web/src/api/client.ts:63-115 | a request that is not over always has a next step |
| RateLimit.SupportRateLimitService.AllowMessage | backend/src/support/support-rate-limit.service.ts:33-38 | both windows are consumed on every message, whichever refuses; the answer is the one of the next row |
| RateLimit.AllowedExactlyWhen | backend/src/support/support-rate-limit.service.ts:33-59 | after any run: a message is allowed if and only if it is among the first 20 of its socket's latest window and the first 60 of its address's, refused ones counting too; the windows as the history of uses defines them |
| RateLimit.NeverRefused | backend/src/support/support-rate-limit.service.ts:11-59 | whoever has made at most 20 uses of a socket and 60 of an address in the last minute is let through |
| RateLimit.SupportRateLimitService.Consume | backend/src/support/support-rate-limit.service.ts:44-59 | a window opens, or counts and compares; the answer is what the counter says |
| RateLimit.SupportRateLimitService.ReleaseSocket | backend/src/support/support-rate-limit.service.ts:40-42 | forgets one socket's window and no address's; the next message opens a new one |
| RateLimit.SupportRateLimitService.SweepBoth | backend/src/support/support-rate-limit.service.ts:62-72 | drops exactly the windows that are over |
| RateWindows.StoreFollows | backend/src/support/support-rate-limit.service.ts:44-72 | the store always agrees with the windows as the history of uses defines them, sweeps or not |
| RateWindows.GrantsBounded | backend/src/support/support-rate-limit.service.ts:44-59 | any window rule: at most twice the limit within one closed window length, one fewer within a half-open one |
| RateWindows.BoundIsReached | backend/src/support/support-rate-limit.service.ts:44-59 | and twice the limit is reached |
| RateLimit.SweepsAreInvisible | backend/src/support/support-rate-limit.service.ts:62-72 | any run with its sweeps taken out gives every message the same answer |
| RateLimit.AddressBound | backend/src/support/support-rate-limit.service.ts:11-12 | an address gets at most 120 messages through in any minute (119 half-open), however many sockets it opens |
| RateLimit.SocketBound | backend/src/support/support-rate-limit.service.ts:11-12 | a socket gets 40 (39) |
| RateLimit.WindowBound | backend/src/support/support-rate-limit.service.ts:33-59 | within one window 60 and 20, and each of the first so many uses is granted |
| LikeRules.ToggleTwice | backend/src/likes/likes.service.ts:20-51 | one toggle changes exactly that pair and that counter by one; two leave who likes what and every counter as they were |
| LikeRules.ToggleExactlyWhen | backend/src/likes/likes.service.ts:20-51 | accepted exactly of a painting there is, by an account there is or, taking a like back, one that has it |
| LikeTraffic.AtOnceIsRequest | backend/src/likes/likes.service.ts:20-51 | read and written with nothing in between, a toggle or a deletion is its whole request, and one turned away changes nothing |
| LikeTraffic.ComingsAndGoings | backend/src/paintings/paintings.service.ts:83-245 | a new painting has no likes; a withdrawn one takes exactly its own with it |
| LikeTraffic.SoundKept | backend/src/likes/entities/painting-like.entity.ts:15-16 | at most one like per user and painting, in every interleaving |
| LikeTraffic.SlipIsExact | backend/src/likes/likes.service.ts:29-43 | how far each write throws each counter off the row count, whatever came between its read and its write |
| LikeTraffic.ExactKept | backend/src/likes/likes.service.ts:29-43 | a step keeps every counter exact if and only if it does not write from a stale read |
| LikeTraffic.AlwaysExact | backend/src/users/users.service.ts:156-177 | while no user toggles one painting twice at once, or anything beside deleting their account, every counter is the number of its rows at every point of every run, through sign-ups, deletions and paintings coming and going |
| LikeTraffic.TwoUnlikesAtOnce | backend/src/likes/likes.service.ts:29-36 | a double click that leaves a counter one short |
| LikeServices.LikesService.ToggleLike | backend/src/likes/likes.service.ts:20-51 | answers the new state and the new counter |
| LikeServices.LikesService.GetMyLikedPaintings | backend/src/likes/likes.service.ts:58-75 | every liked painting that is found, once and no other, latest like first |
| LikeServices.UsersService.Remove | backend/src/users/users.service.ts:148-191 | succeeds exactly for an account there is, not one's own; orders stay without their owner, likes leave the counters before the rows go, the cart goes; nothing names it afterwards |
| Paging.OneAnswer | backend/src/paintings/paintings.service.ts:138-147 | with the id as tiebreaker the database has no choice |
| Paging.PagesShowEverything | backend/src/paintings/paintings.service.ts:138-155 | pages from separate queries concatenate to the whole sorted list exactly from page totalPages on |
| Paging.TiebreakerIsNeeded | backend/src/paintings/paintings.service.ts:141-146 | sorting by the key alone shows everything for every page size exactly when no two rows share a key |
| Paging.NeighboursSwap | backend/src/paintings/paintings.service.ts:141-146 | two rows that tie: pages that show one twice and the other never |
| Catalogue.BuildWhere | backend/src/paintings/paintings.service.ts:122-136 | the filter built step by step passes exactly the works asked for |
| Catalogue.EveryWorkOnce | backend/src/paintings/paintings.service.ts:111-156 | under each of the five orders, the pages show every wanted work once and no other |
| Catalogue.PagesAreInOrder | backend/src/paintings/paintings.service.ts:34-40 | along the pages the newest come first, or the oldest, the cheapest, the dearest, the most liked, as asked for; of works that tie, the one added last |
| AdminOrders.EveryOrderOnce | backend/src/orders/orders.service.ts:855-893 | the pages of a tab show every order on it once and no other |
| AdminOrders.StaysListed | backend/src/orders/orders.service.ts:860-865 | every order stays on at least one tab, except after exactly one kind of event: changing the status of an archived order |
| AdminOrders.ReopenedIsLost | backend/src/orders/orders.service.ts:1211-1229 | such a run |
| Locale.TestsAgree | web/src/utils/locale.ts:19-36 | the three tests for a locale prefix agree on every rooted path |
| Locale.StripUndoesWith | web/src/utils/locale.ts:23-36 | taking a locale off undoes putting it on exactly for unprefixed paths that are rooted or absolute |
| Locale.StaysExactlyWhen | web/src/utils/locale.ts:32-33 | a path is left as it is if and only if it begins with two slashes, with a scheme of letters and ://, or with a locale as its first segment |
| Locale.GetsTheLocale | web/src/utils/locale.ts:32-36 | a rooted or relative path without a locale gets the one asked for, as its first segment |
| Locale.WithIsIdempotent | web/src/utils/locale.ts:32-36 | a second locale never lands on the first |
| Locale.RedirectsOnce | web/src/middleware.ts:9-24 | the redirect lands on a path the middleware lets through, and it is the path asked for |

## Left out

- Foreign services (SMTP, Telegram, Nova Poshta, Google, image hosting, exchange rates): their answers are parameters or nondeterministic steps.
- Letter templates, notifications, titles and other text columns, and the uniqueness of painting titles.
- Payment status and payment proofs: their columns; the saves that set them write the whole order and are in OrderWriters.
- Password hashing, access tokens and sign-in checks; SHA-256 is taken to be injective and random tokens never to repeat.
- Controllers, guards and request validation: their bounds on quantities and amounts appear as `WellFormed`.
- `MailService.alreadySent`: a letter's order and kind are not modelled, so neither is skipping a letter already sent.
- OrderRules.ToCentsIsNearest: prices are reals here; binary rounding of a float product is not modelled.
- LetterMarkup.OtherTagsSayNothing: each law of LetterMarkup is of one element between two texts without any; tags beginning with s, a, b or a slash may be part of a script, style, link, break or block end, and only LetterText.NoTagSurvives speaks of every mixture.
- LetterShape.PlainReadsBack: of other white space inside a line (a no-break space, say) the code keeps every character; where it stands is not told, only which words it sets apart.
- MailDrainRuns.DrainIsRun: takes the moments at which SMTP answers to be in the order of the batch, none before the drain began.
- LetterText.EscapedTextReadsBack: a string is a sequence of Unicode scalar values, so texts with unpaired surrogates are not covered; case folding covers the Latin letters the patterns use.
- RowLockRuns.ConcurrentIsSequential: the order row is read outside the transaction and not locked, so one status change per order and one checkout per customer in flight are assumed (a customer's second checkout works from a cart the first has emptied, so it is no whole request; what it does to the copies is in ConcurrentConserves).
- RowLockRuns.ConcurrentConserves: only the three transactions take part; the other writers of an order row are in OrderWriters.WritersConserve.
- OrderWriters.WriteMoves: takes a save to write every column as it was read and to insert a row that has been deleted, as TypeORM's `save` does.
- OrderWriters.EditBesideCheckout: an edit of a painting is read and written apart only here; in the runs of OrderWriters and of the shop machine it is one event.
- RowLocks.StepRefines: locks on rows that do not exist (gap locks) and the database's own time-outs are not modelled; cart rows added between a checkout's read and its delete are outside the interleaved model, as is the order in which deleting an account takes its locks.
- Browsers.NeverMistakenForReplay: takes no response to be lost, and one tab per browser: the shared refresh call is one per tab, the cookie one per browser, so two tabs can refresh at once as start-up and the client can (SessionRuns.SecondAnswerSignsOut).
- Cart.CartService.MergeGuestCart: one event in the shop machine, although its writes are separate; cutting it short is stated on its own, other requests coming between its writes are not modelled.
- MailDispatcher.Dispatcher.Drain: the call runs to its end before another is made, so an overlapping drain is seen only through the flag it finds set; overlap is in the outbox machine, where a process drains once at a time.
- MailDispatcher.QueueDrains: one process without crashes or manual retries; crashes and several processes are in the outbox machine.
- LikeTraffic.AlwaysExact: each request's writes are one step; only what it read may be out of date.
- LikeServices.UsersService.Remove: sessions, reset links, giveaway entries and support messages of a deleted account are not part of this model.
- PasswordLinks.EachLinkOnce: the new password itself is not modelled, only which link set it; nor is a request that dies before it has ended the account's sessions.
- Cart rows' prices: a cart line carries no price of its own; the price is read under lock at checkout.
- The middleware's query string and matcher configuration.
- The cart's displayed sum, order views, chats, reviews, news, series, giveaways, analytics: plain record keeping, with nothing carried from one step to the next.
