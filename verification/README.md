# Money, limits and housekeeping of the reseller back end

A Dafny model of the parts of the back end where a wrong branch costs money or safety, with proofs of what they
promise. `dafny verify dfyconfig.toml` checks everything.

**The agency money engine** (Records to BrokenRuns, AgencyEngine). Resellers are charged when their traffic limit rises; a
charge issues an invoice, and invoices are settled only by allocation rows. The books are one value, `Db`: entries,
invoices, allocations, payments. Every atomic function of the source is a function on it (refusals are results and
leave it unchanged), and the class `Agency` holds the same rows as mutable fields with the source's loops, each method
proved to leave the state its function gives. The greedy pouring of `enforce` has a closed form (Stretches), from which
its exact effect follows. Spending, EntryRules, InvoiceRules, CheckoutRules and Deposits say outright what each operation
accepts, refuses and changes. `Runs` puts all operations together: the invariant holds after every run; EntryUse follows
through runs what is used of each ledger entry, Deposits which deposit an approval books, PaymentRuns one payment, and
ReviewRuns the invoices under review (Moving says what each operation leaves of the payments).
Four rules the code does not keep everywhere are stated with their exact conditions, and BrokenRuns has a run that
breaks each: a rejection takes invoices out of review without enforcing
(Payments.RejectPaymentKeeps); voiding a payment undoes it only where nothing was over the debt before
(RoundTrip.PayThenVoid); a near miss recorded after its payment was decided can leave an invoice under review for
nothing (ReviewRuns.StepReviewed); and a hold recorded after its payment was approved lets it be credited twice
(PaymentRuns.HoldBooksAgain).

**Limits** (Approvals, DeskRules, LimitCharges, Pricing): volume requests with a live panel limit, and the charges of limit
changes, over whole runs. Two rules of Approvals hold for operations that do not overlap; LimitRaces and CapRaces split
them into the steps of the source, with the exact conditions under which the live limit and the manager's cap still hold
and the runs that break them.

**Beside it**: near-amount matching (NearMatch), the MySQL dump reader against a printer (DumpValues, DumpPrinter,
DumpRoundTrip), the versioned response cache as an interleaving protocol (PublicCache), DNS reconciliation by single
calls any of which may fail (Dns, DnsProofs, DnsClient), deleted-user traffic (DeletedTraffic), single-use staff tokens
with concurrent refreshes (StaffTokens), passwords (Passwords, PasswordRule), and warnings with quiet hours (QuietHours,
Warnings, WarningRules, and WarningRaces for runs that overlap).

Money is in whole toman, volume in bytes or GB as integers, time in integers (the token clock is a real number). The
panel, the clock, random outcomes and failures of calls are parameters or steps.

## Model

| member | source | states |
|---|---|---|
| Enforcement.EnforceExact | backend/apps/agency/allocation.py:163-205 | From any books that keep the invariant, after `enforce` the admin's open invoices are worth exactly max(P, min(P + U, max(0, balance))), P being under review and U unpaid before; the balance, what is under review and every other admin stay as they were, and the invariant holds |
| Enforcement.EnforcePays | backend/apps/agency/allocation.py:163-205 | Exactly how much each unpaid invoice receives: the part of the excess that reaches its own piece of the line of remainders, oldest first |
| Enforcement.OldestFirst | backend/apps/agency/allocation.py:163-205 | A newer invoice receives money only if every older unpaid one is paid in full |
| Enforcement.NoOverspending | backend/apps/agency/allocation.py:138-140 | No payment or decrease gives more than the credit it has, which Spending.SourcesExactly says is what no active allocation uses of it |
| Enforcement.BalanceLast | backend/apps/agency/allocation.py:163-190 | Money comes from the balance only when every source of the plan has given all its credit |
| Spending.SourcesExactly | backend/apps/agency/allocation.py:138-152 | The entries `enforce` may draw on are exactly the admin's live payments and decreases made at most two minutes before its first invoice or after it that active allocations do not use up, oldest first, each with exactly what they leave, as a manual payment or as an adjustment |
| Spending.EnforceUses | backend/apps/agency/allocation.py:138-140 | `enforce` takes from each entry at most up to its amount, nothing from an entry that is not eligible, and frees nothing |
| Spending.BalanceIsLast | backend/apps/agency/allocation.py:176-179 | A row of kind "balance" is written only when afterwards every eligible payment and decrease is used up |
| Spending.OldestEntryFirst | backend/apps/agency/allocation.py:143-190 | A newer entry is drawn on only when every older eligible one is used up |
| EntryUse.NeverSpentTwice | backend/apps/agency/allocation.py:138-140 | Over every run from empty books, the active allocations never take more from an entry than its amount, except that they may exceed one booked by an approval by the shortfall recorded with it |
| InvoiceRules.EnforceCancels | backend/apps/agency/allocation.py:193-205 | Exactly the unfinished checkouts of invoices that received money are cancelled |
| Enforcement.EnforceIdle | backend/apps/agency/allocation.py:163-205 | Within the debt, `enforce` changes nothing |
| Stretches.PourIsStretch | backend/apps/agency/allocation.py:172-189 | The nested greedy loops in closed form: what invoice i takes from source s is the common stretch of their two pieces, cut at the excess |
| Stretches.PourInvoice | backend/apps/agency/allocation.py:172-189 | Summed over the sources, an invoice takes what of the excess reaches its own piece |
| Stretches.PourSource | backend/apps/agency/allocation.py:172-189 | Summed over the invoices, a source gives the part of its own piece that lies left of what is settled; the balance gives the rest |
| Pouring.PourTotal | backend/apps/agency/allocation.py:172-189 | The plan settles as much as is asked for and the unpaid invoices can take, no more |
| Pouring.PourFits | backend/apps/agency/allocation.py:67-71 | Every planned row settles part of an unpaid invoice of the admin, at most what the rows before it left |
| Pouring.TargetsComplete | backend/apps/agency/allocation.py:81-83 | The plan's targets are all the admin's unpaid invoices |
| Pouring.SourcesComplete | backend/apps/agency/allocation.py:143-152 | Every live payment or decrease since the first invoice that has credit is a source |
| Settling.AddRowInvoice | backend/apps/agency/allocation.py:50-71 | What one allocation does to its invoice: the paid amount grows by it, and it becomes paid exactly when nothing is left |
| Settling.AddAllTotals | backend/apps/agency/allocation.py:67-71 | A batch of fitting rows takes exactly its total off what the admin has unpaid |
| Ledger.ChargeKeeps | backend/apps/agency/ledger.py:69-91 | A charge of any amount, with its invoice, keeps the invariant and every admin's debt rule |
| Ledger.AddEntryKeeps | backend/apps/agency/ledger.py:94-139 | Every accepted manual entry, however it is to be settled, keeps the invariant and every admin's debt rule |
| EntryRules.AcceptedWhen | backend/apps/agency/ledger.py:94-139 | A manual entry is accepted if and only if it is well formed (kind, amount, direction, method, priced volume) and can settle what it is to settle (nothing, anything, or chosen unpaid invoices of the admin); a refusal is for the missing price only where that is what is missing |
| EntryRules.EntryMoves | backend/apps/agency/ledger.py:94-139 | An accepted entry is one new live row of this admin and moment; a decrease and a payment lower its balance by exactly their amount, an increase raises it, a signed adjustment adds what it says, a charge its price or amount; nobody else's balance moves |
| EntryRules.EntryIssues | backend/apps/agency/ledger.py:131-134 | A manual charge makes one invoice, of exactly what it adds to the balance; no other entry makes one |
| EntryRules.QuotaMoves | backend/apps/agency/ledger.py:69-91 | A charge for volume raises the admin's balance by exactly its amount and nobody else's; above zero it has one invoice of that amount, and the debt rule holds afterwards |
| EntryRules.EntrySettles | backend/apps/agency/allocation.py:252-267 | A payment or decrease pays the chosen invoices in the chosen order, or the oldest first, each at least what of its amount reaches that invoice's piece of the line |
| EntryRules.EntryEnforced | backend/apps/agency/allocation.py:252-267 | After an entry that moved the balance the admin's open invoices are within its debt, apart from what is under review |
| EntryRules.EntryWrites | backend/apps/agency/allocation.py:90-119 | The rows it leads to are automatic, unless it settles chosen invoices, whose rows are its own; its rows say whether it is a payment or an adjustment |
| EntryRules.VoidedWhen | backend/apps/agency/ledger.py:142-152 | An entry is voided if and only if it is there and live, a reason is given, and no invoice charged by it is paid or under review; which refusal else |
| EntryRules.VoidMoves | backend/apps/agency/ledger.py:142-159 | Voiding takes the entry off its admin's balance, releases exactly its rows and those of the invoice it charged, voids that invoice and ends its checkouts, and then enforces; nobody else's numbers move |
| Ledger.VoidKeeps | backend/apps/agency/ledger.py:142-159 | Every accepted void, with the invoice voided along, keeps them too |
| Ledger.EnforceWithin | backend/apps/agency/allocation.py:193-205 | Afterwards the admin is within its debt, apart from what is under review |
| Ledger.AllocateKeeps | backend/apps/agency/allocation.py:90-119 | Spending an amount on chosen invoices, in their order, or oldest first takes off what is unpaid exactly the amount, as far as they can take it; each receives what of it reaches its own piece of the line; nobody else's numbers move |
| Voiding.VoidChargeShape | backend/apps/agency/billing.py:310-318 | Voiding a charge voids exactly its own unpaid invoice with it |
| Voiding.VoidTogetherKeeps | backend/apps/agency/billing.py:286-307 | An invoice voided with its charge: it holds nothing, exactly its rows are released, so every entry has back what it had put in, its charge is voided, and everything else stays |
| RoundTrip.PayThenVoid | backend/apps/agency/ledger.py:94-159 | A booked and then voided payment or decrease gives every invoice back (paid amount, status and settled-via) and the balance, if and only if the open invoices were within the debt to begin with or none was unpaid |
| RoundTrip.VoidUndoes | backend/apps/agency/allocation.py:224-267 | The first half of it: nothing over the debt before, everything restored after |
| RoundTrip.VoidOverDebt | backend/apps/agency/allocation.py:193-205 | The second half: otherwise `enforce` settles something at the latest after the void, and it stays settled |
| RoundTrip.EnforceAddsNothing | backend/apps/agency/allocation.py:193-205 | `enforce` adds nothing after such a payment unless it had something to add before |
| Billing.SettlementExact | backend/apps/agency/billing.py:248-283 | A settlement invoice is exactly the old balance: the open invoices stay within the debt without `enforce`, the next quote is 0 and a second one is refused; nobody else's quote moves |
| InvoiceRules.SettlementWhen | backend/apps/agency/billing.py:248-276 | A settlement invoice is issued if and only if the admin is known and its balance exceeds its open invoices and what was settled outside; refused, the answer tells an open one from nothing to settle |
| InvoiceRules.SettlementIs | backend/apps/agency/billing.py:277-283 | It is one more unpaid invoice, of no charge, for exactly that; nothing else changes |
| InvoiceRules.OutsideWhen | backend/apps/agency/allocation.py:240-245 | Exactly an unpaid invoice can be settled outside |
| InvoiceRules.OutsideExactly | backend/apps/agency/allocation.py:235-249 | Settling outside writes one row for exactly what is left of the invoice; what is settled outside rises by it as the open invoices fall, so the old balance stays, for this admin and everyone |
| InvoiceRules.EnforceOutside | backend/apps/agency/allocation.py:133-135 | Nothing that `enforce` settles counts as settled outside |
| InvoiceRules.VoidInvoiceWhen | backend/apps/agency/billing.py:292-300 | Exactly an unpaid invoice can be voided, for a reason; which refusal else |
| InvoiceRules.VoidInvoiceMoves | backend/apps/agency/billing.py:286-307 | Voiding it takes its charge off the balance, ends its checkouts, enforces, and moves nobody else's numbers |
| InvoiceRules.ReachableVia | backend/apps/agency/allocation.py:50-56 | In every reachable state an invoice names the kind of its active allocations if they agree, and says mixed exactly if two differ |
| Billing.SettleOutsideKeeps | backend/apps/agency/allocation.py:235-249 | The invoice is paid in full, the ledger is untouched, and all rules survive |
| Billing.VoidInvoiceKeeps | backend/apps/agency/billing.py:286-307 | Voiding an unpaid invoice (with its charge) keeps the invariant and every debt rule |
| Payments.CreatePaymentKeeps | backend/apps/agency/billing.py:540-589 | An accepted checkout holds exactly the chosen invoices, each for all that is left of it, costs their total, has a unique amount nobody else holds, and leaves no invoice in two unfinished checkouts |
| CheckoutRules.CheckoutWhen | backend/apps/agency/billing.py:546-586 | A checkout is accepted if and only if it names invoices, all of them of admins the payer may pay for and all unpaid, and some surcharge makes an amount nobody holds; an empty one is invalid, one with a foreign or missing invoice forbidden, one with an invoice that is paid, voided or under review a conflict |
| CheckoutRules.CheckoutExactly | backend/apps/agency/billing.py:565-589 | It is one new payment waiting for the transfer, of the first free amount in the order of the surcharges; exactly the unfinished checkouts of its invoices are cancelled, and nothing else changes |
| CheckoutRules.ReceiptWhen | backend/apps/agency/billing.py:624-631 | A receipt is accepted for a payment under review, or one that waits and that the next sweep would not expire |
| CheckoutRules.CancelWhen | backend/apps/agency/billing.py:661-667 | Exactly a checkout of the payer that waits for the transfer can be cancelled |
| CheckoutRules.RejectExactly | backend/apps/agency/billing.py:766-782 | Exactly an undecided payment can be rejected, for a reason; it loses its lock and exactly its invoices under review become unpaid |
| CheckoutRules.FlagExactly | backend/apps/agency/billing.py:881-894 | A near miss is accepted unless it would put a payment under review whose amount another payment holds; everything it changes, for undecided and for decided payments |
| CheckoutRules.HoldWhen | backend/apps/agency/billing.py:959-971 | A hold is accepted unless another payment holds the amount |
| CheckoutRules.ApproveWhen | backend/apps/agency/billing.py:697-704 | Every payment but a cancelled one can be approved; an approved one stays as it is |
| Payments.SubmitReceiptKeeps | backend/apps/agency/billing.py:620-657 | A receipt puts the payment and exactly its unpaid invoices under review, keeps the lock, changes nothing else and keeps every rule |
| Payments.CancelPaymentKeeps | backend/apps/agency/billing.py:660-670 | A cancelled checkout changes its status and loses its lock; nothing else changes, and every rule is kept |
| Payments.ExpireStaleKeeps | backend/apps/agency/billing.py:795-804 | Exactly the overdue checkouts expire and lose their locks; nothing else changes, and every rule is kept |
| Payments.RejectPaymentKeeps | backend/apps/agency/billing.py:766-792 | A rejection keeps the invariant and moves no money; an admin's debt rule holds after it if and only if its open invoices are within the debt, or all of them are under review for another reason |
| Payments.FlagMismatchKeeps | backend/apps/agency/billing.py:881-907 | A near miss keeps every rule, also when the payment was decided meanwhile, but for what the next row says |
| Payments.LateFlag | backend/apps/agency/billing.py:881-907 | A near miss reaching a payment decided meanwhile leaves every invoice under review an item of a payment under review if and only if each unpaid invoice of it is one of another such payment |
| Payments.HoldAmbiguousKeeps | backend/apps/agency/billing.py:959-972 | An ambiguous deposit puts the payment, whatever its status was, and exactly its unpaid invoices under review; what that does to an approved one is in PaymentRuns.HoldBooksAgain |
| Approving.EntriesConserve | backend/apps/agency/billing.py:673-690 | An approval conserves money: its entries add up to min(arrived, amount), with the recorded shortfall to the amount, and nobody is credited more than it owed or less than nothing; what arrived is said in Deposits.ApprovalBooks |
| Deposits.ApprovalBooks | backend/apps/agency/billing.py:705-731 | An approval books the deposit it is told of, else the near miss on record, else the unique amount, at most the payment's amount: one live payment entry for each admin that gets any of it, in name order, a later admin only when every earlier one got all that is asked of it; what arrived and what is missing are recorded exactly |
| Deposits.NearMissIsBooked | backend/apps/agency/billing.py:705-731 | Once a near miss is accepted, the next approval without a deposit books exactly that and records the rest as shortfall |
| Deposits.LastNearIsBooked | backend/apps/agency/billing.py:705-731 | Over every run from empty books: it books the near miss of this payment accepted last, whatever happened since, or the unique amount if there was none |
| Deposits.ApprovalWrites | backend/apps/agency/allocation.py:270-284 | The rows an approval writes are those of its own invoices, drawn on the new entry of their admin if it got one, and automatic ones |
| Approving.KeptAddsUp | backend/apps/agency/billing.py:673-690 | Paid in name order, the first k admins together get the money up to what they owe |
| Approving.SettlePaymentKeeps | backend/apps/agency/allocation.py:270-284 | Also late, after expiry or rejection, each invoice is paid by min(item, what is still open), leaves review, and the total allocated is at most the amount |
| Approving.ApprovePaymentKeeps | backend/apps/agency/billing.py:693-753 | An approval keeps the invariant and every admin's debt rule |
| Approving.ApproveOnce | backend/apps/agency/billing.py:693-753 | A second approval right after the first, with whatever deposit, changes nothing |
| PaymentRuns.ApprovedUntilHeld | backend/apps/agency/billing.py:693-753 | Over every run, an approved payment stays approved if and only if no hold of it is accepted while it is; as long as it does, its row stays but for the note of a late near miss, and every later approval of it changes nothing |
| PaymentRuns.PayoutsExact | backend/apps/agency/billing.py:693-753 | Over every run from empty books, a payment is booked exactly as often as it is held while approved, and once more if it is approved now |
| PaymentRuns.HoldBooksAgain | backend/apps/agency/billing.py:959-972 | A hold that reaches an approved payment is accepted exactly if its unique amount is free, and then the next approval books the whole amount once more |
| PaymentRuns.HoldPaysTwice | backend/apps/agency/billing.py:959-972 | For a payment not held before, a hold and then an approval make it booked twice if and only if the hold finds it approved and its amount free |
| BrokenRuns.HeldPaymentPaysTwice | backend/apps/agency/billing.py:959-972 | Such a run: 100 paid once, credited twice |
| Approving.AllocationsWithinShortfall | backend/apps/agency/allocation.py:270-284 | The allocations of an approved payment exceed the entries booked for it by at most its shortfall |
| PayAll.PayAllExact | backend/apps/agency/billing.py:1062-1097 | The checkout of `pay_all` is for exactly the payable total of the breakdown, so its last "total changed" branch cannot be reached; it is refused only for the reasons listed |
| PayAll.PayAllKeeps | backend/apps/agency/billing.py:1062-1097 | Afterwards every old balance is an invoice of exactly that amount, none can be invoiced twice, and the debt rules survive |
| CheckoutRules.GroupCheckout | backend/apps/agency/billing.py:1062-1097 | The one checkout of a group waits until the time given, for its total and one of the surcharges, an amount nobody else holds, and replaces only unfinished checkouts of its own invoices |
| PayAll.BreakdownLists | backend/apps/agency/billing.py:1026-1059 | The breakdown lists, oldest first, invoices the admin owes with exactly what is left of each, and then the old balance if there is any |
| PayAll.BreakdownComplete | backend/apps/agency/billing.py:1026-1059 | No invoice the admin owes is missing from it |
| PayAll.BreakdownAddsUp | backend/apps/agency/billing.py:1026-1059 | An admin's total is the sum of what is listed for it |
| PayAll.PayableIsRest | backend/apps/agency/billing.py:1026-1059 | What is shown as payable is the total less what is under review |
| Runs.RunKeeps | backend/apps/agency/ledger.py:69-159 | The whole invariant holds after every run of any operations, refused ones included |
| Runs.ReachableInvoice | backend/apps/agency/allocation.py:50-71 | In every reachable state the paid amount is the sum of the active allocations and within 0 and the amount; an invoice is paid exactly when it is all of it, else open with something left; a voided one has no active allocation |
| Runs.ReachableAllocation | backend/apps/agency/allocation.py:216-284 | In every reachable state no active allocation comes from a voided entry or from another admin's money |
| Runs.ReachableLocks | backend/apps/agency/models.py:588-589 | In every reachable state a payment holds its unique amount exactly while it waits or is under review, and no two hold the same |
| Runs.ReachableCheckouts | backend/apps/agency/billing.py:532-589 | In every reachable state an invoice is in at most one unfinished checkout |
| Runs.ReachableReview | backend/apps/agency/billing.py:620-657 | In every reachable state an invoice under review is an item of a payment under review, or of one that a near miss reached after it was decided |
| Runs.DebtRule | backend/apps/agency/allocation.py:193-205 | In every run without a rejection every admin's open invoices stay within its debt, apart from what is under review |
| ReviewRuns.StepReviewed | backend/apps/agency/billing.py:881-907 | Whatever happened before, any single operation leaves each invoice under review an item of a payment under review if and only if it does no harm: it is not a near miss accepted for a payment decided meanwhile of which some unpaid invoice is an item of no payment under review |
| ReviewRuns.ReviewedUnlessHarmed | backend/apps/agency/billing.py:620-907 | Over every run, each invoice under review is at every point an item of a payment under review if and only if no operation of the run does that harm |
| BrokenRuns.LateNearMissStrands | backend/apps/agency/billing.py:881-894 | A run with such a harm: charged, checked out, cancelled, then a deposit of 90 matched to the cancelled checkout |
| BrokenRuns.RejectionBreaksDebtRule | backend/apps/agency/billing.py:776-782 | With a rejection the debt rule may fail: a run of five operations ends with 100 open and 50 owed |
| BrokenRuns.VoidCannotUndo | backend/apps/agency/allocation.py:193-205 | At the end of that run no payment or decrease, whatever its amount, is undone by voiding it |
| AgencyEngine.Agency.Refresh | backend/apps/agency/allocation.py:50-64 | The invoice row is recomputed in place from its active allocations |
| AgencyEngine.Agency.Add | backend/apps/agency/allocation.py:67-71 | One more allocation row, its invoice refreshed |
| AgencyEngine.Agency.Allocate | backend/apps/agency/allocation.py:90-119 | The loop over chosen or oldest invoices leaves the books the specification gives, or refuses and leaves them alone |
| AgencyEngine.Agency.Plan | backend/apps/agency/allocation.py:163-190 | The nested loops over remainders and credits find exactly the rows of the specification, and change nothing |
| AgencyEngine.Agency.Enforce | backend/apps/agency/allocation.py:193-205 | Applying the plan leaves the books of which Enforcement.EnforceExact speaks |
| AgencyEngine.Agency.ReleaseMatching | backend/apps/agency/allocation.py:216-221 | Exactly the matching rows are released, and exactly their invoices refreshed |
| AgencyEngine.Agency.OnEntryVoid | backend/apps/agency/allocation.py:224-228 | The rows of a voided entry are released |
| AgencyEngine.Agency.SettleOutside | backend/apps/agency/allocation.py:235-249 | Refuses all but an unpaid invoice, else pays all that is left of it from outside |
| AgencyEngine.Agency.ApplyEntry | backend/apps/agency/allocation.py:252-267 | A new entry is spent as asked, then `enforce` |
| AgencyEngine.Agency.IssueForEntry | backend/apps/agency/billing.py:212-227 | The invoice of a charge, none for a charge of zero |
| AgencyEngine.Agency.RecordQuotaCharge | backend/apps/agency/ledger.py:69-91 | A charge, its invoice and `enforce` |
| AgencyEngine.Agency.AddEntry | backend/apps/agency/ledger.py:94-139 | The checks in their order, the entry, its invoice or its spending; a refusal rolls everything back |
| AgencyEngine.Agency.OnLedgerVoid | backend/apps/agency/billing.py:310-318 | The loop over the charge's invoices voids the unpaid ones |
| AgencyEngine.Agency.Void | backend/apps/agency/ledger.py:142-159 | Refuses an unknown, voided or settled charge, else voids entry and invoice, releases and enforces |
| AgencyEngine.Agency.IssueSettlement | backend/apps/agency/billing.py:264-283 | Issues the settlement invoice or says why not |
| AgencyEngine.Agency.VoidInvoice | backend/apps/agency/billing.py:286-307 | Voids the invoice, its checkouts and its charge together |
| AgencyEngine.Agency.CancelOpenPayments | backend/apps/agency/billing.py:532-537 | The unfinished checkouts of these invoices, and no others, are cancelled |
| AgencyEngine.Agency.CreatePayment | backend/apps/agency/billing.py:540-589 | Collects the items, cancels old checkouts, takes the first free unique amount |
| AgencyEngine.Agency.SubmitReceipt | backend/apps/agency/billing.py:620-657 | The payment and its unpaid invoices go under review |
| AgencyEngine.Agency.CancelPayment | backend/apps/agency/billing.py:660-670 | Only an unfinished checkout can be cancelled |
| AgencyEngine.Agency.RejectPayment | backend/apps/agency/billing.py:766-792 | The payment is rejected and its invoices come out of review |
| AgencyEngine.Agency.ExpireStale | backend/apps/agency/billing.py:795-804 | Exactly the overdue checkouts expire, and their number is returned |
| AgencyEngine.Agency.FlagMismatch | backend/apps/agency/billing.py:881-907 | Records the near miss and puts the payment under review; a lock taken meanwhile aborts it |
| AgencyEngine.Agency.HoldAmbiguous | backend/apps/agency/billing.py:959-972 | Puts the payment under review for staff to decide |
| AgencyEngine.Agency.CutShortfall | backend/apps/agency/billing.py:678-684 | Cutting the shortfall from the last admin backwards leaves what paying the money out from the front would give |
| AgencyEngine.Agency.LedgerPayments | backend/apps/agency/billing.py:673-690 | One payment entry per admin that gets any of the money, as Approving.EntriesConserve requires |
| AgencyEngine.Agency.AllocatePayment | backend/apps/agency/allocation.py:270-284 | The loop over the items settles each invoice and then enforces everyone touched |
| AgencyEngine.Agency.ApprovePayment | backend/apps/agency/billing.py:693-753 | The whole approval, in the order of the source, leaves the state the approval lemmas speak of |
| AgencyEngine.Agency.DebtBreakdown | backend/apps/agency/billing.py:1026-1059 | The breakdown's sums, computed in one loop, are the totals over the admins |
| AgencyEngine.Agency.PayAll | backend/apps/agency/billing.py:1062-1097 | Settlement invoices and one checkout, or a refusal that leaves nothing behind |
| AgencyEngine.PourFromFirst | backend/apps/agency/allocation.py:176-188 | The inner loop may look for the first source with credit anew for each invoice: used-up sources do not matter |
| Approvals.LimitOverRun | backend/apps/agency/managers.py:664-701 | Over every run of uninterrupted operations, an admin with a finite start has as live limit that start plus the volume of its requests that count, and it is never 0; for operations that overlap see LimitRaces |
| Approvals.NeverUnlimited | backend/apps/agency/managers.py:910-959 | No step makes any finite limit unlimited, also for admins a manager created |
| Approvals.RefusedCreation | backend/apps/agency/managers.py:910-959 | Over every run, an admin created in it has as live limit its volume that counts, plus one byte exactly if some refusal took back all it had, which happens at most once |
| Approvals.PricedAtApproval | backend/apps/agency/managers.py:861-907 | The price on record for a granted request is the one in force at the approval that granted it |
| Approvals.DecidedOnce | backend/apps/agency/managers.py:861-977 | A decided request never changes again, and deciding it again is refused |
| Approvals.ChargesOverRun | backend/apps/agency/managers.py:861-907 | Over every run each approval makes exactly one charge of its own, for its volume at its price, and, above zero, an invoice of that amount; rejections, requests and gifts of volume make none |
| Approvals.CapOverRun | backend/apps/agency/managers.py:553-566 | Over every run of uninterrupted operations the volume a manager gave that still waits stays within its cap; for operations that overlap see CapRaces |
| DeskRules.CreateExactly | backend/apps/agency/managers.py:628-661 | A new admin is accepted if and only if the name is free, the panel agrees and the volume is positive, at most a million GB and within the cap; its limit is that volume, and a request waits |
| DeskRules.AddExactly | backend/apps/agency/managers.py:664-701 | Volume is given if and only if it fits and the live limit is finite; the limit rises by exactly it, on the panel and in the local copy, and a request waits with both limits |
| DeskRules.AskExactly | backend/apps/agency/billing.py:390-411 | An admin's question is accepted if and only if it is priced, in range and fewer than five wait; it records the finite limit, or the last finite one, and what it would become |
| DeskRules.GrantWhen | backend/apps/agency/managers.py:861-907 | When a request can be granted, and which refusal else |
| DeskRules.GrantExactly | backend/apps/agency/billing.py:428-463 | Granting an admin's request raises the live limit by its volume, and for an unlimited admin sets the limit to its last finite one plus the volume; granting given volume leaves the limit alone |
| DeskRules.GrantCharges | backend/apps/agency/billing.py:428-463 | What the admin then owes more is the price of the volume within half a toman, with one request invoice of exactly that; nobody else's balance moves |
| DeskRules.RefuseExactly | backend/apps/agency/managers.py:910-977 | A refusal of given volume takes exactly it off the limit, down to one byte and never to zero; that of a question only records it; when it is possible, and which refusal else |
| DeskRules.WaitingMoves | backend/apps/agency/managers.py:438-446 | A manager's waiting volume rises by what it puts in and falls by what is decided, and by nothing else |
| DeskRules.FiveAsked | backend/apps/agency/billing.py:404-406 | Over every run an admin has at most five questions waiting |
| Approvals.ApprovalDesk.Create | backend/apps/agency/managers.py:628-661 | A manager's new admin, with its request |
| Approvals.ApprovalDesk.Add | backend/apps/agency/managers.py:664-701 | Volume given at once on the panel, its request waiting |
| Approvals.ApprovalDesk.Ask | backend/apps/agency/billing.py:390-425 | A reseller's request changes no limit |
| Approvals.ApprovalDesk.Approve | backend/apps/agency/managers.py:861-907 | Decides once, raises the limit for an admin's own request, and charges |
| Approvals.ApprovalDesk.Reject | backend/apps/agency/managers.py:910-977 | Takes given volume back, never to zero |
| LimitRaces.LiveExact | backend/apps/agency/managers.py:664-701 | However volume, refusals and approvals of one admin with a finite limit interleave, the limit stays finite and is its start plus what the writes meant to change it by, less what they lost: how far the limit had moved from what each writer read |
| LimitRaces.RightUnlessLost | backend/apps/agency/managers.py:910-959 | It is right at every point of a run if and only if each write finds the limit its writer read |
| LimitRaces.RightUnlessOvertaken | backend/apps/agency/billing.py:428-453 | In a run of given and approved volume it is never more than right, and right at the end if and only if no other write to that admin's limit fell between a read and its write |
| LimitRaces.LocksSuffice | backend/apps/agency/managers.py:579-591 | The manager lock keeps volume and refusals right while it does not expire, and the row lock keeps approvals right, each among themselves |
| LimitRaces.GivenVolumeLost | backend/apps/agency/billing.py:428-453 | But they do not keep each other out: of a gift of v and an approval of w that both read before either writes, v is lost |
| LimitRaces.ExpiredLockLoses | backend/apps/agency/managers.py:585-591 | And once the manager lock has expired, so is the first of two gifts |
| LimitRaces.GiveAtOnce | backend/apps/agency/managers.py:664-701 | A job that runs uninterrupted puts on the panel what Approvals.AddVolume says |
| LimitRaces.TakeBackAtOnce | backend/apps/agency/managers.py:910-959 | A refusal that runs uninterrupted, what Approvals.Refuse says |
| LimitRaces.GrantAtOnce | backend/apps/agency/billing.py:428-453 | An approval that runs uninterrupted, what Approvals.Grant says |
| CapRaces.CappedUnlessTooLate | backend/apps/agency/managers.py:553-566 | With the cap check and the record of a request apart, a manager's waiting volume is within its cap at every point of a run if and only if, at each record of its own, what it recorded since the check and what still waits of it fits the room that is left |
| CapRaces.UndisturbedIsCapped | backend/apps/agency/managers.py:664-701 | So it is when no request of its own is recorded between a check and its record |
| CapRaces.CapBoundsNothing | backend/apps/agency/managers.py:668-671 | And otherwise the cap bounds nothing: n requests of the whole cap, all checked before any is recorded, are all accepted |
| CapRaces.CheckedAtOnce | backend/apps/agency/managers.py:628-701 | A check and its record with nothing between are the single step of Approvals |
| LimitCharges.ChargedIsRises | backend/apps/agency/actions.py:94-179 | Over every run of set and remove, from any account whose limit is not below the last finite one kept, the bytes charged are exactly the rises of the base limit |
| LimitCharges.UnlimitedAndBack | backend/apps/agency/actions.py:58-63 | Going unlimited and back charges the new limit less the last finite one |
| LimitCharges.ChargesRiseUnlessBehind | backend/apps/agency/actions.py:58-63 | And from no others: each change charges exactly the rise if and only if the account has no limit below the last finite one kept; where it has, setting the limit to zero raises the base for nothing |
| LimitCharges.ChangeExact | backend/apps/agency/actions.py:94-152 | An accepted change makes the limit exactly the whole bytes asked for, none when they are zero or less, and charges exactly what they exceed the start by; it is accepted unless the panel refuses or a rise has no price |
| LimitCharges.LiftExact | backend/apps/agency/actions.py:155-179 | Lifting a limit leaves none, keeps it as the one the next change starts from, and charges nothing |
| LimitCharges.ReduceToNothing | backend/apps/agency/actions.py:46-55 | A reduction lifts the limit exactly when it leaves less than one byte of the base; it never charges, and the last finite limit is kept |
| LimitCharges.AddThenReduce | backend/apps/agency/actions.py:46-55 | Whole bytes added can be taken off again, at no further charge |
| LimitCharges.FairPrice | backend/apps/agency/ledger.py:57-66 | At one price every run of n charges is within n/2 toman of price times the total rise |
| LimitCharges.RoundedTotal | backend/apps/agency/ledger.py:53-66 | The same for any list of charges |
| Pricing.RoundingError | backend/apps/agency/ledger.py:53-54 | Half-up rounding moves a value by at most half a unit |
| LimitCharges.PanelAdmin.SetTo | backend/apps/agency/actions.py:94-152 | Sets the limit and charges the rise, or leaves all as it was when unpriced or refused by the panel |
| LimitCharges.PanelAdmin.Lift | backend/apps/agency/actions.py:155-179 | Unlimited, keeping the last finite limit |
| NearMatch.WindowLosesNone | backend/apps/agency/billing.py:870-872 | The rounded window of the query keeps every payment within a fifth; it would even without its slack of one |
| NearMatch.MatchMeans | backend/apps/agency/billing.py:839-878 | A unit mix-up is exactly a factor of ten; close is off by something but at most a fifth of the payment; and when a payment counts as open at a moment |
| NearMatch.Near | backend/apps/agency/billing.py:861-878 | A unit mix-up comes first; else the first of the closest among all open payments within a fifth, as if there were no window; None exactly when there is none |
| DumpRoundTrip.ReadsWhatWasWritten | backend/apps/agency/pamp_import.py:73-128 | The reader accepts exactly the texts that write some rows, reads exactly those rows, and stops just after the semicolon |
| DumpRoundTrip.RowsRoundTrip | backend/apps/agency/pamp_import.py:73-128 | Every printing of every list of rows of NULL, number, string and hexadecimal tokens, with any blanks and either kind of escape, is read back |
| DumpRoundTrip.RowsWerePrinted | backend/apps/agency/pamp_import.py:73-128 | Whatever was read had been printed |
| DumpRoundTrip.DumpedIsReadBack | backend/apps/agency/pamp_import.py:50-50 | Rows of any text whatever, written with the usual escapes, come back unchanged |
| DumpRoundTrip.TextRoundTrip | backend/apps/agency/pamp_import.py:92-108 | A literal is read as the characters its escapes and doubled quotes stand for |
| DumpRoundTrip.NumberExactly | backend/apps/agency/pamp_import.py:51-51 | The reader takes a text for a number, all of it, if and only if it is one by the grammar of the printer: minus or none, digits, a point with digits or none, a power of ten with or without sign or none |
| DumpRoundTrip.RefusedBecause | backend/apps/agency/pamp_import.py:73-128 | After rows that are in order: the end of the text is a truncation, anything but a parenthesis or a semicolon is unexpected, and what starts no value cannot be parsed |
| DumpRoundTrip.EscapeIs | backend/apps/agency/pamp_import.py:50-50 | An escaped character means exactly what the table of MySQL escapes says |
| DumpRoundTrip.NumberLocal | backend/apps/agency/pamp_import.py:51-51 | A number is recognised inside the text exactly as it is alone |
| DumpRoundTrip.QuoteMeans | backend/apps/agency/pamp_import.py:50-50 | The usual escapes lose no character |
| DumpValues.ReadText | backend/apps/agency/pamp_import.py:95-108 | The character loop, index and buffer |
| DumpValues.ReadValue | backend/apps/agency/pamp_import.py:90-119 | The branches on the first characters, in their order |
| DumpValues.ReadRow | backend/apps/agency/pamp_import.py:86-127 | The loop over values, index strictly advancing |
| DumpValues.ReadRows | backend/apps/agency/pamp_import.py:78-128 | The loop over rows up to the semicolon, with the errors of the source |
| PublicCache.FreshAfterBump | backend/apps/common/public_cache.py:25-61 | However requests and saves interleave, a request that reads the version after a bump never returns data older than the save of that bump, even when a slow request stores late, as long as the version key stays |
| PublicCache.StepKeeps | backend/apps/common/public_cache.py:25-61 | Each step keeps: versions only go up, and whatever is kept under a version is new enough for it |
| PublicCache.RequestsKeepVersion | backend/apps/common/public_cache.py:25-30 | A request never replaces a version that is there, and makes a missing one 1 at most |
| PublicCache.ReadsThere | backend/apps/common/public_cache.py:25-61 | A request goes by the version that is there, or by 1; it finds an answer exactly if one is kept under that version, and an expiry removes that one only |
| PublicCache.LostKeyIsStale | backend/apps/common/public_cache.py:33-40 | Once the key is lost while an entry remains under version 2, one save and one request give an answer older than the save |
| PublicCache.EvictionBreaks | backend/apps/common/public_cache.py:25-40 | At whatever version from 1 the key is lost, losing it once is enough for a run that ends with an answer older than a save bumped before the request: no loss is the exact hypothesis |
| PublicCache.Server.CurrentVersion | backend/apps/common/public_cache.py:25-30 | Reads the version, making it 1 when missing |
| PublicCache.Server.Save | backend/apps/common/public_cache.py:33-40 | A save and its bump are the steps of the protocol, run without interruption |
| PublicCache.Server.CachedPublic | backend/apps/common/public_cache.py:43-61 | A request run without interruption answers and stores as the steps of the protocol do |
| DnsProofs.Reconciled | backend/apps/ops/cloudflare.py:158-184 | The run ends with exactly the wanted addresses and flags if and only if no wanted address had two records; in any case no other address is left and every wanted one has a right record |
| DnsProofs.NeverEmpty | backend/apps/ops/cloudflare.py:158-184 | The name, once it has a record, has one after every API call, whichever call is the last to succeed |
| DnsProofs.DeletesComeLast | backend/apps/ops/cloudflare.py:181-183 | When a record is deleted every wanted address is already served |
| DnsProofs.CallCount | backend/apps/ops/cloudflare.py:171-183 | Creations, replacements and deletions number max(addresses without a record, records without a wanted address) |
| DnsProofs.SecondRun | backend/apps/ops/cloudflare.py:158-184 | A second run, however the records are listed to it, creates, replaces and deletes nothing; without repeats it makes no call |
| DnsProofs.AllServed | backend/apps/ops/cloudflare.py:171-180 | After as many changes as addresses were missing, each wanted address has a right record |
| Basics.Distinct | backend/apps/ops/cloudflare.py:162-162 | The wanted addresses without repetition, none lost |
| DnsClient.Client.FlipFlags | backend/apps/ops/cloudflare.py:165-170 | The first loop: the kept addresses, and the flag changes up to the first call that fails |
| DnsClient.Client.ServeMissing | backend/apps/ops/cloudflare.py:172-180 | The second loop: unwanted records are replaced while there are any, then records are created, up to the first call that fails |
| DnsClient.Client.DeleteRest | backend/apps/ops/cloudflare.py:181-184 | The third loop: the unwanted records left are deleted, up to the first call that fails |
| DnsClient.Client.SetA | backend/apps/ops/cloudflare.py:158-184 | The whole run makes the planned calls in order and stops at the first that fails |
| DeletedTraffic.RunTracks | backend/apps/agency/tasks.py:30-82 | Over any syncs with failed, truncated and unsaved reads, the snapshot is the last complete list saved and the deleted bytes are what the users missing at each counted read had used by then, since the last reset |
| DeletedTraffic.CurrentIs | backend/apps/agency/tasks.py:38-42 | A name is in the list exactly if a user has it and it is not empty, with what the last user of that name reports |
| DeletedTraffic.TrafficConserved | backend/apps/agency/tasks.py:30-82 | Between resets, snapshot total plus deleted bytes grows by exactly what was newly used, and by what was counted of missing users when the snapshot could not be saved |
| DeletedTraffic.ConservedUnlessUnsaved | backend/apps/agency/tasks.py:52-82 | So it grows by exactly what was newly used if and only if no user with any usage was missing at a sync that failed between the two |
| DeletedTraffic.CountedAgain | backend/apps/agency/tasks.py:52-82 | Users missing at k syncs that fail there, and then at one that does not, are counted k + 1 times |
| DeletedTraffic.TrafficNeverFalls | backend/apps/agency/tasks.py:30-82 | So it never falls if no user's usage falls |
| DeletedTraffic.SyncIsPerReseller | backend/apps/agency/tasks.py:129-202 | An empty report changes nothing; otherwise resellers missing from it go, one whose read failed keeps its row, and each other row takes one step of its own |
| DeletedTraffic.EachHasItsOwnRun | backend/apps/agency/tasks.py:129-216 | Over any reports and resets of all resellers, each row is the run of its own reads and resets since it was last created: its snapshot the last complete list, its deleted bytes those of its users missing since its last reset |
| DeletedTraffic.SoldIncludesDeleted | backend/apps/agency/tasks.py:195-202 | The sold volume of every row read is the panel's plus the deleted bytes; after a failed save of the snapshot it is the panel's alone |
| DeletedTraffic.Snapshots.TrackDeletedUsers | backend/apps/agency/tasks.py:30-82 | Writes only the rows that differ, and yet leaves the whole list |
| DeletedTraffic.Snapshots.WriteSnapshot | backend/apps/agency/tasks.py:66-82 | Deletes, creates and updates exactly the differing rows |
| DeletedTraffic.Snapshots.SumOf | backend/apps/agency/tasks.py:49-50 | The loop over missing users adds up their last-seen usage |
| DeletedTraffic.SyncJob.SyncAdmins | backend/apps/agency/tasks.py:129-216 | The loop over the report and the removal after it |
| StaffTokens.RevokedForGood | backend/apps/adminpanel/tokens.py:35-82 | After a revocation that returned True no later decode accepts the token, though rows are deleted, if and only if the token has an expiry |
| StaffTokens.AcceptedExactly | backend/apps/adminpanel/tokens.py:35-47 | A token is accepted as a kind if and only if it is genuine, was issued as that kind, is not at its expiry, and, as a refresh token, has an id that is not revoked |
| StaffTokens.KindsApart | backend/apps/adminpanel/tokens.py:39-40 | So no token is ever accepted as both kinds, and revocations do not touch access tokens |
| StaffTokens.OnlyDeadRowsGo | backend/apps/adminpanel/tokens.py:80-81 | Housekeeping deletes exactly the rows whose expiry is past, and their tokens are refused as expired (section 4.1.4 of RFC 7519) |
| StaffTokens.SingleUse | backend/apps/adminpanel/tokens.py:63-82 | Of concurrent refreshes with one token, a second can succeed only after the token's expiry |
| StaffTokens.SpentTwice | backend/apps/adminpanel/tokens.py:63-82 | The exact condition, ids being unique: the second spend wins if and only if some revocation, of any token, won at a time past this one's expiry, be it the first spend itself or one in between |
| StaffTokens.LateSpendSucceeds | backend/apps/adminpanel/tokens.py:63-82 | Such a run |
| StaffTokens.EndedForGood | backend/apps/adminpanel/tokens.py:50-60 | A token of an ended session or a disabled account is never good again |
| StaffTokens.TokenTable.RevokeRefresh | backend/apps/adminpanel/tokens.py:63-82 | The insert is the gate (section 4.1.7 of RFC 7519 makes the id unique), and only the winner cleans up |
| StaffTokens.TokenTable.RefreshOnce | backend/apps/adminpanel/tokens.py:35-82 | Decode, account and revocation together |
| Passwords.GeneratePassword | backend/apps/agency/admin_crud.py:186-196 | For every length and every random outcome the password is accepted by the rule and has the length asked for, at least 12 |
| PasswordRule.FineExactly | backend/apps/agency/admin_crud.py:157-175 | A password is fine if and only if it has twelve characters, two large letters, two small ones, two digits and one of the thirteen signs at some places, no blank and nothing beyond code 126, and the username stands nowhere in it, large or small |
| Passwords.Shuffle | backend/apps/agency/admin_crud.py:193-195 | The in-place shuffle is a permutation given by its outcomes |
| Passwords.ArrangedIsFine | backend/apps/agency/admin_crud.py:157-196 | Any arrangement of the seeded characters meets the rule |
| Passwords.EveryArrangement | backend/apps/agency/admin_crud.py:193-195 | Every arrangement is the result of some outcomes |
| Passwords.OneRunEach | backend/apps/agency/admin_crud.py:193-195 | And of only one when the characters differ, so the shuffle is fair |
| Passwords.CountOfMultiset | backend/apps/agency/admin_crud.py:162-167 | The counts the rule looks at do not depend on the order |
| QuietHours.QuietUntilIsFirst | backend/apps/crm/retention.py:107-119 | None exactly outside the quiet hours; else the first moment after now that is not quiet, also across midnight |
| QuietHours.QuietExactly | backend/apps/crm/retention.py:107-119 | A moment is quiet exactly if, going round the clock from the start of the window, it comes before its end; there are no quiet hours when a time is missing or both are the same |
| WarningRules.DueExactly | backend/apps/crm/retention.py:140-145 | A volume rule is due from that share of a limited volume on, a time rule in that many last days before the expiry and not at it |
| WarningRules.SamePeriod | backend/apps/crm/retention.py:133-136 | Two states of a service are in one period exactly if they have the same volume and expire in the same hour, or never |
| WarningRules.TriedExactly | backend/apps/crm/retention.py:226-282 | A message is tried on a channel if and only if it is missing there, the warning is at most three days old, its rule is there and still due, the service is live in the same period and its user there, and for bot and email it is due by now and not quiet |
| WarningRules.LeftExactly | backend/apps/crm/retention.py:232-282 | What a delivery leaves of a row, channel by channel |
| WarningRules.MadeExactly | backend/apps/crm/retention.py:200-220 | A run makes a row for each rule that applies to a service and has none for the period yet, and no other row |
| WarningRules.DueInOrder | backend/apps/crm/retention.py:202-206 | The due rules of a kind come most urgent first |
| WarningRules.SentIsMostUrgent | backend/apps/crm/retention.py:200-220 | Of the rules of a kind that apply, the one sent has the highest share or the fewest days |
| Warnings.OncePerChannel | backend/apps/crm/retention.py:184-283 | Over any runs that do not overlap, in any worlds: one warning for a service, kind, threshold and period, and at most one message on each channel of it |
| WarningRaces.OnceUnlessOvertaken | backend/apps/crm/retention.py:232-282 | However many runs overlap, a warning goes out on a channel at most once as long as no run saves its row between another's reading and delivery of it |
| WarningRaces.TwiceIfBothReadFirst | backend/apps/crm/retention.py:232-282 | Of two runs, both send the same message exactly when both read the row before either saves it and both find it to be sent |
| WarningRaces.MarkErased | backend/apps/crm/retention.py:244-282 | Nor need both send: one that read first and is held by the quiet hours saves the row without the other's mark, and the next run sends the message again |
| Warnings.AlwaysTimely | backend/apps/crm/retention.py:226-283 | Every message went to a live service still in the period it was made for, bot and email never inside the quiet hours |
| Warnings.HeldUntilMorning | backend/apps/crm/retention.py:232-282 | What the quiet hours hold back is held until exactly the moment they end, and no longer |
| Warnings.MissingChannelsTried | backend/apps/crm/retention.py:232-282 | A run tries exactly the missing channels of a warning that is still true and not held, and leaves none missing |
| Warnings.OnlyMostUrgent | backend/apps/crm/retention.py:200-220 | Every due rule is put on record, and only one than which no due rule of its kind is more urgent is sent |
| Warnings.Job.CreateDue | backend/apps/crm/retention.py:202-220 | The loop over the due rules, the insert failing for one already recorded |
| Warnings.Job.DeliverOne | backend/apps/crm/retention.py:232-282 | The branches for one warning: its row after and the channels tried |
| Warnings.Job.DeliverPending | backend/apps/crm/retention.py:226-283 | The loop over the pending warnings |
| Warnings.Job.RunWarnings | backend/apps/crm/retention.py:184-223 | One whole run |

## Left out

- Locks and transactions: each atomic function is one step; a unique-constraint failure is a refused step that is rolled back. What is not one transaction is split in PublicCache, StaffTokens, LimitRaces, CapRaces and WarningRaces.
- LimitRaces.RightUnlessLost: limits set by staff or on the panel itself between two jobs are not modelled, nor an approval rolled back after its write to the panel; when the local copy of the limit is behind is not stated.
- Usernames are ranks in sorted order; the admins touched by an approval are enforced in name order, and the order of the admins in `pay_all` is a parameter.
- Row age is list position, so `created_at` follows ids; the clock never runs backwards.
- Decimal precision, and floating point in `new_limit_for` and in the warning thresholds: exact arithmetic instead.
- Who may pay for whom, roles and permissions: one flag of the request.
- Surcharges, locked customer amounts, deposits and tolerance: inputs. `rounded_candidates`, `match_deposit` and `retry_rounded` are not modelled.
- A payment's `late` field is history for the statements (a near miss reached it after it was decided); no operation looks at it.
- Notices, audit rows, receipts' images, live events and reason texts: no effect on the modelled state.
- `parse_dump` and the column lists: regular expressions over table names; the reader of VALUES is modelled whole.
- DumpValues.ReadValue: keeps a hexadecimal literal as its digits, since decoding it to UTF-8 is library behaviour; a digit is an ASCII digit.
- PublicCache.FreshAfterBump: entries may expire at any moment, so the 60 seconds themselves are not modelled; two bumps racing while the key is missing are within the case of a lost key.
- DnsClient.Client.SetA: sees all records of the name, where the API lists at most 100.
- DeletedTraffic.SyncJob.SyncAdmins: of the exceptions while one row is saved, only that of the snapshot's transaction is modelled; the other columns a sync writes are not.
- StaffTokens.TokenTable.RefreshOnce: signatures are a flag of the token; issuing the new pair adds a fresh id and is left out.
- Passwords.GeneratePassword: the rule is over ASCII classes; Unicode categories are not modelled.
- Warnings.Job.RunWarnings: which services were fetched fresh is a parameter; conversions and win-back are separate. Messages are logged in row order.
- Enforcement of traffic limits on the panel, statements, exports, groups and manager profiles: only easy members beside the above.
