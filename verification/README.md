# Khonic accounting: ledger engine and bookkeeping forms in Dafny

This project models the double-entry core of the Khonic accounting system.
It covers the server side and the client side.

Server side:
- the journal service: balance adjustment by account type, creating,
  updating and reversing journals, and counting voucher numbers;
- the voucher-number endpoint;
- the cash/bank payment and receipt services;
- recording a customer payment against invoices, with discounts and
  overpayment;
- the chart-of-accounts controller.

Client side:
- the chart-of-accounts page, with its tree, totals, search and sorting;
- the add-account and edit-account dialogs;
- the general-journal entry form and the journal list;
- the cash/bank payment voucher;
- the purchase and sales tax-invoice forms and the sales tax-invoice list;
- the record-payment dialog;
- the invoicing page and the shared date and ageing helpers;
- the Rupiah parsing and formatting helpers.

Modelling choices:
- The database is a value of type `Books.Books`. Every service call is a
  pure function from books to books, or to a `Result` whose `Err` leaves
  the books as they were, which is what the transaction rollback achieves.
- Money on the server is `real`, modelled as exact rationals.
- Typed text on the client is `string`.
- The current date, the current year, `Date.now()`, date parsing and the
  JSON settings files are parameters of the functions that use them.

Modules follow the program's structure:
- `Ledger` holds `adjustBalances`.
- `Books` holds the stored state and the journal numbering.
- `Journals` holds the journal service.
- `Vouchers` holds `getVoucherNumber`.
- `CashBank` holds the payment and receipt services.
- `InvoicePayments` holds `recordPayment`.
- `ChartOfAccounts` holds the account controller.
- `Rupiah` holds the amount parsers and formatters.
- `AccountTree` models the account list page.
- `AccountForms` models the two account dialogs.
- `JournalForm` models the journal entry form and the journal list.
- `CashBankForm` models the payment voucher page.
- `TaxSerial`, `TaxInvoiceForm` and `TaxInvoiceList` model the tax-invoice
  pages.
- `PaymentModal` models the record-payment dialog.
- `Invoicing` models the invoicing page and the date helpers.
- `Outcomes`, `Text`, `Seqs`, `Numbers` and `Dates` are shared helpers.

## Model

| member | source | states |
|---|---|---|
| Ledger.AdjustBalances | server/src/services/journalService.js:7-35 | applying lines keeps the same accounts and changes nothing but balances |
| Ledger.AdjustBalancesEffect | server/src/services/journalService.js:7-35 | each account's new balance is the old one plus the direction factor times the net signed amount of the lines naming it |
| Ledger.AdjustBalancesUntouched | server/src/services/journalService.js:15 | an account that no line names keeps its balance |
| Ledger.NetConcat | server/src/services/journalService.js:8-34 | the net effect of two batches of lines is the sum of their effects |
| Ledger.AdjustBalancesConcat | server/src/services/journalService.js:8-34 | applying two batches in one call equals applying them one after the other |
| Ledger.AdjustBalancesInverse | server/src/services/journalService.js:7-35 | applying lines with factor 1 and then with factor -1 restores every balance |
| Ledger.SameEffect | server/src/services/journalService.js:7-35 | two batches with the same net effect on every account leave identical balances |
| Ledger.TotalsConcat | server/src/services/journalService.js:8-34 | total debit and total credit add up over concatenated batches |
| Ledger.Swapped | server/src/services/journalService.js:199-204 | a reversal line carries the original line's credit as its debit and its debit as its credit |
| Ledger.NetSwapped | server/src/services/journalService.js:199-204 | swapping debit and credit negates every account's net effect |
| Ledger.SwappedUndoes | server/src/services/journalService.js:186-204 | posting the swapped lines has the same effect as undoing the original lines |
| Ledger.SwappedTotals | server/src/services/journalService.js:199-204 | the swapped lines' total debit is the original total credit, and vice versa |
| Books.JournalNumber | server/src/services/journalService.js:50-55 | a generated journal number starts with `JU-<year>-` |
| Books.JournalNumberInjective | server/src/services/journalService.js:52-54 | different counts give different journal numbers within a year |
| Books.JournalsNumberedInsert | server/src/services/journalService.js:53 | storing a new journal raises the count of numbers with a prefix by one exactly when its number has that prefix |
| Books.PaymentsNumberedInsert | server/src/services/journalService.js:220-233 | storing a new payment raises the count of vouchers with a prefix by one exactly when its voucher number has that prefix |
| Books.ReceiptsNumberedInsert | server/src/services/journalService.js:220-233 | storing a new receipt raises the count of vouchers with a prefix by one exactly when its voucher number has that prefix |
| Books.JournalsNumberedReplace | server/src/services/journalService.js:53 | replacing a journal by one with the same number leaves the count unchanged |
| Journals.BareLines | server/src/services/journalService.js:65-70 | stored lines keep each line's account, debit and credit, in order |
| Journals.NetBare | server/src/services/journalService.js:65-70 | storing lines does not change their net effect on any account |
| Journals.CreateJournal | server/src/services/journalService.js:39-78 | the new journal gets the next id, carries the lines as stored and the given status, and gets a generated number when none is given; its date is today when empty and is rewritten from DD/MM/YYYY; balances move exactly when the status is Posted |
| Journals.CreateKeepsSerial | server/src/services/journalService.js:58-62 | ids stay serial: the new id was free and every stored id stays below the next one |
| Journals.CreateAdvancesNumbering | server/src/services/journalService.js:50-55 | an auto-numbered journal raises the count for its year by one, so the next generated number follows it |
| Journals.UpdateJournal | server/src/services/journalService.js:95-156 | an unknown id fails; otherwise the same journals exist, only that journal changes and its number is kept |
| Journals.UpdateJournalEffect | server/src/services/journalService.js:95-156 | the lines are replaced only when new lines are given, the date only when one is given, the status is the new one, and the old posting is undone before the new one is applied |
| Journals.UpdateKeepsBalances | server/src/services/journalService.js:136-146 | re-saving a Posted journal with its stored lines, or editing a journal that is not Posted into another unposted status, leaves every balance unchanged |
| Journals.UpdateSameLinesKeepsBalances | server/src/services/journalService.js:136-146 | re-posting a Posted journal with its own lines leaves every balance unchanged |
| Journals.UpdateUnposts | server/src/services/journalService.js:138-140 | moving a Posted journal out of Posted undoes its lines |
| Journals.UpdatePostsDraft | server/src/services/journalService.js:143-146 | posting a journal that was not Posted applies the new lines, or the stored ones when none are given |
| Journals.ReverseJournal | server/src/services/journalService.js:158-218 | reversal fails exactly for an unknown or non-Posted journal; otherwise the original's posting is undone, the new journal takes the next id and payments, receipts, invoices and customers are untouched |
| Journals.ReverseJournalEffect | server/src/services/journalService.js:158-218 | the original is marked Reversed with the reason, and a Draft journal with swapped lines, the next number, the same date and the same description is added under the next id |
| Journals.CreateThenReverse | server/src/services/journalService.js:39-78 | reversing a journal just created as Posted succeeds and restores every balance |
| Journals.ReverseOnce | server/src/services/journalService.js:168 | a reversed journal cannot be reversed again |
| Journals.PostingMirrorUndoesAgain | server/src/services/journalService.js:206-208 | posting the Draft reversal later moves the balances a second time in the same direction as the undo |
| Vouchers.ReceiptAdvancesVoucher | server/src/services/journalService.js:220-233 | saving a receipt under the `KTMC` number offered raises the count behind the next offer by one, so the next offer moves on |
| Vouchers.PaymentAdvancesVoucher | server/src/services/journalService.js:220-233 | saving a payment under the `KK` number offered raises the count of payment vouchers behind the next offer by one |
| Vouchers.YearSuffix | server/src/controllers/journalController.js:86 | the year suffix is at most two digits |
| Vouchers.VoucherNumber | server/src/controllers/journalController.js:87-94 | a voucher number is the search prefix followed by the padded sequence |
| Vouchers.VoucherSequence | server/src/controllers/journalController.js:93 | the sequence part is all digits, at least the padding wide, and reads as the count plus one |
| Vouchers.VoucherNumberInjective | server/src/controllers/journalController.js:87-94 | different counts give different voucher numbers |
| Vouchers.GetVoucherNumber | server/src/controllers/journalController.js:83-101 | the number offered starts with `<prefix>-<yy>` and ends in at least the padding's width of digits that read as one more than the matching vouchers stored |
| Vouchers.VoucherSamples | server/src/controllers/journalController.js:83-101 | after 123 vouchers in 2026, `KTMC` offers `KTMC-2600124` and `KK` offers `KK-26000124` |
| CashBank.DebitLines | server/src/services/paymentService.js:37-42 | each payment detail row becomes a debit line carrying its memo, department and project |
| CashBank.CreditLines | server/src/services/receiptService.js:33-38 | each receipt detail row becomes a credit line |
| CashBank.DebitLinesTotals | server/src/services/paymentService.js:37-42 | payment detail lines debit the sum of the amounts and credit nothing |
| CashBank.CreditLinesTotals | server/src/services/receiptService.js:33-38 | receipt detail lines credit the sum of the amounts and debit nothing |
| CashBank.PaymentLines | server/src/services/paymentService.js:29-42 | a payment journal is one credit of the total to the paying account, followed by the detail debits |
| CashBank.ReceiptLines | server/src/services/receiptService.js:24-38 | a receipt journal is one debit of the total to the receiving account, followed by the detail credits |
| CashBank.CreatePayment | server/src/services/paymentService.js:4-78 | a payment stores a Posted journal with the next JU number, the date or today, and the description `Pengeluaran Kas & Bank <voucher>`; it stores the voucher and advances both counters |
| CashBank.CreateReceipt | server/src/services/receiptService.js:4-72 | a receipt does the same with the description of a receipt |
| CashBank.PaymentPostsItsJournal | server/src/services/paymentService.js:61-67 | the balances move by exactly the journal lines stored |
| CashBank.ReceiptPostsItsJournal | server/src/services/receiptService.js:55-61 | the balances move by exactly the journal lines stored |
| CashBank.PaymentBalancedIff | server/src/services/paymentService.js:31-42 | a payment journal balances exactly when the total equals the sum of the detail amounts |
| CashBank.ReceiptBalancedIff | server/src/services/receiptService.js:27-38 | a receipt journal balances exactly when the total equals the sum of the detail amounts |
| InvoicePayments.FindDiscount | server/src/controllers/invoiceController.js:53 | the discount found is the first catalogue entry with the code; none is found only when no entry has it |
| InvoicePayments.DiscountPercent | server/src/controllers/invoiceController.js:49-55 | no code or an unknown code gives 0%; a known code gives the percentage of the first entry with it |
| InvoicePayments.LogicalPayment | server/src/controllers/invoiceController.js:71-79 | with a positive discount the cash is the discounted share of the logical payment; otherwise they are equal |
| InvoicePayments.StepStatus | server/src/controllers/invoiceController.js:81-92 | after an allocation the invoice is Paid exactly when its paid amount is within 1 of its total, else Partially Paid; a logical payment covering the outstanding amount always makes it Paid |
| InvoicePayments.Step | server/src/controllers/invoiceController.js:61-99 | an unknown invoice fails, and so does a 100% discount; otherwise only that invoice changes |
| InvoicePayments.StepEffect | server/src/controllers/invoiceController.js:81-97 | the amount applied is the smaller of the logical payment and the outstanding amount; the excess is what goes beyond it; cash and discount add up |
| InvoicePayments.StepWithinTotal | server/src/controllers/invoiceController.js:81-91 | a payment never lowers the paid amount and never pushes it past the total |
| InvoicePayments.AllocateAll | server/src/controllers/invoiceController.js:61-99 | the loop fails exactly when some allocation names an unknown invoice or a 100% discount meets an allocation, and it keeps the set of invoices |
| InvoicePayments.AllocateAllSound | server/src/controllers/invoiceController.js:61-99 | over any run of allocations, the excess stays within the logical amount the cash paid for |
| InvoicePayments.LineIf | server/src/controllers/invoiceController.js:136-171 | a conditional journal line adds its debit and credit only when its condition holds |
| InvoicePayments.RecordPayment | server/src/controllers/invoiceController.js:41-191 | a 100% discount fails on any allocation; otherwise the call fails exactly when an allocation names an unknown invoice, and a journal is posted only when cash was received |
| InvoicePayments.RecordPaymentJournal | server/src/controllers/invoiceController.js:121-179 | the journal posted is Posted, dated with the payment date, and carries the computed cash, deposit, discount, receivable and overpayment lines |
| InvoicePayments.RecordPaymentBalanced | server/src/controllers/invoiceController.js:121-171 | with non-negative amounts and a discount below 100%, the payment journal balances: debits and credits both equal the cash plus the discount |
| InvoicePayments.PaymentLinesBalanced | server/src/controllers/invoiceController.js:125-171 | the five conditional lines debit and credit the same total |
| InvoicePayments.LogicalAtLeastCash | server/src/controllers/invoiceController.js:76-79 | a discount makes the logical payment at least the cash |
| InvoicePayments.ExcessWithinCash | server/src/controllers/invoiceController.js:122-123 | the cash share of the overpayment never exceeds the cash |
| InvoicePayments.DiscountNeedsCode | server/src/controllers/invoiceController.js:74-79 | without a discount percentage no discount expense accrues |
| InvoicePayments.OverpaymentSample | server/src/controllers/invoiceController.js:121-171 | paying 50000 more than is outstanding, without discount, posts the outstanding amount to the bank, 50000 to the customer-deposit account on both sides, and the outstanding amount to receivables |
| InvoicePayments.DescriptionCases | server/src/controllers/invoiceController.js:102-115 | one allocation names the invoice and the customer; several name only the customer; none keeps the default text with the customer id |
| ChartOfAccounts.OutstandingTotal | server/src/controllers/accountController.js:8-12 | the outstanding total is 0 with no invoices, is non-negative when no invoice is overpaid, and is 0 when every invoice is fully paid |
| ChartOfAccounts.SyncReceivable | server/src/controllers/accountController.js:8-12 | only the receivable account 112.000 changes; its balance becomes the outstanding total |
| ChartOfAccounts.ActiveRows | server/src/controllers/accountController.js:14-20 | the rows listed are exactly the Active accounts, each flagged as having children exactly when an Active account names it as its parent |
| ChartOfAccounts.GetAllAccounts | server/src/controllers/accountController.js:3-26 | the listing first syncs the receivable, then lists the Active accounts |
| ChartOfAccounts.GetAllAccountsSorted | server/src/controllers/accountController.js:19 | the listing is ordered by code |
| ChartOfAccounts.CreateAccount | server/src/controllers/accountController.js:28-50 | an existing id is refused, with a distinct message when it is inactive; otherwise the account is added as Active |
| ChartOfAccounts.UpdateAccount | server/src/controllers/accountController.js:52-73 | an unknown id is refused as not found; otherwise only that account is replaced, and it becomes Active |
| ChartOfAccounts.DeleteAccount | server/src/controllers/accountController.js:75-89 | deletion is refused exactly when an Active account names this one as its parent; otherwise the account is only marked Inactive |
| ChartOfAccounts.DeleteThenCreate | server/src/controllers/accountController.js:33-44 | a deleted id cannot be created again but can be updated back to Active |
| ChartOfAccounts.DeleteIdempotent | server/src/controllers/accountController.js:79-83 | deleting twice is the same as deleting once |
| ChartOfAccounts.DeletedNotListed | server/src/controllers/accountController.js:14-20 | a deleted account is no longer listed |
| ChartOfAccounts.CreatedIsListed | server/src/controllers/accountController.js:41-44 | a created account is listed as entered, Active, with the receivable showing the outstanding invoice total as balance |
| Rupiah.ParseBalance | verify_balance.js:1-23 | numbers pass through; an empty or missing value is 0 |
| Rupiah.ParseBalanceClean | client/src/pages/AccountList/AccountList.jsx:178-207 | non-empty text without `Rp` or blanks is normalised and read with `parseFloat`, or read as 0 |
| Rupiah.ParseBalanceGrouped | client/src/pages/AccountList/AccountList.jsx:189-200 | a whole number written with thousands dots reads back as that number |
| Rupiah.ParseBalanceComma | client/src/pages/AccountList/AccountList.jsx:185-186 | `digits,decimals` in Indonesian grouping reads as the decimal number |
| Rupiah.ParseBalanceDecimal | client/src/pages/AccountList/AccountList.jsx:193-201 | one dot followed by other than three digits is a decimal point |
| Rupiah.ParseBalanceRp | client/src/pages/AccountList/AccountList.jsx:182 | `Rp ` before a grouped number is ignored |
| Rupiah.ParseBalanceSamples | verify_balance.js:25-35 | the listed cases give their expected values |
| Rupiah.FormatRupiah | client/src/pages/CashBank/CashBankPayment.jsx:82-87 | the text's digits, grouped by thousands; without digits the result is empty |
| Rupiah.ParseFormatRupiah | client/src/pages/CashBank/CashBankPayment.jsx:82-93 | parsing a formatted whole number gives that number back |
| Rupiah.FormatRupiahIdempotent | client/src/pages/CashBank/CashBankPayment.jsx:82-87 | formatting twice equals formatting once |
| Rupiah.FormatRupiahValue | client/src/components/Modals/AddAccountModal.jsx:66-71 | like the cash/bank formatter, except that a lone 0 is also shown as empty |
| Rupiah.FormatRupiahValueDecimal | verify_format_final.js:1-19 | empty and missing values show as empty |
| Rupiah.FormatDecimalWhole | verify_format_final.js:5-17 | a positive whole number, given as a number or as text, shows grouped |
| Rupiah.FormatDecimalRounded | verify_format_final.js:7-18 | `digits.digits` not followed by exactly three digits is rounded |
| Rupiah.FormatDecimalThousands | verify_format_final.js:7-18 | `digits.ddd` is read as a thousands group |
| Rupiah.FormatDecimalSamples | verify_format_final.js:21-29 | the listed cases give their expected texts |
| Rupiah.FormatDecimalOtherSamples | verify_format_final.js:21-29 | `1.000.000` and `Rp 5.000` keep their digits grouped |
| Rupiah.FormatInputNumber | client/src/pages/GeneralJournal/AddGeneralJournal.jsx:61-64 | a number's digits grouped by thousands; never empty |
| AccountTree.ChildrenOf | client/src/pages/AccountList/AccountList.jsx:38-44 | the children of an account are the listed items naming it as their parent, in list order |
| AccountTree.Roots | client/src/pages/AccountList/AccountList.jsx:38-44 | the roots are the items whose parent is not listed |
| AccountTree.BuildTree | client/src/pages/AccountList/AccountList.jsx:31-46 | the top level holds exactly the roots, and each node's children are exactly its listed children |
| AccountTree.BuildTreeShowsListed | client/src/pages/AccountList/AccountList.jsx:31-46 | the tree shows only listed accounts |
| AccountTree.BuildTreeShowsDescendants | client/src/pages/AccountList/AccountList.jsx:31-46 | the tree shows exactly the accounts that descend from a root |
| AccountTree.TotalIsLeafSum | client/src/pages/AccountList/AccountList.jsx:215-220 | a parent's total is the sum of the balances of the leaves beneath it |
| AccountTree.SortForestSorted | client/src/pages/AccountList/AccountList.jsx:223-229 | after sorting, siblings are in code order at every level |
| AccountTree.SortForestMembers | client/src/pages/AccountList/AccountList.jsx:223-229 | sorting keeps the same nodes, each sorted below |
| AccountTree.SortKeepsTotal | client/src/pages/AccountList/AccountList.jsx:215-229 | sorting never changes a total |
| AccountTree.SortForestAsWritten | client/src/pages/AccountList/AccountList.jsx:223-229 | sorting siblings first and then each subtree gives the same forest as the other order |
| AccountTree.FilterAccounts | client/src/pages/AccountList/AccountList.jsx:232-251 | an empty term shows the whole tree |
| AccountTree.Kept | client/src/pages/AccountList/AccountList.jsx:236-249 | a kept node carries only its filtered children |
| AccountTree.KeptIff | client/src/pages/AccountList/AccountList.jsx:237-243 | a node is kept exactly when it or one of its descendants matches |
| AccountTree.FilterForestMembers | client/src/pages/AccountList/AccountList.jsx:232-251 | exactly the relevant nodes survive, in input order |
| AccountTree.FilterIdempotent | client/src/pages/AccountList/AccountList.jsx:232-251 | searching again with the same term changes nothing |
| AccountTree.FindInFlatten | client/src/pages/AccountList/AccountList.jsx:72-81 | the parent search finds the first account with the id in pre-order |
| AccountTree.AddAccountRequest | client/src/pages/AccountList/AccountList.jsx:67-94 | the new account's id is its code, its balance is parsed, and it is not a system account |
| AccountTree.AddAccountPlacement | client/src/pages/AccountList/AccountList.jsx:83-90 | a new account sits one level below the parent found and has its type; with no parent found it is a level-0 Assets account |
| AccountTree.EditClick | client/src/pages/AccountList/AccountList.jsx:149-157 | editing is refused exactly for an account with children |
| AccountTree.DeleteClick | client/src/pages/AccountList/AccountList.jsx:159-167 | deleting is refused exactly for an account with children |
| AccountTree.GuardsFollowTheList | client/src/pages/AccountList/AccountList.jsx:149-167 | in a built tree, edit and delete are offered exactly when no listed account names this one as its parent |
| AccountForms.FlattenAccounts | client/src/components/Modals/AddAccountModal.jsx:39-48 | every entry's level is at least the starting depth |
| AccountForms.FlattenNodeAt | client/src/components/Modals/EditAccountModal.jsx:5-14 | a node's entry comes first, and its descendants follow one level deeper or more |
| AccountForms.FlattenAccountsAligned | client/src/components/Modals/AddAccountModal.jsx:39-48 | the picker lists exactly the accounts of the tree, in pre-order |
| AccountForms.Codes | client/src/components/Modals/AddAccountModal.jsx:53 | the used codes are the entries' codes, in order |
| AccountForms.SanitizeCode | client/src/components/Modals/AddAccountModal.jsx:138-141 | the code input keeps the first seven digits and dots typed |
| AccountForms.SanitizeCodeIdempotent | client/src/components/Modals/AddAccountModal.jsx:138-141 | sanitising a sanitised code changes nothing |
| AccountForms.SanitizeName | client/src/components/Modals/AddAccountModal.jsx:132-136 | the name input keeps exactly the allowed non-digit characters typed |
| AccountForms.SanitizeNameIdempotent | client/src/components/Modals/AddAccountModal.jsx:132-136 | the digit pass is subsumed by the class pass, and sanitising twice equals sanitising once |
| AccountForms.CodeRule | client/src/components/Modals/AddAccountModal.jsx:80-120 | a code is accepted exactly when the depth, duplicate, range and format checks pass; depth is checked first, then duplicates |
| AccountForms.ValidateAdd | client/src/components/Modals/AddAccountModal.jsx:73-127 | with a code and a parent the rule decides; an empty code clears the error; a code without a parent keeps the previous error |
| AccountForms.InRangeThousandths | client/src/components/Modals/AddAccountModal.jsx:96-111 | on codes of the form `digits.ddd` the range check compares whole thousandths |
| AccountForms.DetailBlock | client/src/components/Modals/AddAccountModal.jsx:106-110 | under a header `P.000`, a code `a.b` is in range exactly when `a` is `P` |
| AccountForms.DetailSharesPrefix | client/src/components/Modals/AddAccountModal.jsx:106-119 | an accepted detail code under `P.000` is `P.yyy` with `yyy` other than `000` |
| AccountForms.HeaderBlock | client/src/components/Modals/AddAccountModal.jsx:96-105 | a header code `a.000` is in range exactly when `P <= a < P + width` |
| AccountForms.HeaderInBlock | client/src/components/Modals/AddAccountModal.jsx:96-119 | an accepted header code lies within 100 header blocks at level 1 and within 10 at level 2 |
| AccountForms.AddInput | client/src/components/Modals/AddAccountModal.jsx:129-149 | each field is sanitised or formatted; a code change re-validates |
| AccountForms.AddSelectParent | client/src/components/Modals/AddAccountModal.jsx:151-156 | a level-3 parent is ignored; any other parent is taken and re-validated |
| AccountForms.AddEnabledMeansValid | client/src/components/Modals/AddAccountModal.jsx:180-182 | after a code edit or a parent choice, an enabled save means the code passes every rule |
| AccountForms.AddSubmit | client/src/components/Modals/AddAccountModal.jsx:158-165 | the dialog submits the code, the name, the saldo text and the parent's id |
| AccountForms.SaldoRoundTrip | client/src/components/Modals/AddAccountModal.jsx:143-145 | a positive whole saldo shows grouped and parses back to itself on save |
| AccountForms.ResolveParent | client/src/components/Modals/EditAccountModal.jsx:32-40 | the parent is the entry with the account's parent id, or else the entry whose code is its prefix followed by `.000` |
| AccountForms.UsedCodesExcept | client/src/components/Modals/EditAccountModal.jsx:66-68 | the taken codes are those of every other account |
| AccountForms.ValidateEdit | client/src/components/Modals/EditAccountModal.jsx:87-114 | the code must share the parent's prefix and be free; every other case clears the error |
| AccountForms.EditOpen | client/src/components/Modals/EditAccountModal.jsx:32-47 | on opening, the form holds the account's code and name and the resolved parent, with no error |
| AccountForms.EditInput | client/src/components/Modals/EditAccountModal.jsx:116-134 | each field is sanitised or formatted; a code change re-validates |
| AccountForms.EditSelectParent | client/src/components/Modals/EditAccountModal.jsx:136-141 | only `*.000` entries can be chosen as the parent |
| AccountForms.FallbackParentAccepted | client/src/components/Modals/EditAccountModal.jsx:37-40 | a parent found through the code fallback always passes the prefix check |
| AccountForms.EditSubmit | client/src/components/Modals/EditAccountModal.jsx:143-155 | level, type and system flag come from the account; the saldo is parsed on save |
| AccountForms.EditKeepsPositiveBalance | client/src/components/Modals/EditAccountModal.jsx:46 | opening and saving a positive balance keeps it, rounded to whole Rupiah |
| AccountForms.EditDropsSign | client/src/components/Modals/EditAccountModal.jsx:46 | opening and saving a negative balance stores its magnitude, because the minus sign is not a digit |
| JournalForm.Initial | client/src/pages/GeneralJournal/AddGeneralJournal.jsx:18-43 | the form opens on today with two blank lines with distinct ids |
| JournalForm.AddLine | client/src/pages/GeneralJournal/AddGeneralJournal.jsx:45-47 | one blank line is appended and the others are kept |
| JournalForm.RemoveLine | client/src/pages/GeneralJournal/AddGeneralJournal.jsx:49-58 | with more than two lines the line is removed; otherwise it is emptied in place |
| JournalForm.RemoveKeepsTwo | client/src/pages/GeneralJournal/AddGeneralJournal.jsx:49-58 | the form never drops below two lines, and no line with the removed id keeps any content |
| JournalForm.ParseAmount | client/src/pages/GeneralJournal/AddGeneralJournal.jsx:70-72 | dots are dropped; an empty or unreadable cell is 0 |
| JournalForm.AmountRoundTrip | client/src/pages/GeneralJournal/AddGeneralJournal.jsx:61-72 | the amount a cell shows reads back as that amount |
| JournalForm.ChangeLine | client/src/pages/GeneralJournal/AddGeneralJournal.jsx:66-80 | only the line with the id changes, getting the new account or the parsed amount |
| JournalForm.RetypeShownAmount | client/src/pages/GeneralJournal/AddGeneralJournal.jsx:66-80 | re-entering the amount a cell shows leaves the lines unchanged |
| JournalForm.BlankDescriptionInvalid | client/src/pages/GeneralJournal/AddGeneralJournal.jsx:86 | a blank description alone makes the form invalid |
| JournalForm.ToLedgerTotals | client/src/pages/GeneralJournal/AddGeneralJournal.jsx:82-83 | the journal lines' totals are the form's debit and credit sums |
| JournalForm.Sent | client/src/pages/GeneralJournal/AddGeneralJournal.jsx:104-110 | only lines with an account are sent |
| JournalForm.Submit | client/src/pages/GeneralJournal/AddGeneralJournal.jsx:93-111 | Posted is refused exactly when the form is invalid; the date is sent as DD/MM/YYYY and the number is left to the service |
| JournalForm.PostedIsBalanced | client/src/pages/GeneralJournal/AddGeneralJournal.jsx:82-111 | a Posted submission sends a balanced, non-empty set of lines containing every line of the form |
| JournalForm.SubmitThenCreate | client/src/pages/GeneralJournal/AddGeneralJournal.jsx:93-111 | once stored, a Posted submission keeps the picked date and moves the balances by a balanced set of lines |
| JournalForm.EmptySearch | client/src/pages/GeneralJournal/GeneralJournalList.jsx:93-102 | an empty search keeps exactly the rows with some non-empty field |
| JournalForm.SearchIgnoresCase | client/src/pages/GeneralJournal/GeneralJournalList.jsx:95-101 | the search ignores the case of the term |
| JournalForm.Visible | client/src/pages/GeneralJournal/GeneralJournalList.jsx:86-103 | the rows shown are exactly the matching rows, newest first |
| JournalForm.VisibleKeepsCounts | client/src/pages/GeneralJournal/GeneralJournalList.jsx:93-103 | each matching row is shown exactly as often as it was fetched |
| JournalForm.StatusColor | client/src/pages/GeneralJournal/GeneralJournalList.jsx:105-113 | Posted, Canceled and Reversed each have their own colour; Draft and anything else is grey |
| JournalForm.ColorsTellApart | client/src/pages/GeneralJournal/GeneralJournalList.jsx:105-113 | two statuses share a colour only when both are grey |
| JournalForm.CancelOfferedIffReversible | client/src/pages/GeneralJournal/GeneralJournalList.jsx:196-217 | the reversal button is enabled exactly for the journals the service would reverse |
| JournalForm.CancelRequest | client/src/pages/GeneralJournal/GeneralJournalList.jsx:115-119 | nothing is sent without a selected journal and a non-blank reason |
| JournalForm.CancelFlow | client/src/pages/GeneralJournal/GeneralJournalList.jsx:115-119 | an enabled reversal with a reason reverses the journal and records that reason |
| CashBankForm.HeaderOptions | client/src/pages/CashBank/CashBankPayment.jsx:51-56 | the paying accounts offered are exactly the rows passing the header filter, in order |
| CashBankForm.DetailOptions | client/src/pages/CashBank/CashBankPayment.jsx:60-64 | the detail accounts offered are exactly the rows passing the detail filter, in order |
| CashBankForm.PickersDisjoint | client/src/pages/CashBank/CashBankPayment.jsx:51-64 | no account is offered as both a paying account and a detail account |
| CashBankForm.HeaderOptionsFromListing | client/src/pages/CashBank/CashBankPayment.jsx:51-56 | fed by the account listing, the paying accounts are the Active `111.` accounts other than `111.000` that have no Active child |
| CashBankForm.AddLine | client/src/pages/CashBank/CashBankPayment.jsx:74-76 | one empty line is appended |
| CashBankForm.RemoveLine | client/src/pages/CashBank/CashBankPayment.jsx:78-80 | every line with the id is removed and the others stay in order |
| CashBankForm.RemoveKeepsOthers | client/src/pages/CashBank/CashBankPayment.jsx:78-80 | every other line keeps its count |
| CashBankForm.AmountChange | client/src/pages/CashBank/CashBankPayment.jsx:95-98 | the line with the id shows the typed text re-formatted; other lines are kept |
| CashBankForm.AmountChangeStable | client/src/pages/CashBank/CashBankPayment.jsx:95-98 | re-typing an amount that is already formatted changes nothing |
| CashBankForm.TypedAmount | client/src/pages/CashBank/CashBankPayment.jsx:82-93 | the digits of a typed number read back as that number |
| CashBankForm.EmptyAmountsAddNothing | client/src/pages/CashBank/CashBankPayment.jsx:104 | an empty amount adds nothing to the total |
| CashBankForm.HeaderCheck | client/src/pages/CashBank/CashBankPayment.jsx:106-124 | the header passes exactly when the paying account, date and memo are given and, unless the check is blank, a payee too; the first missing field's alert is reported |
| CashBankForm.FirstBadLine | client/src/pages/CashBank/CashBankPayment.jsx:131-140 | no alert exactly when every line has an account and a positive amount |
| CashBankForm.LinesCheck | client/src/pages/CashBank/CashBankPayment.jsx:126-146 | the lines pass exactly when there is at least one, every line passes and the total is positive |
| CashBankForm.TotalCheckUnreachable | client/src/pages/CashBank/CashBankPayment.jsx:141-144 | the total alert never fires: once every line passes, the total is already positive |
| CashBankForm.ValidMeansEnabled | client/src/pages/CashBank/CashBankPayment.jsx:148 | a voucher that passes both checks has its save button enabled |
| CashBankForm.ItemsSum | client/src/pages/CashBank/CashBankPayment.jsx:162-170 | the items sent add up to the total sent |
| CashBankForm.Save | client/src/pages/CashBank/CashBankPayment.jsx:150-171 | the voucher is sent exactly when both checks pass and no save is running, with the computed total and one item per line |
| CashBankForm.SavedVoucherBalanced | client/src/pages/CashBank/CashBankPayment.jsx:150-171 | a saved voucher's journal balances and credits the paying account with a positive total |
| TaxSerial.SerialDigits | client/src/pages/Purchase/PurchaseTaxInvoiceForm.jsx:63 | the first 16 digits typed |
| TaxSerial.FormatTaxNo | client/src/pages/Purchase/PurchaseTaxInvoiceForm.jsx:62-70 | at most 19 characters; 19 exactly when 16 digits were typed, and 7 or more exactly when 6 or more were |
| TaxSerial.FormatKeepsDigits | client/src/pages/Sales/SalesTaxInvoiceForm.jsx:38-46 | the digits of the formatted serial are the digits typed |
| TaxSerial.FormatTaxNoIdempotent | client/src/pages/Sales/SalesTaxInvoiceForm.jsx:38-46 | formatting a formatted serial changes nothing |
| TaxSerial.ValidityOnDigits | client/src/pages/Purchase/PurchaseTaxInvoiceForm.jsx:77-91 | with fewer than six digits the serial passes; otherwise it needs an allowed series and branch and, once two year digits are typed, the current year |
| TaxSerial.SalesStricter | client/src/pages/Sales/SalesTaxInvoiceForm.jsx:58 | the sales check is stricter than the purchase check, and differs only on branch `003` |
| TaxSerial.CompleteParts | client/src/pages/Purchase/PurchaseTaxInvoiceForm.jsx:153-155 | for a complete serial the parts sent are the series, branch and year digits |
| TaxInvoiceForm.UpdateItem | client/src/pages/Purchase/PurchaseTaxInvoiceForm.jsx:110-121 | only the item with the id changes; a quantity or price edit recomputes its total |
| TaxInvoiceForm.UpdateKeepsConsistent | client/src/pages/Sales/SalesTaxInvoiceForm.jsx:144-156 | item edits keep every total equal to quantity times price |
| TaxInvoiceForm.AddItem | client/src/pages/Sales/SalesTaxInvoiceForm.jsx:136-138 | one empty item is appended |
| TaxInvoiceForm.RemoveItem | client/src/pages/Sales/SalesTaxInvoiceForm.jsx:140-142 | exactly the items with the id are removed |
| TaxInvoiceForm.RemoveKeepsOthers | client/src/pages/Sales/SalesTaxInvoiceForm.jsx:140-142 | every other item keeps its count |
| TaxInvoiceForm.Renumber | client/src/pages/Purchase/PurchaseTaxInvoiceForm.jsx:100 | items get consecutive ids from the start value |
| TaxInvoiceForm.RenumberDistinct | client/src/pages/Sales/SalesTaxInvoiceForm.jsx:165 | renumbered items have distinct ids |
| TaxInvoiceForm.PurchaseTotalsOf | client/src/pages/Purchase/PurchaseTaxInvoiceForm.jsx:123-128 | DPP is the sum of the item totals, PPN is DPP times the rate rounded down, and the total is their sum |
| TaxInvoiceForm.PurchaseTaxBounds | client/src/pages/Purchase/PurchaseTaxInvoiceForm.jsx:123-128 | PPN lies between 0 and the exact tax, and the total is at least DPP |
| TaxInvoiceForm.SalesTotalsOf | client/src/pages/Sales/SalesTaxInvoiceForm.jsx:173-181 | the total is the sum of the item totals, DPP is the total divided by 1.11 and rounded down, and PPN is the rest |
| TaxInvoiceForm.SalesTaxShare | client/src/pages/Sales/SalesTaxInvoiceForm.jsx:173-181 | PPN is non-negative and less than one Rupiah above the exact 11/111 share |
| TaxInvoiceForm.ChoosePo | client/src/pages/Purchase/PurchaseTaxInvoiceForm.jsx:95-106 | a known order fills the supplier and the items, numbered from 0; an unknown one clears both |
| TaxInvoiceForm.SaveStatus | client/src/pages/Purchase/PurchaseTaxInvoiceForm.jsx:156 | the new status wins, then the current one, then Draft |
| TaxInvoiceForm.PurchaseSave | client/src/pages/Purchase/PurchaseTaxInvoiceForm.jsx:138-157 | saving is refused only for an invalid serial; the serial's three leading groups are sent too |
| TaxInvoiceForm.EnabledPurchaseSaves | client/src/pages/Purchase/PurchaseTaxInvoiceForm.jsx:176-181 | whenever the save button is enabled, saving goes through with a complete serial's groups |
| TaxInvoiceForm.Upsert | client/src/pages/Sales/SalesTaxInvoiceForm.jsx:36 | setting a name replaces its entry in place or appends one, keeping names distinct |
| TaxInvoiceForm.UniqueCustomers | client/src/pages/Sales/SalesTaxInvoiceForm.jsx:36 | at most one entry per name |
| TaxInvoiceForm.UniqueIsLast | client/src/pages/Sales/SalesTaxInvoiceForm.jsx:36 | each entry is the last customer with its name |
| TaxInvoiceForm.UniqueCovers | client/src/pages/Sales/SalesTaxInvoiceForm.jsx:36 | every name in the list has an entry |
| TaxInvoiceForm.FindInvoice | client/src/pages/Sales/SalesTaxInvoiceForm.jsx:160 | the invoice found is the first with the id; none is found only when no invoice has it |
| TaxInvoiceForm.ChooseCustomer | client/src/pages/Sales/SalesTaxInvoiceForm.jsx:104-108 | choosing a customer clears the invoice and the items |
| TaxInvoiceForm.ChooseInvoice | client/src/pages/Sales/SalesTaxInvoiceForm.jsx:158-171 | a known invoice brings its preset items, numbered from 1, or else one line for the whole invoice; an unknown one keeps the items |
| TaxInvoiceForm.SalesSave | client/src/pages/Sales/SalesTaxInvoiceForm.jsx:185-222 | nothing is sent unless the form is valid; the totals sent add up |
| TaxInvoiceForm.ChooseInvoiceThenSave | client/src/pages/Sales/SalesTaxInvoiceForm.jsx:158-222 | choosing an offered invoice without preset items makes the form valid, and the saved total is that invoice's total |
| TaxInvoiceList.Filtered | client/src/pages/Sales/SalesTaxInvoice.jsx:39-46 | exactly the kept rows are shown, in their original order |
| TaxInvoiceList.NoFilterShowsNamed | client/src/pages/Sales/SalesTaxInvoice.jsx:40-42 | with no search and no filters, a row shows exactly when it has a serial or a customer name |
| TaxInvoiceList.StatusFilterNarrows | client/src/pages/Sales/SalesTaxInvoice.jsx:44 | a status filter never shows more rows |
| TaxInvoiceList.UniqueStatuses | client/src/pages/Sales/SalesTaxInvoice.jsx:37 | each status present appears once, in character order |
| TaxInvoiceList.OfferedStatusKeeps | client/src/pages/Sales/SalesTaxInvoice.jsx:37-46 | choosing an offered status keeps every row with that status that passes the other filters |
| TaxInvoiceList.StyleOverride | client/src/pages/Sales/SalesTaxInvoice.jsx:48-50 | configuring one status's style changes that status's badge only, and a blank style shows grey |
| TaxInvoiceList.EditPathNamesRow | client/src/pages/Sales/SalesTaxInvoice.jsx:151-167 | a Draft row's edit link ends in the row's id, which reads back as that id, so two Draft rows share a link exactly when they share an id |
| PaymentModal.AddKey | client/src/components/Modals/RecordPaymentModal.jsx:76-79 | a new integer key takes its place in ascending order, and an existing key stays where it is |
| PaymentModal.Load | client/src/components/Modals/RecordPaymentModal.jsx:74-81 | every invoice fetched is listed, unticked, with an empty allocation |
| PaymentModal.LoadListsAll | client/src/components/Modals/RecordPaymentModal.jsx:74-81 | the invoices listed are exactly those fetched |
| PaymentModal.Toggle | client/src/components/Modals/RecordPaymentModal.jsx:89-91 | only the invoice's tick flips |
| PaymentModal.ToggleTwice | client/src/components/Modals/RecordPaymentModal.jsx:89-91 | toggling twice restores the dialog |
| PaymentModal.SetAllocation | client/src/components/Modals/RecordPaymentModal.jsx:93-96 | only that invoice's allocation changes, and only digits are kept |
| PaymentModal.AllocationReadsDigits | client/src/components/Modals/RecordPaymentModal.jsx:93-107 | the allocation counted is the number made of every digit typed |
| PaymentModal.Discounted | client/src/components/Modals/RecordPaymentModal.jsx:98-103 | no code or an unknown code leaves the amount unchanged; a known code takes its percentage off and rounds |
| PaymentModal.DiscountWithinAmount | client/src/components/Modals/RecordPaymentModal.jsx:98-103 | a discount between 0% and 100% never raises a whole amount and never makes it negative |
| PaymentModal.Find | client/src/components/Modals/RecordPaymentModal.jsx:114 | the invoice found is the first with the id; none is found only when no invoice has it |
| PaymentModal.Chosen | client/src/components/Modals/RecordPaymentModal.jsx:141-142 | the ticked ids, in key order |
| PaymentModal.TotalAllocated | client/src/components/Modals/RecordPaymentModal.jsx:105-110 | the total allocated is never negative |
| PaymentModal.NothingAllocatedIff | client/src/components/Modals/RecordPaymentModal.jsx:105-110 | the total allocated is zero exactly when no ticked invoice has a non-zero allocation |
| PaymentModal.LoadedCannotSave | client/src/components/Modals/RecordPaymentModal.jsx:137 | a freshly loaded customer cannot be saved |
| PaymentModal.RowBadge | client/src/components/Modals/RecordPaymentModal.jsx:312-320 | a badge shows exactly for a ticked invoice with something typed; LUNAS means the allocation covers what is owed |
| PaymentModal.LunasBadgeSettles | client/src/components/Modals/RecordPaymentModal.jsx:127-135 | a row showing LUNAS satisfies the settled-invoice condition of the save button |
| PaymentModal.SettledWithoutBadge | client/src/components/Modals/RecordPaymentModal.jsx:127-135 | an invoice owing nothing counts as settled with nothing typed, while its row shows no badge |
| PaymentModal.AllocationsFor | client/src/components/Modals/RecordPaymentModal.jsx:143-146 | one allocation per id, carrying the amount counted |
| PaymentModal.FinalAllocations | client/src/components/Modals/RecordPaymentModal.jsx:141-146 | exactly the ticked invoices are sent, with non-negative amounts |
| PaymentModal.SaveSendsTotal | client/src/components/Modals/RecordPaymentModal.jsx:105-146 | the allocations sent add up to the total shown |
| PaymentModal.AllocateAllCash | server/src/controllers/invoiceController.js:61-99 | the server's loop takes in exactly the cash sent |
| PaymentModal.EnabledSaveRecords | client/src/components/Modals/RecordPaymentModal.jsx:137-146 | with the save button enabled and every ticked invoice known to the books, recording the payment posts a journal; with a 100% discount it fails instead |
| PaymentModal.DepositOptions | client/src/components/Modals/RecordPaymentModal.jsx:57 | the deposit accounts offered are exactly the rows passing the filter, in order |
| PaymentModal.DefaultDeposit | client/src/components/Modals/RecordPaymentModal.jsx:57-60 | the first account offered is preselected, or none |
| PaymentModal.DepositFromListing | client/src/components/Modals/RecordPaymentModal.jsx:57 | fed by the account listing, the deposit accounts are the Active accounts whose parent is `111.000` |
| Invoicing.PageAging | client/src/pages/Sales/Invoicing.jsx:32-57 | overdue exactly when the due date parses and is today or earlier |
| Invoicing.UtilAging | client/src/utils/formatUtils.js:37-53 | overdue exactly when the due date parses and is before today |
| Invoicing.AgingVariants | client/src/utils/formatUtils.js:46-52 | the two helpers show the same text and disagree about overdue only on the due day |
| Invoicing.AgingTextTellsDays | client/src/pages/Sales/Invoicing.jsx:41-56 | different day counts give different texts |
| Invoicing.DaysLeft | client/src/pages/Sales/Invoicing.jsx:33-39 | the whole days from today to the due date, or none when the date does not parse |
| Invoicing.OverdueMeans | client/src/pages/Sales/Invoicing.jsx:41-50 | overdue means the due date parses and is today or earlier |
| Invoicing.TotalReceivable | client/src/pages/Sales/Invoicing.jsx:68 | with no overpaid invoice the receivable is never negative |
| Invoicing.TotalOverdue | client/src/pages/Sales/Invoicing.jsx:69-75 | with no overpaid invoice the overdue amount lies between 0 and the receivable |
| Invoicing.ReceivableSplits | client/src/pages/Sales/Invoicing.jsx:68-75 | the unrounded receivable is the overdue part plus the rest |
| Invoicing.OverdueExtremes | client/src/pages/Sales/Invoicing.jsx:69-75 | nothing overdue shows 0; everything overdue shows the whole receivable |
| Invoicing.Search | client/src/pages/Sales/Invoicing.jsx:77-80 | exactly the matching rows are shown, in order |
| Invoicing.EmptySearchShowsAll | client/src/pages/Sales/Invoicing.jsx:77-80 | an empty search shows every invoice |
| Invoicing.SearchIgnoresCase | client/src/pages/Sales/Invoicing.jsx:77-80 | the case of the term makes no difference |
| Invoicing.Arrange | client/src/pages/Sales/Invoicing.jsx:23 | the rows are a permutation of those fetched, ordered by due date |
| Invoicing.Shown | client/src/pages/Sales/Invoicing.jsx:23-80 | the matching rows are shown, earliest due first |
| Invoicing.FormatDate | client/src/utils/formatUtils.js:6-16 | `-` exactly when there is no date or it does not parse |
| Invoicing.FormatDateToIso | client/src/utils/formatUtils.js:6-16 | a rendered date goes back to YYYY-MM-DD through the server's date rewrite |
| Dates.DisplayToIso | server/src/services/journalService.js:43-47 | a date without `/` is kept; one with `/` is rewritten |
| Dates.DateRoundTrip | server/src/services/journalService.js:44-47 | the form's DD/MM/YYYY rendering of an ISO date is rewritten back to that date |
| Dates.DisplayRoundTrip | server/src/services/journalService.js:44-47 | rewriting DD/MM/YYYY and rendering the result gives the original text |
| Dates.DateKey | client/src/pages/GeneralJournal/GeneralJournalList.jsx:86-90 | a missing, empty or unparseable date sorts as time 0 |
| Numbers.Round | verify_format_final.js:6 | `Math.round` lands within half a unit, rounding halves up |
| Numbers.ParseFloatInteger | verify_balance.js:21 | `parseFloat` reads a digit string as its value |
| Numbers.ParseFloatDecimal | verify_balance.js:21 | `parseFloat` reads `digits.digits` as its decimal value |
| Numbers.ParseFloatExponent | client/src/pages/GeneralJournal/AddGeneralJournal.jsx:70-72 | `parseFloat` reads `digits e [sign] digits` as the mantissa times ten to the signed exponent |

## Left out

- Database access, connection pools and transactions are not modelled.
  A failed call returns `Err` with no state, which is what the rollback
  guarantees.
- Constraints that only the database schema could impose are not modelled.
  The schema is not part of this model.
- HTTP status codes and response bodies are left out. Errors are reduced
  to the message.
- `console` logging is left out.
- The clock is a parameter: `new Date()`, `Date.now()` and the current
  year. The date parser is also a parameter, as a total function from
  text to a day number or to (day, month, year).
- Daylight-saving shifts are not modelled: day differences are whole days.
- IEEE doubles are modelled as exact reals. Amounts that floating point
  would round differently, such as `0.1 + 0.2`, are out of scope.
- `localeCompare` with numeric collation, and SQL `ORDER BY`, are both
  modelled as plain character order.
- Lower-casing and the whitespace class cover ASCII only.
- The JSON settings files are parameters:
  - the discount catalogue;
  - the purchase orders;
  - the trade-item presets;
  - the tax rate (`config.tax_rate`);
  - the status styles.
- In the record-payment dialog, the discount catalogue's initial value
  `discountsData` is neither declared nor imported anywhere
  (client/src/components/Modals/RecordPaymentModal.jsx:14). That line
  runs on every render, before the `if (!isOpen) return null` at :173, so
  as written the dialog that client/src/pages/Sales/Invoicing.jsx:167
  mounts throws a ReferenceError and never renders. The PaymentModal
  members model the dialog as evidently intended, with the catalogue as a
  parameter.
- InvoicePayments.RecordPayment: with a 100% discount the source divides
  the cash by `1 - 100/100` (invoiceController.js:77). That gives
  `Infinity`, or `NaN` for zero cash. It then marks the invoice Paid and
  inserts journal lines with infinite or `NaN` amounts, and what the
  database does with those is not in the sources. Reals have no such
  values, so the model returns `Err` as soon as a 100% discount meets an
  allocation, and InvoicePayments.Step, InvoicePayments.AllocateAll and
  PaymentModal.EnabledSaveRecords follow that choice.
- InvoicePayments.LogicalPayment: defined only for a discount other than
  100%, for the same reason.
- Numbers.ParseFloat: the text `Infinity` (with an optional sign) reads as
  NaN in the model, where JavaScript gives an infinite number. Other
  non-finite results are out of scope as well. JournalForm.ParseAmount
  therefore reads such a cell as 0.
- `formatNumber`, used for the allocation input, is not defined in the
  dialog. Only the typed digits are modelled.
- PaymentModal.EnabledSaveRecords: the customer is a number rendered as
  text, so the `!selectedCustomer` guard always passes in this lemma.
- `Object.keys` order is modelled as ascending integer keys, which is
  what JavaScript gives for integer-like keys.
- Invoicing.Arrange: an unparseable due date sorts as day 0. In
  JavaScript it gives `NaN`, which makes the comparator inconsistent and
  the resulting order engine-dependent.
- Invoicing.PageAging: an unparseable due date gives the text
  `Jatuh tempo NaN hari lagi`. That text is modelled literally, not as a
  number.
- AccountTree.BuildTree: the tree is materialised to as many levels as
  there are accounts. That depth is enough for any ancestry without a
  cycle, so a cyclic parent chain is cut there rather than looping.
- `toLocaleDateString` is not modelled: the date parser returns the day,
  month and year directly.
- `Intl.NumberFormat`, in `formatCurrency` and `formatBalance`, is not
  modelled.
- The sales tax-invoice form fills the customer and items automatically
  from mock data. That auto-fill runs in effects driven by the serial and
  the fetched lists, and is not modelled.
- Loading an existing tax invoice for editing is not modelled.
- Alerts, notifications, navigation, dialogs opening and closing, and
  loading flags are not modelled. Where a guard decides whether anything
  is sent, the guard is modelled.
- The text `journal.status` is modelled as a status datatype with a
  catch-all for other names.
- The cash/bank receipt page is not among the modelled pages. Only its
  service, `receiptService.js`, is modelled.
