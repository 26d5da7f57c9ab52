# SplitChain core, modelled in Dafny

SplitChain is a web app for sharing expenses within a group and settling
the debts in USDC across chains. This project models its core, module by
module:

- **Balances** (`calculateBalances`). The net position of every address
  after a list of expenses. The result is a ledger whose keys keep
  first-touch order.
- **Debts** (`simplifyDebts`). The greedy two-index matching of debtors
  and creditors. It is an imperative method proved equal to a recursive
  specification. The properties are proved about that specification.
- **Addresses** (`isValidAddress`, `formatAddress`). The address format
  check and the shortened display form, including JavaScript's `slice`
  index rules.
- **GroupList** and **SharedState** (`lib/utils/sharedState.ts`). The
  browser-local group list. Operations look up, upsert, add a participant
  and add an expense by rewriting the whole list. The store is a class over
  the stored value.
- **Json** and **Database** (`lib/firebase/database.ts`):
  - `cleanUndefined`, on a JSON-like tree;
  - the group service class, with its local fallback and its remote map;
  - the read-modify-write helpers;
  - the local subscription mechanism, as a list of listeners that window
    events are dispatched to.
- **Dashboard** (`app/dashboard/page.tsx`):
  - the user's own balance (`calculateBalance`), and when it agrees with
    `calculateBalances`;
  - the membership filter and the stable newest-first sort;
  - the owed, owing and settled bands;
  - the choice of the wallet address.
- **Chains**, **SettlementModal** and **ChainSelector**:
  - the network table;
  - the destination networks a creditor accepts, and the reset of the
    destination;
  - the route search;
  - the wallet network lookup;
  - the error messages of a failed payment;
  - the preferred-network toggle.
- **Store** (`lib/store.ts`). The app state container, as a class whose
  setters change one field each.

Amounts are exact `real`s. `toFixed(2)` is modelled as rounding to the
nearest cent with halves going up (`Debts.Round2`).
`Math.floor(x * 1000000)` is the real floor (`SettlementModal.Units`).

What the services answer is a parameter of the operation that asks them:
the route service, the wallet, and the success or failure of a remote read
or write. The clock is a parameter (`now`) too.

Two behaviours of the code are worth stating outright.

- **Settled band.** The dashboard reads a balance within 0.01 of zero as
  settled (app/dashboard/page.tsx:259-261). One might expect every balance
  to land in that band once the plan is paid. The code does not guarantee
  this. `Debts.UnpaidCreditor` exhibits a ledger that sums to zero. Two
  debtors each keep a residue just under the tolerance, so a creditor owed
  0.016 is left unpaid.
- **Empty split.** Nothing in the code requires a non-empty split list.
  The code divides by the list's length without checking it. That quotient
  is never used, because the loop over an empty list does nothing. So no
  operation here requires a non-empty split. `Balances.BalancesOfSpec`
  states the exact consequence: the ledger total is the sum of the amounts
  of the expenses that had nobody to split them.

## Model

| member | source | states |
|---|---|---|
| Balances.CalculateBalances | lib/utils/helpers.ts:42-65 | The participant loop, then the expense loop with its split loop, computes the ledger specified by `BalancesOf`. Keys are the first occurrences of the participants and then of every payer and split entry. Each value is that address's net position. The total is the amount of the unsplit expenses. |
| Balances.ApplyExpense | lib/utils/helpers.ts:51-61 | One turn of the expense loop credits the payer the amount, then debits each split entry one share, in order. |
| Balances.BalancesOfSpec | lib/utils/helpers.ts:42-65 | The ledger is well formed. Its keys are in first-touch order, every value is the net position, and the values sum to the amounts of empty-split expenses (zero, so money is conserved, when every split is non-empty). |
| Balances.FirstOccurrencesSpec | lib/utils/helpers.ts:46-60 | The ledger's key list has no duplicates and holds exactly the addresses that were written. |
| Balances.NetAppend | lib/utils/helpers.ts:51-61 | The net positions of two consecutive runs of expenses add up. |
| Balances.NetPermutation | lib/utils/helpers.ts:51-61 | Reordering the expenses leaves every net position unchanged. |
| Balances.OneExpense | lib/utils/helpers.ts:53-60 | For one expense split n ways, with the payer and another address each listed once, the payer nets amount − amount/n and the other address owes amount/n. |
| Balances.DebitCount | lib/utils/helpers.ts:59-61 | An address listed c times in a split is debited c shares. |
| Balances.ThreeWayExample | lib/utils/helpers.ts:42-65 | 90 paid by A and split among A, B and C gives A +60, B −30 and C −30. |
| Debts.SimplifyDebts | lib/utils/helpers.ts:70-108 | The output is `Plan(balances)`: the greedy matching of the classified ledger, rounded to cents. |
| Debts.Classify | lib/utils/helpers.ts:75-82 | Walking the entries in key order yields exactly the debtor list and the creditor list of the specification. |
| Debts.Match | lib/utils/helpers.ts:86-105 | The two-index loop, with its in-place decrements and its advances below the tolerance, emits the rounded `Greedy` transfers. |
| Debts.TurnKeepsPlan | lib/utils/helpers.ts:90-104 | One turn of the loop on the arrays and their indices emits the head transfer of the remaining plan, the smaller of the current debt and credit, and leaves the rest of the plan to the paid-down arrays. |
| Debts.MatchTurn | lib/utils/helpers.ts:90-104 | On the lists from the indices on, one turn extends the emitted prefix of the plan by its head transfer. |
| Debts.MatchDone | lib/utils/helpers.ts:89 | Once either index runs off its list, the whole plan has been emitted. |
| Debts.RoundedSnoc | lib/utils/helpers.ts:94-98 | Pushing one more transfer pushes its amount rounded to cents. |
| Debts.PayDown | lib/utils/helpers.ts:100-104 | Subtracting the payment from the entry under the index, and passing it once it is under 0.01, gives `Paid` and `Next`. |
| Debts.Paid | lib/utils/helpers.ts:100-101 | The paid-down entry's amount drops by the payment and the list keeps its length. |
| Debts.Next | lib/utils/helpers.ts:103-104 | The index moves on by one exactly when the remaining amount is under 0.01. |
| Debts.PaidSlice | lib/utils/helpers.ts:100-104 | From the new index on, the paid-down array is the old list from the index on with its head paid down, and dropped when under the tolerance. |
| Debts.PayersStep | lib/utils/helpers.ts:89-105 | If the payers of the rest of the plan walk the remaining debtors, then the payers of the plan walk the debtors. |
| Debts.PayeesStep | lib/utils/helpers.ts:89-105 | If the payees of the rest of the plan walk the remaining creditors, then the payees of the plan walk the creditors. |
| Debts.ClassifySpec | lib/utils/helpers.ts:75-82 | An address is a creditor iff its balance exceeds 0.01, and a debtor iff it is below −0.01. Each entry carries the balance, or its absolute value for a debtor. |
| Debts.CreditorsAbove | lib/utils/helpers.ts:76-80 | Every classified entry starts at or above the tolerance. |
| Debts.GreedyCount | lib/utils/helpers.ts:89-105 | The loop ends. With d debtors and c creditors it makes at most d + c − 1 transfers, and none iff either list is empty. |
| Debts.GreedyAmounts | lib/utils/helpers.ts:91-93 | Every unrounded transfer moves at least 0.01. |
| Debts.AdvanceAbove | lib/utils/helpers.ts:100-104 | Paying down the head entry keeps every entry still in the list at or above 0.01. |
| Debts.GreedyOrder | lib/utils/helpers.ts:89-105 | Payers walk through the debtors in order, and payees through the creditors, never going back. |
| Debts.WalksMember | lib/utils/helpers.ts:89-105 | Such a walk only visits members of the list walked. |
| Debts.GreedyParties | lib/utils/helpers.ts:94-98 | Every payer is a debtor and every payee a creditor. |
| Debts.GreedyNoOverpayment | lib/utils/helpers.ts:100-104 | No debtor sends more than it owes, and no creditor receives more than it is owed. |
| Debts.DebtorsDue | lib/utils/helpers.ts:75-81 | Over distinct keys, the debtor list owes each address exactly its debt when its balance is below −0.01, and nothing otherwise. |
| Debts.CreditorsDue | lib/utils/helpers.ts:75-81 | Over distinct keys, the creditor list is owed each address exactly its credit when its balance is above 0.01, and nothing otherwise. |
| Debts.GreedyWithinBalance | lib/utils/helpers.ts:89-105 | Before rounding, no address sends more than its debt, and none receives more than its credit. A settled address neither sends nor receives. |
| Debts.DueNonNegative | lib/utils/helpers.ts:76-80 | What an address is due over classified entries is never negative. |
| Debts.AdvanceDue | lib/utils/helpers.ts:100-104 | Paying down the head entry lowers what its address is due by the payment. |
| Debts.Round2Near | lib/utils/helpers.ts:97 | Rounding to cents moves an amount by at most half a cent. |
| Debts.Round2AtLeastCent | lib/utils/helpers.ts:97 | An amount of at least a cent rounds to at least a cent. |
| Debts.RoundedSpec | lib/utils/helpers.ts:94-98 | Rounding keeps payer, payee and count, and every rounded amount is at least one cent. |
| Debts.PlanSpec | lib/utils/helpers.ts:70-108 | At most n − 1 transfers for n unsettled addresses, and none iff nobody owes or nobody is owed. Each transfer goes from a balance below −0.01 to one above 0.01 and moves at least a cent. |
| Debts.ThreeWaySettlement | lib/utils/helpers.ts:70-108 | A +60, B −30 and C −30 settle as B pays A 30, then C pays A 30. |
| Debts.ThreeWayClassified | lib/utils/helpers.ts:75-82 | Classifying A +60, B −30 and C −30 gives the debtors B 30 and C 30 and the creditor A 60. |
| Debts.UnpaidCreditor | lib/utils/helpers.ts:89-105 | A zero-sum ledger on which the plan leaves a creditor owed 0.016 unpaid. |
| Debts.ResidueClassified | lib/utils/helpers.ts:75-82 | The classification of that ledger, in key order. |
| Addresses.IsValidAddressSpec | lib/utils/helpers.ts:113-115 | An address is valid iff it has 42 characters: a lower-case "0x", then 40 hex digits in either case. |
| Addresses.HexRunSpec | lib/utils/helpers.ts:114 | `[a-fA-F0-9]{n}$` matches exactly the strings of n hex digits. |
| Addresses.LowerKeepsValid | lib/utils/helpers.ts:113-115 | Lower-casing a valid address keeps it valid. |
| Addresses.UpperPrefixRejected | lib/utils/helpers.ts:114 | The prefix is case-sensitive: "0X…" fails, and its lower-cased form passes. |
| Addresses.SliceIndex | lib/utils/helpers.ts:6 | A `slice` index resolves into 0..length: negative indices count from the end, and out-of-range indices are clamped. |
| Addresses.FormatAddressShape | lib/utils/helpers.ts:4-7 | The display is always a prefix of the address, "..." and a suffix of it. The empty address displays as "". |
| Addresses.FormatValidAddress | lib/utils/helpers.ts:4-7 | For a valid address and 1 ≤ chars ≤ 20, the display is the first chars + 2 characters, "..." and the last chars, of length 2·chars + 5. |
| Addresses.FormatDefault | lib/utils/helpers.ts:4-7 | The default display of a valid address has 13 characters: "0x" and four digits, "...", and the last four digits. |
| Addresses.FormatZeroChars | lib/utils/helpers.ts:4-7 | With chars = 0 the tail `slice(-0)` is the whole address, so the display is "0x..." followed by the full address. |
| GroupList.IndexOfId | lib/utils/sharedState.ts:17 | `findIndex` answers the first index holding the id, or none iff no group has it. |
| GroupList.Upsert | lib/utils/sharedState.ts:17-23 | A save replaces the first group with the id where it stands, or appends the group when the id is new. |
| GroupList.FindByIdSpec | lib/utils/sharedState.ts:37-45 | A lookup answers a stored group with that id, and answers one iff the id is stored. |
| GroupList.FindByIdUnique | lib/utils/sharedState.ts:37-45 | With unique ids, a lookup answers the one group with the id. |
| GroupList.UpsertThenFind | lib/utils/sharedState.ts:14-45 | After a save, a lookup of the id answers the saved group. |
| GroupList.UpsertKeepsOthers | lib/utils/sharedState.ts:14-45 | A save leaves the lookup of every other id unchanged. |
| GroupList.UpsertIdempotent | lib/utils/sharedState.ts:14-32 | Saving the same group twice leaves the list as one save does. |
| GroupList.UpsertKeepsIdsUnique | lib/utils/sharedState.ts:14-32 | Saving keeps the ids unique. |
| GroupList.LostUpdate | lib/firebase/database.ts:179-199 | Two writers that read the same group and each append an expense: the second save overwrites the first, and the first expense is lost. |
| GroupList.JoinKeepsUnique | lib/utils/sharedState.ts:67-75 | Joining keeps addresses unique up to case, and leaves the address present. The list grows by one iff the address was absent. |
| GroupList.JoinCaseInsensitive | lib/utils/sharedState.ts:67-75 | A second join of the same address in another case changes nothing. |
| SharedState.SharedStore.GetAllGroups | lib/utils/sharedState.ts:50-58 | The stored list, or the empty list when nothing is stored. |
| SharedState.SharedStore.GetGroup | lib/utils/sharedState.ts:37-45 | The first stored group with the id, or none. |
| SharedState.SharedStore.SaveGroup | lib/utils/sharedState.ts:14-32 | The stored value becomes the upsert of the old list. A failed storage write is caught, and the store keeps its old value. |
| SharedState.SharedStore.AddParticipant | lib/utils/sharedState.ts:63-81 | Writes the group with the participant appended. Otherwise the store is unchanged: the group is missing, its list absent, the address already there up to case, or the storage write fails. |
| SharedState.SharedStore.AddExpense | lib/utils/sharedState.ts:86-100 | Writes the group with the expense appended. Otherwise the store is unchanged: the group or its list is missing, or the storage write fails. |
| SharedState.SharedStore.ClearAll | lib/utils/sharedState.ts:105-108 | The key is removed and the store reads as empty. |
| SharedState.ExpenseAddedSpec | lib/utils/sharedState.ts:86-100 | Nothing is written iff the group or its list is missing. Otherwise the group gains exactly the one expense at the end, nothing else in it changes, and other groups read as before. |
| SharedState.ParticipantAddedSpec | lib/utils/sharedState.ts:63-81 | Nothing is written iff the group or its list is missing, or the address is already there. Otherwise the participants stay unique up to case and include the address, and other groups read as before. |
| SharedState.UnknownGroupUnchanged | lib/utils/sharedState.ts:63-100 | Adding to an id nobody saved writes nothing. |
| Json.CleanItemsSpec | lib/firebase/database.ts:14-16 | Arrays keep their length and order, each element cleaned; `undefined` elements stay. |
| Json.CleanFieldsSpec | lib/firebase/database.ts:17-23 | An object keeps exactly its entries whose value is not `undefined`, each value cleaned. |
| Json.CleanPrimitive | lib/firebase/database.ts:26 | Primitives, `null` and `undefined` pass through unchanged. |
| Json.CleanRemovesUndefined | lib/firebase/database.ts:14-27 | The cleaned document has no `undefined` field at any depth. |
| Json.CleanFixesClean | lib/firebase/database.ts:14-27 | A document with no `undefined` field is left as it is. |
| Json.CleanFieldsKeep | lib/firebase/database.ts:17-23 | Entries with no `undefined` value anywhere are kept as they are. |
| Json.CleanIdempotent | lib/firebase/database.ts:14-27 | Cleaning twice is cleaning once. |
| Json.CleanKeys | lib/firebase/database.ts:17-23 | The cleaned object's keys are the keys with a defined value, in order. |
| Json.CleanExample | lib/firebase/database.ts:14-27 | `{a: 1, b: undefined, c: [undefined, {d: undefined}]}` cleans to `{a: 1, c: [undefined, {}]}`. |
| Database.ConfiguredSpec | lib/firebase/database.ts:32-38 | The remote store is used only with a database and an API key that is present, non-empty and not the placeholder. |
| Database.FirebaseService.constructor | lib/firebase/database.ts:32-38 | The service starts with nothing stored and no subscriber. It is configured exactly when `IsConfigured` holds for the API key and the database. |
| Database.FirebaseService.LocalSave | lib/firebase/database.ts:44-63 | The local list becomes the upsert of the old one, and the update event is dispatched with the new list. A failed storage write is caught: nothing is stored and no event is dispatched. |
| Database.FirebaseService.SaveGroup | lib/firebase/database.ts:89-112 | Unconfigured, this is the local save and never reports an error, even when the storage write fails. Configured, the group stamped with `now` is written under its id unless the write fails, which is reported. |
| Database.FirebaseService.GetGroup | lib/firebase/database.ts:117-139 | The local lookup; or the remote document, with a failed read answering none. |
| Database.FirebaseService.AddParticipant | lib/firebase/database.ts:144-174 | Loads the group and saves it with the participant appended. A missing group, or an address already present up to case, saves nothing. Unconfigured, a failed storage write stores nothing, sends no event and reports no error. |
| Database.FirebaseService.AddExpense | lib/firebase/database.ts:179-199 | Loads the group, starts an absent list empty, appends the expense and saves. A missing group saves nothing. Unconfigured, a failed storage write stores nothing, sends no event and reports no error. |
| Database.FirebaseService.AddSettlement | lib/firebase/database.ts:333-353 | The same, for a settlement. |
| Database.FirebaseService.Dispatch | lib/firebase/database.ts:217-242 | A window event calls back, in registration order, exactly the subscribers it wakes, with their group as now stored. Nothing changes. |
| Database.FirebaseService.Subscribe | lib/firebase/database.ts:205-250 | Local branch: answers the group at once, and registers one listener pair under a fresh handle. |
| Database.FirebaseService.Unsubscribe | lib/firebase/database.ts:245-248 | The cleanup removes that handle's listeners and keeps the others, in order. |
| Database.WithoutSub | lib/firebase/database.ts:245-248 | The cleanup keeps exactly the subscriptions with other handles. |
| Database.WithoutAppend | lib/firebase/database.ts:245-248 | The cleanup keeps the remaining subscriptions in their order: cleaning a list cut in two cleans each part in turn. |
| Database.WithoutKeepsDistinct | lib/firebase/database.ts:241-248 | The cleanup keeps the subscription handles distinct. |
| Database.CallsSpec | lib/firebase/database.ts:221-239 | Every callback goes to a live subscriber the event wakes, with its group. Every woken subscriber whose group exists is called. |
| Database.NoCallAfterUnsubscribe | lib/firebase/database.ts:245-248 | After the cleanup, no event reaches that subscriber. |
| Database.SilentEvents | lib/firebase/database.ts:221-229 | A storage event on another key, or with an absent or empty new value, calls nobody. |
| Database.SaveNotifies | lib/firebase/database.ts:56-59 | After a local save, every subscriber to the group is called with exactly the saved group, and nobody is called with anything else. |
| Database.RemoteSaveThenRead | lib/firebase/database.ts:98-131 | After a remote save, a read of the id answers the stamped group. |
| Database.AppendOne | lib/firebase/database.ts:186-193 | Adding an expense or a settlement appends exactly one record to a list that starts empty when absent, and changes nothing else. |
| Database.WithParticipantSpec | lib/firebase/database.ts:152-167 | Nothing is saved iff the address is present up to case. Otherwise addresses stay unique up to case and include the new one. |
| Dashboard.CalculateBalance | app/dashboard/page.tsx:12-32 | The loop returns the user's balance: the amounts the user paid, less one share of every expense whose split lists the user. |
| Dashboard.NoExpensesNoBalance | app/dashboard/page.tsx:13 | A group with no or empty expenses has balance 0. |
| Dashboard.UserBalanceAppend | app/dashboard/page.tsx:18-29 | Balances of consecutive runs of expenses add up. |
| Dashboard.CountDistinct | app/dashboard/page.tsx:26 | In a split with no repeats, an address is listed once or not at all. |
| Dashboard.BalanceAgrees | app/dashboard/page.tsx:12-32 | With lower-case addresses and no repeated split entry, the user's balance equals the user's entry of `calculateBalances`. |
| Dashboard.EffectAgrees | app/dashboard/page.tsx:12-32 | For one expense with lower-case addresses and no repeated split entry, its effect on the user here equals its effect on the user's entry of the group ledger. |
| Dashboard.DuplicateSplitDisagrees | app/dashboard/page.tsx:26-28 | A split listing the user twice debits one share here but two shares in the group ledger. |
| Dashboard.MixedCaseDisagrees | app/dashboard/page.tsx:22-24 | A payer written in upper case credits the user here but not the user's ledger entry. |
| Dashboard.UserGroupsSpec | app/dashboard/page.tsx:68-72 | The filter keeps exactly the groups the user belongs to up to case, each as often as it occurs. |
| Dashboard.SortByCreatedSpec | app/dashboard/page.tsx:75 | Newest first, a rearrangement of the input, and stable for equal creation times. |
| Dashboard.InsertSpec | app/dashboard/page.tsx:75 | Inserting into a sorted list keeps it sorted, adds exactly that group, and keeps ties in order. |
| Dashboard.InsertSorted | app/dashboard/page.tsx:75 | Insertion keeps a list sorted newest first. |
| Dashboard.InsertPermutes | app/dashboard/page.tsx:75 | Insertion adds exactly the one group. |
| Dashboard.InsertStable | app/dashboard/page.tsx:75 | Insertion keeps groups with equal creation times in order. |
| Dashboard.WithKeyCons | app/dashboard/page.tsx:75 | Groups of a given creation time, read off a list in order. |
| Dashboard.MissingCreatedAtLast | app/dashboard/page.tsx:75 | A group without a creation time sorts after one created later than time 0. |
| Dashboard.StandingSpec | app/dashboard/page.tsx:259-261 | Owed iff balance > 0.01, owing iff < −0.01, and settled within the band. Negating the balance swaps owed and owing. |
| Dashboard.FirstEmbeddedSpec | app/dashboard/page.tsx:45-47 | `find` answers the first embedded linked account, and answers one iff there is one. |
| Dashboard.ResolveAddressSpec | app/dashboard/page.tsx:41-56 | The first truthy candidate wins, in the order wallet, first embedded account, smart wallet. The answer is never empty. |
| Dashboard.OnlyFirstEmbedded | app/dashboard/page.tsx:45-48 | A later embedded account is not consulted when the first has no address. |
| Chains.FindChainSpec | components/SettlementModal.tsx:53-54 | `find` answers a chain with the id, and answers one iff the table lists the id. |
| Chains.TableIds | lib/config/chains.ts:1-7 | The table lists Ethereum, Polygon, Arbitrum, Optimism and BSC, with distinct ids. |
| SettlementModal.UnitsSpec | components/SettlementModal.tsx:65 | The unit amount is the largest whole number of millionths not above the amount. |
| SettlementModal.UnitsOfCents | components/SettlementModal.tsx:89 | An amount in whole cents converts exactly, at 10000 units per cent. |
| SettlementModal.FilterSpec | components/SettlementModal.tsx:32 | The filter keeps exactly the chains whose id is preferred. |
| SettlementModal.FilterAppend | components/SettlementModal.tsx:32 | The filter keeps table order. |
| SettlementModal.AvailableToChainsSpec | components/SettlementModal.tsx:31-33 | Without preferences (absent or empty), every network is offered. With them, exactly the preferred table networks are offered, and none iff no preferred id is in the table. |
| SettlementModal.ResetToChainSpec | components/SettlementModal.tsx:36-44 | When some network is offered, the destination ends up among the offered ones. An offered destination is kept, and the reset is idempotent. |
| SettlementModal.GetViemChainSpec | components/SettlementModal.tsx:133-141 | Each table network is paid on the wallet network carrying its own chain id. Any other id falls back to mainnet. |
| SettlementModal.SettleErrorMessageSpec | components/SettlementModal.tsx:206-214 | The rejection code wins, then "insufficient funds", then "user rejected", then the message itself, then the generic text. The message shown is never empty. |
| SettlementModal.RoutesPanelSpec | components/SettlementModal.tsx:46-110 | A search ends with exactly one of a selected route and an error, and the selected route is listed. An unknown source or destination network is an error. The same network on both ends gives the direct route for the whole amount. Otherwise the first route found is selected. |
| SettlementModal.Modal.constructor | components/SettlementModal.tsx:21-26 | The dialog opens idle, paying from chain 1 to chain 42161, with nothing found and no error. |
| SettlementModal.Modal.SyncToChain | components/SettlementModal.tsx:36-44 | The effect sets the destination by the reset rule and changes nothing else. |
| SettlementModal.Modal.GetRoutes | components/SettlementModal.tsx:46-110 | The panel becomes `RoutesPanel` and loading ends. A request is sent iff both networks are known and differ. It carries the two USDC contracts, the amount in units, and the debtor's and creditor's addresses. |
| SettlementModal.Modal.Settle | components/SettlementModal.tsx:112-217 | Nothing happens without a selected route. Without a wallet, the connect message is shown. Otherwise either the transaction hash is handed on, or the classified error is shown. Loading ends in every case. A returned hash stands for `onSettle(hash)` followed by `onClose()`. |
| ChainSelector.HandleChainToggleSpec | components/ui/ChainSelector.tsx:34-48 | Toggling keeps a distinct selection distinct and non-empty. The network ends up selected iff it was not, or in single mode. `onChange` is skipped iff the network is the only one selected. |
| ChainSelector.RemoveSpec | components/ui/ChainSelector.tsx:43 | Deselecting keeps exactly the other networks, and shrinks a distinct list by one. |
| ChainSelector.ToggleTwice | components/ui/ChainSelector.tsx:40-47 | Selecting a new network and clicking it again restores the selection. |
| ChainSelector.RemoveAppended | components/ui/ChainSelector.tsx:43-46 | Removing a just-appended network gives back the list. |
| Types.DistinctSpec | components/ui/ChainSelector.tsx:40-47 | A list has no repeats iff its entries are pairwise different. |
| Store.AppStore.constructor | lib/store.ts:29-58 | Starts with nobody signed in, no group, no expenses or balances, idle, and no error. |
| Store.AppStore.SetCurrentUser | lib/store.ts:32 | Replaces the user and nothing else. |
| Store.AppStore.SetCurrentGroup | lib/store.ts:36 | Replaces the group and nothing else. |
| Store.AppStore.AddExpense | lib/store.ts:40-43 | Appends the expense and changes nothing else. |
| Store.AppStore.RemoveExpense | lib/store.ts:44-47 | Removes every expense with the id and changes nothing else. |
| Store.AppStore.UpdateBalances | lib/store.ts:51 | Replaces the balances and nothing else. |
| Store.AppStore.SetIsLoading | lib/store.ts:55 | Replaces the loading flag and nothing else. |
| Store.AppStore.SetError | lib/store.ts:57 | Replaces the error and nothing else. |
| Store.WithoutExpenseSpec | lib/store.ts:44-47 | Removal keeps exactly the expenses with other ids and never grows the list. An unknown id changes nothing. |
| Store.WithoutExpenseIdempotent | lib/store.ts:44-47 | Removing an id twice is removing it once. |
| Store.AddThenRemove | lib/store.ts:40-47 | Adding an expense with a new id and then removing that id gives back the list. |

## Left out

- Floating point: amounts are exact reals. `toFixed(2)` is rounding half up to cents. IEEE rounding and `Number` parsing are not modelled.
- `Math.floor(...).toString()`: amounts in units are integers. Their decimal rendering (including exponent notation for huge amounts) is not modelled.
- JSON serialisation and `localStorage`: stored values are the group lists themselves, taken to round-trip. A corrupt stored value is not modelled. A failing storage write is the parameter `writeFails`.
- Object key order: keys follow insertion order. Integer-like keys, which JavaScript orders first, are not modelled; addresses never are integer-like.
- Json: the remote write stores the cleaned document. In the typed `Group` an absent field is `None` whether it was `undefined` or omitted, so cleaning leaves the typed group as it is. The cleaning itself is proved on `Json`.
- Network, clock and wallet: remote reads and writes, the route service, the wallet and `Date.now()` are parameters (`readFails`, `writeFails`, `now`, `RouteAnswer`, `Execution`, `walletPresent`).
- Database.FirebaseService.Subscribe: only the local branch is modelled. The remote `onValue` listener is a foreign call.
- The remote `getAllGroups`, `deleteGroup` and `updateGroupStatus` are not part of this model, and neither is `console` logging.
- Dashboard.SortByCreatedSpec: the in-place `sort` is modelled as a stable insertion sort on a sequence. The comparator's subtraction is read as an order on `createdAt || 0`.
- SettlementModal.Modal.Settle: the wallet client creation, the account request, the direct ERC-20 transfer and the route execution are one `Execution` parameter. Any throw they make, such as a missing account or a missing USDC contract, is its `Threw` case.
- React batching: state updates apply in program order, and each effect is a method that callers run.
- Types.Lower: `toLowerCase` is modelled on the ASCII letters only, and keeps the length. JavaScript folds all of Unicode, so "0xÉ" and "0xé" are one participant to the source but two here, and a character such as 'İ' lengthens the string. Real addresses are ASCII hex, which the model covers exactly. `SameAddress`, `HasAddress`, `JoinParticipant`, `InSplit` and the dashboard's membership test inherit this.
- Addresses.FormatAddress: strings are sequences of Unicode code points, while JavaScript's `length` and `slice` count UTF-16 code units. The two differ only for characters outside the Basic Multilingual Plane, which a hex address does not contain.
- Display icons, images, and the pending-settlement badge of the dashboard are not modelled.
- Concurrency: the read-modify-write helpers are modelled one call at a time. `GroupList.LostUpdate` shows what interleaving two of them does.
