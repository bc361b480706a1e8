# Filecoin token libraries: ledgers, re-entrant token actor, NFT index

A Dafny model of the FRC-0046 fungible token library and its factory token actor, and of the FRC-0053
NFT library, with proofs. `dafny verify dfyconfig.toml` checks everything.

| File | What it holds |
|---|---|
| `Basics`, `Addresses` | amount maps, CIDs; addresses, the account table and the system calls |
| `Ledger` | the FRC-0046 ledger as a value: effects, what each keeps, canonical two-level allowances |
| `TokenState`, `Token` | the state object and the library, step by step as the source does it |
| `TokenContracts` | each library operation said without its stages: exact success, result and errors |
| `ReceiverHook` | the one-shot hook |
| `Reentrancy` | what a run of nested messages does to the world, as values; flat replay of the surviving effects |
| `FactoryToken` | the actor's code (load, change, save, set root, hook, reload) proved to do just that |
| `Accounting` | what any list of ledger effects, and any run of library calls, adds up to |
| `History`, `Authority`, `Rollback` | what a run of the actor adds up to, who caused it, and that aborted messages leave no trace |
| `Messages` | each message to the actor said without its stages: exact success, result and reply |
| `TestActor` | the recursive hook behaviours of the test actor and their exact verdict |
| `NftLedger`, `NftRuns` | the FRC-0053 ledger as a value, and its whole runs |
| `NftContracts` | each NFT call said without its loops and checks: exact success, result and errors |
| `NftState`, `NftLibrary` | the NFT state object and library |
| `NftPages`, `NftOperators` | enumeration with cursors, of tokens and of operators |

## How it fits together

**Token actor.** A `Script` is whatever an actor does while it has control: send messages to the token
actor, call other actors, return or abort. The operator data of a transfer or mint carries the script
its recipient runs in the receiver hook, so hooks nest to any depth. `Reentrancy.Invoke` says what a
message does to the committed root and the account table; it has no in-memory copies. The class
`FactoryToken` has the actor's code, with the copy it loads, saves and reloads, and every method is
proved to have that same meaning whatever the hook does (`Did`): on success the copy in memory is the
committed state and the returned numbers are those of the final state. `RunAllIsSound` then reduces any
run to a flat list of legal effects, each with the sender of its message, which `Accounting`,
`History`, `Authority` and `Rollback` reason about.

**Ledgers.** `TokenState`, `Token`, `NFTState` and `NFT` are classes with the source's loops and
in-place updates; each method is proved equal to an operation on a ledger value, and the invariants,
conservation laws and exact conditions are proved of those operations.

**Trust.** A CID stands for the block it links to: hashing is injective and stored blocks are never lost.
HAMTs and AMTs are finite maps; AMT iteration is in ascending key order. `TokenAmount` is an unbounded
integer, as in the source; NFT counters are u64 and wrap silently, since the actors are built without
overflow checks (`Cargo.toml:52`). A message that aborts has its changes reverted by the machine.

## What the proofs found about the code

- `frc46_invoke` has no entry for BurnFrom or Granularity, so these messages always abort in the factory
  token although the trait implements them; `BurnFromMsg` follows the code. The library's `burn_from` is
  still verified.
- `burn_from` reports an unresolvable owner in the operator's place of the error
  (`frc46_token/src/token/mod.rs:424-436`).
- Nothing refuses an allowance from an account to itself, which the invariant checker rejects. The
  operations that store one are exactly the positive increase and the positive set by an account for
  itself (`SelfAllowanceExactly`; `SelfAllowanceStored` is such a message). Along the surviving effects of a
  run the checker accepts every state exactly when none of them is one (`CheckerAcceptsExactly`).
- `approve_for_owner` does not add the operator when the account has no entry: `ApproveAccountExactly`.
  That call and an empty mint are the only ones that store an empty entry: `NoEmptyEntryExactly`,
  `EmptyEntryStored`.
- The documentation of `approve` and `revoke` says an account operator may call them; the code lets only
  the owner (`frc53_nft/src/lib.rs:240-287`). The model follows the code.
- The token counter wraps silently. A mint then keeps balances and supply in agreement with the tokens
  exactly when no wrapped id is live and supply has room (`MintAgreesExactly`), and a run agrees all along
  exactly when every mint in it does so in its turn (`RunAgreesExactly`). A mint at the id of a live token
  takes it from its owner in a call that does not name it (`MintTakesOver`; `CollidingMint` is such a run).
  No id is given out twice exactly up to 2^64 tokens (`IdsAreGivenOnceExactly`). The array is taken to
  accept every u64 id; a run gives out the last one exactly when it mints 2^64 tokens (`LastIdExactly`), so
  if the AMT refuses it, which is not part of this model, none of this arises.
- `list_token_operators` and `list_account_operators` truncate their limit to a 32-bit usize on wasm and
  can drop operators: `SteadyWalkExactly` (`OperatorDropped` is a case).
- `list_account_operators` checks no root, and the root in its cursor does not change with the account's
  operators. A walk around a change lists the first page's operators in order exactly when every slice it
  read is unchanged (`AccountWalkChangedExactly`); `AccountWalkMixesStates` is a run in which it is not.
- The FRC-0053 receiver hook of `transfer_from` names the owner as operator
  (`frc53_nft/src/lib.rs:398-404`).
- The NFT checker overlooks token owners without an entry: `CheckerMissesOwner`, `AcceptedAgreesExactly`.

## Model

| member | source | states |
|---|---|---|
| FactoryTokens.FactoryToken.Transfer | testing/test_actors/actors/frc46_factory_token/token_impl/src/lib.rs:185-204 | Whatever the recipient's hook does, including re-entering: succeeds exactly when the run succeeds; then the copy in memory is the committed state, nothing stale was written over it, and the balances returned are those of the final root. |
| FactoryTokens.FactoryToken.TransferFrom | testing/test_actors/actors/frc46_factory_token/token_impl/src/lib.rs:206-229 | The same, with the remaining allowance read from the final root. |
| FactoryTokens.FactoryToken.Mint | testing/test_actors/actors/frc46_factory_token/token_impl/src/lib.rs:340-366 | The same for a mint by the minter, with the supply of the final root; anybody else, or a disabled mint, is refused. |
| FactoryTokens.FactoryToken.FlushAndCall | testing/test_actors/actors/frc46_factory_token/token_impl/src/lib.rs:195-203 | Save, set root, call the hook once, reload: the committed world is that of committing and notifying, and the copy in memory is coherent with it. |
| FactoryTokens.FactoryToken.Reload | testing/test_actors/actors/frc46_factory_token/token_impl/src/lib.rs:327-334 | The copy is replaced by the committed state exactly when the root has moved. |
| FactoryTokens.FactoryToken.DisableMint | testing/test_actors/actors/frc46_factory_token/token_impl/src/lib.rs:371-382 | Succeeds exactly for the current minter and then only removes the minter. |
| FactoryTokens.FactoryToken.Dispatch | testing/test_actors/actors/frc46_factory_token/token_impl/src/lib.rs:417-487 | Each message, with the flush-after-mutate rule, does to world, reply and copy what the semantics of a message says; unlisted methods abort. |
| FactoryTokens.SendMessage | testing/test_actors/actors/frc46_factory_token/src/lib.rs:14-76 | One top-level or nested message: load, act, save, or abort with root and accounts put back. |
| FactoryTokens.SendAll | testing/test_actors/actors/frc46_factory_token/src/lib.rs:66-76 | Any sequence of messages from outside, to the token actor or to actors that run scripts, takes the world where the semantics says, and every state ever made the root on the way was valid. |
| FactoryTokens.Construct | testing/test_actors/actors/frc46_factory_token/token_impl/src/lib.rs:115-127 | The constructor commits a valid empty ledger, or fails exactly when the minter does not resolve. |
| FactoryTokens.CallHook | fvm_actor_utils/src/receiver/mod.rs:127-164 | A hook sends at most once; a second call is refused and changes nothing; the intermediate result comes back exactly when the recipient accepts. |
| Messages.TransferMessage | testing/test_actors/actors/frc46_factory_token/token_impl/src/lib.rs:185-204 | A transfer is committed exactly for a valid amount that the sender holds and a recipient that exists or can be created; the hook runs on that state; it is carried out exactly if the hook accepts; the reply has the two balances of the state the hook leaves, each the old balance plus credits less debits of the surviving effects. |
| Messages.TransferFromMessage | testing/test_actors/actors/frc46_factory_token/token_impl/src/lib.rs:206-229 | The same for an operator's transfer, with its exact condition on allowance and balance and the allowance of the final state in the reply. |
| Messages.MintMessage | testing/test_actors/actors/frc46_factory_token/token_impl/src/lib.rs:340-366 | The same for a mint, by the minter only, with balance and supply of the final state in the reply. |
| Messages.BurnMessage | testing/test_actors/actors/frc46_factory_token/token_impl/src/lib.rs:262-266 | Carried out exactly for a valid amount that the sender holds; takes it from balance and supply, changes nothing else, and replies the new balance. |
| Messages.IncreaseMessage | testing/test_actors/actors/frc46_factory_token/token_impl/src/lib.rs:231-239 | Raises one allowance by the amount, changes no other and no balance, and replies the new allowance. |
| Messages.DecreaseMessage | testing/test_actors/actors/frc46_factory_token/token_impl/src/lib.rs:241-249 | Lowers one allowance by the amount, not below zero, changes no other and no balance, and replies the new allowance. |
| Messages.RevokeMessage | testing/test_actors/actors/frc46_factory_token/token_impl/src/lib.rs:251-255 | Sets one allowance to zero and changes no other and no balance; for an unknown operator changes nothing; never fails. |
| Messages.DisableMintMessage | testing/test_actors/actors/frc46_factory_token/src/lib.rs:28-38 | Carried out exactly for the minter; afterwards there is none, and nothing else has changed. |
| Messages.QueryMessages | testing/test_actors/actors/frc46_factory_token/token_impl/src/lib.rs:177-183 | Balance, allowance and supply are told as they are, zero for addresses that do not resolve, and nothing changes; BurnFrom and unknown messages abort. |
| Messages.ConstructedExactly | testing/test_actors/actors/frc46_factory_token/token_impl/src/lib.rs:115-127 | The constructed state has the minter given, no supply, no balance and no allowance. |
| Messages.FailedCallChangesNothing | testing/test_actors/actors/frc46_test_actor/src/lib.rs:205-245 | A call of another actor that fails leaves root, accounts and effects as they were. |
| ReceiverHooks.ReceiverHook.Begin | fvm_actor_utils/src/receiver/mod.rs:127-137 | The message is handed out the first time only, whatever the recipient will answer. |
| ReceiverHooks.ReceiverHook.Finish | fvm_actor_utils/src/receiver/mod.rs:139-163 | The intermediate result, or a receiver error naming the address. |
| Reentrancy.RunIsSound | testing/test_actors/actors/frc46_factory_token/token_impl/src/lib.rs:185-229 | For every finite script, at any nesting depth: the final state is the flat replay of the surviving effects, all legal in their place; every root set on the way was valid; accounts were only added, never rebound. |
| Reentrancy.InvokeIsSound | testing/test_actors/actors/frc46_factory_token/token_impl/src/lib.rs:417-487 | The same for every message from every caller. |
| Reentrancy.RunAllIsSound | testing/test_actors/actors/frc46_factory_token/src/lib.rs:14-63 | The same for every sequence of messages from outside, to the token actor or to actors that run scripts. |
| Reentrancy.AbortedChangesNothing | testing/test_actors/actors/frc46_factory_token/src/lib.rs:66-76 | A message that aborts, at whatever depth, leaves the root and the accounts exactly as they were and contributes no effect. |
| Reentrancy.ReplayAppend | testing/test_actors/actors/frc46_factory_token/token_impl/src/lib.rs:195-203 | Effects of successive messages compose: state and legality of a joined history are those of its parts. |
| Rollback.PrunedAgrees | testing/test_actors/actors/frc46_test_actor/src/lib.rs:167-202 | Deleting every aborting message and call from a script, at any depth, changes neither world, outcome nor effects, and in the pruned run no root that was set is ever undone. |
| Histories.WholeRun | testing/test_actors/actors/frc46_factory_token/token_impl/src/lib.rs:340-382 | From construction, for any messages: supply = minted - burnt = sum of balances; each balance = credited - debited; spent + current allowance + forfeited = granted; a surviving DisableMint is final; every root was valid. |
| Accounting.SupplyHistory | frc46_token/src/token/state.rs:321-332 | Along every list of effects supply is what it was plus minted minus burnt, set_balance included. |
| Accounting.BalanceHistory | frc46_token/src/token/state.rs:195-301 | Each balance is what it was plus received minus given away or burnt, self-transfers and set_balance included. |
| Accounting.AllowanceHistory | frc46_token/src/token/state.rs:357-528 | Spent, still allowed and forfeited add up to granted for every owner and operator, so no operator spends more than it was granted. |
| Accounting.LibraryRun | frc46_token/src/token/mod.rs:163-635 | Any sequence of library calls on an empty ledger, burn_from, set_allowance and set_balance included, whichever fail: valid ledger, and supply, balances and allowances accounted for. |
| Accounting.SelfGrantsExactly | frc46_token/src/token/state.rs:625-701 | All along a list of effects there is no self-allowance if and only if none of them is a self-grant. |
| Histories.CheckerAcceptsExactly | frc46_token/src/token/state.rs:573-620 | The checker accepts every state along the surviving effects of a run, from construction on, if and only if none of them grants an account an allowance from itself. |
| Histories.SelfAllowanceStored | testing/test_actors/actors/frc46_factory_token/token_impl/src/lib.rs:231-239 | One increase message after which the committed ledger is valid and the checker rejects it. |
| Histories.ReplayIsApplyAll | testing/test_actors/actors/frc46_factory_token/token_impl/src/lib.rs:417-487 | The ledger after a run is that of its ledger effects, each admissible and not refused in its turn, and no message sets a balance. |
| Histories.DisabledForever | testing/test_actors/actors/frc46_factory_token/token_impl/src/lib.rs:368-382 | After a surviving DisableMint, also one inside a mint's own hook, nothing is minted, the minter stays absent and supply never rises. |
| Histories.NoMinterForever | testing/test_actors/actors/frc46_factory_token/token_impl/src/lib.rs:340-347 | A state without minter never gets one again and mints nothing. |
| Authority.IdleAccountIsSafe | frc46_token/src/token/mod.rs:395-602 | Whatever others do and however they re-enter, an actor none of whose messages takes effect loses at most the allowance its operators use up, and they get no more of it; without operators it loses nothing. |
| Authority.OnlyTheMinterMints | testing/test_actors/actors/frc46_factory_token/token_impl/src/lib.rs:340-382 | While no message of the minter takes effect, supply never rises and it stays the minter. |
| Authority.RunAllIsSigned | testing/test_actors/actors/frc46_factory_token/token_impl/src/lib.rs:185-275 | Every surviving effect of a run was within the authority of the sender of its own message: the owner, the operator spending an allowance, or the minter; and that sender is an outside caller or runs a script. |
| Authority.BystanderIsIdle | testing/test_actors/actors/frc46_factory_token/token_impl/src/lib.rs:305-308 | An account that runs no script and sends nothing from outside causes no effect. |
| TestActors.HandlerIsScript | testing/test_actors/actors/frc46_test_actor/src/lib.rs:167-202 | The recursive receive handler is a script, so all that holds of scripts holds of it. |
| TestActors.ActionIsHookOnBalance | testing/test_actors/actors/frc46_test_actor/src/lib.rs:114-165 | The Action method does what the hook handler does with the actor's whole balance, also after a rejected transfer, where the balance is read again. |
| TestActors.OptimisticCredit | frc46_token/src/token/mod.rs:163-602 | In a hook opened by a mint, a transfer or an operator's transfer the recipient already holds at least the amount received, also when it is the sender. |
| TestActors.HookVerdict | testing/test_actors/actors/frc46_test_actor/src/lib.rs:167-202 | Whether a whole tree of hook actions accepts is read off the tree and the account table, in both directions: no hook ever fails for lack of the tokens it received. |
| TestActors.TransferVerdict | testing/test_actors/actors/frc46_test_actor/src/lib.rs:74-93 | A transfer fails exactly when the sender does not hold the tokens or the target refuses them or cannot exist. |
| TestActors.TransferFromVerdict | frc46_token/src/token/mod.rs:531-602 | An operator's transfer fails exactly when operator and owner are one, allowance or balance does not cover a valid amount, or the target refuses or cannot exist. |
| TestActors.BurnSucceeds | testing/test_actors/actors/frc46_test_actor/src/lib.rs:95-111 | Burning tokens the actor holds never fails. |
| TestActors.MintVerdict | testing/test_actors/actors/frc46_factory_token/token_impl/src/lib.rs:340-366 | A mint fails exactly when the caller is not the minter, the amount is not valid, or the target refuses the tokens or cannot exist. |
| TestActors.ActionVerdict | testing/test_actors/actors/frc46_test_actor/src/lib.rs:114-165 | The exact verdict on the Action method. |
| TestActors.BurnActionBurns | testing/test_actors/actors/frc46_test_actor/src/lib.rs:182-185 | The burning hook takes what it received from its balance and from supply, and nothing else. |
| TestActors.TransferActionMoves | testing/test_actors/actors/frc46_test_actor/src/lib.rs:177-181 | The forwarding hook moves what it received to a plain account, or nothing if the target refuses, and accepts in either case. |
| TestActors.FallbackRunsExactly | testing/test_actors/actors/frc46_test_actor/src/lib.rs:186-201 | The fallback runs, on the unchanged world, exactly if the target refuses; an action that then aborts is refused. |
| TokenStates.TokenState.ChangeBalanceBy | frc46_token/src/token/state.rs:195-230 | A one-point update of the balance function that never stores zero, refused exactly when the balance would be negative. |
| TokenStates.TokenState.SetBalance | frc46_token/src/token/state.rs:237-266 | Sets one balance, never storing zero, and returns the old one; refuses exactly negative amounts. |
| TokenStates.TokenState.MakeTransfer | frc46_token/src/token/state.rs:277-301 | Both branches are one movement; it fails exactly when the sender cannot pay and then changes nothing, so the credit after a debit cannot fail. |
| TokenStates.TokenState.ChangeSupplyBy | frc46_token/src/token/state.rs:321-332 | Refused exactly when supply would be negative. |
| TokenStates.TokenState.GetAllowanceBetween | frc46_token/src/token/state.rs:337-354 | The two-level map reads as a total function that is zero where nothing is stored. |
| TokenStates.TokenState.ChangeAllowanceBy | frc46_token/src/token/state.rs:357-413 | A one-point update of that function, clamped at zero, in every branch over absent and emptied inner maps. |
| TokenStates.TokenState.RevokeAllowance | frc46_token/src/token/state.rs:418-451 | Sets one point to zero and returns the old allowance. |
| TokenStates.TokenState.SetAllowance | frc46_token/src/token/state.rs:455-496 | Sets one point and returns the old allowance; refuses exactly negative amounts. |
| TokenStates.TokenState.AttemptUseAllowance | frc46_token/src/token/state.rs:501-528 | Succeeds exactly when the allowance covers the amount and is not zero (unless operator and owner are one); then takes exactly the amount, else changes nothing. |
| TokenStates.TokenState.CheckBalances | frc46_token/src/token/state.rs:706-759 | In any iteration order: no error exactly when all balances are positive multiples of the granularity that add up to supply. |
| TokenStates.TokenState.CheckAllowances | frc46_token/src/token/state.rs:625-701 | In any iteration order: no error exactly when allowances are positive, not to oneself, and no inner map is empty. |
| TokenStates.TokenState.CheckInvariants | frc46_token/src/token/state.rs:573-620 | Accepts exactly the valid ledgers without self-allowances. |
| TokenStates.BurnBody | frc46_token/src/token/mod.rs:367-378 | Debit then supply decrease: once the debit succeeds the supply step cannot fail; refused exactly when the balance is too small. |
| TokenStates.BurnFromBody | frc46_token/src/token/mod.rs:438-445 | Spend, debit, supply decrease; refused exactly when allowance or balance is too small; returns the new balance and allowance. |
| TokenStates.TransferFromBody | frc46_token/src/token/mod.rs:578-583 | Spend then move; refused exactly when allowance or balance is too small. |
| TokenStates.SetBalanceBody | frc46_token/src/token/mod.rs:621-635 | The unchecked supply update stays non-negative and keeps supply equal to the sum. |
| Ledgers.ApplyKeepsValid | frc46_token/src/token/state.rs:195-528 | Every admissible effect that is not refused keeps: supply = sum of balances, no stored zero, canonical allowances, all balances multiples of the granularity. |
| TokenContracts.ApplyExactly | frc46_token/src/token/state.rs:195-528 | What each effect makes of every balance, every allowance and the supply. |
| Ledgers.MoveKeeps | frc46_token/src/token/state.rs:277-301 | A movement subtracts from one balance, adds to the other and touches no third, with sender and receiver possibly the same. |
| Ledgers.SupplyIsMultiple | frc46_token/src/token/mod.rs:686-699 | Supply is non-negative and itself a multiple of the granularity. |
| Ledgers.PutAllowanceUpdates | frc46_token/src/token/state.rs:357-496 | The nested update changes one point of the total function and keeps the map canonical. |
| Ledgers.AllowancesExtensional | frc46_token/src/token/state.rs:337-496 | Canonical nested maps that agree as functions are the same map, so have the same CID. |
| Ledgers.LedgerExtensional | frc46_token/src/token/state.rs:111-121 | Ledgers that no query tells apart are identical down to the stored maps. |
| Ledgers.IncreaseDecreaseRestores | frc46_token/src/token/mod.rs:272-310 | Increasing and then decreasing by the same amount restores the identical ledger. |
| Tokens.Token.Mint | frc46_token/src/token/mod.rs:163-195 | Validates, resolves both accounts, credits atomically; returns a fresh hook naming minter, owner and amount; an error leaves the ledger as it was. |
| Tokens.Token.Transfer | frc46_token/src/token/mod.rs:467-499 | The same for a transfer. |
| Tokens.Token.TransferFrom | frc46_token/src/token/mod.rs:531-602 | The same for an operator's transfer; an error after the allowance was spent leaves the ledger as it was. |
| Tokens.Token.Burn | frc46_token/src/token/mod.rs:367-378 | Burns atomically and returns the new balance. |
| Tokens.Token.BurnFrom | frc46_token/src/token/mod.rs:395-446 | Burns on an allowance atomically and returns the new balance and allowance. |
| Tokens.Token.IncreaseAllowance | frc46_token/src/token/mod.rs:272-286 | Raises one allowance and returns the new one. |
| Tokens.Token.DecreaseAllowance | frc46_token/src/token/mod.rs:295-310 | Lowers one allowance, not below zero, and returns the new one. |
| Tokens.Token.RevokeAllowance | frc46_token/src/token/mod.rs:313-332 | Removes one allowance and returns the old one, zero where an address does not resolve, without creating accounts. |
| Tokens.Token.SetAllowance | frc46_token/src/token/mod.rs:335-354 | Sets one allowance and returns the old one. |
| Tokens.Token.SetBalance | frc46_token/src/token/mod.rs:621-635 | Sets one balance with the supply and returns the old balance. |
| TokenContracts.MintExactly | frc46_token/src/token/mod.rs:163-195 | Succeeds exactly for a valid amount and two addresses that exist or can be created; adds it to balance and supply, changes no other balance and no allowance; a failure changes nothing. |
| TokenContracts.TransferExactly | frc46_token/src/token/mod.rs:467-499 | Succeeds exactly if also the sender holds the amount; moves it, and changes no other balance, no allowance and not the supply. |
| TokenContracts.TransferFromExactly | frc46_token/src/token/mod.rs:531-602 | Succeeds exactly for two different known actors whose allowance is not zero and, like the balance, covers a valid amount, and a recipient that exists or can be created; moves it and lowers that allowance by it. |
| TokenContracts.BurnExactly | frc46_token/src/token/mod.rs:367-378 | Succeeds exactly for a valid amount that the owner holds; takes it from balance and supply only. |
| TokenContracts.BurnFromExactly | frc46_token/src/token/mod.rs:395-446 | Succeeds exactly under the conditions of an operator's transfer; takes the amount from balance, supply and that allowance only, and creates no account. |
| TokenContracts.IncreaseExactly | frc46_token/src/token/mod.rs:272-286 | Succeeds exactly for a non-negative amount and two addresses that exist or can be created; raises that allowance only. |
| TokenContracts.DecreaseExactly | frc46_token/src/token/mod.rs:295-310 | The same, lowering that allowance, not below zero. |
| TokenContracts.RevokeExactly | frc46_token/src/token/mod.rs:313-332 | Never fails and creates no account; if both addresses resolve that allowance becomes zero and nothing else changes, otherwise nothing changes. |
| TokenContracts.SetAllowanceExactly | frc46_token/src/token/mod.rs:335-354 | A negative amount fails, zero revokes, a positive one becomes that allowance and nothing else changes. |
| TokenContracts.SetBalanceExactly | frc46_token/src/token/mod.rs:621-635 | Succeeds exactly for a valid amount and an address that exists or can be created; the balance becomes the amount and the supply changes by the difference. |
| TokenContracts.PlanErrorsTellCauses | frc46_token/src/token/mod.rs:402-436 | Every error of validation and resolution names its true cause. |
| TokenContracts.RefusalsTellCauses | frc46_token/src/token/state.rs:195-230 | Every refusal of the ledger names the account or pair that lacks the amount, what it has, and how much was asked. |
| Tokens.TokenStepKeepsValid | frc46_token/src/token/mod.rs:128-137 | No operation between addresses, whatever its outcome, breaks the ledger. |
| Tokens.OperatorIsNotOwner | frc46_token/src/token/mod.rs:402-436 | The allowance check is reached only by an operator whose id differs from the owner's, for every mix of address forms. |
| Tokens.SelfAllowanceExactly | frc46_token/src/token/mod.rs:272-354 | Every effect that is not refused leaves the ledger without self-allowances if and only if it is neither a positive increase nor a positive set by an account for itself. |
| Tokens.PlanNamesActors | frc46_token/src/token/mod.rs:163-635 | Every planned effect is of the operation's kind, has its amount, and acts on the actors its addresses resolve to afterwards. |
| Addresses.InitKeepsTable | fvm_actor_utils/src/util.rs:97-116 | Resolving or creating an account keeps addresses of one protocol injective and ids below the next one, and rebinds nothing. |
| Addresses.SameExactly | fvm_actor_utils/src/util.rs:133-150 | For any two addresses: the same exactly if equal, or if both resolve, to one actor. |
| Addresses.InitExactly | fvm_actor_utils/src/util.rs:97-116 | Exactly when resolving or creating an account succeeds, which id results, what the table becomes, and which error is reported. |
| Addresses.Syscalls.Send | fvm_actor_utils/src/syscalls/fake_syscalls.rs:64-103 | Creates an account for an unknown key address under the next id and for nothing else, or fails once when told to. |
| Addresses.Syscalls.ResolveOrInit | fvm_actor_utils/src/util.rs:97-116 | The id now bound to the address; fails exactly when the send fails or no account can be created. |
| NftStates.NFTState.MintTokens | frc53_nft/src/state.rs:182-236 | The loop makes the batch, with u64 wrapping; returns the ids from the old counter to the new. |
| NftStates.NFTState.BurnTokens | frc53_nft/src/state.rs:373-413 | The loop and index update make the deletion batch, or report its first error and change nothing. |
| NftStates.NFTState.Transfer | frc53_nft/src/state.rs:420-451 | The loop makes the transfer batch; on an error the object holds exactly the part of the batch before it. |
| NftStates.NFTState.MakeTransfer | frc53_nft/src/state.rs:455-502 | One token moved with approvals cleared and both balances updated, by delete or set; an error changes nothing. |
| NftStates.NFTState.ApproveForTokens | frc53_nft/src/state.rs:252-275 | The loop makes the approval batch or changes nothing. |
| NftStates.NFTState.RevokeForTokens | frc53_nft/src/state.rs:280-302 | The loop makes the revocation batch or changes nothing. |
| NftStates.NFTState.CheckInvariants | frc53_nft/src/state.rs:771-872 | Accepts exactly when supply is the token count and every stored entry equals its tally and is not empty. |
| NftStates.NFTState.Tally | frc53_nft/src/state.rs:820-834 | In any order, the tally of each account is the number of tokens it owns. |
| NftStates.AcceptedAgreesExactly | frc53_nft/src/state.rs:836-862 | What the checker accepts agrees fully if and only if the stored balances add up to supply. |
| NftStates.AcceptedIfAgreeing | frc53_nft/src/state.rs:836-862 | On a ledger that agrees, the checker only objects to empty entries. |
| NftStates.CheckerMissesOwner | frc53_nft/src/state.rs:836-862 | A ledger the checker accepts although a token owner has no entry. |
| NftLedgers.StepAgreesExactly | frc53_nft/src/state.rs:182-502 | A successful call keeps each balance equal to the tokens owned and supply equal to the live tokens if and only if it is not a mint over live tokens or past what supply can count. |
| NftLedgers.MintAgreesExactly | frc53_nft/src/state.rs:182-236 | In every agreeing state, also one whose counter has wrapped: a mint keeps the agreement if and only if no id of the batch is live and supply has room for it. |
| NftLedgers.MintAllExactly | frc53_nft/src/state.rs:211-223 | With or without wrapping, the ids of the batch get tokens of the owner with no operators, all other tokens stay as they are, and the counter moves by the size of the batch. |
| NftLedgers.MintAllInOrder | frc53_nft/src/state.rs:211-223 | The k-th token of the batch is at the k-th next id with the k-th metadata. |
| NftLedgers.DeleteAllExactly | frc53_nft/src/state.rs:386-390 | A burn batch passes its loop exactly when its ids are distinct, live and allowed; it removes those tokens and no other. |
| NftLedgers.BurnAgrees | frc53_nft/src/state.rs:392-412 | Neither subtraction of a burn wraps: the batch is at most the balance, that at most supply, and agreement is kept. |
| NftLedgers.BurnInvariantFailure | frc53_nft/src/state.rs:392-397 | "Owner of tokens not found" is reported only for an empty batch of an account without entry. |
| NftLedgers.MakeTransferExactly | frc53_nft/src/state.rs:455-502 | Succeeds exactly for a live, allowed token; its `balance - 1` does not wrap, also for a self-transfer that deletes and recreates the entry. |
| NftLedgers.TransferAllExactly | frc53_nft/src/state.rs:420-451 | A batch with repeated ids and self-transfers succeeds exactly when every id is live and allowed in its turn, and keeps the index in agreement. |
| NftLedgers.TransferAllMoves | frc53_nft/src/state.rs:471-473 | In any state a batch that succeeds moves the listed tokens, clears their approvals, and changes no other token and no account operator. |
| NftLedgers.ApproveAllExactly | frc53_nft/src/state.rs:252-302 | Approving or revoking changes the operators of the listed tokens and nothing else. |
| NftLedgers.NoEmptyEntryExactly | frc53_nft/src/state.rs:193-206 | Only an account approval by an account without entry, and a mint that leaves a balance of zero without operators, store an empty entry; a safe mint does so only when it is empty and the account has no entry. |
| NftLedgers.ApproveAccountExactly | frc53_nft/src/state.rs:311-332 | An account approval takes effect if and only if the account has an entry. |
| NftContracts.TransferSucceedsExactly | frc53_nft/src/state.rs:420-451 | In an agreeing state an owner's transfer succeeds exactly if every id is live and owned by it when its turn comes. |
| NftContracts.TransferFromSucceedsExactly | frc53_nft/src/lib.rs:363-407 | An operator's transfer succeeds exactly if the owner has an entry and every id in its turn is live, the owner's, and the operator is one of the account or then of the token. |
| NftContracts.BurnSucceedsExactly | frc53_nft/src/lib.rs:195-205 | An owner's burn succeeds exactly for distinct live ids it owns, and for an empty batch if it has an entry. |
| NftContracts.BurnFromSucceedsExactly | frc53_nft/src/lib.rs:210-238 | An operator's burn succeeds exactly if the owner has an entry and the ids are distinct, live, the owner's, and the operator is one of the account or of the token. |
| NftContracts.OtherCallsSucceedExactly | frc53_nft/src/lib.rs:244-317 | Token approvals and revocations succeed exactly for live ids the caller owns; mints and account approvals and revocations never fail. |
| NftContracts.TokensExactly | frc53_nft/src/state.rs:252-502 | Which tokens are live after a call that is not a mint, and owner, operators and metadata of each. |
| NftContracts.AccountOperatorsExactly | frc53_nft/src/state.rs:311-502 | No call but an account's own approvals and revocations changes its operators, even where its entry is deleted and made again. |
| NftContracts.AccountOperatorsAreApproved | frc53_nft/src/state.rs:311-363 | In every run whatever an actor is listed on an account exactly when the account, having an entry, approved it and has not revoked it since. |
| NftContracts.OtherEntriesStay | frc53_nft/src/state.rs:455-502 | The entry of an account the call does not name is not touched. |
| NftContracts.NamedEntries | frc53_nft/src/state.rs:392-412 | An account that burns, gives away or revokes keeps no empty entry; one that receives or approves has an entry. |
| NftContracts.ErrorsTellCauses | frc53_nft/src/state.rs:518-555 | A call that fails reports the missing entry of its owner, or something true of an id it names. |
| NftContracts.InvariantFailsExactly | frc53_nft/src/state.rs:505-514 | The missing entry is reported exactly for an operator's call or an empty burn by or for an account without one. |
| NftRuns.RunAgreesExactly | frc53_nft/src/state.rs:182-502 | For every run whatever, index and supply agree with the tokens all along if and only if every mint in its turn finds its ids free and supply with room. |
| NftRuns.SupplyExactly | frc53_nft/src/state.rs:182-413 | In such a run supply is the tokens ever minted less those burnt. |
| NftRuns.CountersExactly | frc53_nft/src/state.rs:211-227 | In every run whatever, the next id is the tokens ever minted, and supply those less the burnt ones, modulo 2^64. |
| NftRuns.FewMintsAreSafe | frc53_nft/src/state.rs:182-236 | Every run that mints fewer than 2^64 tokens is safe, and its next id is above every live one. |
| NftRuns.Authority | frc53_nft/src/lib.rs:195-407 | In every state, unless a wrapped counter mints at its id: a token changes owner or is burnt only in a call naming it, by its owner, an operator of the owner's account or an operator of the token; its operators change only then or by its owner. |
| NftRuns.MintTakesOver | frc53_nft/src/state.rs:211-223 | A mint at the id of a live token makes it the new owner's, approved to nobody. |
| NftRuns.OperatorsAreApproved | frc53_nft/src/state.rs:252-302 | In every run whatever an actor is listed on a token exactly when it was approved, by the current owner, since the token was minted or last moved. |
| NftRuns.GivenIdsExactly | frc53_nft/src/state.rs:188-235 | In every run the k-th token minted gets the id k modulo 2^64. |
| NftRuns.IdsAreGivenOnceExactly | frc53_nft/src/state.rs:188-235 | No id is given out twice if and only if at most 2^64 tokens are minted. |
| NftRuns.IdsAreNeverReused | frc53_nft/src/state.rs:188-220 | In a run that gives no id out twice a burnt id is never live again, and a token's metadata never changes. |
| NftRuns.TokensComeFromMints | frc53_nft/src/state.rs:386-408 | In every run whatever, a live token whose id was not given out since an earlier moment was live then, with the same metadata. |
| NftRuns.LastIdExactly | frc53_nft/src/state.rs:211-223 | A run mints fewer than 2^64 tokens if and only if it never gives out the last id. |
| NftRuns.CollidingMint | frc53_nft/src/state.rs:211-227 | A run of single mints and a burn after which minting two tokens takes token 0 from its owner and breaks the agreement although supply has room. |
| NftRuns.EmptyEntryStored | frc53_nft/src/state.rs:311-332 | A run of one account approval that stores an empty entry. |
| NftLibrary.NFT.Mint | frc53_nft/src/lib.rs:151-177 | Between addresses, atomically; returns a fresh hook that tells the new owner the operator and the ids from the old counter to the new. |
| NftLibrary.NewIdsInOrder | frc53_nft/src/state.rs:230-235 | Short of an overflow those ids are as many as the tokens minted, consecutive from the old counter. |
| NftLibrary.PlanNamesActors | frc53_nft/src/lib.rs:151-407 | Every planned call is of the operation's kind, has its ids and metadata, and acts on the actors its addresses resolve to afterwards. |
| NftLibrary.PlanExactly | frc53_nft/src/lib.rs:151-407 | Exactly when the addresses of each operation resolve, whether there is anything to do, and which accounts may be created. |
| NftLibrary.LibraryStepExactly | frc53_nft/src/lib.rs:92-101 | An operation succeeds exactly if resolution and its call do; the ledger is then that after the call, otherwise as it was, with the call's error. |
| NftLibrary.NFT.Burn | frc53_nft/src/lib.rs:195-205 | Burns as owner, atomically, and returns the new balance. |
| NftLibrary.NFT.BurnFrom | frc53_nft/src/lib.rs:210-238 | Burns as operator, atomically, and returns the owner's new balance. |
| NftLibrary.NFT.Approve | frc53_nft/src/lib.rs:244-261 | Approves for tokens the caller owns, all or none. |
| NftLibrary.NFT.Revoke | frc53_nft/src/lib.rs:267-287 | Revokes on tokens the caller owns, all or none; nothing to do for an unknown operator. |
| NftLibrary.NFT.ApproveForOwner | frc53_nft/src/lib.rs:293-301 | The account approval between addresses. |
| NftLibrary.NFT.RevokeForAll | frc53_nft/src/lib.rs:307-317 | The account revocation between addresses. |
| NftLibrary.NFT.Transfer | frc53_nft/src/lib.rs:320-347 | Moves as owner and returns a fresh hook for the recipient; a batch that fails half-way leaves the ledger as it was. |
| NftLibrary.NFT.TransferFrom | frc53_nft/src/lib.rs:363-407 | Moves as operator and returns a fresh hook for the recipient, which names the owner as operator; a batch that fails half-way leaves the ledger as it was. |
| NftLibrary.NFT.ReloadIfChanged | frc53_nft/src/lib.rs:494-502 | The state becomes the committed one when the root is not the expected one and stays otherwise; after a save it is the committed one in either case. |
| NftLibrary.NFT.BuildMintReturn | frc53_nft/src/lib.rs:183-190 | Balance and supply of the committed state after the hook, with the ids and recipient data of the intermediate result. |
| NftLibrary.NFT.BuildTransferReturn | frc53_nft/src/lib.rs:353-360 | Both balances of the committed state after the hook, with the ids of the intermediate result. |
| NftLibrary.LibraryStepAgreesExactly | frc53_nft/src/lib.rs:92-101 | An operation between addresses, whatever its outcome, keeps the agreement if and only if it does not make an unsafe mint. |
| NftLibrary.LibraryRun | frc53_nft/src/lib.rs:145-407 | Any sequence of operations between addresses, whichever fail, is a run of the calls it makes: agreement all along exactly when these are safe, and operators are those the owner approved. |
| NftStates.NFTState.ListPage | frc53_nft/src/state.rs:604-647 | One page; refused exactly when the cursor is of another root. |
| NftStates.SkipTake | frc53_nft/src/state.rs:661-667 | The iteration that skips and takes collects exactly that slice of the operators in ascending order. |
| NftStates.NFTState.ListTokenOperators | frc53_nft/src/state.rs:650-675 | One page of a token's operators, with both truncations. |
| NftStates.NFTState.ListAccountOperators | frc53_nft/src/state.rs:702-731 | One page of an account's operators; the cursor's root is not looked at. |
| NftPages.WalkEnumerates | frc53_nft/src/state.rs:604-647 | However the state changes between pages, a walk that ends lists exactly the tokens wanted from the first page's state, each on one page only. |
| NftPages.WalkFinishes | frc53_nft/src/state.rs:604-621 | With a positive limit and no change the walk ends within the pages the keys fill. |
| NftPages.WalkRefused | frc53_nft/src/state.rs:166-177 | A walk is refused only with InvalidCursor and only when the tokens changed between pages. |
| NftPages.OwnedWalkMatchesBalance | frc53_nft/src/state.rs:626-647 | A full walk of an account's tokens lists as many as get_balance says. |
| NftPages.PageRefused | frc53_nft/src/state.rs:166-177 | A page is refused exactly for a cursor of another root, with InvalidCursor. |
| NftPages.FullWalkListsAll | frc53_nft/src/state.rs:604-621 | A full walk of all tokens lists every live one once. |
| NftPages.OperatorWalkListsApproved | frc53_nft/src/state.rs:678-699 | A full walk of an operator's tokens lists once those, and only those, that list it. |
| NftOperators.OperatorWalkEnumerates | frc53_nft/src/state.rs:650-675 | However the state changes between pages, a walk of a token's operators that ends lists those the first page saw, each on one page only, while they and the limit fit a usize. |
| NftOperators.OperatorWalkFinishes | frc53_nft/src/state.rs:650-675 | With a positive limit and no change of the tokens the walk ends within the pages the operators fill. |
| NftOperators.OperatorWalkRefused | frc53_nft/src/state.rs:166-177 | After the first page the walk is refused only with InvalidCursor and only when the tokens changed. |
| NftOperators.TokenOperatorPageRefused | frc53_nft/src/state.rs:650-675 | A page is refused exactly for a cursor of another root or a token that is not live, with the error that says so. |
| NftOperators.OperatorWalkExactly | frc53_nft/src/state.rs:661-671 | A complete walk of a token's operators lists all of them if and only if the limit fits a usize or its truncation covers them. |
| NftOperators.AccountWalkEnumerates | frc53_nft/src/state.rs:702-731 | While an account's operators stay as they are, whatever else changes, a walk of them that ends lists all of them, each on one page only. |
| NftOperators.AccountWalkFinishes | frc53_nft/src/state.rs:702-731 | With a positive limit it ends within the pages the operators fill. |
| NftOperators.AccountWalkExactly | frc53_nft/src/state.rs:713-725 | A complete walk of an account's operators lists all of them if and only if the limit fits a usize or its truncation covers them. |
| NftOperators.AccountWalkChangedExactly | frc53_nft/src/state.rs:702-731 | However the operators change between pages, a walk that ends lists those the first page saw, in order, if and only if every slice it read is unchanged. |
| NftOperators.AccountWalkMixesStates | frc53_nft/src/state.rs:702-731 | A run of account approvals around which two pages list the operators of neither state, under one and the same root. |
| NftOperators.TwoPagesExactly | frc53_nft/src/state.rs:702-731 | Two pages around a change list the first operators, each once, if and only if the second set has the same operators at the positions of the second page. |
| NftOperators.OperatorDropped | frc53_nft/src/state.rs:713-725 | With a limit of 2^32 the only page of a walk over one operator is empty. |
| NftOperators.SteadyWalkExactly | frc53_nft/src/state.rs:713-725 | For any operators: a complete walk lists all of them if and only if the limit fits a usize or its truncation covers them. |
| NftOperators.ChangedWalkExactly | frc53_nft/src/state.rs:713-725 | For any change of operators between pages and any target set: what is listed in order is the target if and only if every slice read is the target's. |

## Left out

- HAMT, AMT, bit-field and CBOR encodings, key codecs and their errors; missing or corrupt blocks. The AMT is taken to accept every u64 index.
- Name, symbol, `hamt_bit_width`, `count_balances` and state summaries: no behaviour beyond storing or counting.
- Gas, events, call-depth limits, exit codes and error texts, wasm entry points, parameter decoding; method number hashing.
- Termination of the machine is by structure: scripts are finite trees that branch on whether a message succeeded, so a run of an actor that computes amounts from replies appears as the script of the messages it sent.
- Actors other than scripted ones either refuse every hook or accept it without acting, as accounts do.
- ReceiverHooks.ReceiverHook.Finish: does not copy the recipient's answer into the intermediate result, because hooks here answer with acceptance or refusal only; FRC-0046 returns leave recipient data out.
- Token data in hook payloads; the operator data carries the script.
- Width of actor ids and of `next_actor_id`: both are unbounded.
- Granularity 0, with which the source panics on division.
- The fake syscalls' record of the last message and its settable caller; the caller is part of the message.
- An NFT actor with re-entrant hooks: the library's reload and return builders are modelled, the example actors are not.
- The `OperatorSet` of `Vec`, which the ledger does not use; operators are sets.
- TokenStates.TokenState.MakeTransfer: requires a canonical state and a non-negative amount, which the class keeps and the library validates; the method on a corrupted state is not modelled. The same holds for the allowance methods.
- Histories.CheckerAcceptsExactly: leaves out roots that were set and rolled back later, which may hold a self-allowance of their own.
- NftOperators.OperatorWalkEnumerates: bounds a token's operators by 2^32, the address space of the machine; the same holds for the account's.
