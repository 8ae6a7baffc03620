# Governance view and node bootstrap of the Aragon dapp, in Dafny

This project models two parts of the Aragon dapp client:

- **The governance-state engine** of the voting view (`client/tmpl/modules/voting/votingSection.js`). It decides whether a holder can vote or modify a vote, and reports how they voted. It computes the pending votes, projects whether the approving option will reach its support threshold, and offers the approving option for execution. It also rewrites a voting's description so that entity names become links. The view's reactive state (`votingVar`, `verifiedVar`, `isModifying`) and the actions it dispatches form a small state machine, modelled as the class `VotingView.VotingSection`.
- **The connection bootstrap** of the Ethereum node (`client/lib/ethereum/node.js`). It probes the node with a growing retry delay until a probe finds it connected and then either the provider is the browser-injected wallet, or the sync query fails, or the node reports that it is not syncing. It waits for the accounts and blocks read models to deliver their first update. It then checks the live network id against the supported networks and reconciles it with `localStorage`. `localStorage` is the field of the class `NetworkConfig.EthereumNode`, which `SetItem` and `Clear` update.

Every call to the contracts or to web3 is an input of the model, given as its result:
- `votingPowerForVoting`, `countVotes`, `canPerformAction`;
- `isConnected`, the provider kind, `getSyncing`, `getAccounts`, `getNetwork`;
- the events of the read models, in arrival order;
- the user's answer to the confirmation prompt;
- the router path, and the voting found for the current route.

The network tables of `./networks` (`supportedNetworks`, `domains`, `names`) are inputs too; that file is not part of this model.

Modules: `JsValues` holds the JavaScript value semantics the code relies on: division yielding NaN or Infinity, `String(n)`/`Number(s)`, loose `==` between a stored string and a number, and `split`/`join`. The other modules are `VotingEngine`, `VotingView`, `Connection` and `NetworkConfig`.

Points where the code's behaviour is easy to misread:
- The contract reports the voted option as 10 plus its index. `getOption` reads `options[o - 10]`, and `willBeAbleToExecute` treats 10 as "voted approve". So 10 is option 0, not "has not voted".
- `connect` compares the stored network with loose `!=`. A missing stored network is `null`, and `null` is loosely equal to no number. So when a company address is stored but no network is, this counts as a mismatch and triggers the prompt. It is not silently persisted (`NetworkConfig.ScenarioNoNetworkRemembered`).
- `canExecute` returns `null` both when the voting was already executed and when no action can be performed (`Option.None` for both).
- With a total voting power of 0, `pendingVotes` and `willBeAbleToExecute` give what JavaScript gives. `0/0` is NaN: every comparison with it is false. `x/0` is +Infinity for `x > 0`, and so meets any threshold (`JsValues.Divide`, `JsValues.AtLeast`).
- `names[nID]` of an unknown id is stored as the string "undefined", because `setItem` converts its value to a string.
- The formatted description keeps the number of words only in the list of words before they are joined. Each entity becomes an anchor that itself holds a space (`VotingEngine.FormatEntity`). So splitting the output again gives more words whenever an entity occurs.

## Model

| member | source | states |
|---|---|---|
| `VotingEngine.CanVote` | client/tmpl/modules/voting/votingSection.js:49-52 | false whenever the voting is closed; otherwise true iff the votable power is positive |
| `VotingEngine.HasVoted` | client/tmpl/modules/voting/votingSection.js:54-60 | `voted` iff the modifiable power is positive; the voted option and the modifiable power are passed through unchanged |
| `VotingEngine.VotingPower` | client/tmpl/modules/voting/votingSection.js:62-65 | the holder's voting power is exactly the first component of the tuple, the votable power |
| `VotingEngine.ScenarioModifiableOnly` | client/tmpl/modules/voting/votingSection.js:49-60 | a holder with 0 votable and 5 modifiable on option 0 cannot vote and has voted, with option 10 and 5 modifiable |
| `VotingEngine.ClosedVotingOffersNothing` | client/tmpl/modules/voting/votingSection.js:147-153 | on a closed voting neither voting nor modifying is offered (outside modify mode) |
| `VotingEngine.CanModifyVote` | client/tmpl/modules/voting/votingSection.js:153 | true iff the voting is open and the modifiable power is positive |
| `VotingEngine.CanModifyIffVotedAndOpen` | client/tmpl/modules/voting/votingSection.js:153 | modifying is offered for the holder's own modifiable power exactly when the voting is open and the holder has voted |
| `VotingEngine.CanVoteOrModify` | client/tmpl/modules/voting/votingSection.js:147 | always true in modify mode; otherwise equal to `CanVote` |
| `VotingEngine.IsExecuted` | client/tmpl/modules/voting/votingSection.js:151 | true iff the voting is closed and its executed option is exactly the given one |
| `VotingEngine.GetOption` | client/tmpl/modules/voting/votingSection.js:155 | defined iff 10 <= o < 10 + number of options, and then it is the option at o - 10 |
| `VotingEngine.GetOptionDecodes` | client/tmpl/modules/voting/votingSection.js:155 | the reported value 10 + i names option i |
| `VotingEngine.PendingVotesOf` | client/tmpl/modules/voting/votingSection.js:68-75 | fails iff there are no options; pending votes plus the sum of every option's votes equal option 0's total power; with positive power the relative share times the power is the pending votes; with zero power the share is NaN when nothing was cast and -Infinity otherwise |
| `VotingEngine.SumCast` | client/tmpl/modules/voting/votingSection.js:72 | the summed votes are zero exactly when no option has any votes |
| `VotingEngine.SumCastCoversEachOption` | client/tmpl/modules/voting/votingSection.js:72 | the summed votes include every single option's votes |
| `VotingEngine.PendingVotesBounded` | client/tmpl/modules/voting/votingSection.js:68-75 | when no more votes were cast than there is power, the pending votes are non-negative, together with any option's votes they stay within the total, and the relative share lies in [0, 1] |
| `VotingEngine.EffectiveVotable` | client/tmpl/modules/voting/votingSection.js:78-79 | votable plus modifiable exactly when the reported option is not 10 (approve), plain votable otherwise |
| `VotingEngine.EffectiveVotableIgnoresOptionWithoutModifiable` | client/tmpl/modules/voting/votingSection.js:79 | without modifiable power the reported option does not change the effective votable power |
| `VotingEngine.WillBeAbleToExecute` | client/tmpl/modules/voting/votingSection.js:77-84 | with positive total power, true iff (approving votes + effective votable) / total power >= the support needed; with zero power, true iff that sum is positive (x/0 is +Infinity, 0/0 is NaN) |
| `VotingEngine.WillBeAbleToExecuteMonotone` | client/tmpl/modules/voting/votingSection.js:77-84 | with positive total power, more votable power never turns a projected success into a failure |
| `VotingEngine.ScenarioSwingToApprove` | client/tmpl/modules/voting/votingSection.js:77-84 | 10 votable and 5 modifiable on option 3, 40 of 100 approving, half needed: projected to succeed |
| `VotingEngine.AsWrittenFutureVotes` | client/tmpl/modules/voting/votingSection.js:81 | the concatenation read back as a number is the current votes shifted left by the decimal length of the votable power, plus the votable power; it equals the votable power when there are no current votes |
| `VotingEngine.WillBeAbleToExecuteAsWritten` | client/tmpl/modules/voting/votingSection.js:80-83 | the projection computed on the concatenated string; agrees with the intended one while option 0 has no votes |
| `VotingEngine.AsWrittenOverstatesSupport` | client/tmpl/modules/voting/votingSection.js:80-83 | for 40 approving of 100, 5 more votable and half needed, the code as written projects success and the intended sum does not |
| `VotingEngine.CanExecute` | client/tmpl/modules/voting/votingSection.js:86-102 | none whenever an execution is recorded, whatever the contract says; otherwise present iff the action can be performed, and then it is the primary sentiment, index 0 and the name of option 0 |
| `VotingEngine.ExecutedIsNotExecutable` | client/tmpl/modules/voting/votingSection.js:87 | an option shown as executed is never offered for execution |
| `VotingEngine.ExecutingOptionIsApprove` | client/tmpl/modules/voting/votingSection.js:92 | the option offered for execution is the one the reported value 10 names |
| `VotingEngine.FormatEntity` | client/tmpl/modules/voting/votingSection.js:129 | the link ends with the entity as its text followed by `</a>`, and the markup holds a space |
| `VotingEngine.FormatWords` | client/tmpl/modules/voting/votingSection.js:135 | as many words out as in; a word that is not an entity is unchanged, an entity becomes its link |
| `VotingEngine.FormatDescriptionPlain` | client/tmpl/modules/voting/votingSection.js:131-137 | a description with no entity word (in particular with no entities) comes back unchanged |
| `VotingEngine.FormatDescription` | client/tmpl/modules/voting/votingSection.js:131-137 | the result is the space-join of one piece per word of the description, each the word or, for an entity, its link |
| `JsValues.JoinSplit` | client/tmpl/modules/voting/votingSection.js:133-136 | joining the pieces of a split on the same character gives the string back |
| `JsValues.SplitJoin` | client/tmpl/modules/voting/votingSection.js:133-136 | splitting a join of words that do not hold the separator gives the words back |
| `JsValues.Divide` | client/tmpl/modules/voting/votingSection.js:74 | with a non-zero divisor the quotient times the divisor is the dividend; with zero it is NaN, +Infinity or -Infinity by the sign of the dividend |
| `VotingView.VotingSection.constructor` | client/tmpl/modules/voting/votingSection.js:104-109 | on creation the looked-up voting is shown, nothing is verified, modify mode is off and nothing was dispatched |
| `VotingView.VotingSection.Reload` | client/tmpl/modules/voting/votingSection.js:30-37 | afterwards the freshly looked-up voting is shown, verification is null and modify mode is off; the dispatch log is unchanged |
| `VotingView.VotingSection.StartModifying` | client/tmpl/modules/voting/votingSection.js:192 | turns modify mode on and changes nothing else |
| `VotingView.VotingSection.CastVote` | client/tmpl/modules/voting/votingSection.js:162-170 | outside modify mode appends a cast-vote action and leaves the mode off; in modify mode appends a modify action (not a removal) and leaves the mode iff the dispatch succeeds; nothing is dispatched when no voting is found |
| `VotingView.VotingSection.RemoveVote` | client/tmpl/modules/voting/votingSection.js:172-174 | appends a modify action for option 0 with removal set and executes-on-decided off; nothing else changes |
| `VotingView.VotingSection.ExecuteVote` | client/tmpl/modules/voting/votingSection.js:176-179 | appends the execution of the option on the voting's address, then reloads only if the transaction went through |
| `VotingView.ModifyThenVote` | client/tmpl/modules/voting/votingSection.js:162-170 | a modification that goes through ends modify mode, so the next vote is dispatched as a fresh vote |
| `Connection.Backoff` | client/lib/ethereum/node.js:65-67 | the `timeout` after n retries is 1000 * (2^n - 1) ms |
| `Connection.BackoffStrictlyIncreasing` | client/lib/ethereum/node.js:65-69 | retry delays strictly increase |
| `Connection.BackoffExceedsHistory` | client/lib/ethereum/node.js:65-69 | every retry delay is at least the first 100 ms probe plus all earlier retry delays |
| `Connection.TryConnection` | client/lib/ethereum/node.js:71-81 | retry when not connected; ready for an injected provider; otherwise ready iff the sync query errs or reports not syncing |
| `Connection.DecisionOrder` | client/lib/ethereum/node.js:72-74 | not connected retries whatever the provider and sync status; a connected injected provider is ready whatever the sync status |
| `Connection.Schedule` | client/lib/ethereum/node.js:66-69 | the timers armed after n retries: n + 1 of them, the first 100 ms and the j-th retry's the j-th backoff |
| `Connection.InitConnection` | client/lib/ethereum/node.js:63-84 | never rejects and only resolves with true; resolves iff some probe is ready, at the first one; the first timer is 100 ms and the j-th retry timer is the j-th backoff; every probe before the settling one retried |
| `Connection.ReadyOnFirstProbe` | client/lib/ethereum/node.js:82 | a node ready on the first probe resolves after the 100 ms timer alone |
| `Connection.FirstAccountsSettlement` | client/lib/ethereum/node.js:27-39 | resolves only with true; stays pending iff no added account, empty account list or account error arrived; otherwise the first such event decides: it resolves iff that event is an added account or an empty list, and rejects iff it is a failed `getAccounts` |
| `Connection.AccountsSettleOnce` | client/lib/ethereum/node.js:27-33 | once the accounts side has settled, later events change nothing |
| `Connection.AccountsReadiness` | client/lib/ethereum/node.js:26-43 | resolves only with true; ready at once when accounts exist at subscription time; rejected when `init` throws; otherwise settled by the first settling event that arrives later |
| `Connection.EmptyAccountsAreReady` | client/lib/ethereum/node.js:36-39 | an empty account list makes the accounts side ready without any update arriving |
| `Connection.BlocksReadinessAsWritten` | client/lib/ethereum/node.js:44-57 | resolves only with true; when blocks exist at subscription time and the callback's exception escapes `observe`, never settles; otherwise resolves iff `init` succeeds and a later block arrives, and rejects iff `init` throws |
| `Connection.BlocksReadiness` | client/lib/ethereum/node.js:44-57 | resolves, only with true, iff blocks exist at subscription time or `init` succeeds and a block arrives; rejects iff `init` throws (with no blocks at subscription) |
| `Connection.BlocksAsWrittenHangs` | client/lib/ethereum/node.js:45-51 | the two agree when no block exists at subscription time; when one does, the guarded side is ready at once while the code as written never settles, or waits for a later block if the exception is swallowed |
| `Connection.InitCollections` | client/lib/ethereum/node.js:25-60 | rejects iff either side rejects; resolves iff both resolve, with the conjunction of their values |
| `Connection.CollectionsReadiness` | client/lib/ethereum/node.js:24-61 | with the guarded blocks side: rejects iff the accounts side finds `init` throwing or a failed `getAccounts` first, or the blocks side finds `init` throwing (each only with nothing present at subscription); resolves, only with true, iff both sides are ready |
| `Connection.CollectionsReadinessAsWritten` | client/lib/ethereum/node.js:24-61 | with the blocks side as written: rejects iff the accounts side rejects or the blocks side finds `init` throwing (unless an escaping exception already ended it); resolves, only with true, iff the accounts side is ready, no escaping exception ended the blocks side, `init` succeeds and a later block arrives |
| `Connection.CollectionsAsWrittenWaits` | client/lib/ethereum/node.js:25-58 | with blocks present at subscription and an escaping exception, the gate as written never resolves and rejects only through the accounts side, while the guarded gate resolves once the accounts side is ready |
| `NetworkConfig.GetItem` | client/lib/ethereum/node.js:116-117 | null exactly when the key is absent, the stored string otherwise |
| `NetworkConfig.Mismatch` | client/lib/ethereum/node.js:116-117 | never a mismatch when the decimal form of the id is stored or no company is stored; with no network stored, a mismatch exactly when a company is; with a different id stored, see `NetworkConfig.SwitchedNetworkMismatch` |
| `NetworkConfig.SwitchedNetworkMismatch` | client/lib/ethereum/node.js:116-118 | with a different network id remembered in decimal, a mismatch (and so the prompt) exactly when a company is remembered |
| `NetworkConfig.Persist` | client/lib/ethereum/node.js:124-126 | `network` holds the id in decimal, `etherscanSub` the subdomain (or the empty string), `networkName` the name (or "undefined"); every other key is unchanged |
| `NetworkConfig.Reconcile` | client/lib/ethereum/node.js:110-129 | the unsupported alert iff the id is not supported, and then storage is untouched; a reload iff supported and mismatched, and then storage is empty if confirmed and untouched otherwise; otherwise the persisted storage |
| `NetworkConfig.MismatchReloads` | client/lib/ethereum/node.js:116-122 | on a mismatch: reload either way, storage empty iff confirmed and unchanged otherwise, the `network` entry never rewritten |
| `NetworkConfig.PersistWritesMetadata` | client/lib/ethereum/node.js:124-126 | otherwise `network`, `etherscanSub` (or the empty string) and `networkName` are written and every other key is unchanged |
| `NetworkConfig.PersistKeepsCompany` | client/lib/ethereum/node.js:124-126 | a successful bootstrap keeps the stored company address |
| `NetworkConfig.ReconcileIdempotent` | client/lib/ethereum/node.js:116-126 | after the network was written, reconciling again on the same network finds no mismatch and leaves storage as it is |
| `NetworkConfig.ScenarioSwitchedNetwork` | client/lib/ethereum/node.js:116-122 | stored network 5 and a company address with live network 42 take the prompt path, wiping storage only when confirmed |
| `NetworkConfig.ScenarioNoNetworkRemembered` | client/lib/ethereum/node.js:116-117 | a stored company without a stored network is a mismatch; with no company the live network is persisted |
| `JsValues.LooseEqualsWritten` | client/lib/ethereum/node.js:117 | the stored form of a network id is loosely equal to that id and to no other number |
| `JsValues.NumberRoundTrip` | client/lib/ethereum/node.js:124 | converting the stored string of an integer back to a number gives the integer |
| `NetworkConfig.EthereumNode.SetItem` | client/lib/ethereum/node.js:124-126 | storage maps the key to the value, all else unchanged |
| `NetworkConfig.EthereumNode.Clear` | client/lib/ethereum/node.js:119 | storage is empty |
| `NetworkConfig.EthereumNode.Connect` | client/lib/ethereum/node.js:87-130 | waits, with storage untouched, while no probe is ready or the gate is pending; a rejected gate restarts in the desktop shell and fails in the browser; a network error fails; otherwise storage becomes exactly the reconciled storage, and the result is the alert, a reload, or readiness true |

## Left out

- Meteor template lifecycle, jQuery and DOM wiring, `ReactivePromise`, tooltips and router navigation. The model keeps the values behind them; `updated.set(Math.random())` in `reload` is only a re-render trigger and is not modelled.
- `wrappableTokens` and `verify`: balance and contract-verification fetches with logging, which mutate foreign objects.
- The contract and web3 calls themselves (`votingPowerForVoting`, `countVotes`, `canPerformAction`, `getSyncing`, `getNetwork`, `getAccounts`, `setProvider`, `dispatcher.dispatch`, `performTransaction`) and `web3.reset`: their results are inputs, and their effects are entries of the dispatch log.
- The provider kind is a boolean input. The source recognises the injected provider by its constructor name.
- The watchdog in the desktop (Electron) path. It re-invokes `connect` after 1 s when the gate is still pending, concurrently with the running attempt. It is about concurrency and wall-clock time; the model reports such an attempt as `Waiting`. The un-awaited 500 ms `delay` before a restart has no effect and is not modelled.
- `alert`, `confirm` and `location.reload` are outcome tags and an input boolean. `bindListeners` (listener registration and notification delivery) is not modelled. `getNetworkID` and `delay` are promise wrappers and appear only through their results.
- `parseInt` of the reported network id: the id arrives as an integer. A non-numeric id would give NaN, which is in no table and ends as unsupported.
- `Number(s)` is modelled for the empty string, for decimal digits with an optional sign, and as NaN for everything else. Surrounding whitespace, hexadecimal, exponents and fractions are not modelled; the model only ever stores the decimal form of an integer.
- Floating point: counts are naturals, ratios are reals. `toNumber` on big numbers is taken to be exact.
- NetworkConfig.EthereumNode.Connect: awaits the guarded blocks side (`Connection.BlocksReadiness`), not the code as written. When blocks already exist at subscription time, it goes on to reconcile and write `localStorage`, where the code keeps waiting (`Connection.CollectionsAsWrittenWaits`).
- Connection.AccountsReadiness: resolving while `observe` delivers existing accounts assumes the guard `if (accountObserver)` reads the unassigned handle as undefined, as it does once the build compiles `const` to `var`; the build setup is not part of this model. Under native `const` the read throws, and the side would wait for a later added account.
- Connection.BackoffStrictlyIncreasing and Connection.BackoffExceedsHistory are about the `timeout` passed to `setTimeout`, not about the actual waits: browsers clamp the delay to a signed 32-bit integer, so from the 22nd retry (about 48 days in) the delay overflows and the timer fires at once. The model does not capture that clamp.
- An undefined `voteExecuted` (as opposed to null) is not distinguished: the voting record holds an optional option index.

## Findings

| source | as written | input that shows it | evidently intended | confidence | as-written member | corrected member |
|---|---|---|---|---|---|---|
| client/tmpl/modules/voting/votingSection.js:80-83 | `currentVotes` comes from `countVotes` without `toNumber()`. Its primitive value is the big number's decimal string, so `currentVotes + votable` concatenates strings, and the division reads the concatenation back as a number | 40 approving votes of a total power of 100, a holder with 5 votable on option 0, support needed 0.5: "405" / 100 = 4.05 >= 0.5 where 45 / 100 = 0.45 is not (`VotingEngine.AsWrittenOverstatesSupport`) | integer addition of the approving votes and the effective votable power | not executed; medium (rests on the big-number library's `valueOf` returning a string) | `VotingEngine.WillBeAbleToExecuteAsWritten` | `VotingEngine.WillBeAbleToExecute` |
| client/lib/ethereum/node.js:45-51 | the blocks observer calls `blockObserver.stop()` in `addedAt`. `observe` delivers existing documents before it returns, so at that moment the handle is not yet assigned. The call throws before `resolve`. If the exception escapes `observe`, the executor ends before `init` and the gate never settles. If the observer library swallows it, the gate waits for the next block instead of being ready. The accounts side guards the same call with `if (accountObserver)` | a block already in the blocks collection when `observe` is called, e.g. on a second `connect` (`Connection.BlocksAsWrittenHangs`) | the same guard as on the accounts side: ready on the first block, whenever it arrives | not executed; low (rests on blocks being present at subscription time; whether the gate never settles or only waits for the next block depends on the observer library, whose code is not part of this model and is an input of the as-written member; the contrast with the guarded accounts side also assumes `const` is compiled to `var`) | `Connection.BlocksReadinessAsWritten` | `Connection.BlocksReadiness` |
