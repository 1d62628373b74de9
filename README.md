# Deployment helpers of forta-contracts, modelled in Dafny

This project models the logic of `scripts/utils/index.js` in the
forta-contracts deployment tooling:

- **Resumable deployment** (`resumeOrDeploy`): a restart-safe state machine
  over a key/value deployment cache. A deployment with key `K` is recorded
  under `K-pending` (the hash of the submitted transaction, saved before
  confirmation) and `K.address` (the deployed address). A call deploys when
  neither entry is set, recovers the address from the saved transaction's
  receipt when only the hash is set, and returns the cached address
  otherwise. It always rewrites `K.address` before returning. The event
  lookups `getEventsFromContractCreation` and `getEventsFromTx` read the same
  saved hash.
- **Block-window log scanning** (`getLogsForBlockInterval`): a block range is
  cut into closed slices whose ends are at most 8000 apart (up to 8001
  blocks each). Every named filter is queried slice by slice, and the
  results are appended to that filter's list.
- **Pure helpers**: `durationToSeconds`, `Array.range`,
  `Array.prototype.chunk`, `getBlockExplorerDomain` and
  `assertNotUsingHardhatKeys`.

Modules, one per component:

- `Wrappers` holds `Option` and `Result`.
- `ResumableDeploy` holds the cache as a `Store` class whose methods update
  `entries` in place. It also holds `ResumeOrDeploy`, a method that follows
  the source step by step, and `Resume`, the function that specifies it. The
  event lookups are here too.
- `BlockWindows` holds the slicing, the accumulated logs, and the scanning
  method with its loop invariants.
- `Durations`, `ArrayHelpers` and `Networks` hold the pure helpers, as
  functions with lemmas.

External collaborators are parameters:

- The deploy action is a `Submission` value. Either the submission fails, or
  it returns a transaction hash and, when confirmation succeeds, an address.
- The chain is a map from transaction hash to `Receipt`.
- The provider's `queryFilter` is a function of the filter and the two block
  numbers.
- The `latest` block is a number.

Behaviour of the code worth noting:

- Slices are closed ranges `[i, min(end, i + 8000)]`, and the next slice
  starts at `i + 8000`. So adjacent slices share their boundary block, and
  logs of that block are returned by both queries. When `end - initial` is a
  multiple of 8000, a last one-block slice `[end, end]` is queried. The
  slices therefore overlap; they are not a partition without overlaps.
- `getEventsFromContractCreation` calls `cache.get` without `?.`. So a null
  cache is an error there, whereas `resumeOrDeploy` treats it as empty.
- Blank values are treated as missing, as JavaScript truthiness does.
  Idempotence therefore needs a non-empty returned address.

## Model

| member | source | states |
|---|---|---|
| `ResumableDeploy.Store.Get` | scripts/utils/index.js:102-103 | a cache read returns the stored value, or nothing when the key was never set |
| `ResumableDeploy.Store.Set` | scripts/utils/index.js:118 | a cache write replaces the value of that one key and changes no other key |
| `ResumableDeploy.PendingAndAddressKeysDiffer` | scripts/utils/index.js:102-103 | `K-pending` and `K.address` are different keys, so the two records never overwrite each other |
| `ResumableDeploy.Resume` | scripts/utils/index.js:101-120 | the deploy action runs exactly when neither record is truthy. A null cache stays null. No key other than the two records changes. A fresh deploy saves the hash, then the confirmed address; a failed confirmation leaves the hash saved. With a pending hash only, the result is the receipt's address, and an unknown hash is an error. A truthy cached address is returned and the cache is unchanged. Every success leaves the result cached under `K.address`. The lifecycle never goes backwards: a failure leaves the cache as it was, except that an unconfirmed fresh submission keeps its saved hash. No failure touches `K.address`, and only a fresh deployment writes `K-pending` |
| `ResumableDeploy.ResumeOrDeploy` | scripts/utils/index.js:101-120 | the step-by-step method returns the result and the deploy flag of `Resume`, and leaves the cache as `Resume` describes |
| `ResumableDeploy.SecondCallReturnsSameAddress` | scripts/utils/index.js:106-119 | after a call that returned a non-empty address, a second call returns the same address without deploying and leaves the cache unchanged |
| `ResumableDeploy.RecoversAfterInterruptedConfirmation` | scripts/utils/index.js:107-116 | when confirmation fails after the hash was saved, the next call takes the address from that transaction's receipt without deploying again |
| `ResumableDeploy.NoCacheAlwaysDeploys` | scripts/utils/index.js:102-109 | without a cache every call deploys, and nothing is recorded |
| `ResumableDeploy.FreshDeploymentExample` | scripts/utils/index.js:106-119 | deploying `token` into an empty cache with hash `0xAA` and address `0xBEEF` returns `0xBEEF` and records exactly those two entries |
| `ResumableDeploy.EventsFromTx` | scripts/utils/index.js:130-138 | with no receipt for the hash the result is empty; otherwise it is the filter's logs from the receipt's block to the latest block |
| `ResumableDeploy.EventsFromContractCreation` | scripts/utils/index.js:122-128 | it fails with "deployment transaction not saved" exactly when no truthy `K-pending` is cached, and fails on a null cache. Otherwise it returns exactly `getEventsFromTx` of the saved hash |
| `BlockWindows.Slices` | scripts/utils/index.js:143-145 | there are no slices exactly when `initial > end`, and otherwise the first starts at `initial` |
| `BlockWindows.Collected` | scripts/utils/index.js:147-151 | every log in a filter's list came from that filter's query over one of the slices |
| `BlockWindows.LogsFor` | scripts/utils/index.js:140-154 | the returned dictionary has a list for every filter when at least one slice is queried, and no entry otherwise |
| `BlockWindows.AppendSlice` | scripts/utils/index.js:147-151 | after one slice, every filter's list is its old list (or empty) followed by its query result for that slice; names that are not filters are untouched |
| `BlockWindows.GetLogsForBlockInterval` | scripts/utils/index.js:140-154 | the returned dictionary maps every filter to its per-slice results concatenated in slice order. It is empty when `initial > end` |
| `BlockWindows.SliceAt` | scripts/utils/index.js:143-145 | the k-th slice is `[initial + 8000k, min(end, initial + 8000k + 8000)]`, and it exists exactly when its start is at most `end` |
| `BlockWindows.SliceCount` | scripts/utils/index.js:143 | there are `(end - initial) / 8000 + 1` slices when `initial <= end`, and none otherwise |
| `BlockWindows.SlicesBounded` | scripts/utils/index.js:143-145 | every slice lies within `[initial, end]`, has `from <= to`, and its ends are at most 8000 apart (up to 8001 blocks) |
| `BlockWindows.SlicesCoverRange` | scripts/utils/index.js:143-145 | adjacent slices share their boundary block, and every block of `[initial, end]` is in some slice |
| `BlockWindows.SlicesAscending` | scripts/utils/index.js:143-145 | each slice ends at or before the start of every later slice |
| `BlockWindows.DegenerateLastSlice` | scripts/utils/index.js:143-145 | when `end - initial` is a multiple of 8000, the last slice is `[end, end]` |
| `BlockWindows.SlicesExample` | scripts/utils/index.js:143-145 | blocks 1000 to 17000 are queried as `[1000, 9000]`, `[9000, 17000]`, `[17000, 17000]` |
| `BlockWindows.CollectedCons` | scripts/utils/index.js:150 | a filter's list is its first slice's results followed by the results of the remaining slices |
| `BlockWindows.FiltersIndependent` | scripts/utils/index.js:141-151 | a name is in the result exactly when it is a filter and at least one slice was queried. Its list depends on its own filter only |
| `BlockWindows.CollectedSorted` | scripts/utils/index.js:143-151 | if the provider answers each query in block order and within the queried blocks, then appending over ascending slices yields a list in block order, within the slices' span |
| `BlockWindows.LogsInBlockOrder` | scripts/utils/index.js:140-154 | with such a provider, every filter's list is in non-decreasing block order and lies within `[initial, end]` |
| `Durations.DurationToSeconds` | scripts/utils/index.js:216-235 | an accepted duration starts with a digit, its digits are followed by a space, and its value is the numeral times the length of some unit |
| `Durations.UnitTable` | scripts/utils/index.js:224-231 | the units are 1, 60, 3600, 86400, 604800, 2592000 and 31536000 seconds |
| `Durations.DigitRun` | scripts/utils/index.js:217 | the greedy `\d+`: the longest prefix made of digits |
| `Durations.SpaceRun` | scripts/utils/index.js:217 | the greedy ` +`: the longest prefix made of spaces |
| `Durations.ParseUnitOf` | scripts/utils/index.js:217 | each unit name, with or without a plural `s`, is read back as that unit |
| `Durations.AcceptsSpelled` | scripts/utils/index.js:216-235 | every string `<digits><spaces><unit>[s]` is accepted, with value numeral × unit seconds |
| `Durations.AcceptsOnlySpelled` | scripts/utils/index.js:216-235 | every accepted string has that shape, and its value is numeral × unit seconds; anything else is "Bad duration format" |
| `Durations.OneYearExample` | test/vesting/VestingWallet.recovery.test.js:9 | `'1 year'` is 31536000 seconds |
| `Durations.FourYearsExample` | test/vesting/VestingWallet.recovery.test.js:10 | `'4 years'` is 126144000 seconds |
| `Durations.MalformedExamples` | scripts/utils/index.js:220-222 | `'1year'`, `'1 yearss'` and `' 1 year'` are rejected |
| `ArrayHelpers.CeilDiv` | scripts/utils/index.js:198 | the result is the ceiling of the quotient, for divisors of either sign |
| `ArrayHelpers.Range` | scripts/utils/index.js:192-202 | a result never holds more than 2^32 - 1 elements. With the effective bounds `(lo, hi)` — `(start, stop)`, or `(0, start)` when `stop` is missing or 0 — a non-empty result needs `lo < hi` and begins at `lo`, and with a positive step no element lies below `lo` |
| `ArrayHelpers.RangeIsProgression` | scripts/utils/index.js:192-202 | for a positive step, `range` fails with a RangeError exactly when `ceil((stop - start) / step)` exceeds 2^32 - 1. Otherwise it yields `ceil((stop - start) / step)` elements `start + i * step`, all below `stop`, with the next term not below `stop`; it yields `[]` when `start >= stop` |
| `ArrayHelpers.FalsyStopCountsFromZero` | scripts/utils/index.js:193-196 | a missing or zero `stop` counts from 0 to `start`, so `range(n, 0)` and `range(n)` equal `range(0, n)` |
| `ArrayHelpers.RangeExamples` | scripts/utils/index.js:192-202 | `range(3, 0)` and `range(3)` are `[0, 1, 2]`, and `range(1, 10, 4)` is `[1, 5, 9]` |
| `ArrayHelpers.RangeTooLong` | scripts/utils/index.js:198 | `range(0, 2^32)` is a RangeError, because the array length exceeds 2^32 - 1 |
| `ArrayHelpers.RangeNonPositiveStep` | scripts/utils/index.js:197-201 | with a zero or negative step, a non-empty interval gives `[]` only when a negative step overshoots at once; otherwise it is a RangeError |
| `ArrayHelpers.Slice` | scripts/utils/index.js:205 | positions inside the array give the plain subsequence. From non-negative positions a slice holds at most `end - begin` elements, and never more than the array |
| `ArrayHelpers.Chunk` | scripts/utils/index.js:204-206 | a result never holds more than 2^32 - 1 pieces, and for a positive size no piece is longer than `size` |
| `ArrayHelpers.FlattenPrefix` | scripts/utils/index.js:205 | the first k pieces concatenate to the first `min(k * size, len)` elements |
| `ArrayHelpers.PieceLengths` | scripts/utils/index.js:205 | every piece but the last holds `size` elements, and the last holds 1 to `size` |
| `ArrayHelpers.PieceCount` | scripts/utils/index.js:205 | for a positive size the number of pieces is between 0 and the array's length |
| `ArrayHelpers.ChunkFits` | scripts/utils/index.js:204-206 | for a positive size, `chunk` succeeds exactly when `ceil(len / size)` is at most 2^32 - 1, and always when the array is no longer than that |
| `ArrayHelpers.ChunkSplits` | scripts/utils/index.js:204-206 | for a positive size, a successful `chunk` gives `ceil(len / size)` pieces that concatenate to the array. Every piece holds `size` elements except the last, which holds 1 to `size` |
| `ArrayHelpers.ChunkNonPositiveSize` | scripts/utils/index.js:204-206 | a negative size gives no pieces. A zero size gives no pieces for an empty array and a RangeError otherwise |
| `Networks.BlockExplorerDomain` | scripts/utils/index.js:174-187 | a domain exists exactly for mainnet, goerli, polygon, matic and mumbai |
| `Networks.ExplorerDomains` | scripts/utils/index.js:174-187 | the domain of each known network, `polygon` and `matic` sharing one, and none for any other network (`hardhat` among them) |
| `Networks.AssertNotUsingHardhatKeys` | scripts/utils/index.js:166-172 | the guard fails exactly when the deployer is Hardhat's well-known test account on a chain other than 31337 |
| `Networks.GuardAllowsLocalChainAndOtherAccounts` | scripts/utils/index.js:166-172 | on chain 31337 the guard always passes, and any other account passes on every chain |

## Left out

- `getDefaultProvider`, `getDefaultDeployer` and `DEFAULT_FEE_DATA` (lines 11-29): these build foreign provider and signer objects from environment variables.
- The dotenv merge into `process.env` (line 9), and the `DEBUG` and `console.log` logging: these are side effects with no bearing on results.
- `getFactory`, `attach`, `deploy`, `deployUpgradeable`, `performUpgrade`, `proposeUpgrade` (lines 35-63): thin wrappers over the contract factory, the upgrades plugin and the proposal service.
- `tryFetchContract` and `tryFetchProxy` (lines 65-77) add nothing beyond `resumeOrDeploy` and `attach`, and `attach` is a foreign call.
- `getContractVersion` (lines 79-99): a try/catch around foreign RPC calls and reflection on the contract object.
- `dateToTimestamp` (lines 212-214): JavaScript `Date` parsing and floating-point division.
- `getEventsForTimeInterval` (lines 156-164): it hands date-to-block resolution to the external block-by-date library, then calls `getLogsForBlockInterval`, which is modelled.
- Asynchrony: every `await` is a sequential step, and concurrent calls for one key are not modelled.
- ResumableDeploy.Resume: a reverted or unknown transaction is a single error. A receipt without a contract address (a transaction that created no contract) is not modelled: the chain maps hashes only to receipts that carry an address.
- ResumableDeploy.EventsFromTx: the provider choice (`aProvider ?? contract.provider ?? contract.signer.provider`) and the building of the filter from the event name and parameters are not modelled. The filter and the chain are parameters, and an unknown event name (a TypeError) is not modelled.
- BlockWindows.GetLogsForBlockInterval: a rejected `queryFilter` call, which aborts the whole scan, is not modelled; queries always answer. The block arguments are the numbers `initialBlock.block` and `endBlock.block`. Filter names that are members of `Object.prototype` (`constructor`, `toString`, `valueOf`, `__proto__`, …) are not modelled: for them `logs[filterName] ?? []` reads an inherited non-iterable value and the spread throws a TypeError, while the model treats every name as an ordinary key.
- Durations: `parseFloat` loses precision for very long numerals, and the floating-point product `value * seconds[unit]` rounds once it passes 2^53 (for example `'99999999999 years'`). The model reads the numeral as an exact natural number and multiplies exactly. The error's message text with the pattern source is a single error value.
- ArrayHelpers.RangeIsProgression: arguments and elements are exact integers in the model, while JavaScript numbers are doubles and `start + i * step` rounds once it passes 2^53 (for example `Array.range(2**53, 2**53 + 4)` gives `[2^53, 2^53, 2^53 + 2, 2^53 + 4]`, with a repeat and an element equal to `stop`). The model's progression is exact, distinct and below `stop`; `ArrayHelpers.Range` and `ArrayHelpers.Chunk` read their arguments as exact integers in the same way.
- BlockWindows.Slices: block numbers and `i += 8000` are exact integers; JavaScript would round them past 2^53, far above any real block number.
- ArrayHelpers: only integer arguments are modelled. Fractional, `NaN` or infinite `start`, `stop`, `step` and `size` are not, except where a zero divisor produces them inside `chunk`.
- Networks.AssertNotUsingHardhatKeys: the chain id is taken to be a number; a chain id passed as a string would never equal 31337 under `!==`, and that case is not modelled.
