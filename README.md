# Meter relay: batching, sequential delivery and the persistent tick counter

This project is a Dafny model of three small pieces of the meter relay's delivery path:

- **`batchArrayItems`** (module `Util`). It cuts the ordered list of pending notifications into consecutive batches of at most `batchSize` items. Absent input (`null`/`undefined`) gives an absent result. An empty list gives no batches.
- **`executeTasksInSequence`** (module `Util`). It chains deferred tasks with a `reduce` over promises. Each task starts only after the chain before it has resolved. The results are collected in task order, and a rejection skips every later task.
- **`PersistentCounter`** (module `Counter`). The tick count lives as decimal text in one file. A missing file or unreadable text counts as 0. `increment()` writes the next count and returns it. A new counter on the same path reads what the previous one wrote.

How each piece is modelled:

- **Batching** is a method with a loop. Like the source's `forEach`, it grows the last batch or opens a new one. It is proved against `Chunks`, a recursive reference definition. The lemma `ChunksUnique` shows that `Chunks` is the only well-sized batching that flattens back to the input.
- **Tasks.** A task is a function from the state of the world, as it is when the task starts, to how the task settles and the world it leaves. So "task i+1 starts after task i" means that task i+1 sees the world task i left. `ExecuteTasksInSequence` is the left fold that the `reduce` builds. `OneAfterAnother` is an independent head-first definition, and `FoldIsOneAfterAnother` proves the two agree on every input.
- **Counter.** `FileStore` is a class holding a `map<string, string>` from path to file content. `PersistentCounter` is a class holding a reference to a store and a path. Two counters on one store share its files, which is how the "new instance, same file" behaviour arises.

The counter's implementation file is not part of this model. Its behaviour is taken from what its test file asserts. The methods at the end of `persistent_counter.dfy` replay those tests as clients of the class.

Two behaviours of the code worth stating plainly:

- A rejected task stops the chain (src/util.js:61-63): later tasks never start, and the run rejects.
- `console.assert` at src/util.js:18 only logs in Node and does not stop the call, so the model makes `batchSize > 0` a precondition.

## Model

| member | source | states |
|---|---|---|
| Util.BatchArrayItems | src/util.js:17-39 | Absent input gives an absent result, and only absent input does. An empty list gives no batches. Otherwise the batches concatenate back to the input exactly, in order. Every batch holds 1..batchSize items and every batch but the last is full. There are ceil(n / batchSize) batches, and the result is exactly `Chunks(items, batchSize)`. |
| Util.ChunksPartition | src/util.js:27-38 | The reference batching flattens back to its input and is well-sized. |
| Util.ChunksUnique | src/util.js:27-38 | A batching is well-sized and flattens back to `items` if and only if it equals `Chunks(items, size)`. So the split is uniquely determined. |
| Util.BatchCount | src/util.js:29-36 | A well-sized batching of n items has exactly ceil(n / size) batches. |
| Util.DocExample | src/util.js:3-13 | Five items with batch size 2 give the batches [blue, green], [red, yellow], [pink]. |
| Util.ExecuteTasksInSequence | src/util.js:58-67 | An empty task list resolves with [] and starts nothing. The started tasks are 0, 1, 2, … in that order, and never more than there are tasks. A resolved run has one result per task and started every task. A rejected run started at least one task. |
| Util.ResolvedInTaskOrder | src/util.js:60-66 | In a resolved run, result i is the value task i resolved with, task i having been started in the world the tasks before it left. |
| Util.RejectionStopsTheRun | src/util.js:61-63 | In a rejected run, exactly the tasks 0..j were started, in order. Task j, the last started, is the one that rejected, with the run's reason. Every task before j resolved, and no task after j was started. |
| Util.FoldIsOneAfterAnother | src/util.js:48-67 | The promise-chain fold equals the head-first run on every input: start task 0, and only if it resolves, run the rest. |
| Counter.Parse | test/persistentCounter-test.js:29-33 | Text holding no digit at all ("bla", for one) counts as 0. |
| Counter.Serialize | test/persistentCounter-test.js:52-58 | The text written for a count is a decimal numeral without superfluous leading zeros. |
| Counter.ParseSerialize | test/persistentCounter-test.js:52-58 | Reading back the text written for a count gives that count. This is the round trip a new counter instance relies on. |
| Counter.SerializeParse | test/persistentCounter-test.js:52-58 | Conversely, rewriting the count read from a canonical numeral reproduces the same text. |
| Counter.PersistentCounter.constructor | test/persistentCounter-test.js:16-19 | A counter is bound to a store and a path. Creating it does not touch the store. |
| Counter.PersistentCounter.GetCount | test/persistentCounter-test.js:25-33 | Returns the persisted count. A missing file gives 0, and a numeral gives its decimal value. |
| Counter.PersistentCounter.Increment | test/persistentCounter-test.js:35-50 | Returns the old persisted count plus one, where a missing or unreadable file counts as 0. Only this counter's file changes, and it is overwritten with the new count's numeral. Afterwards the counter reads the new count. |
| Counter.FileStore.WriteFile | test/persistentCounter-test.js:30 | Writing a file replaces (or creates) that path's content and leaves every other file unchanged. |
| Counter.ReadMissingFile | test/persistentCounter-test.js:25-27 | A counter over a path with no file reads 0. |
| Counter.ReadInvalidFile | test/persistentCounter-test.js:29-33 | A counter over a file holding "bla" reads 0. |
| Counter.IncrementMissingFile | test/persistentCounter-test.js:35-38 | One increment from no file makes the counter read 1. |
| Counter.IncrementInvalidFile | test/persistentCounter-test.js:40-45 | One increment over "bla" repairs the file, and the counter then reads 1. |
| Counter.IncrementReturnsNewCount | test/persistentCounter-test.js:47-50 | Two increments from no file return 1, then 2. |
| Counter.NewInstanceUsesSameFile | test/persistentCounter-test.js:52-58 | After two increments, a second counter on the same store and path reads 2. |

## Left out

- Counter.Parse: its contract claims only two cases: text with no digit reads 0, and a numeral reads its decimal value (`ParseSerialize`, `GetCount`). Text that mixes digits and other characters, such as "12abc", is left unspecified. The counter's implementation is not part of this model, and its tests say nothing about such text. The function body has to pick a value, and it picks 0. No property relies on that choice.
- The counter's implementation file (`src/persistent_counter.js`) is not part of this model. These parts of it are therefore absent:
  - real file reads and writes, modelled as a `map` from path to text;
  - write-then-rename atomicity and behaviour under a crash;
  - write errors propagating out of `increment()`: the modelled store never fails;
  - whether the constructor creates the file: the model's constructor leaves the store alone, which is consistent with every test.
- Promise and asynchronous machinery is abstracted: tasks are synchronous steps that resolve or reject. The source passes each task to `new Promise(...)` as an executor (src/util.js:62), so the model covers tasks that settle by calling their executor's resolve or reject argument. A task that throws is modelled as a rejection. A task that never settles, and so leaves the chain pending forever, is not modelled. A task written as the comment at src/util.js:52 describes, a function returning a promise without calling its arguments, is that never-settles case: the constructor ignores the returned promise, so in the source such a run starts its first task and then hangs.
- Util.BatchArrayItems: `batchSize` is a natural number. The source's `batchSize` is a JavaScript number, and fractional sizes such as 2.5, which the assert at src/util.js:18 accepts and which let the comparison at src/util.js:30 fill each batch to 3 items, are not modelled.
- `batchSize <= 0`: a precondition of `Util.BatchArrayItems`. The source only logs through `console.assert`, and with size 0 it would emit a leading empty batch. That invalid case is not specified.
- `makeDirIfMissing` (src/util.js:41-46) is filesystem I/O with no logic to verify.
- The energy notification sender is not modelled. It is an HTTP client (through the external `request-promise-native` package) whose retry loop is handed to the external `promise-retry` package; modelling it would mean inventing that package's behaviour. What remains of it is an empty-input short-circuit and a status-range check.
- Process wiring is not modelled: configuration loading, pulse-detector selection, the display and buttons, the QR code, polling and the tick simulation. All of this is I/O and UI.
- Logging (`console.log`, verbose flags) has no effect on results and is not modelled.
