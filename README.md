# status-slayer, modelled in Dafny

status-slayer feeds a status bar that speaks the swaybar protocol. The program writes a header line and then an endless JSON array of statuses. Each status holds one block per configured section, and a section's block shows the output of the section's shell command.

This project models the core of the program and proves properties of that model.

- **Protocol** (`protocol.dfy`, src/protocol.rs) covers three things:
  - the header `Header::new` builds;
  - the 17 fields of a block and the block `Block::new` builds;
  - how serde writes both: fields in declaration order, `None` fields skipped, `min_width` untagged, enum names in lower case, and a status written as the bare array of its blocks.
- **JSON** (`json.dfy`) covers the compact text `serde_json::to_string` produces, together with a reader. The round trip is proved, so every claim about the written lines is made about the text a bar would read.
- **Controller** (`controller.dfy`, `StatusController` in src/controller.rs) is a class whose fields `run` updates in place.
  - The controller builds an index from each section's identity `("command", name)` to the section's position.
  - It sends the header.
  - During the barrier it buffers one block per identity. Once the buffer is as large as the index, it sorts the buffered blocks by index into the status and sends the first status.
  - After that, each block overwrites its slot. A status is sent when more than the minimum interval has passed since the last one.
  - Its panics (an unknown identity, or a slot that does not exist) become a final phase.
  - The blocks it receives are a sequence of arrivals, each carrying a tick.
- **Section runner** (`section_runner.dfy`, `SectionController` in src/controller.rs) is a class.
  - It runs the command and trims trailing ASCII white space from the output.
  - It publishes a block only when the output differs from the cached one.
  - A `Oneshot` section stops after one run; a periodic section sleeps for the rest of its interval.
  - It panics when the command cannot be started or fails, or when a run took longer than the interval (`Duration` subtraction underflows).
  - What the command did is an input, one outcome per cycle.
- **Generator** (`generator.dfy`, src/generator.rs) is the older synchronous iterator. Its first item is the header line. Every later item is a status with one block per section, and each block shows the section's command.
- **Pipeline** (`pipeline.dfy`) connects the runners to the controller:
  - runners' blocks reach their own section's slot;
  - with distinct names, a controller fed such blocks never panics;
  - once every section has reported, the barrier ends, whatever the names (`Pipeline.LeavesBarrier`); with distinct names the controller is then running normally (`Pipeline.AllReported`);
  - repeated section names break the status: with two sections of one name the controller panics once a second block of that name arrives, and with a repeated name followed by another section, a later block of the repeated name overwrites the other section's slot and the other section's next block panics out of range.

Choices the model makes, following the code:
- **Duplicate section names** are accepted, not rejected at start-up. The later position wins and the index has fewer entries than there are sections. The status has one slot per index entry, while a repeated name's entry points at its later position. With sections `[s, s]` the first block after the barrier is out of range and the controller panics (`Pipeline.DuplicateNamesOverflow`). With sections `[x, x, y]` the status is `[x, y]` while x's entry is 1 and y's is 2: a later block of x overwrites y's block without a panic (`Pipeline.DuplicateNamesMisroute`), and the next block of y is out of range and panics (`Pipeline.DuplicateNamesStrand`).
- **Minimum interval.** src/controller.rs:46 fixes it at one second. The model takes it as a parameter.
- **Empty section list.** The assertion in `new` becomes `NewController` returning `Failure(NoSections)`.

Time is a count of ticks. `Instant::elapsed` saturates at zero (`Controller.Elapsed`).

The configuration types follow the version the controller uses: a section has a name, a command and an interval, which is `Oneshot` or `Seconds(d)`. src/config.rs shows an older form without the interval.

src/generator.rs:41-46 calls a four-argument `Block::new` that src/protocol.rs does not declare. The model uses the declared three-argument constructor with the command as the text, "command" as the name and the section's name as the instance.

The runner's block is built as the integration test expects it (tests/stslayer_test.rs:39): the trimmed output is the text, "command" the name, and the section's name the instance. The literal argument order at src/controller.rs:171 differs (see Findings).

## Model

| member | source | states |
|---|---|---|
| Protocol.DefaultHeader | src/protocol.rs:28-32 | `Header::default` is the header `Header::new` builds: version 1, `click_events` false, `cont_signal` 18, `stop_signal` 19 |
| Protocol.HeaderText | src/protocol.rs:16-26 | the header (`Render(HeaderToJson(NewHeader()))`) is written as exactly `{"version":1,"click_events":false,"cont_signal":18,"stop_signal":19}` |
| Protocol.NewBlock | src/protocol.rs:121-143 | `Block::new` takes text, name and instance from its arguments. It sets `min_width` to the width of the text, `urgent` false, `separator` true and `markup` none, and leaves every optional field unset |
| Protocol.NewBlockFields | src/protocol.rs:152-189 | a `Block::new` block (`NewBlock`) is written (`BlockFields`) as exactly `full_text`, `min_width`, `name`, `instance`, `urgent`, `separator`, `markup`, in that order and with those values |
| Protocol.PlainBlockFields | src/protocol.rs:62-119 | a block with no optional field set is written (`BlockFields`) as exactly its seven required members in declaration order |
| Protocol.SlotOrder | src/protocol.rs:62-119 | every block has the same 17 serializable slots (`Slots`): the key at each position does not depend on the block's values |
| Protocol.KeysWritten | src/protocol.rs:62-119 | the members written (`Written`) are the present slots (`Present`), in order, each written with its own key and value; `None` fields are skipped, and the keys written are `PresentKeys` |
| Protocol.BlockKeyOrder | src/protocol.rs:62-119 | a block object's keys (`Keys(BlockFields(b))`) are its present fields, in declaration order |
| Protocol.NamesAreLowercaseAndDistinct | src/protocol.rs:41-54 | align and markup variants are written (`AlignName`, `MarkupName`) as lower-case names, and different variants get different names |
| Protocol.MinWidthUntagged | src/protocol.rs:34-39 | `min_width` is untagged: a number for pixels, a string for a width-of text; reading the JSON back (`MinWidthFromJson`) recovers the variant written by `MinWidthToJson` |
| Protocol.StatusReadsBack | src/protocol.rs:56-60 | a status is written (`StatusToJson`) transparently as the array of its blocks; reading it back gives one object per block, holding that block's members |
| Json.ParseRenderDocument | src/controller.rs:112-117 | the compact serialization (`Render`) reads back (`Parse`) as the same value |
| Json.ParseRender | src/controller.rs:112-117 | a written value (`Render`) followed by a delimiter is read back (`ParseValue`) as that value, leaving the rest of the text unread |
| Controller.SectionIndex | src/controller.rs:35-41 | every section's identity is indexed by `BuildIndex`, and each key maps to the last section with that identity. The index has at most as many keys as there are sections, and exactly as many if and only if the names are distinct |
| Controller.LaterPositionWins | src/controller.rs:35-40 | collecting the enumerated identities keeps, for a repeated identity, its later position |
| Controller.CollectSize | src/controller.rs:35-41 | the collected map has at most as many keys as positions, and exactly as many if and only if the keys are distinct |
| Controller.IndexOfDistinct | src/controller.rs:35-41 | with distinct names, `BuildIndex` maps section `i`'s identity to position `i` |
| Controller.MaterializeSorted | src/controller.rs:75-81 | `Materialize` puts the buffered blocks into the status in strictly increasing index order, each block once and every buffered block present |
| Controller.MaterializeInOrder | src/controller.rs:75-81 | with distinct names and a full buffer, slot `i` of the first status (`Materialize`) holds section `i`'s block |
| Controller.HeaderLineText | src/controller.rs:100-110 | `get_header` (`HeaderLine`) is the header JSON, a line feed and `[` |
| Controller.StatusLineReadsBack | src/controller.rs:104-106 | `get_status` (`StatusLine`) is the status array followed by a comma. Without the comma it reads back as one object per block; with it, it is not a JSON document |
| Controller.BarrierUnknown | src/controller.rs:66-81 | when the buffered identities are not all indexed, the `BarrierStep` of the block that fills the buffer panics on the unknown identity before anything is sent: the status, the lines sent and `last_sent` are unchanged. Before the buffer is full the block is only buffered |
| Controller.BarrierExit | src/controller.rs:66-84 | for known identities, a barrier step (`BarrierStep`) buffers the block under its identity, replacing an earlier one, and sends nothing until the buffer matches the index. Then the first status is sent at once: every buffered block, in index order |
| Controller.SteadyUpdate | src/controller.rs:86-97 | after the barrier a step (`SteadyStep`) writes the block into its own slot and no other. A status is sent, and `last_sent` moves, if and only if more than the minimum interval has passed. An unknown identity or a missing slot panics |
| Controller.StaysPanicked | src/controller.rs:86-91 | after a panic `Feed` over any further blocks leaves the state as it is |
| Controller.FeedKeeps | src/controller.rs:54-98 | every state `Feed` reaches from a fresh start (every state `run` reaches) keeps the invariant (see below) |
| Controller.StatusController.Init | src/controller.rs:30-52 | a new controller has its sections, its index built from them, an empty status and nothing sent |
| Controller.NewController | src/controller.rs:30-52 | construction fails if and only if there are no sections; otherwise the controller is fresh, with the index built from its sections |
| Controller.StatusController.Receive | src/controller.rs:66-97 | handling one block moves the fields exactly as one step of `run` |
| Controller.StatusController.Run | src/controller.rs:54-98 | `run` ends in the state the arrivals lead to. The header is the first line; every later line is a status of one block per indexed identity; statuses after the first are more than the minimum interval apart |
| SectionRunner.TrimAsciiEnd | src/controller.rs:166 | `trim_ascii_end` keeps the longest prefix not ending in ASCII white space, and everything cut off is white space |
| SectionRunner.TrimIgnoresTrailingWhitespace | src/controller.rs:166 | outputs that differ only in trailing white space give the same text under `TrimAsciiEnd` |
| SectionRunner.TrimIdempotent | src/controller.rs:166 | `TrimAsciiEnd` applied twice is `TrimAsciiEnd` applied once |
| SectionRunner.SectionBlock | src/controller.rs:168-174 | the published block has the trimmed output as its text, name "command" and the section's name as instance |
| SectionRunner.CycleDedup | src/controller.rs:166-174 | a successful run (`Cycle`) publishes if and only if nothing is cached or the trimmed output differs from the cache. It then publishes that output's block and caches the output |
| SectionRunner.FailureStops | src/controller.rs:153-164 | a command that cannot be started or that fails (`Cycle`) panics the runner without publishing, and nothing changes after that |
| SectionRunner.OneshotOnce | src/controller.rs:176-177 | under `Cycles`, a `Oneshot` section whose command succeeds publishes exactly one block and finishes; later outcomes change nothing |
| SectionRunner.PeriodicSleeps | src/controller.rs:176-179 | in one `Cycle`, a periodic runner sleeps for the interval minus the time the run took, and panics when the run took longer |
| SectionRunner.CyclesKeep | src/controller.rs:150-181 | in every state `Cycles` reaches from a fresh runner, each published block is the section's block of a trimmed output, and no two consecutive blocks carry the same text. The cache is empty exactly until the first block, then holds the last block's text. A `Oneshot` runner publishes at most one block, never sleeps, and is the only kind that finishes |
| SectionRunner.StoppedStays | src/controller.rs:150-181 | once the loop has stopped, `Cycles` over further outcomes changes nothing |
| SectionRunner.SectionController.constructor | src/controller.rs:141-148 | a new runner has nothing cached and nothing sent |
| SectionRunner.SectionController.RunCycle | src/controller.rs:151-180 | one pass of the loop moves the fields exactly as one cycle |
| SectionRunner.SectionController.Run | src/controller.rs:150-181 | the loop consumes outcomes until the runner stops; its state is that of all the outcomes |
| Generator.GeneratedBlock | src/generator.rs:40-47 | a generated block shows the command as its text, with name "command" and the section's name as instance, and is written with exactly the seven required members |
| Generator.StatusItemReadsBack | src/generator.rs:49 | a status item (`StatusItem`) reads back as one object per block. The controller's status line is the same array followed by a comma |
| Generator.HeaderIsNoStatusItem | src/generator.rs:28-50 | the header line (`HeaderLine`) never equals a status item (`StatusItem`) |
| Generator.StatusGenerator.constructor | src/generator.rs:16-22 | a new generator has not sent the header |
| Generator.StatusGenerator.CollectBlocks | src/generator.rs:39-47 | the loop collects one generated block per section, in configuration order |
| Generator.StatusGenerator.Next | src/generator.rs:28-50 | the first item is the header line, every later item is the status item of all sections, and the iteration never ends |
| Generator.StatusGenerator.Take | src/generator.rs:84-91 | `take(n)` yields `n` items. The header is among them only as the first item of a fresh generator; every other item is the same status item |
| Pipeline.RunnerBlocksRouted | src/controller.rs:39 | every block a section's runner publishes (`Cycles`) carries the identity the index was built with for that section. With distinct names the index routes it to that section's slot |
| Pipeline.KnownArrivals | src/controller.rs:66-97 | with distinct names, `Feed` over blocks of configured sections only never panics. While in the barrier, its buffer holds exactly the identities reported so far, fewer than the index has |
| Pipeline.BarrierBuffer | src/controller.rs:66-74 | for any section names, while `Feed` over blocks of configured sections is still in the barrier, its buffer holds exactly the identities reported so far, fewer than the index has |
| Pipeline.LeavesBarrier | src/controller.rs:67-83 | for any section names, once every configured section, and only those, has reported, `Feed` is no longer in the barrier: the buffer reached the size of the index |
| Pipeline.AllReported | src/controller.rs:67-83 | with distinct names, once every configured section, and only those, has reported, `Feed` is in the steady phase (and by the invariant of `Controller.FeedKeeps` the first status has been sent) |
| Pipeline.DuplicateNamesOverflow | src/controller.rs:35-41 | with sections `[s, s]`, `Feed` over any two blocks carrying s's identity ends in the out-of-range panic: the index keeps position 1 but the status has one slot |
| Pipeline.DuplicateNamesMisroute | src/controller.rs:35-41 | with sections `[x, x, y]` and blocks of x, y, x, `Feed` ends still running with the status `[x's first block, x's second block]`: x's later block replaced y's |
| Pipeline.DuplicateNamesStrand | src/controller.rs:35-91 | with sections `[x, x, y]` and blocks x, y, y, `Feed` ends in the out-of-range panic: y's index entry is 2 but the status has two slots |
| Pipeline.LiteralRunnerBlock | src/controller.rs:171 | the block as the call literally builds it: text "command", the section's name as name, the output as instance |
| Pipeline.LiteralBlockUnrouted | src/controller.rs:171 | unless a section is named "command", that block's identity is not in `BuildIndex`, and a controller past the barrier panics on it |
| Pipeline.LiteralBarrierPanics | src/controller.rs:66-81 | with one section, the `Step` on the literal block panics the controller in the barrier, before any status is sent |

The invariant kept by `Controller.FeedKeeps` and used by `Controller.StatusController.Run` has these parts:
- the header is the first thing sent;
- every later item is a status with one block per indexed identity, and with distinct names each status is in configuration order;
- statuses after the first are more than the minimum interval apart;
- `last_sent` is the tick of the latest status;
- during the barrier nothing else is sent and the buffer keys each block by its own identity;
- after the barrier the status has one slot per indexed identity.

## Left out

- `tokio::spawn`, the mpsc channels, `select!` and `await`: the blocks the controller receives are a sequence argument, each runner's command outcomes are a sequence argument, and the interleaving of the runners is not modelled.
- Running the command through `sh -c`, and `String::from_utf8_lossy`: the command's exit status and standard output are inputs. Output is taken as text; invalid UTF-8 is not modelled.
- Sleeping: the runner records the duration it asks to sleep. The generator's one-second sleep before each status is not modelled.
- `Instant::now`: the clock is the tick carried by each arrival.
- The `pretty` flag and `serde_json::to_string_pretty`: `new` always sets `pretty` to false.
- Byte-exact JSON: strings are sequences of characters. The escapes serde_json writes are modelled, but UTF-16 surrogate pairs in `\u` escapes read back are not.
- Controller.StatusController.Run: its contract is about the arrivals given, a finite prefix of the endless loop.
- Reading the configuration file (src/config.rs) and the command-line entry point (src/bin/stslayer.rs) are not part of this model.
- Click events: the header announces none and nothing listens for them.
- Key order of the integration test: tests/stslayer_test.rs:39 expects a block's keys as name, instance, full_text, min_width, …, while src/protocol.rs:62-119 declares `full_text` first. The model writes the declaration order, which is what serde derives from it; the test's order is not modelled.
- The generator's four-argument `Block::new` (src/generator.rs:41-46) and the cosmetic fields its test expects come from a different `Block` than src/protocol.rs declares. The model uses the declared constructor.

## Findings

| source | as written | input that shows it | evidently intended | confidence | as-written member | corrected member |
|---|---|---|---|---|---|---|
| src/controller.rs:171 | `Block::new("command", &self.config.name, stdout)` passes "command" as the text, the section's name as the block's name and the output as its instance, because src/protocol.rs:122 declares `(full_text, name, instance)` | one section named "cpu" whose command prints "42": the block's identity is ("cpu", "42"), which is not in the index, so the barrier panics and no status is ever sent | name "command", instance the section's name, text the output, as tests/stslayer_test.rs:39 expects and as the index keys require | high, not executed | Pipeline.LiteralBarrierPanics | Pipeline.RunnerBlocksRouted |
