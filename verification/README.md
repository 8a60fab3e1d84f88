# nchip8 core in Dafny

A model of the core of nchip8, a CHIP-8 interpreter written in C++. The repository holds two
generations of the interpreter: the current one under `src/nchip8/` and an older one under
`nchip8/`. The model covers both where they differ.

The model covers these parts of the interpreter:

- **Instruction codec** (`codec.dfy`). Splits a 16-bit word into its nibbles and into the
  `operand_data` fields nnn, x, y, kk and n.
- **Opcode handlers** (`opcodes.dfy`). The 35 handlers declared in the older `nchip8/cpu.hpp`,
  with the four-slot encodings that its declaration comments give them. Each slot holds a
  fixed nibble, or `std::nullopt` for operand data.
  The module also has an independent reference decoder, written from the CHIP-8 opcode table
  in section 3.1 of Cowgod's Chip-8 Technical Reference.
- **Handler tree** (`trie.dfy`, `dispatch.dfy`). `add_op_handler` is modelled as a
  `try_emplace` on four nested maps, and `get_op_handler_for_instruction` as the greedy lookup
  through them, which never backtracks. The main theorem is `Dispatch.OpTreeResolvesByTable`:
  in the tree the current constructor builds, every word resolves to exactly the handler the
  opcode table names for it, and to nothing when the table names none. The older tree
  registers only RET to RND. Registering CLS, RET and SYS shows why SYS cannot be registered
  next to CLS and RET under this lookup, and a variant with SHL declared under SHR's pattern
  shows what a wrong encoding would cost.
- **CPU state** (`machine.dfy`). Memory, registers, stack, timers, framebuffer, keypad and
  screen mode as an immutable record, together with:
  - the font;
  - `reset` and `load_rom`;
  - `read_u16` and `set_u16`;
  - the pixel accessors;
  - the key setters.
- **Handler bodies** (`handlers.dfy`, `hex.dfy`). RET and JP are the two handlers whose bodies
  are modelled, from the older `nchip8/op_handlers.cpp`. The model covers their execution and their disassembly text, where
  `std::hex` is modelled as lowercase hexadecimal without padding.
- **Execution step** (`interpreter.dfy`, `legacy.dfy`). The current `execute_op_at_pc`
  includes:
  - the function-local statics `last_clock` and `kill_next_execute`;
  - the timer update, in whole 16 ms periods;
  - the halt on an unknown word;
  - the PC rule "advance by 2 unless the handler moved PC".

  The older step has no timers and no halt, and lights pixel (2, 2) after every handler.
  `legacy.dfy` also covers the older `dasm_op`, which carries the finding below.
- **Message loop** (`messages.dfy`, `loop.dfy`, `daemon.dfy`, `legacy_daemon.dfy`):
  - the `cpu_message` constructors;
  - a generic handler table and queue drain;
  - the two `cpu_daemon` versions, with their constructors, handlers and one iteration of
    `cpu_thread`.

  Each iteration records an observation log of events: a CPU step with its sleep, a handler
  run, a callback invoked, or a message popped.

Callbacks are tags (`Action`), not code. The clock is an integer parameter `now` in
milliseconds. The bodies of the other 33 handlers are a function parameter `other` of type
`Effect`.

### Behaviour as the code has it, where a reader might expect otherwise

- A `JP` to its own address does not leave PC in place. The PC rule compares PC after the
  handler with the saved PC, so a self-jump looks like "PC not modified" and PC advances by 2
  (`Interpreter.JumpToSelfAdvances`).
- The halt after an unknown opcode is a function-local static. `reset` never clears it, so a
  halted interpreter stays halted after a Reset message (`Interpreter.HaltSurvivesReset`).
- `reset` leaves SP, I, the framebuffer, the screen mode and the last key untouched. It does not
  set SP to 0 (`Machine.Reset`).
- Run-state messages have no handler in the current daemon. A SetStateRunning message is popped
  and ignored (`Daemon.RunStateMessagesIgnored`). The older daemon handles SetStateRunning but
  steps the CPU whatever its run state is (`LegacyDaemon.PausedStillSteps`).
- The current tree's `dasm_op` has its body commented out and returns `std::nullopt` for every
  address. The disassembler modelled is the older one.

## Model

| member | source | states |
|---|---|---|
| Codec.Nibbles | src/nchip8/cpu.cpp:141-146 | four nibbles, most significant first, whose positional value is the word |
| Codec.FromNibbles | src/nchip8/cpu.cpp:141-146 | assembling four nibbles into a word and splitting it again gives the same nibbles back |
| Codec.NibblesRoundTrip | src/nchip8/cpu.cpp:141-146 | splitting a word into nibbles and assembling them gives the word back |
| Codec.OperandsOf | src/nchip8/cpu.cpp:176-186 | every field is within its width; x, y and n are nibbles 1, 2 and 3; nnn is the word without its leading nibble; nnn = x·0x100 + kk and kk = y·0x10 + n |
| Codec.OperandsOfAssembled | src/nchip8/cpu.cpp:176-186 | a word built from an opcode nibble and operand nibbles yields exactly those operands |
| Opcodes.MatchesBySlot | nchip8/cpu.hpp:157-161 | a word matches a four-slot encoding exactly when every fixed slot equals its nibble |
| Opcodes.DecodeAgrees | nchip8/cpu.hpp:198-232 | for every handler except SYS, a word matches the handler's encoding if and only if the reference opcode table names that handler for the word |
| Opcodes.Instance | nchip8/cpu.hpp:157-161 | every encoding is matched by some word |
| Opcodes.EncodingInjective | nchip8/cpu.hpp:198-232 | no two handlers other than SYS share an encoding, so no registration can collide |
| Opcodes.ShapeFollowsFamily | nchip8/cpu.hpp:198-232 | apart from SYS, which nibbles of an encoding are operand data is fixed by the leading nibble |
| HexText.DigitValueOfDigit | nchip8/op_handlers.cpp:49 | reading a printed hex digit gives its value |
| HexText.ParseToHex | nchip8/op_handlers.cpp:49 | the lowercase hex text of a number reads back as that number |
| HexText.ToHexShape | nchip8/op_handlers.cpp:49 | the hex text has no leading zero and is at most three digits long for a 12-bit value |
| Trie.AtDepth | nchip8/cpu.hpp:172-182 | handlers sit only at the full depth of the nested maps |
| Trie.Insert | src/nchip8/cpu.cpp:80-95 | try_emplace succeeds if and only if nothing is stored under the encoding; on failure the tree is unchanged; on success the handler is stored there and every other path keeps its content |
| Trie.ResolveSound | src/nchip8/cpu.cpp:148-170 | whatever the greedy descent returns is stored under a path that matches the nibbles |
| Trie.LookupSound | src/nchip8/cpu.cpp:136-174 | a handler returned for a word is stored under an encoding that matches the word and is exact at the root |
| Trie.ResolveComplete | src/nchip8/cpu.cpp:148-170 | in a tree where no level mixes exact and operand keys, a handler stored under a matching path is what the lookup returns, despite the lack of backtracking |
| Trie.InsertKeepsNoMix | src/nchip8/cpu.cpp:80-95 | inserting an encoding compatible with all stored ones keeps every level unmixed and free of empty branches |
| Trie.Build | src/nchip8/cpu.cpp:97-134 | registering a handler list yields a four-level tree and one result per handler |
| Trie.BuildRegistersAll | src/nchip8/cpu.cpp:80-134 | distinct, mutually compatible encodings all register; each holds its own handler, nothing else is stored, and the tree stays unmixed |
| Trie.BuildStores | src/nchip8/cpu.cpp:80-134 | the tree built from registrable entries holds exactly those entries, and every registration succeeds |
| Trie.BuildUnmixed | src/nchip8/cpu.cpp:80-134 | the tree built from registrable entries has no mixed level and no empty branch |
| Trie.InsertExtends | src/nchip8/cpu.cpp:80-95 | inserting a fresh entry into a tree that holds exactly a list gives a tree that holds exactly the list with the entry appended |
| Dispatch.RegisteredProper | src/nchip8/cpu.cpp:97-134 | the current setup registers the declared handlers in declaration order, skipping SYS and repeating none |
| Dispatch.LegacyRegisteredProper | nchip8/cpu.cpp:66-89 | the older setup registers RET through RND in declaration order, skipping SYS and repeating none |
| Dispatch.EntriesRegistrable | nchip8/cpu.hpp:198-232 | distinct handlers other than SYS give distinct, pairwise compatible entries |
| Dispatch.CompatibleEncodings | nchip8/cpu.hpp:198-232 | two encodings other than SYS never put an exact key and an operand key under the same prefix |
| Dispatch.BuildHolds | src/nchip8/cpu.cpp:80-134 | registering a duplicate-free list without SYS succeeds for every handler and stores each under its own encoding and nothing else |
| Dispatch.FoundIsListed | src/nchip8/cpu.cpp:136-174 | a handler that lookup finds is listed, and it is the handler the opcode table names |
| Dispatch.ListedIsFound | src/nchip8/cpu.cpp:136-174 | a listed handler that the opcode table names for a word is found by lookup |
| Dispatch.RegistrationOf | src/nchip8/cpu.cpp:80-174 | for any duplicate-free list without SYS, lookup returns the table's handler when it is listed and nothing otherwise |
| Dispatch.OpTreeResolvesByTable | src/nchip8/cpu.cpp:97-174 | all 34 registrations succeed and lookup in the resulting tree agrees with the opcode table on every 16-bit word |
| Dispatch.DecodeCoversRegistered | src/nchip8/cpu.cpp:97-134 | every handler the opcode table can name is registered |
| Dispatch.MatchingWordResolves | src/nchip8/cpu.cpp:136-174 | every word that matches a registered handler's encoding dispatches to that handler |
| Dispatch.LegacyTreeResolves | nchip8/cpu.cpp:66-131 | in the older tree all 21 registrations succeed, RET to RND resolve by the table, and CLS, DRW and the Ex and Fx words resolve to nothing |
| Dispatch.UnregisteredNotLegacy | nchip8/cpu.cpp:66-89 | CLS, SYS, DRW and the Ex and Fx handlers are absent from the older list |
| Dispatch.LateFamiliesUnregistered | nchip8/cpu.hpp:198-232 | the table names only those handlers for 00E0 and for words whose leading nibble is D or higher |
| Dispatch.LegacyExcludes | nchip8/cpu.cpp:66-89 | the table names no handler of the older list for 00E0 or for words whose leading nibble is D or higher |
| Dispatch.MisencodedShlUnregistered | src/nchip8/cpu.cpp:80-134 | with SHL declared under 8xy6, its registration fails and lookup agrees with the opcode table on every word except the SHL words, which resolve to nothing |
| Dispatch.MisencodedShlTree | src/nchip8/cpu.cpp:80-134 | with SHL declared under 8xy6, its registration fails and the tree equals the one built from the other 33 handlers, a list still free of SYS and repeats that lacks only SHL |
| Dispatch.MisencodedShlDropsShl | src/nchip8/cpu.cpp:136-174 | with SHL declared under 8xy6, the SHL word 0x801E is unrecognised |
| Dispatch.ReencodedRefused | src/nchip8/cpu.cpp:80-134 | a handler declared under the encoding of an earlier one fails to register, and the tree is the one built from the list without it |
| Dispatch.WithoutProper | src/nchip8/cpu.cpp:97-134 | removing one handler from a list without SYS and repeats keeps it so, drops that handler and keeps every other |
| Trie.TakenEntryRefused | src/nchip8/cpu.cpp:80-134 | an entry whose encoding is already taken fails, and the tree equals the one built without that entry |
| Trie.RefusedEntryVanishes | src/nchip8/cpu.cpp:80-134 | a refused registration leaves no trace in the final tree |
| Trie.BuildKeepsResults | src/nchip8/cpu.cpp:97-134 | later registrations never change the results of earlier ones |
| Trie.BuildThree | src/nchip8/cpu.cpp:80-134 | registering three entries inserts them one after the other into the empty tree |
| Dispatch.SysBreaksGreedyLookup | src/nchip8/cpu.cpp:99-101 | registering CLS, RET and SYS succeeds three times; SYS's encoding conflicts with CLS's; in that tree the word 0x0012 matches SYS but lookup finds nothing, while 0x0123 finds SYS |
| Dispatch.WithSysBuilt | src/nchip8/cpu.cpp:80-134 | registering CLS, RET and SYS in order succeeds for each and builds exactly the three-handler tree |
| Dispatch.InsertCls | src/nchip8/cpu.cpp:80-95 | the first registration creates the whole path of CLS's encoding |
| Dispatch.InsertRet | src/nchip8/cpu.cpp:80-95 | RET reuses the three levels it shares with CLS and adds a sibling leaf |
| Dispatch.InsertSys | src/nchip8/cpu.cpp:80-95 | SYS's registration succeeds, adding the operand branch next to the exact 0 |
| Dispatch.WithSysHolds | src/nchip8/cpu.cpp:80-95 | the three-handler tree stores CLS, RET and SYS under their encodings |
| Dispatch.WithSysLookups | src/nchip8/cpu.cpp:148-170 | the greedy descent for 0x0012 takes the exact 0 child and dead-ends, while 0x0123 takes the operand child to SYS |
| Machine.FlattenAt | src/nchip8/cpu.cpp:55-62 | byte j of glyph g lands at offset 5g + j |
| Machine.FlattenLength | src/nchip8/cpu.cpp:55-62 | sixteen 5-byte glyphs lay out as 80 bytes |
| Machine.Font | src/nchip8/cpu.cpp:24-41 | the font is 80 bytes, and byte 5g + j is byte j of glyph g |
| Machine.Reset | src/nchip8/cpu.cpp:43-65 | PC is 0x200; DT, ST, registers and stack are 0; the keys are up; the glyphs are at the bottom of memory and every other byte is 0; SP, I, screen, mode, last key and handler tree are untouched |
| Machine.ResetIdempotent | src/nchip8/cpu.cpp:43-65 | resetting twice is resetting once |
| Machine.LoadRom | src/nchip8/cpu.cpp:67-78 | the load succeeds if and only if the image is under 0xE00 bytes and ends below 0x1000; on failure nothing changes; on success the image is copied to its address; memory outside it and all other state are untouched |
| Machine.ReadU16 | src/nchip8/cpu.cpp:284-287 | the high byte of the word is memory at addr and the low byte is memory at addr + 1 |
| Machine.SetU16 | src/nchip8/cpu.cpp:289-293 | the stored word reads back; every other byte and every other field are unchanged |
| Machine.SetReadU16 | src/nchip8/cpu.cpp:284-293 | writing back the word just read changes nothing |
| Machine.PixelIndexInverse | src/nchip8/cpu.cpp:310-316 | for x within the row width, the row-major index gives back x and y by remainder and division |
| Machine.SetScreenXY | src/nchip8/cpu.cpp:318-324 | only the framebuffer changes; the pixel reads back as set; every other cell is unchanged |
| Machine.SetScreenOthers | src/nchip8/cpu.cpp:310-324 | setting a pixel leaves every pixel at another index reading as before |
| Machine.SetKeyDown | src/nchip8/cpu.cpp:326-330 | the key is down and becomes the last key; other keys and other state are unchanged |
| Machine.SetKeyUp | src/nchip8/cpu.cpp:332-339 | the key is up; the last key is forgotten if and only if it was this key or was already none; nothing else changes |
| Machine.KeyDownThenUp | src/nchip8/cpu.cpp:326-339 | pressing and releasing a key that was up restores the keypad and clears the last key |
| Handlers.ExecRet | nchip8/op_handlers.cpp:22-29 | PC becomes the stack entry at SP; SP decreases by one modulo 256, so 0 wraps to 0xFF; nothing else changes |
| Handlers.ExecJp | nchip8/op_handlers.cpp:37-45 | PC becomes nnn, which lies inside memory; nothing else changes |
| Handlers.DasmRet | nchip8/op_handlers.cpp:31-34 | the text is "RET" followed directly by hex digits that read back as nnn |
| Handlers.DasmJp | nchip8/op_handlers.cpp:47-50 | the text is "JP 0x" followed by hex digits that read back as nnn, at most 8 characters for a 12-bit nnn |
| Handlers.RetTextOfReturnWord | nchip8/op_handlers.cpp:31-34 | the RET word 0x00EE disassembles to "RETee" because its nnn field is printed |
| Handlers.DasmJpInjective | nchip8/op_handlers.cpp:47-50 | different jump targets disassemble to different text |
| Interpreter.NewCpu | src/nchip8/cpu.cpp:18-22 | a constructed CPU holds the registered tree and is in reset state with no last key; the other fields that reset leaves alone keep their prior contents |
| Interpreter.CountDown | src/nchip8/cpu.cpp:220-221 | a timer counts down by the ticks and stops at 0 instead of wrapping: it is 0 exactly when the ticks reach it |
| Interpreter.CountDownAdds | src/nchip8/cpu.cpp:215-221 | counting down in two goes equals counting down once by the sum |
| Interpreter.UpdateTimers | src/nchip8/cpu.cpp:207-223 | only after more than 16 ms both timers drop by the whole periods elapsed and the clock is re-read; otherwise nothing changes; only the timers can change in the CPU |
| Interpreter.Advance | src/nchip8/cpu.cpp:246-251 | PC advances by 2 with 16-bit wrap-around if the handler left it at the saved value, and is kept otherwise |
| Interpreter.Started | src/nchip8/cpu.cpp:190-191 | the clock static is initialised to the time of the first step and then left alone |
| Interpreter.Step | src/nchip8/cpu.cpp:188-259 | a halted interpreter does nothing, whatever its PC and SP; the halt flag ends set if and only if it was set or the word is unknown; an unknown word leaves the CPU unchanged; a known word updates the timers, runs the handler and applies the PC rule |
| Interpreter.FirstUpdateIsIdle | src/nchip8/cpu.cpp:190-223 | the timer update on the first step changes nothing, because the clock starts at that step |
| Interpreter.FirstStepKeepsTimers | src/nchip8/cpu.cpp:190-251 | the first step runs whatever handler the word resolves to on the timers as they were, then applies the PC rule; a JP leaves both timers unchanged |
| Interpreter.HaltIsSticky | src/nchip8/cpu.cpp:191-194 | once halted, every later step is a no-op whatever the clock, the handlers, PC and SP are |
| Interpreter.HaltSurvivesReset | src/nchip8/cpu.cpp:191-194 | a reset CPU under a set halt flag still does not step |
| Interpreter.UnknownHaltsInPlace | src/nchip8/cpu.cpp:255-258 | an unknown word halts the interpreter with PC on that word |
| Interpreter.JumpToSelfAdvances | src/nchip8/cpu.cpp:246-251 | a JP to its own address moves PC on by 2 instead of looping |
| Interpreter.JumpElsewhereLands | src/nchip8/cpu.cpp:246-251 | a JP to any other address lands on its target |
| Interpreter.JumpWordDispatches | src/nchip8/cpu.cpp:197-251 | with the registered tree, every 1nnn word dispatches to JP and lands on nnn, or on PC + 2 for a self-jump |
| Interpreter.ReturnStep | src/nchip8/cpu.cpp:232-251 | a RET pops the return address and decrements SP modulo 256; PC advances past the saved PC only if the popped address equals it; memory, registers and I are unchanged |
| Legacy.LegacyReset | nchip8/cpu.cpp:26-34 | registers are 0, every memory byte is 0xCC, PC is 0x200 and the stack holds 0xBEEF; nothing else is touched |
| Legacy.LegacyResetHasNoFont | nchip8/cpu.cpp:26-34 | the older reset loads no font and leaves the timers, SP and I alone |
| Legacy.LegacyNewCpu | nchip8/cpu.cpp:15-19 | the older constructor holds the older tree, is in older reset state with no pressed key and keeps prior timers, SP and I |
| Legacy.LegacyStep | nchip8/cpu.cpp:145-184 | an unknown word changes nothing; a known word runs its handler, lights pixel (2, 2) without touching any other pixel, and applies the PC rule |
| Legacy.LegacyUnknownStalls | nchip8/cpu.cpp:145-184 | an unknown word stalls the older interpreter on the same state forever |
| Legacy.LegacyIgnoresDraw | nchip8/cpu.cpp:145-184 | with the older tree a DRW word is unknown, so the step leaves the CPU unchanged |
| Legacy.LegacyReturnResolves | nchip8/cpu.cpp:66-131 | the older tree resolves 0x00EE to RET |
| Legacy.DasmOpAsWritten | nchip8/cpu.cpp:186-207 | it returns nothing if and only if no handler matches the word; otherwise it returns the whole static stream, which extends what earlier calls wrote |
| Legacy.DasmOp | nchip8/cpu.cpp:186-207 | it returns nothing if and only if no handler matches the word; otherwise it returns that handler's text for the word followed by a newline |
| Legacy.DasmOpOfReturn | nchip8/cpu.cpp:186-207 | the RET word disassembles to "RETee\n" |
| Legacy.DasmOpAccumulates | nchip8/cpu.cpp:198-204 | a second disassembly of the RET word as written returns "RETee\nRETee\n", while the corrected one returns "RETee\n" |
| Messages.Ordinal | src/nchip8/cpu_message.hpp:15-22 | every message type's value is below _last |
| Messages.OrdinalInjective | src/nchip8/cpu_message.hpp:15-22 | distinct message types have distinct values, so they index distinct handler lists |
| Messages.OfType | src/nchip8/cpu_message.cpp:10-17 | the type is kept, the data is empty and both callbacks are empty |
| Messages.WithData | src/nchip8/cpu_message.cpp:19-27 | the type and data are kept and both callbacks are empty |
| Messages.WithCallback | src/nchip8/cpu_message.cpp:29-38 | the type, data and callback are kept and the error callback is empty |
| Messages.WithHandlers | src/nchip8/cpu_message.cpp:40-50 | all four fields are kept as given |
| Messages.ConstructorsNest | src/nchip8/cpu_message.cpp:10-50 | each shorter constructor is the next longer one with an empty default |
| Messages.FullConstructorCovers | src/nchip8/cpu_message.cpp:40-50 | every message is the four-argument constructor applied to its own fields |
| MessageLoop.ProjectionsAppend | src/nchip8/cpu_daemon.cpp:78-97 | the handlers run, pops, callbacks and steps of two logs in sequence are those of each log, concatenated |
| MessageLoop.InvokedOnly | src/nchip8/cpu_daemon.cpp:88-93 | a log of invocations records exactly those callbacks, with no handler run, pop or step |
| MessageLoop.RunHandlersRunsAll | src/nchip8/cpu_daemon.cpp:88-93 | every handler of the list runs once, in order, without popping or stepping |
| MessageLoop.Deliver | src/nchip8/cpu_daemon.cpp:82-96 | the handlers registered for the type run in order, then the message is popped; no step happens; a type without handlers pops and changes nothing |
| MessageLoop.SingleHandler | src/nchip8/cpu_daemon.cpp:82-96 | with exactly one handler, delivery leaves that handler's state and invokes exactly its callbacks |
| MessageLoop.DrainUnhandled | src/nchip8/cpu_daemon.cpp:79-97 | messages of types without handlers are discarded without changing the state or firing a callback |
| MessageLoop.DrainIsFifo | src/nchip8/cpu_daemon.cpp:79-97 | the drain pops every queued message in queue order, runs each message's handlers in order before the next message, and never steps |
| MessageLoop.DrainAppend | src/nchip8/cpu_daemon.cpp:79-97 | draining two queues in turn is draining their concatenation |
| Daemon.Apply | src/nchip8/cpu_daemon.cpp:18-43 | LoadROM loads at 0x200 without a reset and fires the callback on success or the error callback on failure; Reset resets the CPU and fires the callback; neither touches the halt or clock statics |
| Daemon.RegisterHandler | src/nchip8/cpu_daemon.cpp:109-113 | the handler is appended to its type's list; every other list and all other state are unchanged |
| Daemon.NewDaemon | src/nchip8/cpu_daemon.cpp:11-48 | the daemon starts paused with an empty queue and log, a freshly constructed CPU, and LoadROM and Reset handlers only |
| Daemon.SendMessage | src/nchip8/cpu_daemon.cpp:101-107 | the message goes to the back of the queue and nothing else changes |
| Daemon.SetCpuState | src/nchip8/cpu_daemon.cpp:60-63 | only the run state changes, to the given one |
| Daemon.SetClockSpeed | src/nchip8/cpu_daemon.cpp:175-179 | only the clock speed changes, to the given one |
| Daemon.MaybeStep | src/nchip8/cpu_daemon.cpp:72-76 | when running, the CPU steps and a sleep of 1000/speed ms is recorded; when paused, nothing happens |
| Daemon.Iterate | src/nchip8/cpu_daemon.cpp:70-98 | the queue ends empty; run state, table and clock speed are kept; the log only grows; it records the queued messages popped in order, and one step exactly when running; the core is the step's result, when running, with the queue drained over it |
| Daemon.RunningStepThenLoad | src/nchip8/cpu_daemon.cpp:70-98 | a running daemon with one LoadROM queued steps first and then loads the image over the memory the step left |
| Daemon.LoadRomMessage | src/nchip8/cpu_daemon.cpp:18-33 | with the standard table a LoadROM message loads the image and fires exactly one callback, chosen by the load's success |
| Daemon.ResetMessage | src/nchip8/cpu_daemon.cpp:35-43 | with the standard table a Reset message resets the CPU, keeps the halt flag and fires its callback |
| Daemon.RunStateMessagesIgnored | src/nchip8/cpu_daemon.cpp:11-48 | SetStateRunning and SetStatePaused have no handler: a paused daemon stays paused with its CPU untouched and no callback fired |
| Daemon.SentMessageHandledLast | src/nchip8/cpu_daemon.cpp:78-107 | a sent message is handled in the next iteration, after everything queued before it |
| LegacyDaemon.Apply | nchip8/cpu_daemon.cpp:17-40 | LoadROM resets the CPU, loads at 0x200 and fires the callback or the error callback; SetStateRunning sets the run state and fires the callback |
| LegacyDaemon.LoadedOverReset | nchip8/cpu_daemon.cpp:17-32 | after a successful older load, PC is 0x200, the image is in place and every other byte is 0xCC |
| LegacyDaemon.RegisterHandler | nchip8/cpu_daemon.cpp:108-112 | the handler is appended to its type's list; nothing else changes |
| LegacyDaemon.NewLegacyDaemon | nchip8/cpu_daemon.cpp:11-45 | the older daemon starts paused with an older CPU, an empty queue and LoadROM and SetStateRunning handlers only |
| LegacyDaemon.SendMessage | nchip8/cpu_daemon.cpp:100-106 | the message goes to the back of the queue and nothing else changes |
| LegacyDaemon.Iterate | nchip8/cpu_daemon.cpp:67-97 | the queue is drained in order, then the CPU steps once whatever the run state, and a sleep is recorded |
| LegacyDaemon.DrainThenStep | nchip8/cpu_daemon.cpp:74-96 | one older iteration logs the drain's pops in queue order and exactly one step |
| LegacyDaemon.PausedStillSteps | nchip8/cpu_daemon.cpp:63-98 | a paused older daemon with an empty queue still executes one instruction |
| LegacyDaemon.SetRunningMessage | nchip8/cpu_daemon.cpp:34-40 | with the standard table SetStateRunning makes the daemon run and fires its callback |
| LegacyDaemon.LoadRomMessage | nchip8/cpu_daemon.cpp:17-32 | with the standard table LoadROM resets, loads and fires exactly one callback, chosen by the load's success |
| LegacyDaemon.UnhandledMessagesDropped | nchip8/cpu_daemon.cpp:11-45 | Reset and SetStatePaused have no handler in the older daemon: they are dropped without changing the host or firing a callback |

## Left out

- Threads, the queue mutex and `sleep_for` are left out. One loop iteration is a function. The
  sleep is recorded in the log as `Stepped(1000 / speed)` instead of taking time.
- Logging (`nchip8::log`, the register dump of the older step) and the `std::cout << "hello!"`
  in JP are left out. They are output only.
- The GUI, `io`, `main` and the `nchip8` application classes are left out. They are callers of
  the core, not part of it.
- The bodies of the 33 handlers other than RET and JP are not part of this model. They are the
  `other` effect parameter.
- Randomness (RND) and sound (the buzzer TODO) are left out. No modelled code path uses them.
- Fields that `reset` never initialises (SP, I, screen, mode) start from an arbitrary `junk`
  CPU given to the constructors, because C++ leaves them indeterminate. The last key is a
  `std::optional`, which default construction leaves empty, so both constructors start it at
  `None`.
- Handlers registered from outside the daemon are `Observer` tags with no effect, because
  their code is not visible.
- The daemon's `set_key_down`/`set_key_up` forwarders and the getters are left out. They only
  forward to `Machine.SetKeyDown`/`Machine.SetKeyUp` or read fields.
- `src/nchip8/cpu.hpp` and `src/nchip8/cpu_daemon.hpp` are not part of this model. The current
  tree's field layout (the keypad array, `m_last_key_down`) is taken from `src/nchip8/cpu.cpp`.
- The older `cpu_daemon.hpp` declares a `cpu_message` without `m_callback`, while its handlers
  call one. The model gives both daemons the current message shape.
- Interpreter.UpdateTimers: the source reads the clock twice, once for the elapsed time and
  once to reset `last_clock`. The model reads it once, as the single value `now`.
- Interpreter.Step: `execute_op_at_pc` does not bound-check `read_u16` at PC 0xFFF or RET's
  stack index. Unless the interpreter has halted, the step requires `CanStep` (PC + 1 inside
  memory, SP < 16 for RET) instead of modelling out-of-bounds reads. A halted step returns
  before reading anything and needs nothing.
- Legacy.LegacyStep: the older `execute_op_at_pc` makes the same unchecked `read_u16` at PC
  and the same unchecked stack read in RET. The step requires `CanStep` instead of modelling
  out-of-bounds reads.
- Legacy.LineAt, Legacy.DasmOpAsWritten, Legacy.DasmOp: the older `dasm_op` reads the word at
  `addr` without a bound check. These require `addr + 1` to lie inside memory instead of
  modelling an out-of-bounds read.
- Daemon.NewDaemon: `last_clock` and `kill_next_execute` are function-local statics of
  `cpu::execute_op_at_pc`, so every `cpu` in a process shares them. A daemon built after
  another one halted would start halted. Each modelled daemon starts with its own fresh
  statics instead; the application builds only one daemon, so this does not arise.
- Handlers.ExecJp: requires nnn < 0x1000, which every decoded operand satisfies
  (`Codec.OperandsOf`).
- The opcode encodings come from the declaration comments in the older `nchip8/cpu.hpp`
  (lines 198-232), and the RET and JP bodies from the older `nchip8/op_handlers.cpp`. The
  current tree's handler definitions are not part of this model, so
  `Dispatch.OpTreeResolvesByTable` holds for the current tree only if it declares the same
  encodings. `Dispatch.MisencodedShlUnregistered` shows the cost of one wrong encoding: SHL
  declared under 8xy6 fails to register and every SHL word halts the interpreter.
- LegacyDaemon.Iterate: the older `nchip8/cpu_daemon.hpp` declares no `m_clock_speed`, yet
  `nchip8/cpu_daemon.cpp` line 95 divides by it. The model gives the older daemon a
  `clockSpeed` field like the current one's, and requires it to be positive.
- Machine.SetScreenXY: `set_screen_xy` and `get_screen_xy` index the framebuffer at
  `width*y+x` without a bound check, so a large y writes or reads out of bounds. The model's
  `SetScreenXY` and `GetScreenXY` require the index to be inside the framebuffer.
- The older `cpu_state::steponce` is declared but never used, and is modelled only as a value.

## Findings

| source | as written | input that shows it | evidently intended | confidence | as-written member | corrected member |
|---|---|---|---|---|---|---|
| nchip8/cpu.cpp:198-204 | `dasm_op` writes into a function-local static `std::stringstream` and calls `clear()`, which resets only the error flags and not the buffer. Every call returns everything written by earlier calls. | RET word 0x00EE at an address, disassembled twice: the second call returns "RETee\nRETee\n" | each call returns only its own line, "RETee\n" | high; not executed | Legacy.DasmOpAsWritten (with Legacy.DasmOpAccumulates) | Legacy.DasmOp |
