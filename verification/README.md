# finkyOS kernel: a verified model

A Dafny model of the parts of the finkyOS kernel that are hard to get right: the synchronous
message passing and the scheduler of `kernel/proc.c` and `kernel/clock.c`, the way from a key
to a character on a console (`kernel/keyboard.c`, `kernel/tty.c`, `kernel/console.c`), and disk
addressing (`kernel/hd.c`). `dafny verify dfyconfig.toml` checks everything.

## The kernel

The kernel is modelled twice.

* On values: `Rendezvous` has the process table as a sequence of processes (status, message
  buffer, pending interrupt) and each queue of blocked senders as a sequence of pids.
  `WaitGraph` is the graph of blocked senders, `Scheduling` and `Epochs` the accounting of
  ticks. `KernelSystem` puts them together as a transition system whose steps are a SEND or
  RECEIVE of the current process, an interrupt told to a task, and a clock tick, over a table of
  any size. The theorems over whole runs are in `Commutation`, `Fairness`, `Delivery`,
  `Waiting`, `Rpc` and `CallLatency`.
* On objects: `ProcTable` has the PROCESS objects with their fields and pointers. `SendingQueue`
  and `DeadlockCheck` are the pointer loops, `Transfer` the field updates, `IpcCode` msg_send,
  msg_receive and inform_int, and `KernelCode` schedule, clock_handler and sys_sendrec. The
  objects stand for a value (`EntriesShow`, `Threaded`, `StandsFor`), and every method is proved
  to take them from what they stand for to what the step of `KernelSystem` makes of it, so the
  theorems about values hold of the objects. `QueueLinks` says which pointers a queue needs.
  Methods are told the value as a ghost parameter.

The invariant `KernelSystem.Inv` is what the asserts of `kernel/proc.c` are parts of: a process
is runnable, sending or receiving and its other fields agree with that; queue `r` lists exactly
the processes blocked sending to `r`; nobody waits for a message or an interrupt that is already
there; chains of senders end.

What the model assumes:

* A system call is atomic with respect to interrupts. The kernel enables interrupts in a system
  call (`kernel/kernel.asm` line 403), so this is an assumption about the source; a clock tick
  that arrives while the kernel is entered is a step of its own (`TickStep(nested := true)`).
* SEND goes to an existing process, although the assert in sys_sendrec also admits ANY and
  INTERRUPT. A process does not call itself.
* Buffers are not null, and different processes use different buffers.
* The terminal task (pid 0) has a positive priority and never calls sendrec, so that somebody is
  always runnable; schedule would loop for ever otherwise.
* Ticks and priorities are natural numbers.

What the proofs found in the source:

* `clock_handler` returns before it reaches `schedule` when the current process has no ticks
  left, and it charges a tick before it looks at `k_reenter`. A nested tick that takes the last
  tick of a process therefore leaves that process running, whatever the clock does, until it
  blocks (`KernelSystem.LiveIff`, `KernelSystem.NotLiveMonopolises`,
  `Fairness.UntimelyTickStarves`). Bounded waiting is proved for runs without such a tick.
* The last assert of msg_receive, that a blocked receiver has no interrupt pending, fails for a
  RECEIVE from one process (`Waiting.PendingAfterBlocking`, `Waiting.PendingAfterBlockingFails`).
* A server whose RECEIVE from ANY meets an interrupt gets a message that is no request. Both
  server loops give up on it, so the server answers nobody from then on, and whoever waits for
  its answer waits for ever (`Rpc.StuckIff`, `Rpc.StuckForEver`, `Rpc.StuckHappens`).

## The keyboard

`Rings` is the ring buffer that the interrupt handler and the terminals use. `ScanCodes` has the
key events of scan code set 1, their encoding, and the parser of keyboard_read as a function;
`KeyCodes` the keymap; `KeyMeaning` the modifiers and the meaning of a key; `TypedKeys` what every
key types, told from scan codes and characters alone. `KeyboardCode` and
`TerminalCode` are the imperative code, with the device as a sequence of bytes that interrupts
deliver one by one; waiting for a byte is taking an interrupt. `Typing` lets the handler, the
parser and the writer take turns in any order, and `Polling` shows that the loop of the terminal
task does nothing but take such turns. `Consoles` is the cursor and window arithmetic and what is
written to video memory, `Displays` the three consoles that share that memory; the theorems about
the polling loop reach from the bytes of the keyboard to the cells of video memory.

What the proofs found in the source:

* The right Alt key is recorded in the flag of the left one. The flag tells whether some Alt key
  is held exactly unless one was released last while the other is still down
  (`KeyMeaning.AltFlagIff`, `KeyMeaning.AltFlagFails`).
* Keys that the keymap leaves out type the character 0, since their key value is 0 and has no
  FLAG_EXT (`TypedKeys.LeftOutKeys`).
* A backspace does not take back a character written in one of the last two cells of a console;
  the console starts over instead, and all of video memory is blank (`Consoles.BackspaceUndoesIff`).
* The codes 2A and 37 behind E0 are not keys of the set; bytes in which they occur otherwise are
  taken for the beginning of PrintScreen and swallow bytes of the next key
  (`ScanCodes.ParseEncodeIff` says exactly which events survive, `ScanCodes.BrokenPrintScreen` and
  `ScanCodes.BrokenPause` what becomes of the bytes).

## The disk

`Disks` has an ATA disk as a sequence of sectors with the registers that a read command sets, the
collection of partition tables, opening, closing and reading. A sector count of 0 in the register
stands for 256. `HdDriver.ReadDevice` says what a read of an open disk delivers in terms of the
bytes and the tables on the disk; `EntryRoundTrip` and `ChainFromBytes` say what the tables are in
bytes.

What the model assumes: reads are of sectors on the disk. The assert on POSITION
(`kernel/hd.c` line 311) is not modelled; it compares with `1 << 31`, which is negative as an int.

What the proofs found in the source: the count register has 8 bits, so the disk transfers what
hd_rdwt waits for exactly up to 256 sectors (`Disks.EnoughSectorsIff`); beyond, interrupt_wait
would not return.

## Model

| member | source | states |
|---|---|---|
| Rendezvous.SendCoherent | kernel/proc.c:307-370 | msg_send keeps the invariant, and its deadlock check is exact: it panics if and only if letting the sender wait would close a cycle of senders |
| Rendezvous.ReceiveCoherent | kernel/proc.c:387-538 | msg_receive keeps the invariant in all its branches |
| Rendezvous.InformCoherent | kernel/proc.c:618-641 | inform_int keeps the invariant for any task in any state |
| Rendezvous.PresentAbsorbed | kernel/proc.c:93-113 | what a send or receive does is independent of what the caller's buffer held before the call |
| WaitGraph.AddEdgeGroundedIff | kernel/proc.c:266-291 | with chains of senders that end, a new edge keeps them so exactly if the target does not already lead to the sender |
| WaitGraph.GroundedIsAcyclic | kernel/proc.c:266-291 | in a graph whose chains end nobody waits, directly or through others, for itself |
| WaitGraph.EndsWithinTableSize | kernel/proc.c:269-289 | every chain of senders ends within as many hops as there are processes |
| KernelSystem.InitInv | kernel/main.c:73-98 | the invariant holds at boot, and the first process has ticks left |
| KernelSystem.StepInv | kernel/proc.c:85-121 | every step of every process, interrupt and clock keeps the whole invariant |
| KernelSystem.ReachableInv | kernel/proc.c:307-538 | the invariant (exact queues, no missed rendezvous, no cycle of senders, runnable current process, ticks within priority) holds in every state of every run from boot |
| KernelSystem.VisitsIsRun | kernel/main.c:73-98 | whatever happens from boot on is a run of the kind the theorems about runs are about |
| KernelSystem.CallerKeepsCpu | kernel/proc.c:231-235 | a call that does not block, or an interrupt, leaves the same process running with the ticks it had; a call that blocks gives the CPU to another process that can run |
| KernelSystem.LiveIff | kernel/clock.c:35-43 | from a state in which the current process has ticks left, the next state has that property too, except exactly when a nested tick takes its last tick |
| KernelSystem.NotLiveMonopolises | kernel/clock.c:35-43 | once the current process has no ticks left, no number of ticks and interrupts takes the CPU from it |
| Commutation.SendReceiveCommute | kernel/proc.c:307-538 | a send to `r` and a receive by `r` lead to the same table in either order, for every kind of receive and whatever else is queued, and neither order is refused |
| Scheduling.ScanFindsChoice | kernel/proc.c:50-58 | the scan finds a process exactly if a runnable one has ticks left, and it is the first of those with the most |
| Scheduling.RefillStuckIff | kernel/proc.c:62-68 | a refill leaves everybody at 0 exactly if no runnable process has a positive priority, when schedule would never return |
| Fairness.BoundedWaiting | kernel/proc.c:44-70 | in any run mixing sends, receives, interrupts and ticks, a process of positive priority that stays runnable gets the CPU within twice the sum of all priorities clock ticks, if the current process has ticks left at the start and no nested tick takes a last tick |
| Fairness.UntimelyTickStarves | kernel/clock.c:35-41 | after a nested tick that takes a last tick nobody else runs, however many ticks follow |
| Fairness.ProportionalShare | kernel/clock.c:33-43 | with a fixed set of runnable processes an epoch of ticks returns to the state after the refill, charges each process exactly its priority, and never lets a charged process fall more than one tick behind |
| Delivery.ExactlyOnceDelivery | kernel/proc.c:85-121 | over whole runs every accepted send is either still queued once or was received, once, by its addressee, with the type and every payload word that the sender gave it and the sender's pid as source, and two messages of one sender are received in the order of sending |
| Waiting.QueueDiscipline | kernel/proc.c:343-359 | a step changes a queue only by a sender joining at the end, the owner taking one entry and keeping the order of the rest, or taking the head |
| Waiting.NoOvertaking | kernel/proc.c:433-435 | a sender at position k that still waits has seen at most k receives from ANY take a message |
| Waiting.PendingUntilHeard | kernel/proc.c:401-424 | a pending interrupt stays pending until the task's next receive from ANY or INTERRUPT, which it answers at once, ahead of every queued sender, with the message that has source INTERRUPT, type HARD_INT and nothing else |
| Waiting.LaterInterruptMessage | kernel/proc.c:142-143 | a task that receives through send_recv and is interrupted after any wait finds the same message as one whose interrupt was pending |
| Waiting.PendingAfterBlocking | kernel/proc.c:530-534 | after blocking in a receive no interrupt is pending if and only if the receive listens to interrupts or none was pending before |
| Waiting.PendingAfterBlockingFails | kernel/proc.c:530-534 | the assert fails for a task that is informed and then receives from a process that sends nothing |
| Rpc.LayeredCallsNeverPanic | kernel/proc.c:145-150 | if calls lead to higher levels and servers answer only whom they took a request of, then in every interleaving no send is refused, requests and answers of a client alternate, and a returned call holds the type and payload of its server's answer, with the server as source |
| Rpc.AnswersAreAwaited | kernel/systask.c:26-40 | a server's answer goes only to a process that asked this server, whose request it took, and that has no answer yet |
| Rpc.WaitersHaveRunner | kernel/proc.c:145-150 | in such runs nobody waits in a circle, not even of receivers: whoever waits for somebody waits in the end for a process that is runnable or waits for its device |
| Rpc.SourceCallsLeadUp | kernel/clock.c:16-24 | the calls of the source (anybody to SYS, FS to HD) lead to a higher level |
| Rpc.StuckIff | kernel/hd.c:60-90 | a step leaves a server stuck exactly if it was stuck before or an interrupt meets its receive from ANY, arriving while the server waits there or pending from before |
| Rpc.StuckForEver | kernel/hd.c:60-90 | in every run a server that is stuck stays stuck and calls the kernel no more, and nobody whom it owes an answer ever returns from that call |
| Rpc.StuckHappens | kernel/hd.c:60-90 | a run from boot with three steps after which a server is stuck |
| CallLatency.CallTicks | kernel/systask.c:22-41 | in any part of a run, as long as a call of a server of the highest level has not returned, there were at most as many clock ticks as twice the sum of all priorities for each call of the kernel that may be needed (three per caller in front, five for the rest), and for each tick charged to the server or to the caller it is answering one sum of all priorities and a tick more |
| CallLatency.CallReturns | kernel/systask.c:22-41 | so if these make their next call before the next tick whenever they run, the call returns once there were more ticks than twice the sum of all priorities for each of these calls of the kernel |
| CallLatency.SysCallsReturn | kernel/clock.c:16-24 | so every call of TASK_SYS in a run from boot returns within that many ticks, whatever else the other processes, devices and interrupts do meanwhile |
| QueueLinks.LinksEnqueue | kernel/proc.c:348-359 | the pointers of the table with one more sender queued differ from the old ones in the old last entry (or the head) and the new one |
| QueueLinks.LinksTake | kernel/proc.c:495-504 | the pointers after removing any entry differ only in its predecessor (or the head) and itself |
| ProcTable.FlagsDecideFields | kernel/proc.c:333-340 | p_flags is 0, SENDING or RECEIVING and decides which of p_msg, p_sendto and p_recvfrom are set |
| ProcTable.EntryAssertsHold | kernel/proc.c:333-366 | objects that stand for a table meet the asserts of msg_send and msg_receive on p_flags, p_msg, p_recvfrom and p_sendto, for a process that can run, is sending or is receiving |
| IpcCode.SearchAsserts | kernel/proc.c:433-490 | in both searches of msg_receive the receiver rests, its queue is not empty and the sender found is blocked sending to it, as the asserts there say |
| SendingQueue.InOneQueueAtMost | kernel/proc.c:343-359 | nobody is in two queues, and whoever is in none has no next_sending |
| SendingQueue.EntryPointers | kernel/proc.c:466-475 | following next_sending from q_sending visits exactly the queue, in order, and ends |
| SendingQueue.AppendSender | kernel/proc.c:348-359 | the append loop ends and leaves the table threaded for the queue with the sender at its end |
| SendingQueue.FindPrevious | kernel/proc.c:461-475 | the search loop ends with the predecessor of the wanted sender |
| SendingQueue.Unlink | kernel/proc.c:495-504 | removing the first or a later entry leaves the table threaded for the queue without it |
| DeadlockCheck.Deadlocks | kernel/proc.c:266-291 | the walk ends and returns 1 if and only if the destination waits, directly or through others, for the source |
| DeadlockCheck.PrintChain | kernel/proc.c:272-280 | the printing loop ends, prints the whole chain from destination to source in order, and meets a message at every hop |
| Transfer.StampSource | kernel/proc.c:93-95 | stamping sets the source of the caller's message to the caller and keeps its type and payload |
| Transfer.HandOver | kernel/proc.c:319-341 | copying to a waiting receiver wakes it with the sender's message and leaves everybody else as they were |
| Transfer.ReleaseSender | kernel/proc.c:506-518 | the receiver gets the blocked sender's message and the sender can run again |
| IpcCode.MsgSend | kernel/proc.c:307-370 | on the objects msg_send does what Send says, blocks exactly if Send leaves the sender waiting, and panics exactly on a deadlock, with the table untouched |
| IpcCode.MsgReceive | kernel/proc.c:387-538 | on the objects msg_receive does what Receive says, for ANY, INTERRUPT and one process, and blocks exactly if Receive leaves the receiver waiting |
| KernelCode.Kernel.constructor | kernel/main.c:73-98 | the objects set up at boot stand for an initial state |
| KernelCode.Kernel.Schedule | kernel/proc.c:44-70 | schedule ends after at most two rounds when a runnable process has a positive priority, with the first runnable process of most ticks as p_proc_ready |
| KernelCode.Kernel.ClockHandler | kernel/clock.c:27-46 | on the objects clock_handler does what a clock tick of the transition system does, nested or not, and the wall clock counter goes on by one or starts over at MAX_TICKS |
| KernelCode.Kernel.SysSendRec | kernel/proc.c:85-121 | from objects that stand for a state satisfying the invariant, a system call leaves objects that stand for the state after the step it asks for, and a SEND leaves the type and payload in the caller's buffer as they were; an unknown function panics |
| KernelCode.Kernel.Run | kernel/proc.c:85-121 | performing any run of calls, interrupts and ticks on the objects leaves them standing for the last state of that run, so the theorems about runs hold of the objects |
| KernelCode.Kernel.InformInt | kernel/proc.c:618-641 | on the objects inform_int does what an interrupt step does |
| Rings.Ring.Put | kernel/keyboard.c:44-57 | the ring is a bounded queue: an item joins at the end, and is dropped exactly if the ring is full |
| Rings.Ring.Take | kernel/keyboard.c:310-319 | the ring gives its items back in the order in which they came |
| ScanCodes.ParseEncodeIff | kernel/keyboard.c:94-149 | the parser takes exactly the bytes of an event and finds that event, whatever follows, if and only if the event is in the set |
| ScanCodes.ParsePrefix | kernel/keyboard.c:94-149 | the parser needs all bytes of a token and looks at no byte behind it |
| ScanCodes.BrokenPause | kernel/keyboard.c:102-116 | a code of Pause that breaks off takes the byte that does not fit and counts as the release of no key |
| ScanCodes.BrokenPrintScreen | kernel/keyboard.c:117-142 | a code of PrintScreen that breaks off takes the bytes up to the one that does not fit and counts as the key of its second byte |
| ScanCodes.DecodeEncode | include/keymap.h:160-206 | decoding the encoding of any sequence of events gives these events, one token each |
| KeyMeaning.FlagsVanish | kernel/keyboard.c:286-293 | the modifier flags vanish when a key is truncated to a char, and otherwise matter only to Shift with the cursor keys |
| KeyMeaning.FlagsAreApart | kernel/keyboard.c:286-292 | each flag of the key value passed on is set exactly if its modifier is, and the key itself is left alone |
| KeyMeaning.ModifierFound | include/keymap.h:19-151 | whatever other modifiers are on, the keymap finds the same modifier key for a scan code |
| KeyMeaning.ModsAreHistory | kernel/keyboard.c:170-212 | after any sequence of keys the Shift and Ctrl flags tell which keys are held, the locks whether they were pressed an odd number of times, and the Alt flag which way an Alt key moved last |
| KeyMeaning.AltFlagIff | kernel/keyboard.c:184-190 | the Alt flag tells whether an Alt key is held if and only if not one of them was released last with the other still down |
| KeyMeaning.AltFlagFails | kernel/keyboard.c:188-190 | three keys after which an Alt key is held and the flag says it is not |
| KeyboardCode.Keyboard.KeyboardHandler | kernel/keyboard.c:44-57 | an interrupt moves one byte of the device to the end of the buffer, or loses it if the buffer is full |
| KeyboardCode.Keyboard.GetByte | kernel/keyboard.c:304-320 | waiting ends when the device has bytes left, and takes the first byte of buffer and device together |
| KeyboardCode.Keyboard.ReadScanCode | kernel/keyboard.c:94-142 | the bytes taken are exactly those of one token, and the key found is that token's |
| KeyboardCode.Keyboard.Translate | kernel/keyboard.c:143-293 | the flags and the key value passed on are those of the token |
| TerminalCode.Terminals.InProcess | kernel/tty.c:60-111 | a key is put in the buffer, scrolls, selects a console or does nothing, and nothing else changes |
| TerminalCode.Terminals.KeyboardRead | kernel/keyboard.c:85-299 | a call consumes nothing or exactly one token, and has exactly that token's effect |
| TerminalCode.Tty.DoWrite | kernel/tty.c:143-156 | the oldest key is taken, truncated and written, a line end is followed by a prompt, and the cells of video memory change as writing these characters changes them |
| Displays.EachConsoleIsAlone | kernel/console.c:74-126 | in any mix of writing to and scrolling the three consoles in which none was full, the share of each in video memory and its cursor are as if only its own text had been written and nothing else done |
| Typing.WrittenTextIsSeen | kernel/tty.c:143-156 | in any interleaving in which no console was full, each console looks as if just the echo of what its terminal has taken out had been written to it |
| Typing.TypedTextArrives | kernel/tty.c:116-156 | in any interleaving of handler, reader and writer without overflow each terminal has written a prefix of what the keys typed mean there, and all of it once everything was read |
| Typing.TurnsKeep | kernel/keyboard.c:44-57 | without overflow every byte that arrived is handled, being parsed or in the buffer, in order, and what is typed is what the handled keys mean |
| Typing.ReadIsTurns | kernel/keyboard.c:85-142 | one call of keyboard_read is the taking of the bytes of one token, one by one, with an interrupt whenever there is none |
| Polling.Boot | kernel/tty.c:27-37 | the set-up of the terminal task starts an empty pipeline of keyboard, buffers and terminals |
| Polling.ReadTty | kernel/tty.c:132-137 | on the objects tty_do_read is a sequence of turns of the pipeline, and no byte is lost |
| Polling.WriteTty | kernel/tty.c:143-156 | on the objects tty_do_write is one turn of the pipeline and leaves the other terminals alone |
| Polling.RunTask | kernel/tty.c:27-44 | after any number of rounds of the polling loop, with any number of interrupts in between, every terminal has taken out a prefix of what the keys mean, and all of it when nothing is left, if no input buffer was full; and if no console was full, the cells of every console and its cursor show the echo of what its terminal has taken out |
| Polling.PlainTextIsSeen | kernel/tty.c:143-156 | printable text that a terminal has taken out and that fits can then be read in video memory, character by character, from the first cursor of its console on |
| Typing.PrintableKey | kernel/tty.c:64-66 | a key whose entry in the present column of the keymap is a character types the character of that number, and its release types nothing |
| TypedKeys.ColumnTold | kernel/keyboard.c:150-166 | a letter takes its column of the keymap from Shift and CapsLock, every other key from Shift alone |
| TypedKeys.LetterKeys | include/keymap.h:160-206 | the make code listed for a letter types that letter, or its capital exactly if Shift is held or CapsLock was pressed an odd number of times, but not both |
| TypedKeys.SignKeys | include/keymap.h:160-206 | the make code listed for a digit, a sign or the space bar types that character, or the upper one on its key exactly if Shift is held |
| TypedKeys.EnterKeys | kernel/tty.c:70-72 | Enter, of the main keys or the pad, types a line end |
| TypedKeys.BackspaceKey | kernel/tty.c:73-75 | Backspace types a backspace |
| TypedKeys.FunctionKeys | kernel/tty.c:86-106 | F1, F2 and F3 show the first, second and third console, and F4 to F12 change nothing |
| TypedKeys.PadDigits | kernel/keyboard.c:237-245 | with Shift held or NumLock on, the make code listed for a digit or the dot of the pad types it |
| TypedKeys.PadKeysOff | kernel/keyboard.c:246-281 | with NumLock off and no Shift these keys pass on the key value of the same code behind E0, the 5 excepted, and type nothing |
| TypedKeys.PadSigns | kernel/keyboard.c:220-232 | the signs /, *, - and + of the pad type themselves whatever else is held |
| TypedKeys.SilentKeys | kernel/tty.c:107-108 | Escape, Tab, the modifiers and the keys behind E0 other than / and Enter type nothing and change no console |
| TypedKeys.LeftOutKeys | kernel/tty.c:64-66 | every code that the keymap leaves out types the character 0 |
| TypedKeys.ReleaseTypesNothing | kernel/keyboard.c:214-294 | no key types anything when it is released |
| TypedKeys.ScrollKeys | kernel/tty.c:76-85 | with Shift held the cursor keys scroll the console that is shown, up for down and down for up, and without Shift they do nothing |
| Consoles.ConsoleRun | kernel/console.c:74-126 | for any sequence of characters and scrolls the cursor stays in the console's memory, the window starts on a line of it, and after writing the cursor is not below the window |
| Consoles.TextStands | kernel/console.c:110-132 | printable text that fits stands in the cells from the old cursor on, and no other cell of any console has changed |
| Consoles.LineEnd | kernel/console.c:93-103 | a line end writes nothing and moves the cursor to the beginning of the next line, or from the last line on back to the top, and the window with it |
| Consoles.FullStartsOver | kernel/console.c:78-91 | a character for a full console is written as if the console were at its top and all of video memory blank |
| Consoles.BackspaceErases | kernel/console.c:104-110 | a backspace goes back one cell and blanks it, but does nothing at the top |
| Consoles.WindowFollows | kernel/console.c:122-124 | the window goes down line by line and only as far as the cursor needs it |
| Consoles.TwoLinesStand | kernel/console.c:93-120 | two printable lines that fit stand from the old cursor and from the beginning of the next line on, and no other cell has changed |
| Polling.TwoLinesAreSeen | kernel/tty.c:143-156 | two lines that a terminal has taken out can be read as two lines in video memory, with the prompt in front of the second |
| Consoles.Console.OutChar | kernel/console.c:74-126 | the scrolling loop ends with the cursor shown, and video memory differs only where the character goes, unless a full console starts over |
| Consoles.Console.OutStr | kernel/console.c:128-132 | the loop writes the characters of a string in order |
| Consoles.Console.ScrollScreen | kernel/console.c:197-211 | scrolling moves the window by a line within the console's memory and keeps the invariant |
| Consoles.ScrollingUndone | kernel/console.c:197-211 | if the window moved at all, scrolling the other way brings it back |
| Consoles.Console.constructor | kernel/console.c:31-50 | each console gets its own third of video memory, so that no two overlap, and satisfies the invariant |
| Consoles.BackspaceUndoesIff | kernel/console.c:104-120 | a backspace takes the cursor back over a printable character if and only if that was not written in one of the last two cells; its cell is then blank and no other has changed, and otherwise all of video memory is blank |
| Disks.CommandAddresses | kernel/hd.c:327-330 | the registers address the low 28 bits of the sector number |
| Disks.RegistersAreBytes | kernel/hd.c:327-330 | the registers are the bytes of the sector number, lowest first, the highest cut to four bits |
| Disks.EnoughSectorsIff | kernel/hd.c:326-341 | the disk transfers as many sectors as the loop waits for if and only if these are at most 256 |
| Disks.LogicalsAreChain | kernel/hd.c:461-482 | the logical partitions found are those of the linked tables, up to 16, each with its absolute start, and the search stops early only at a table without successor |
| Disks.HdDriver.GetPartTable | kernel/hd.c:404-423 | the entries read are those of the table in the given sector |
| Disks.HdDriver.PartitionExtended | kernel/hd.c:461-482 | the logical partitions of one extended partition go to its own range of the table, and nothing else changes |
| Disks.HdDriver.Partition | kernel/hd.c:435-460 | the primary table gets the entries in use and each of the four ranges of the logical table its own partitions |
| Disks.EntryRoundTrip | include/hd.h:31-97 | an entry written as its 16 bytes into a partition table is read back as that entry |
| Disks.ChainFromBytes | kernel/hd.c:466-481 | in bytes: the first entry of a table of the chain is a logical partition, counted from the table, and the second the next table, counted from the start of the extended partition |
| Disks.HdDriver.Open | kernel/hd.c:273-285 | opening collects the partition tables if nobody has the disk open, so that whoever has it open finds in hd_info what the disk says |
| Disks.HdDriver.Close | kernel/hd.c:291-297 | closing keeps that |
| Disks.HdDriver.BaseIsStart | kernel/hd.c:317-322 | while the disk is open, the start that hd_info gives hd0, a primary partition or a logical one is the one that the tables on the disk give it |
| Disks.HdDriver.Read | kernel/hd.c:306-361 | a read delivers exactly the CNT bytes of the disk from byte base * 512 + POSITION on, and changes no other byte of memory |
| Disks.HdDriver.ReadDevice | kernel/hd.c:306-361 | so a read of an open disk delivers exactly the bytes of the device from POSITION on, where the device begins at the sector that the partition tables on the disk name for its minor number |

## Left out

- Booting, paging, descriptor tables, saving and restoring registers, the interrupt controller: machine set-up.
- milli_delay and sleep: real time.
- Address translation (va2la): the source asserts that it is the identity.
- Printing (printf, dump_proc, dump_msg, the panic screen): output only.
- What the programs of servers compute, and the messages that make a server panic for their type: `Rpc` models which calls they make and when.
- Liveness of calls of the disk task and the file system: that they answer depends on the device; `CallLatency` is about servers that neither call others nor wait for a device.
- CallLatency.SysCallsReturn: asks for positive priorities, for no interrupt told to the server and for no nested tick that takes a last tick, because each of the last two can leave a caller waiting for ever (Rpc.StuckForEver, Fairness.UntimelyTickStarves) and a process without ticks is never given the CPU.
- Cycles of processes that wait to receive: deadlock() does not look for them, and nothing is claimed about them.
- KernelCode.Kernel.ClockHandler: does not say that s.ipc still shows, because its frame already does; a tick leaves that part of the state alone.
- KernelCode.Kernel.InformInt: does not repeat the whole invariant; that the step keeps it is Rendezvous.InformCoherent.
- The LEDs, the handshake with the keyboard controller and the display registers: device programming.
- Extra bytes that the clearing loop of out_char writes behind the end of video memory; the loop blanks every console, not only the one that starts over.
- The banners that init_screen prints on the second and third console.
- Writing to disk: the wait for the interrupt is commented out in the source.
- KernelCode.Kernel.SysSendRec: leaves out a SEND to ANY or INTERRUPT, which the assert admits but which name no process, and calls by the terminal task, which makes none.
- Polling.ReadTty: asks for a byte supply that does not end inside a key, because the source waits there for ever.
- Polling.RunTask: stops after the given number of rounds, where the task goes on for ever, and takes interrupts only while the keyboard buffer has room; a byte lost in the middle of a key would have to be made up by the next one.
- Disks.HdDriver.Read: asks for sectors that are on the disk and at most 256 of them, because the source handles neither a device error nor a larger count.
- Disks.HdDriver.Partition: asks for tables that are on the disk, because the source handles no device error.
- Disks.HdDriver.ReadDevice: asks for sectors that are on the disk and at most 256 of them, as Read does.
- Disks.HdDriver.Open: asks for tables that are on the disk, as Partition does, and leaves out hd_identify.
- A second drive, hd_identify and DIOCTL_GET_GEO: easy members.
- The file system: only its calls of the disk driver matter here.
