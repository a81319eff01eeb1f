# A verified model of a teaching kernel and its user programs

The system is a small x86 kernel: three terminals share one display and one keyboard, up to six
processes live in a reused pool of control blocks, a timer tick rotates the terminals, and a
read-only file system holds the programs. A few user programs run on it. The project models the
parts whose correctness is not visible in any single function, in Dafny 4.11, and proves what they
promise over every run, every file and every 32-bit input.

| files | what they hold |
|---|---|
| `FileSystem.dfy`, `Command.dfy`, `Descriptors.dfy` | block-mapped files, lookup, command lines, one process's descriptors |
| `Paging.dfy` | page tables written entry by entry, and the processor's walk over them |
| `Processes.dfy` | one step of the process, terminal and scheduler machine, as a function |
| `Agreement.dfy`, `Invariants.dfy`, `Steps.dfy`, `Effects.dfy` | the invariant, and that every step keeps it |
| `Machine.dfy`, `Runs.dfy`, `Calls.dfy`, `Boot.dfy`, `Observations.dfy`, `Arguments.dfy` | theorems about whole runs |
| `Files.dfy`, `Answers.dfy` | the processes' descriptors over whole runs, and what `execute` and `vidmap` answer |
| `Differences.dfy`, `Flags.dfy` | runs on which the kernel does something other than one would expect |
| `Drawing.dfy` | the user video page and the display together |
| `KernelObject.dfy` | the kernel as an object with real page tables and buffers, updated in place, proved to take the machine's steps |
| `Keyboard.dfy` | the line discipline: scancodes to delivered lines |
| `Screen.dfy`, `Display.dfy` | one text screen as a window on unbounded text; three of them on one display |
| `Echo.dfy`, `Session.dfy` | the line discipline and the screen together, and on three terminals |
| `Waiting.dfy` | the process machine and the line discipline together |
| `Grep.dfy`, `Numerals.dfy` | grep's sliding buffer, number formatting |
| `Frames.dfy`, `Blink.dfy`, `Fish.dfy` | fish's frame merger, the blink list, and both together |

How the model is set up:

- System calls and handlers enter through interrupt gates (student-distrib/idt.c:54-59), so each is
  one atomic step. The only places where a tick can arrive inside the kernel are the waits for the
  keyboard and the clock; they are modelled as a wait frame on the process's kernel stack and a
  separate `Wake` event.
- A saved EBP is a kernel stack and a frame token. Tokens carry the birth number of a process, which
  is never reused, so a frame left by an earlier owner of a slot is a different token. Entering the
  kernel from user code overwrites the stack at `tss.esp0`. Returning through a frame that is no
  longer on its stack is a fault of the machine, and the theorems show that it does not happen.
- Runs of the process machine may start in any state that satisfies the invariant. `Boot.Booted`
  shows that the state after the first shell's launch does.
- Imperative source is an imperative method or class whose contract ties the new state to a
  specification function; the theorems are about those functions.

Where the code and what one would expect of it differ, the model follows the code, and the
difference is a theorem:

- A terminal's first shell can be refused when six processes exist already
  (student-distrib/scheduling.c:101-103): `Invariants.TickKeeps` says exactly when,
  `Boot.BootCanFail` gives a run.
- A child's halt switches the user video page off, also for a caller that had it
  (student-distrib/system_call.c:62), until that caller is next scheduled: the memory a caller could
  reach comes back if and only if its video page was not mapped. `Calls.NestedCall` is the exact
  statement, `Differences.VideoPageLost` gives a run.
- Scheduling switches the user video page on but never off (student-distrib/scheduling.c:115-119), so
  a process that never asked for it can reach another terminal's screen: `Differences.StepVideo` is
  the exact rule, `Differences.VideoPageLeaks` gives a run.
- The flag that says a process asked for the video page stays in its slot when a root halts
  (student-distrib/system_call.c:55-63), so the shell that takes the slot has it without asking:
  `Flags.StepFlags` is the exact rule, `Flags.FlagInherited` gives a run.
- `program_exception_flag` survives a root's death (student-distrib/system_call.c:55-60), so the next
  child to exit reports 256 whatever its status: `Runs.ExitCode` is exact about it,
  `Differences.RootTaintsNextChild` gives a run.
- `getargs` compares unsigned, so a negative size passes the test
  (student-distrib/system_call.c:322-335): `Command.GetArgs`.
- `check_validity` reads the byte at the end-of-file position, so a three-byte file can pass for an
  executable (student-distrib/file_system.c:240-253): `FileSystem.ExecutableExactly`.
- `;`, `<` and `=` have the values of F1 to F3 and are never typed
  (student-distrib/keyboard.c:55-74): `Keyboard.DeliveryIsALine`.
- `clear` leaves a space in column 0, so a backspace into an empty row can land on column 1
  (student-distrib/lib.c:29-77): `Screen.BackShows` is exact, `Screen.BackspaceToColumnOne` the input.
- `grep` cuts a line at 1024 bytes: `Grep.RightExactlyWhenLinesFit`, and for the patterns the kernel
  can hand over, `Grep.RightExactlyForArguments`. One byte of such a line is enough to see it.
- A blinker at location 0 corrupts the list: `Blink.AddsSoundExactly`, `Blink.ZeroTwiceLoops`, and for
  which files `add_frames` does so, `Fish.FramesSoundExactly`. Lengths of 0 or above
  32768 count as 1: `Blink.BlinkPhase`.

## Model

| member | source | states |
|---|---|---|
| FileSystem.ContentsAreBlocks | student-distrib/file_system.c:157-173 | the bytes that reads address one by one are the file's data blocks laid end to end, cut to its length |
| FileSystem.ReadData | student-distrib/file_system.c:143-175 | a read returns the smaller of the request and what is left, the buffer then holds exactly that slice of the contents, one byte more is touched when the file ends first, and nothing beyond; bad inode or negative length gives -1 and touches nothing |
| FileSystem.StrNCmp | student-distrib/lib.c:781-795 | zero exactly when the two strings agree up to a NUL or to the first n bytes |
| FileSystem.ReadDentryByName | student-distrib/file_system.c:68-84 | the first entry whose 32-byte field is the name; a name over 32 bytes is never found |
| FileSystem.LookupMeans | student-distrib/file_system.c:75-83 | what the lookup finds has the name and nothing before it does; if it finds nothing, no entry has it |
| FileSystem.CheckValidity | student-distrib/file_system.c:240-253 | true exactly for a regular file whose first four bytes, the end-of-file byte included, are the executable magic |
| FileSystem.ExecutableExactly | student-distrib/file_system.c:240-253 | what passes for executable: a file that starts with the magic, or one of three bytes whose missing fourth lies behind its end |
| Command.ParseSpelled | student-distrib/file_system.c:207-229 | round trip: a command spelled from spaces, a name, spaces and a tail parses back to that name (cut to 32) and that tail |
| Command.ParseCommand | student-distrib/file_system.c:207-229 | the loops leave exactly the name and the tail in the two buffers, NUL-terminated and in bounds |
| Command.ResolveMeans | student-distrib/system_call.c:149-158 | a command loads exactly when the first entry with its name is executable, and its arguments are then its tail |
| Command.GetArgs | student-distrib/system_call.c:322-335 | success exactly when the stored text is non-empty and fits with its NUL (or the size is negative); then the buffer holds the text and nothing else changed |
| Command.FetchTail | student-distrib/system_call.c:149-175 | for a non-negative size the fetched text is the command's tail exactly when that is non-empty and fits |
| Descriptors.FreshConsistent | student-distrib/process.c:55-62 | a new process's file array claims nothing about data read |
| Descriptors.FreshStandard | student-distrib/process.c:55-62 | whatever the slot held, a new file array has descriptors 0 and 1 open on the terminal and 2 to 7 closed |
| Descriptors.StandardStays | student-distrib/system_call.c:205-310 | no open, close or read takes them away; reading 0 waits, reading 1 fails |
| Descriptors.OpenMeans | student-distrib/system_call.c:251-289 | opening succeeds exactly when a descriptor from 2 on is closed and the name exists; the lowest one is then open on the first entry of that name, as a clock, directory or regular file by its type, at its start, and no other changes |
| Descriptors.CloseMeans | student-distrib/system_call.c:300-310 | closing succeeds exactly for an open descriptor from 2 on; that one is then closed, a regular file's position is reset, and no other changes |
| Descriptors.OpenThenClose | student-distrib/system_call.c:251-310 | round trip: opening and closing leaves every descriptor as open as it was, every open one unchanged, and the next opening gets the same one |
| Descriptors.OpenConsistent | student-distrib/system_call.c:251-289 | opening keeps every descriptor's history equal to a prefix of its file |
| Descriptors.CloseConsistent | student-distrib/system_call.c:300-310 | so does closing |
| Descriptors.ReadConsistent | student-distrib/file_system.c:302-320 | so does reading: chunks concatenate to a prefix, positions never pass the length |
| Descriptors.ReadAtEnd | student-distrib/file_system.c:302-320 | a read of a regular file answers the bytes after those already handed out, exactly as many as asked for and left; for a positive size nothing exactly at end of file |
| Descriptors.DirectoryReads | student-distrib/file_system.c:378-393 | a read of a directory answers the name at its position and moves on by one; at the end it answers nothing and stays |
| Descriptors.ClockReads | student-distrib/rtc.c:109-131 | a read of the clock waits and changes nothing |
| Descriptors.BadReads | student-distrib/system_call.c:205-213 | a closed or bad descriptor or a negative size gives -1 and changes nothing |
| Descriptors.CloseBelowClosed | student-distrib/system_call.c:48-52 | after the loop of halt every descriptor from 2 on is closed |
| Paging.UserWalk | student-distrib/paging.c:47-102 | for every 32-bit address, a user-mode walk reaches exactly the mapped process's frame through its window or the one video page, else faults |
| Paging.KernelWalk | student-distrib/paging.c:113-141 | the kernel reaches its own 4 MB and the four video pages at their physical addresses |
| Paging.FramesDisjoint | student-distrib/paging.c:87-102 | frames of distinct processes share no byte and lie outside the kernel's |
| Paging.PageTables.constructor | student-distrib/paging.c:17-23 | the three initialisation loops leave exactly the tables that map no program and no user video page |
| Paging.PageTables.InitDirectory | student-distrib/paging.c:47-77 | all entries absent but the kernel's 4 MB page |
| Paging.PageTables.InitTable0 | student-distrib/paging.c:113-141 | only the four video pages present, and the directory refers to the table |
| Paging.PageTables.InitProgVid | student-distrib/paging.c:175-201 | the user video table is there, not present, showing video memory |
| Paging.PageTables.EnableProgramPage | student-distrib/paging.c:87-102 | the tables now map the given process and are otherwise unchanged |
| Paging.PageTables.SetProgVidPage | student-distrib/paging.c:211-229 | the user video page is switched and nothing else |
| Paging.PageTables.ChangeProgVidMapping | student-distrib/paging.c:294-302 | the user video page shows frame 0xB8 for the displayed terminal and 0xB9 + t for terminal t behind it, and nothing else changed |
| Paging.PageTables.MapsTables | student-distrib/paging.c:47-229 | arrays that hold the entries of a mapping are the tables whose walks are known |
| Agreement.SlotAvailable | student-distrib/process.c:93-107 | with fewer than six live processes the pool search finds a slot |
| Agreement.PositionsUnique | student-distrib/process.c:42-83 | a pid stands at one place of one terminal's stack only |
| Invariants.LaunchKeeps | student-distrib/system_call.c:161-188 | launching from any allowed context leads to a state where all views agree on the new process |
| Invariants.ExecuteKeeps | student-distrib/system_call.c:127-191 | _execute launches exactly when both limits allow it and the command loads: pool allocation never fails after the limit checks |
| Invariants.TopStackCore | student-distrib/scheduling.c:77-89 | rewriting the running process's kernel stack loses no caller's frame and no parked process's frame |
| Invariants.PopKeeps | student-distrib/system_call.c:43-69 | taking the top process off keeps stacks, pool, counters and saved frames in agreement |
| Invariants.HaltRootEffect | student-distrib/system_call.c:54-60 | halting a root always passes the limit checks and leaves one fresh shell |
| Invariants.HaltChildEffect | student-distrib/system_call.c:61-80 | halting a child returns through a frame that is there, to the process below |
| Invariants.HaltKeeps | student-distrib/system_call.c:33-84 | halt never fails and keeps the invariant |
| Invariants.TickKeeps | student-distrib/scheduling.c:73-126 | a tick keeps the invariant, and fails exactly when its terminal has no process and six exist; then the launch of its shell is refused |
| Steps.StepKeeps | student-distrib/system_call.c:33-363 | every step keeps the invariant and terminals that own a process; the only failure is a refused first shell |
| Effects.StepEffect | student-distrib/system_call.c:33-191 | what a step may touch: only the running process's block, stacks below stay, slots change owner only by birth, the flag and exit codes follow their rules |
| Runs.RunsKeep | student-distrib/scheduling.c:73-126 | every reachable state satisfies the invariant |
| Runs.RunsNeverFail | student-distrib/system_call.c:54-60 | once all three terminals own a process, every run succeeds and they always do |
| Runs.RoundRobin | student-distrib/scheduling.c:188-201 | the scheduled terminal is the start plus the number of ticks modulo 3 |
| Runs.EveryThreeTicks | student-distrib/scheduling.c:188-201 | each terminal runs exactly once in any three consecutive ticks, whatever executes and halts occur |
| Runs.ExitCode | student-distrib/system_call.c:73-76 | a child yields 256 exactly when it died by exception or a root did since the last child exit, else its status byte |
| Calls.ResumesAreFresh | student-distrib/scheduling.c:77-124 | every tick resumes the frame saved by that same process's own last preemption |
| Calls.ExitsReturnToTheirCall | student-distrib/system_call.c:76-106 | every child's halt returns to the frame of the _execute that created that very process |
| Calls.NestedCall | student-distrib/system_call.c:33-191 | execute and halt nest: whatever runs in between, the caller gets back its block, pid stack, files, page and kernel stack; the memory it can reach is the same if and only if its video page was not mapped before |
| Calls.ReachExactly | student-distrib/system_call.c:62-71 | two mappings of one process, the second without video page, let user code reach the same memory exactly when the first has none either |
| Boot.Booted | student-distrib/scheduling.c:19-24 | the state after the first shell's launch satisfies the invariant |
| Boot.BootLaunches | student-distrib/scheduling.c:19-24 | from power-on the first shell starts in slot 0 |
| Boot.NonTickSucceeds | student-distrib/system_call.c:33-363 | nothing but a tick can fail |
| Boot.BootCanFail | student-distrib/scheduling.c:95-103 | a concrete run from power-on that ends in the refusal, on any image with any runnable command |
| Observations.RunsKeepStacks | student-distrib/process.c:42-107 | over every run: counter = pids on the stacks = live blocks, at most six; stacks duplicate-free, disjoint, covering exactly the live slots; parents are the pids below |
| Observations.RunsAgree | student-distrib/scheduling.c:104-124 | over every run: page directory, tss.esp0, file array and the block's terminal denote the top process of the scheduled terminal |
| Observations.UserReach | student-distrib/paging.c:47-229 | in every such state a user access reaches exactly the running process's frame and, while it is mapped, the video page |
| Observations.UserIsolated | student-distrib/paging.c:87-102 | it never reaches another process's frame or the kernel's 4 MB |
| Observations.RunsDeliver | student-distrib/file_system.c:302-320 | over every interleaving, each process's open file has delivered exactly its contents up to the position |
| Observations.ReadAnswers | student-distrib/system_call.c:205-216 | the bytes a read step answers are those added to that descriptor's history, and no other descriptor changes |
| Files.StepFiles | student-distrib/system_call.c:33-310 | for every step: a file call changes its own process's descriptors only and answers accordingly; no other step touches a live process's; a new process has standard input and output and no more, and a dead one nothing else open |
| Files.BootedStandard | student-distrib/process.c:55-62 | the first shell has standard input and output open |
| Files.RunsStandard | student-distrib/process.c:55-62 | over every run every live process has descriptors 0 and 1 open on the terminal, and no dead one leaves a file open |
| Files.KeyboardReadBlocks | student-distrib/keyboard.c:288-303 | from power-on, in every state in which user code runs, reading descriptor 0 waits for a line and reading descriptor 1 fails |
| Files.ListsEveryName | student-distrib/file_system.c:378-393 | over every run, the reads of a directory since its opening answer every name, one each and in order, and then nothing |
| Answers.ExecuteAnswers | student-distrib/system_call.c:127-165 | in every reachable state: 1 at four programs on the terminal or six in all, else the lowest free slot if the first entry of the name is executable, else -1; a refusal changes nothing |
| Answers.NullExecute | student-distrib/system_call.c:127-131 | a null command gives -1 and changes nothing |
| Answers.VidmapAnswers | student-distrib/system_call.c:346-363 | in every reachable state vidmap succeeds exactly for an address inside the program page; user code then reaches the video page at 132 MB, byte for byte; else -1 and no change |
| Arguments.ArgumentsLast | student-distrib/system_call.c:173-175 | a process keeps its arguments for life although slots are reused |
| Arguments.StartsWithTail | student-distrib/system_call.c:149-175 | a process starts with the tail of the command that started it |
| Arguments.ArgumentsRoundTrip | student-distrib/system_call.c:149-335 | parse, store and fetch: in every later state in which the process runs, getargs yields the tail spelled in its command exactly when that is non-empty and fits, else -1 |
| Differences.RootTaintsNextChild | student-distrib/system_call.c:55-76 | a concrete run: a root dies by an exception, and the next child, halting with 0, is reported with 256 |
| Differences.VideoPageLost | student-distrib/system_call.c:62-71 | a concrete run: vidmap, execute, halt, and the caller's video page is gone |
| Differences.StepVideo | student-distrib/scheduling.c:110-119 | for every step: when the user video page is mapped after it, and which frame it shows; a process that asked for it resumes with 0xB8 if its terminal is displayed, else with 0xB9 plus its terminal |
| Differences.VideoPageLeaks | student-distrib/scheduling.c:115-119 | a concrete run: vidmap and a tick, and a process that never asked reaches the page |
| Flags.StepFlags | student-distrib/system_call.c:55-63 | for every step and slot: the video flag goes up by vidmap, down by a child's exit, and by nothing else |
| Flags.FlagInherited | student-distrib/process.c:42-83 | a concrete run: vidmap and a root's halt, and the shell that replaces it has the flag |
| Drawing.ResumedSeesItsScreen | student-distrib/paging.c:294-302 | what a resumed process that asked for the page finds at 132 MB is, byte for byte, its own terminal's screen, displayed or not |
| KernelObject.Kernel.GetActivePcb | student-distrib/process.c:93-107 | the search loop finds the first free slot, or tells that there is none |
| KernelObject.Kernel.CreatePcb | student-distrib/process.c:42-83 | the search, the file-array loop and the in-place updates give the machine's new block and counters, and nothing changes on failure |
| KernelObject.ResolveCommand | student-distrib/system_call.c:149-158 | parsing into buffers, lookup and the check of the file's head together resolve the command as specified |
| KernelObject.Kernel.DoExecute | student-distrib/system_call.c:127-191 | the handler's new state, return value and page tables are the machine's, with parsing, lookup and validity check done by the code |
| KernelObject.Kernel.TablesReach | student-distrib/paging.c:87-229 | in every reachable state, what user code reaches through the tables as they stand in memory |
| KernelObject.Kernel.CloseAll | student-distrib/system_call.c:48-52 | the closing loop closes the current file array and touches nothing else |
| KernelObject.Kernel.DoHalt | student-distrib/system_call.c:33-84 | the handler's new state and page tables are the machine's, for roots and children |
| KernelObject.Kernel.PitHandler | student-distrib/scheduling.c:188-201 | the handler's new state and page tables are the machine's tick, or it reports the refused launch |
| KernelObject.Kernel.SysExecute | student-distrib/system_call.c:127-191 | the system call takes exactly the machine's step, a null command included |
| KernelObject.Kernel.SysHalt | student-distrib/system_call.c:33-84 | as above; it cannot fail in a reachable state |
| KernelObject.Kernel.RaiseException | student-distrib/exceptions.c:74-79 | an exception sets the flag and halts the running process |
| KernelObject.Kernel.SysOpen | student-distrib/system_call.c:251-289 | the system call on a C string takes exactly the machine's step |
| KernelObject.Kernel.SysRead | student-distrib/system_call.c:205-216 | as above, up to its return or its wait, with the data in the caller's buffer |
| KernelObject.Kernel.SysClose | student-distrib/system_call.c:300-310 | the system call takes exactly the machine's step |
| KernelObject.Kernel.SysVidmap | student-distrib/system_call.c:346-363 | the system call takes exactly the machine's step in state and page tables; an address outside the program page changes nothing |
| KernelObject.Kernel.SysGetArgs | student-distrib/system_call.c:322-335 | in every reachable state the system call takes exactly the machine's step, with the arguments in the caller's buffer |
| KernelObject.ReadFile | student-distrib/file_system.c:302-393 | file and directory reads put the specified data into the caller's buffer and move the position by what was read |
| KernelObject.CopyField | student-distrib/lib.c:818-829 | a name field is copied with NULs up to 32 bytes and nothing beyond |
| KernelObject.OpenFile | student-distrib/system_call.c:251-289 | the descriptor search and the lookup loop open what the specification opens, else -1 and no change |
| Keyboard.ReadCollects | student-distrib/keyboard.c:76-110 | a read collects exactly the keys typed while its terminal is displayed, in order, whatever happens elsewhere |
| Keyboard.ReadFinishes | student-distrib/keyboard.c:84-94 | after Enter the line stays as it was until the reader fetches it |
| Keyboard.ReadDelivers | student-distrib/keyboard.c:288-314 | over every interleaving, a read delivers the line a reference editor builds from the keys typed on its terminal up to Enter: the first min(nbytes, length + 1) - 1 characters in their places and a newline |
| Keyboard.DeliveryIsALine | student-distrib/keyboard.c:305-313 | 1 to min(nbytes, 128) characters, one newline at the end, none of `;<=` |
| Keyboard.KeysTypeable | student-distrib/keyboard.c:130-157 | every key of every run is one such lines may hold |
| Keyboard.TypedPlain | student-distrib/keyboard.c:95-110 | characters alone come out as typed, the first 127 of them |
| Keyboard.TypedThenErased | student-distrib/keyboard.c:223-232 | a backspace undoes the character before it, and does nothing on an empty line |
| Keyboard.TabIsFourBlanks | student-distrib/keyboard.c:95-103 | a tab is four blanks, as far as they fit |
| Keyboard.WipeForgets | student-distrib/keyboard.c:77-83 | Ctrl-L forgets what was typed before it |
| Keyboard.CharacterOf | student-distrib/keyboard.c:241-258 | Shift or Caps Lock makes letters capital; Caps Lock changes nothing else, Shift every other visible character |
| Keyboard.LettersType | student-distrib/keyboard.c:169-261 | a letter's key types that letter unless it is Ctrl-L |
| Keyboard.ModsAreHeldKeys | student-distrib/keyboard.c:173-206 | over every run the flags are those of the keys held down, and Caps Lock is on after an odd number of presses |
| Keyboard.FunctionKeysShow | student-distrib/keyboard.c:55-74 | F1 to F3 display terminal 0 to 2 exactly while Alt is held |
| Keyboard.IdleEchoesAlike | student-distrib/keyboard.c:112-124 | a terminal that is not reading echoes keys as one with room for them does |
| Keyboard.Console.ScancodeHandler | student-distrib/keyboard.c:169-261 | flags, index, character and what is drawn for every scancode are those of the key's meaning |
| Keyboard.Console.EditLine | student-distrib/keyboard.c:77-110 | the buffer holds the edited line, the index stays inside, other terminals' buffers are untouched |
| Keyboard.Console.KeyboardHandler | student-distrib/keyboard.c:44-126 | every keyboard interrupt takes exactly the reference machine's step and draws exactly the key's echo |
| Keyboard.Console.BeginRead | student-distrib/keyboard.c:289-303 | the scheduled terminal starts collecting, with an empty line |
| Keyboard.Console.EndRead | student-distrib/keyboard.c:304-313 | the copy loop hands over the line, character by character, cut to fit, with a newline behind it |
| Keyboard.Console.Drive | student-distrib/keyboard.c:44-314 | over any interleaving the driver follows the reference machine and every read gets its delivery |
| Keyboard.TraceIsRun | student-distrib/keyboard.c:44-314 | the states the driver follows are those of the reference machine's run |
| Echo.RubTakesBack | student-distrib/lib.c:55-77 | backspace takes back exactly the last character typed, over a row's edge too |
| Echo.EchoShowsLine | student-distrib/keyboard.c:76-110 | the echo of any keys shows the text that was there with the line built so far typed at its end |
| Echo.ReadShowsItsLine | student-distrib/keyboard.c:44-126 | over every interleaving, what the keys of a read draw shows the line it is building |
| Session.ReadingTerminalShowsItsLine | student-distrib/keyboard.c:44-126 | over every session of keys, output, ticks and display switches, a reading terminal's screen, displayed or not, shows its text with the line typed so far at its end |
| Session.SessionDraws | student-distrib/lib.c:296-504 | display and line discipline stay in step, and what reaches a quiet terminal's screen is what its keys draw |
| Waiting.StepWaits | student-distrib/scheduling.c:73-126 | who waits in a read changes in two ways only: a read blocks, or the waiting process wakes up |
| Waiting.RunsJoined | student-distrib/keyboard.c:288-314 | over every run of both machines, a terminal has a read under way only while its top process waits in it |
| Waiting.NeverTwoReads | student-distrib/keyboard.c:294-297 | so a read that blocks on the keyboard always finds its terminal's reader idle |
| Screen.ClearShows | student-distrib/lib.c:29-45 | a cleared page shows the empty text |
| Screen.PutShows | student-distrib/lib.c:296-323 | printing a character shows the text with that character typed, wrapped and scrolled, cell for cell |
| Screen.BackShows | student-distrib/lib.c:55-77 | backspace shows the text with its last character rubbed out, or joined to the row above |
| Screen.ScreenFollowsText | student-distrib/lib.c:29-323 | through any sequence of prints, backspaces and clears the page shows the text's window and the cursor its end |
| Screen.BlankFromCursor | student-distrib/lib.c:296-323 | cells from the cursor on are blank |
| Screen.BackspaceToColumnOne | student-distrib/lib.c:29-77 | at the input: newline and backspace on a cleared screen end in column 1 of the first row |
| Screen.WrappedExtends | student-distrib/lib.c:303-317 | typing one more character extends the wrapped text of a stream as a full re-wrap would |
| Screen.PrintShowsWrapped | student-distrib/lib.c:123-323 | printing any stream from a cleared screen shows the last 25 rows of its 80-column wrapping, blanks elsewhere, cursor at its end and on the screen |
| Display.ScreensIndependent | student-distrib/lib.c:296-323 | over any interleaving each logical screen is the result of the operations that concerned its own terminal |
| Display.EveryTerminalShowsItsText | student-distrib/scheduling.c:52-61 | each terminal, displayed or not, goes on showing its own text |
| Display.EachShowsItsOutput | student-distrib/lib.c:123-323 | three programs printing in any interleaving and display: each screen shows the last 25 wrapped rows of what was printed while the ticks had the scheduler on its terminal |
| Display.Console.Putc | student-distrib/lib.c:296-323 | printing changes only the scheduled terminal's logical screen; the hardware cursor stays the displayed one's |
| Display.Console.TerminalWrite | student-distrib/keyboard.c:325-340 | prints every non-NUL byte in order on the scheduled terminal and returns the size; bad arguments print nothing |
| Display.PrintsPlain | student-distrib/keyboard.c:325-340 | what a write of bytes without NUL prints is those bytes, one by one and in order |
| Display.PrintsSkips | student-distrib/keyboard.c:325-340 | a NUL anywhere makes no difference to it |
| Display.WriteShowsWrapped | student-distrib/keyboard.c:325-340 | a write on an empty screen shows the last 25 wrapped rows of its text on the scheduled terminal |
| Display.Console.PutcDirect | student-distrib/lib.c:477-504 | echoing changes only the displayed terminal's logical screen |
| Display.Console.ScrollPage | student-distrib/lib.c:123-150 | the loops move every row up and clear the last, on one page only |
| Display.Console.ScrollDirect | student-distrib/lib.c:515-538 | the same on video memory; of the other pages only the displayed terminal's own backup changes |
| Display.Console.Backspace | student-distrib/lib.c:55-77 | the search loop rubs out as specified, on the displayed terminal only |
| Display.Console.ClearScreen | student-distrib/lib.c:29-45 | clears the displayed terminal only |
| Display.Console.InitTerminals | student-distrib/scheduling.c:136-163 | whatever video memory held, every terminal starts showing the empty text with its cursor at the top |
| Display.Console.SwitchTerminal | student-distrib/scheduling.c:52-61 | all three logical screens are preserved and the hardware cursor moves to the new terminal's |
| Display.Console.CopyPage | student-distrib/paging.c:151-165 | one page becomes a copy of another, the rest is untouched |
| Display.Console.Drive | student-distrib/lib.c:29-538 | over any interleaving memory, cursors and hardware cursor depict the three reference screens |
| Grep.DoOneFile | syscalls/ece391grep.c:10-66 | for every NUL-free file the sliding buffer terminates, stays in bounds and prints exactly the matching pieces of its lines, once each and in order |
| Grep.GrepLines | syscalls/ece391grep.c:20-60 | when every line fits the buffer it prints exactly the lines that contain the pattern |
| Grep.RightExactlyWhenLinesFit | syscalls/ece391grep.c:29-57 | for ASCII files the output is right for every pattern of 1 to 127 bytes if and only if no line is longer than 1024 bytes |
| Grep.RightExactlyForArguments | syscalls/ece391grep.c:29-57 | for every pattern the kernel can hand over, if and only if longer lines are all spaces |
| Grep.OneByteExactly | syscalls/ece391grep.c:29-57 | a one-byte pattern is printed right if and only if no longer line holds the byte |
| Grep.WrongIfHeld | syscalls/ece391grep.c:29-57 | the failing inputs: any byte of any line over 1024 bytes, as a one-byte pattern |
| Grep.PiecesAreLines | syscalls/ece391grep.c:29-57 | pieces and lines print the same when every line fits |
| Grep.ScanBuffer | syscalls/ece391grep.c:28-57 | one pass settles every searched line and keeps the unfinished one at the front |
| Grep.Search | syscalls/ece391grep.c:42-51 | found exactly when the pattern occurs in the line |
| Grep.SameText | syscalls/ece391support.c:35-46 | equal exactly when the pattern occurs here, never reading past the line's NUL |
| Grep.MoveDown | syscalls/ece391support.c:14-17 | the overlapping copy moves the rest of the buffer to its front unchanged |
| Frames.SplitJoins | fish/fish.c:98-146 | the rows are the file's lines: joined they give the file, none holds a newline |
| Frames.AllSpotsExact | fish/fish.c:118-128 | the spots are exactly the positions where the space-padded lines are not both blank, once each, in reading order |
| Frames.AddFrames | fish/fish.c:79-148 | for any two files it terminates and adds exactly those spots at row*80+col+40 with the matching characters |
| Frames.AddRow | fish/fish.c:99-130 | one row of both files, to the end of the longer |
| Frames.Next | fish/fish.c:102-116 | the next character of one file's row, or its end, with strictly less left to read |
| Blink.PushLinked | fish/blink.S:159-162 | insertion at the front keeps the list acyclic with exactly the used slots as nodes |
| Blink.UnlinkLinked | fish/blink.S:206-222 | so does removal at any position, and the entries are the old ones without that one |
| Blink.FullExactly | fish/fish.c:160-170 | the list fills the pool exactly when no slot is free |
| Blink.AddSoundExactly | fish/blink.S:131-162 | insertion leaves a proper list if and only if it refuses or the location is not zero |
| Blink.AddsSoundExactly | fish/blink.S:131-162 | any sequence of insertions into an empty list leaves a proper list if and only if every request for location zero comes when the pool is full already; a broken list is never mended |
| Blink.ZeroTwiceLoops | fish/blink.S:131-162 | two insertions at location zero leave a slot that is its own successor |
| Blink.BlinkList.Malloc | fish/fish.c:160-170 | the first free slot |
| Blink.BlinkList.Add | fish/blink.S:105-184 | an accepted request becomes the first entry and is drawn; a refused one changes nothing |
| Blink.BlinkList.FindHelper | fish/blink.S:351-379 | the search terminates at the most recently added entry with the location |
| Blink.BlinkList.Remove | fish/blink.S:187-237 | the predecessor search terminates; the latest entry with the location goes and the others stay in order, or there is none, -1 is returned and nothing changes |
| Blink.RemoveMeans | fish/blink.S:187-237 | removal takes the latest entry with the location and leaves the others and the screen alone; without one nothing happens |
| Blink.AddThenRemove | fish/blink.S:105-237 | round trip: a removal takes back the last accepted request for its location, older ones with the same one included |
| Blink.BlinkList.Tasklet | fish/blink.S:49-99 | every entry of a list of any size is ticked once |
| Blink.Play | fish/blink.S:49-237 | over any insertions, removals and ticks the list object holds exactly what the reference sequence holds |
| Blink.BlinkPhase | fish/blink.S:64-86 | after n ticks an entry is lit exactly when n mod (on + off) < on, for all 16-bit lengths |
| Blink.EveryRequestBlinks | fish/blink.S:49-170 | through any ticks, insertions and removals elsewhere, the screen shows the on-character exactly in that phase |
| Blink.DeletedIsGone | fish/blink.S:187-237 | over runs: a request deleted after any events elsewhere has no entry left, its place is free, and its cell stays as it was until the next insertion there |
| Fish.FishShows | fish/fish.c:79-148 | after add_frames and n ticks every spot on the screen shows its first-file character in the first 15 of every 30 ticks and its second-file character in the others |
| Fish.FramesSoundExactly | fish/fish.c:118-128 | with at most 2000 spots, add_frames leaves a proper blink list if and only if both files are blank at every cell whose number is a multiple of 65536 |
| Numerals.NumeralReads | student-distrib/lib.c:571-576 | a numeral consists of digits and reads back to its number |
| Numerals.NumeralUnique | student-distrib/lib.c:553-583 | it is the only one without leading zeros that does |
| Numerals.NumeralFits | student-distrib/lib.c:553-583 | every 32-bit number has at most 32 digits in every radix from 2 to 36 |
| Numerals.StrRev | student-distrib/lib.c:589-602 | the string is reversed in place and nothing else changes |
| Numerals.Itoa | syscalls/ece391support.c:49-103 | the buffer holds the numeral and a NUL, and nothing else changes |
| Numerals.FormatUnsigned | student-distrib/lib.c:204-233 | %x and %u print the number without leading zeros |
| Numerals.FormatHex8 | student-distrib/lib.c:210-220 | %#x prints exactly eight hexadecimal digits with the value |
| Numerals.FormatSigned | student-distrib/lib.c:236-249 | %d prints every 32-bit value, the lowest included |

## Left out

- Port I/O, interrupt-controller, timer and clock programming, and the set-up of GDT, IDT and boot: hardware plumbing with only table facts.
- Register and stack switching in inline assembly is abstracted to frame tokens, a current stack and a user-mode flag; CR3 loads, TLB flushes and the accessed and dirty bits of page entries are not modelled.
- Loading a program's bytes into its frame and its entry point (student-distrib/file_system.c:191): the loader's result is ignored by the caller, and user code is left arbitrary.
- The clock's read timing, its frequency, and the write system calls other than terminal output.
- The clearing of the displayed screen before a root's relaunch is not part of the process machine; it is the `Wipe` event of Display.
- User writes through the vidmap page between a display switch and the next tick: the mapping is refreshed only when the process is next scheduled.
- The Linux emulation files, the remaining demo programs, signals, multiboot printing and the kernel's tests.
- Processes.Enabled: an execute whose argument tail has 128 bytes or more is not an event, because it would overflow the 128-byte buffer on the kernel stack.
- Command.ParseCommand: requires the tail to fit the caller's buffer, for the same reason.
- FileSystem.Executable: a file of fewer than three bytes leaves the checked buffer partly uninitialised; it is taken to hold zeros, so such a file is not executable.
- Boot.PowerOn: takes the control blocks' file flags to be clear at power-on.
- Waiting.Possible: leaves out keyboard reads of size 0, and takes the wait's end from the read flag; the clock's wait may end at any time.
- Keyboard.Console.BeginRead: requires a size of at least 1, because size 0 makes the code write before the caller's buffer.
- KernelObject.Kernel.SysRead: a keyboard or clock read goes up to its wait; what a keyboard read then delivers is stated in Keyboard.
- KernelObject.ReadFile: requires 32 bytes of buffer for a directory read, because the code copies that many whatever size was asked for.
- Fish.FishShows: takes lines to stay inside their 80-column rows and cell numbers below 65536; a longer line puts two spots on one cell.
- Display.Console.ScrollDirect: says nothing about the displayed terminal's own backup page, which is overwritten before it is shown.
- Grep.DoOneFile: takes the file to open, read and close without error, and the buffer's last byte not to be a newline at first.
- Frames.AddFrames: takes both files to open and their reads not to fail; what the blink list accepts is stated in Blink.
- Blink.BlinkList: the copy-out of a found record and the synchronisation request are not modelled.
