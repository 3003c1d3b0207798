# A verified model of mach_us

Five parts of the Mach multi-server emulation, modelled in Dafny and proved correct:

* **machid**, the server that gives out stable names for Mach ports. `MachKernel` is the kernel's
  table of port names and user references; `PortTables` is the pair of hash tables with their
  chains; `MachidMachine` is the server as a state machine in which ports die at any moment, with
  the theorems about every run; `MachidServer` is the code of `machid.c`, each method of which moves
  along a run of that machine; `MachidHandlers` and `MachidHostTasks` are the
  request handlers; `MachidLaws` is what they mean for one another; `MachidService` is the server's
  life over any sequence of messages.
* **The arguments of exec**: `ExecArgs` (the growing buffer, the form and the decoder of the block),
  `ExecBlock` (the layout), `ScriptLine` (the `#!` line) and `ExecCall` (all of it together).
* **Double-long arithmetic**: `Dlong`.
* **Lists and paths of the emulation library**: `Dll`, `Stacks`, `EmulPath`.
* **The process image and two translators**: `Loader`, `BreakArea`, `Syscalls`, `Umask`.

`dafny verify dfyconfig.toml` checks the whole project.

How the main results hang together:

* `MachidMachine.StepKeepsInv` and `RunKeepsInv` give `Conservation`, `NoPortDeleted`, `NoLeak`,
  `NotificationHasTarget`, `DestroyLeavesCallers`, `NameStable` and `AssociationStable` for every
  run. `Server.Valid()` says that the heap — both tables with all their chains — is the last state of
  such a run, and every operation extends the run that it finds. `MachidService.Serve` puts them
  together for any sequence of messages.
* Which ports die, and when, is given from outside (`fate` in `MachKernel.Space`). By
  `MachidMachine.SparedComes` and `MachidHandlers.SparedArrive` nothing counts as dead that was not
  to die, so that no handler can leave out a port that lives.
* What a handler may do to associations is said exactly (`Undisturbed`), so that by
  `MachidServer.DecisionUndisturbed` no one gains or loses access to any other object.
* `ExecCall.PrepareArguments` ends in `ExecBlock.Delivered`: what a program's start-up code decodes
  from the words and characters of the block is what exec was asked for, except for a command file
  that is started with no arguments at all. `ExecBlock.HandedIsAskedIff` makes that exact and
  `ExecBlock.ScriptWithoutArguments` shows such a call.
* `BreakArea.Brk` keeps the arena whole, and `BreakArea.HandedOutOnce` says over every run of calls
  what sbrk may hand out again; `Loader.AddressSpace.StartProgram` starts the arena right behind the
  image that `LoadProgramFile` builds.

Where the code does not do what one would expect, the code is followed:

* A name server that dies at the check-in makes machid quit if the port that it gave has died
  before: `MachidServer.DeallocateNoPort`, with `MachidServer.DeadPortQuits` as an instance.
* A failed `emul_obreak` leaves the break at the start of its page, so that bytes handed out before
  are handed out again: `BreakArea.ReusedIff`, with `BreakArea.ReusedRun` as an instance.
* `emul_obreak` can fail although what it needs is free, because it tries only two megabytes and its
  halves: `BreakArea.Called` states exactly when it succeeds, and `BreakArea.FailsThoughFree` is an
  instance. With a break in page 0 it succeeds for addresses in the last page:
  `BreakArea.CallKeepsSound` is an if-and-only-if, `BreakArea.OvershootInstance` an instance.
* Without a bss the rest of the last data page is not cleared (`Loader.ByteOf`, with
  `Loader.TailNotCleared` as an instance), and a header whose
  sizes pass 2^32 loads with a break that does not cover it (`Loader.RanIsRight`, with
  `Loader.WrappedHeaderLoads` as an instance).
* The rest of a text that is not a whole number of pages is read with a length that is never set:
  `Loader.TailNeverLoaded`.
* `emul_path` needs two characters for "." and its NUL, which it does not check: `EmulPath.Faults`,
  with `EmulPath.FaultInstance` as an instance. Nor does exec check that the argument block has room in
  the stack: `ExecBlock.Fits`.
* `dll_assign` of an empty list leaves a head that is no list: `Dll.Assign` is an if-and-only-if.
* The generated system call tables put a row at its own number only for an increasing list:
  `Syscalls.InPlaceIff`, with `Syscalls.RowMisplaced` as an instance.

## Model

| member | source | states |
|---|---|---|
| `PortTables.Tables.FindPort` | bin/machid/machid.c:358-371 | the walk of a bucket finds the record of the port, and nothing exactly when there is none |
| `PortTables.Tables.FindName` | bin/machid/machid.c:373-386 | the walk finds the one record of the name, and nothing exactly when no record has it |
| `PortTables.Tables.Insert` | bin/machid/machid.c:432-445 | after linking, both tables hold exactly the old records and the new one, each once and in its own bucket |
| `PortTables.Tables.Unlink` | bin/machid/machid.c:598-620 | both searches meet the same record, and both tables hold exactly the others |
| `PortTables.AllHoldAfterUnlink` | bin/machid/machid.c:598-620 | taking a record out of its own bucket leaves every bucket with exactly its remaining records |
| `MachidMachine.StepKeepsInv` | bin/machid/machid.c:310-356 | every step of the server, and every death of ports, keeps the reference count of every port accounted for, names distinct and issued, and no watched name dropped |
| `MachidMachine.RunKeepsInv` | bin/machid/machid.c:310-639 | the invariant holds at every state of every run from the empty server |
| `MachidMachine.Conservation` | bin/machid/machid.c:310-356 | in every run the kernel's count of a port is the banked references, those of callers, one for the watched monitor and one per notification under way; the bank holds at least one, and at most MAX_UREFS of a live port |
| `MachidMachine.NoPortDeleted` | bin/machid/machid_notify_procs.c:54-61 | the notification on which the server would stop is never sent |
| `MachidMachine.NoLeak` | bin/machid/machid.c:542-639 | with no record, no caller and no monitor left, the kernel's table is empty |
| `MachidMachine.DeathIsFated` | bin/machid/machid_notify_procs.c:97-126 | in every run a name is dead only if its port was to die by then, whatever the server did |
| `MachidMachine.SparedComes` | bin/machid/machid_procs.c:591-650 | a port that was sent comes, unless it was to die by the end of the run |
| `MachidMachine.NotificationHasTarget` | bin/machid/machid_notify_procs.c:97-126 | a dead-name notification is about the watched monitor port or a port with a record |
| `MachidMachine.DestroyLeavesCallers` | bin/machid/machid.c:588-639 | giving back the record's references and the notification's own succeeds and leaves exactly the callers' |
| `MachidMachine.NameStable` | bin/machid/machid.c:432-434 | a name that was ever issued is bound later only to the port and type it was bound to then |
| `MachidMachine.AssociationStable` | bin/machid/machid.c:643-700 | the name in an association, even a stale one, later denotes nothing or the same port |
| `MachidMachine.AssocPutGet` | bin/machid/machid.c:643-700 | what assoc_create puts is what assoc_lookup gets, for its own type and no other |
| `MachidServer.FindAssoc` | bin/machid/machid.c:388-403 | finds the association of the type, exactly if there is one |
| `MachidServer.BankOne` | bin/machid/machid.c:310-331 | one more reference; past MAX_UREFS all but one go back, unless the port has died |
| `MachidServer.HandOne` | bin/machid/machid.c:334-356 | one reference less; the last one is first made MORE_UREFS more, of whichever right the name has by now |
| `MachidServer.Server.AddReference` | bin/machid/machid.c:310-331 | takes one reference of the port from the caller's hands and keeps the server on a run |
| `MachidServer.Server.SubReference` | bin/machid/machid.c:334-356 | puts one reference of the port in the caller's hands |
| `MachidServer.Server.Register` | bin/machid/machid.c:425-459 | a port without a record gets the next name, one banked reference and an armed request |
| `MachidServer.Server.NameLookup` | bin/machid/machid.c:405-460 | the port's name, the old one or a new one; takes the reference; disturbs no other record; quits only if shown the port it watches itself |
| `MachidServer.Server.Authorize` | bin/machid/machid.c:462-502 | information, and anything on a processor set's name port, a host or an object's name port, for everyone; else only for who shows a recorded port that is the object's own, or has the name of its privileged host or of its task |
| `MachidServer.Server.PortLookup` | bin/machid/machid.c:504-525 | bad name exactly if no record has the name; else the port and one reference exactly under those conditions, said of the records, and protected otherwise |
| `MachidServer.Server.TypeLookup` | bin/machid/machid.c:527-540 | the type of the port of the name, or none |
| `MachidServer.Server.PortConsume` | bin/machid/machid.c:542-560 | takes back one reference of a port with a record |
| `MachidServer.Server.AuthConsume` | bin/machid/machid.c:562-586 | takes one reference, whether the port has a record or not |
| `MachidServer.Server.PortDestroy` | bin/machid/machid.c:588-639 | the record is always there and leaves both tables; the callers' references are what remains |
| `MachidServer.Server.AssocCreate` | bin/machid/machid.c:643-681 | sets the association of the named record only, and does nothing for an unbound or null name |
| `MachidServer.Server.AssocLookup` | bin/machid/machid.c:683-700 | the associated name, or null |
| `MachidServer.Server.WatchMonitor` | bin/machid/machid.c:231-253 | ends with the request armed and one reference kept; tries again, with nothing held, only if the port has died; quits only if the port has a record that is armed already |
| `MachidServer.Server.TryCheckIn` | bin/machid/machid.c:197-254 | for every pair of answers of the name server, what the turn comes to: repeated, with nothing held, only for a dying or early name server or a port that is none or has died; it quits only for an error, a check-in that dies after the port has died, or a port with a record; else the service is checked in |
| `MachidServer.Server.DoCheckIn` | bin/machid/machid.c:180-259 | from the start or after the monitor's death: every attempt before the last had such a reason to be repeated; it ends with one reference, one armed request and the service checked in, or still trying with nothing held, or has quit for such a reason |
| `MachidServer.Server.DoMachNotifyDeadName` | bin/machid/machid_notify_procs.c:97-126 | the monitor's death leads to checking in again, with the same reasons for repeating and quitting, any other death to the end of just that record |
| `MachidServer.DeallocateNoPort` | bin/machid/machid.c:216-225 | mach_port_deallocate of what is no port fails in every state, so that the server quits there |
| `MachidServer.DeadPortQuits` | bin/machid/machid.c:216-225 | for every port that dies at once, a run in which a name server that dies makes the server quit |
| `MachidServer.DecisionUndisturbed` | bin/machid/machid.c:462-525 | along a run a name keeps all its decisions as long as the two associations that authorize looks at are not touched, whatever else is named in between |
| `MachidHandlers.DoMachPort` | bin/machid/machid_procs.c:135-152 | invalid name if no record has it, protection if not authorized, else success; then the port's reference goes to the client in exchange for that of `auth` |
| `MachidHandlers.DoMachRegister` | bin/machid/machid_procs.c:109-120 | the port's name, both references taken, a new record of the given type without associations if there was none, and every other record as it was |
| `MachidHandlers.OnePortCall` | bin/machid/machid_procs.c:1340-1363 | the handler's own error if no record has the name, protection if not authorized, else what the remote call answers; the reference looked up goes back on every path, and `auth` is taken exactly on success |
| `MachidHandlers.DoTaskTerminate` | bin/machid/machid_procs.c:1340-1363 | the same for a task: KERN_INVALID_TASK, protection, the answer or success, for access to write |
| `MachidHandlers.TwoPortCall` | bin/machid/machid_procs.c:2243-2276 | the same four cases for two names, of which the first decides unless it is granted; both references go back on every path |
| `MachidHandlers.DoThreadAssign` | bin/machid/machid_procs.c:2243-2276 | the same for a thread and a processor set |
| `MachidHandlers.DoDefaultPagerObjectPages` | bin/machid/machid_dpager_procs.c:171-209 | the same for a pager and a memory object |
| `MachidHandlers.SparedArrive` | bin/machid/machid_procs.c:591-650 | a list of ports that are not to die by the end of the run arrives whole and in order |
| `MachidHandlers.ReleaseAll` | bin/machid/machid_dpager_procs.c:117-124 | every port of the list goes back, each valid one once |
| `MachidHandlers.NameAll` | bin/machid/machid_procs.c:622-628 | the names of the ports in order, new records of the given type, each tagged with both associations, every reference taken; no other association of any record changes |
| `MachidHandlers.DoTaskThreads` | bin/machid/machid_procs.c:591-650 | the exact status; the names of the threads that arrived, in order, with new records of type thread, associated with the task and with the task's own host; a thread is missing only if it died during the call; no other association changes; no reference is left over; quits only if the kernel sent the port that the server watches |
| `MachidHandlers.DoDefaultPagerObjects` | bin/machid/machid_dpager_procs.c:85-169 | the exact status; with unequal counts it fails and every port goes back; else the objects' names with new records of that type, associated with the pager's host, and no other association changes; quits only if the pager sent the port that the server watches |
| `MachidHandlers.DoHostPorts` | bin/machid/machid_procs.c:154-175 | the names of both host ports, new records of their two types, associated with each other; no other association changes |
| `MachidLaws.HostPortsThenLookUp` | bin/machid/machid.c:462-525 | after do_host_ports for new ports, the host's name is looked up by anyone, and the privileged one by nobody but who shows that very port |
| `MachidLaws.ThreadsThenLookUp` | bin/machid/machid_procs.c:591-650 | after do_task_threads, who shows the task's port gets every thread that was listed, for any access |
| `MachidLaws.ObjectsThenLookUp` | bin/machid/machid_dpager_procs.c:85-169 | after do_default_pager_objects, anyone gets every object listed that was new |
| `MachidLaws.RegisterTwice` | bin/machid/machid.c:405-460 | a port registered twice has one name, of the type of the first time |
| `MachidLaws.ListedAt` | bin/machid/machid_procs.c:622-628 | port by port, what a listing leaves: the i-th name is that of the i-th port, which has both associations |
| `MachidLaws.ListingTouches` | bin/machid/machid_procs.c:622-628 | no other association of any port changes or comes into being, and no record is lost or changes its name or type |
| `MachidLaws.HostPortsTouch` | bin/machid/machid_procs.c:154-175 | the same for do_host_ports: three associations of two ports |
| `MachidHostTasks.NameSet` | bin/machid/machid_procs.c:362-368 | a processor set's two ports have their names and types, each associated with the host and with the other |
| `MachidHostTasks.DoHostTasks` | bin/machid/machid_procs.c:304-419 | the exact status; every set's ports came or had died, a set whose port came has all its tasks that had not died, every set was named and associated, the tasks' names come set by set and in order and are associated with the host, every new record has the type of its first mention, and no other association changes; no reference is left over; quits only if the kernel sent the port that the server watches |
| `MachidLaws.TasksThenLookUp` | bin/machid/machid_procs.c:304-419 | after do_host_tasks, who shows the host's privileged port gets every task that was listed, for any access |
| `MachidLaws.SparedSetsArrive` | bin/machid/machid_procs.c:304-419 | if no port of the kernel's answer is to die, every set comes with all its tasks in order |
| `MachidLaws.FlattenAt` | bin/machid/machid_procs.c:390-410 | the k-th set's tasks come behind those of the sets before it |
| `MachidLaws.SetAt` | bin/machid/machid_procs.c:362-368 | a set's port and name port know the host and each other |
| `MachidLaws.NewTypeIs` | bin/machid/machid_procs.c:340-368 | a new record has the type of the first mention of its port: processor set, name of one, or task |
| `MachidService.ServeOne` | bin/machid/machid.c:261-274 | any message is handled as `Handled` says — exact status, names, records and associations, over the whole stretch of the run from its arrival to the reply — and leaves the server idle, with no reference in hand; or it stops for one of two reasons: the port that it watches was shown to it, or the name server |
| `MachidService.Serve` | bin/machid/machid.c:166-167 | any sequence of messages: each is handled in turn, all on one run; the server is idle in between, every reference that the kernel counts is banked, the monitor's or a notification's, and every name given out denotes what it did or nothing; if it ends early, it is at the first message that makes it stop or look for the name server |
| `MachidService.Live` | bin/machid/machid.c:101-167 | from an empty server through checking in, with the reason for every repeated attempt, to the messages, for every course of deaths |
| `ExecArgs.CopyStr` | lib/emul/emul_exec.cc:142-157 | copies up to the NUL and returns the length, or -1 exactly if it does not fit; nothing before the place or behind the limit is touched |
| `ExecArgs.CopyArg` | lib/emul/emul_exec.cc:201-226 | the string ends up behind what the buffer held; fails exactly if the kernel refuses one of the doublings up to what the string needs |
| `ExecArgs.CopyArgs` | lib/emul/emul_exec.cc:186-231 | what the buffer held is followed by the strings with their NULs; the counts are right; fails exactly if the kernel refuses one of the doublings up to what the strings need |
| `ExecArgs.DoubledOn` | lib/emul/emul_exec.cc:201-226 | growing in two goes asks the kernel for the same sizes as growing in one |
| `ExecArgs.NotGranted` | lib/emul/emul_exec.cc:201-226 | a failure means that a size below twice what was needed was refused |
| `ExecArgs.DecodeWords` | lib/emul/emul_exec.cc:467-487 | a block of count, pointers and strings decodes to just those argument and environment lists |
| `ExecArgs.DecodeMeans` | lib/emul/emul_exec.cc:467-487 | what is decoded is there, word by word and character by character: the count, a pointer to each string with its NUL, and a null behind each list |
| `ExecBlock.CharCount` | lib/emul/emul_exec.cc:438-461 | the character count that the code arrives at is enough for the strings it lays out |
| `ExecBlock.Prepare` | lib/emul/emul_exec.cc:431-461 | the command strings, the count, and where the remaining gathered strings start |
| `ExecBlock.LayString` | lib/emul/emul_exec.cc:477-485 | the next string lands behind those before it; copystr never fails |
| `ExecBlock.FillBlock` | lib/emul/emul_exec.cc:467-487 | the words are the count, the pointers to each string and the two nulls, and the characters are the strings |
| `ExecBlock.PlaceBlock` | lib/emul/i386/emul_address_space.cc:169-180 | the block fills the space up to the top of the stack, words first |
| `ExecBlock.Gather` | lib/emul/emul_exec.cc:364-391 | the buffer holds the arguments and then the environment, exactly if the kernel grants the doublings that they need |
| `ExecBlock.MakeArguments` | lib/emul/emul_exec.cc:364-488 | fails exactly if the kernel refuses a size that the strings need, writes below the stack exactly if the block is larger than it; else what the new program decodes is what was asked for, if and only if it is no command file or has an argument to replace |
| `ExecBlock.HandedScript` | lib/emul/emul_exec.cc:438-461 | the interpreter is handed its own argument, if any, before the file's name |
| `ExecBlock.SizeIs` | lib/emul/emul_exec.cc:462-466 | the size of the block, said of the strings in it |
| `ExecBlock.HandedIsAskedIff` | lib/emul/emul_exec.cc:438-461 | the laid-out lists are [interpreter, its argument, file] followed by all but the first argument, and the environment, exactly in that case |
| `ExecBlock.ScriptWithoutArguments` | lib/emul/emul_exec.cc:438-461 | without arguments the file's name becomes an environment string and one is lost |
| `ScriptLine.ReadsIff` | lib/emul/emul_exec.cc:312-325 | name and argument are the only way to read the line as blanks, a word, blanks and a rest |
| `ScriptLine.ScriptRoundTrip` | lib/emul/emul_exec.cc:285-325 | a line that fits the buffer is read back as the name and the argument that were written |
| `ScriptLine.ParseScript` | lib/emul/emul_exec.cc:285-325 | ENOEXEC exactly without the magic characters; else both buffers hold the name and the argument of the line |
| `ExecCall.PrepareArguments` | lib/emul/emul_exec.cc:279-488 | from the file to the block. An executable decodes its own arguments. A file that begins with `#!`, blanks, a name, blanks and an argument decodes [name, argument, file] and all arguments but the first, without the argument if there is none, and the environment; started with no arguments it decodes one string less. The block's size is that of its strings, it ends at the top of the stack, and each error and the overrun come exactly when they must |
| `Dlong.Carry` | local_include/dlong.h:187-194 | one digit of an addition through the accumulator and its carry |
| `Dlong.Borrow` | local_include/dlong.h:208-218 | one digit of a subtraction and its borrow |
| `Dlong.ValueIs` | local_include/dlong.h:187-218 | the most significant digit comes first, and its top bit is the sign |
| `Dlong.Add` | local_include/dlong.h:187-194 | the sum modulo 2^64, also when the result is an operand |
| `Dlong.Neg` | local_include/dlong.h:196-206 | the negation modulo 2^64 |
| `Dlong.Sub` | local_include/dlong.h:208-218 | the difference modulo 2^64 |
| `Dlong.FromLong` | local_include/dlong.h:224-232 | the digits of the number modulo 2^64 |
| `Dlong.FromULong` | local_include/dlong.h:234-239 | the digits of the number |
| `Dlong.FromShort` | local_include/dlong.h:241-248 | the digits of the number modulo 2^64 |
| `Dlong.FromUShort` | local_include/dlong.h:250-254 | the digits of the number |
| `Dlong.AddLong` | local_include/dlong.h:285-311 | for every long the same digits as converting and adding |
| `Dlong.AddULong` | local_include/dlong.h:313-330 | for every unsigned long the same digits as converting and adding |
| `Dlong.SubLong` | local_include/dlong.h:337-363 | for every long, the most negative included, the same digits as converting and subtracting |
| `Dlong.SubULong` | local_include/dlong.h:365-382 | for every unsigned long the same digits as converting and subtracting |
| `Dlong.CompositeIsConvertThenOperate` | local_include/dlong.h:285-382 | adding a scalar and adding its conversion come to the same digits, and so for subtracting |
| `Dlong.SubIsAddNeg` | local_include/dlong.h:196-218 | x - y = x + (-y) |
| `Dlong.AddThenSub` | local_include/dlong.h:187-218 | (x + y) - y = x |
| `Dlong.SignedAdd` | local_include/dlong.h:187-194 | a sum that fits is right for signed numbers |
| `Dlong.RoundTrips` | local_include/dlong.h:224-279 | scalars survive conversion to digits and back |
| `Dlong.Truncates` | local_include/dlong.h:266-279 | the conversions to scalars keep the low bits |
| `Dlong.SgnIsSign` | local_include/dlong.h:393-396 | the sign of the signed value |
| `Dll.Init` | local_include/dll.h:101-101 | an empty list |
| `Dll.Enter` | local_include/dll.h:141-158 | appends, and touches no node outside the list |
| `Dll.EnterFirst` | local_include/dll.h:211-228 | prepends |
| `Dll.Remove` | local_include/dll.h:175-184 | removes just that element, wherever it is |
| `Dll.RemoveFirst` | local_include/dll.h:196-200 | returns and removes the first element |
| `Dll.Assign` | local_include/dll.h:189-194 | moves the list to the new head if and only if it is not empty |
| `Stacks.MemberIffAdded` | lib/emul/emul_misc.cc:310-378 | what the calls make of the list contains a key exactly if it was added since the last reset |
| `Stacks.MoveToFrontPermutes` | lib/emul/emul_misc.cc:356-369 | a look-up changes only the order |
| `Stacks.StackSet.Add` | lib/emul/emul_misc.cc:316-326 | the masked key goes to the front of the list, nothing else changes, and the call joins the history |
| `Stacks.StackSet.Reset` | lib/emul/emul_misc.cc:332-346 | empties the list, which terminates, leaves the one key, and joins the history |
| `Stacks.StackSet.Member` | lib/emul/emul_misc.cc:348-378 | whether the masked key was added since the last reset in the history of the object; the first element of that key moves to the front, and the others keep their order |
| `Stacks.Answers` | lib/emul/emul_misc.cc:310-378 | any sequence of additions, look-ups and resets on a new list: every look-up answers whether the key was added since the last reset before it |
| `EmulPath.SplitKeepsComponents` | lib/emul/emul_misc.cc:703-778 | the components of the directory followed by the leaf are those of the path, and the directory is absolute exactly if the path is |
| `EmulPath.SplitAtSlash` | lib/emul/emul_misc.cc:714-761 | components are what slashes separate |
| `EmulPath.ReadIsComponents` | lib/emul/emul_misc.cc:714-761 | reading character by character finds the components |
| `EmulPath.OverflowIsTooLong` | lib/emul/emul_misc.cc:714-761 | it overflows exactly if a component is too long for the leaf buffer, or a directory with components for its own |
| `EmulPath.AppendComponent` | lib/emul/emul_misc.cc:728-755 | the leaf goes behind the directory with one slash, inside the buffer, or it does not fit |
| `EmulPath.EmulPath` | lib/emul/emul_misc.cc:703-778 | fails only if something overflows, with -1 exactly where there is no room for a slash; writes outside a buffer exactly for one of less than two characters where nothing overflows before; otherwise the strings in the buffers are the directory, absolute exactly if the path is, with single slashes and none at its end, and the leaf, one component, which have the components of the path; a part that the path has not got is "." |
| `EmulPath.FaultInstance` | lib/emul/emul_misc.cc:763-772 | an empty path with one character for the directory |
| `BreakArea.NeededIs` | lib/emul/emul_basic.cc:268-272 | the size asked for is a positive number of pages, with the wrap-around of the last page |
| `BreakArea.NeededZeroIff` | lib/emul/emul_basic.cc:268-272 | it is nothing exactly for a break in page 0 and an address in the last page |
| `BreakArea.CallKeepsSound` | lib/emul/emul_basic.cc:246-303 | the break stays below a page-aligned limit if and only if the call is not of that kind; the limit never falls, and a successful call ends with the address below it |
| `BreakArea.RoomySucceeds` | lib/emul/emul_basic.cc:274-296 | with twice the room it needs a call never fails |
| `BreakArea.GrowthIs` | lib/emul/emul_basic.cc:268-296 | the arena grows by the need if that is more than two megabytes, else by the largest of two megabytes, their half and so on that is free and not less than the need; the call fails exactly if even the last does not fit |
| `BreakArea.SuccessFits` | lib/emul/emul_basic.cc:274-296 | a call that succeeds had room for what it needs |
| `BreakArea.FailsThoughFree` | lib/emul/emul_basic.cc:269-296 | a call that fails although the pages it needs are free |
| `BreakArea.Brk.TrySizes` | lib/emul/emul_basic.cc:274-296 | terminates; takes the largest size tried that fits; fails exactly if the smallest does not |
| `BreakArea.Brk.Obreak` | lib/emul/emul_basic.cc:246-303 | the break is the address asked for, or stays if that is lower; after a failure it is the start of its page, and nothing else has changed; the arena stays allocated without a hole exactly if the call is not of the kind above |
| `BreakArea.Brk.Sbrk` | lib/emul/emul_basic.cc:230-244 | the same at the old break plus delta modulo 2^32, and returns the old break |
| `BreakArea.Brk.Drive` | lib/emul/emul_basic.cc:230-303 | any sequence of calls, with others allocating and freeing in between, is a run, from which what is said of runs follows |
| `BreakArea.Brk.constructor` | lib/emul/emul_exec.cc:508-511 | the arena starts where it is told and is allocated |
| `BreakArea.RunMoves` | lib/emul/emul_basic.cc:230-303 | over every run the limit never falls, the page of the break never falls, and the break itself falls only by a failure |
| `BreakArea.HandedOutOnce` | lib/emul/emul_basic.cc:230-244 | what sbrk hands out stays inside the arena; later calls hand out none of it, or after a failure at most its last partial page |
| `BreakArea.ReusedIff` | lib/emul/emul_basic.cc:262-296 | the break falls exactly if the address is at the limit or above, not even the smallest size tried fits, and the break is inside a page |
| `BreakArea.ReusedRun` | lib/emul/emul_basic.cc:268-268 | a run that hands out the same hundred bytes twice |
| `BreakArea.OvershootInstance` | lib/emul/emul_basic.cc:268-296 | a call with a break in page 0 that succeeds and leaves the arena beyond all memory |
| `Loader.LoadableIff` | lib/emul/loader.cc:128-172 | the mappings succeed one after the other exactly if text and data with bss have room and do not overlap |
| `Loader.ByteIs` | lib/emul/loader.cc:128-172 | every byte of the loaded image |
| `Loader.RanIsRight` | lib/emul/loader.cc:128-172 | the steps of the loader come to the image for a header that does not wrap, and to a break that covers the image exactly for such a header |
| `Loader.RightMeans` | lib/emul/loader.cc:128-172 | each byte of the new memory: text and data from their places in the file, zeros in the bss, and what was there before |
| `Loader.LoadableMeans` | lib/emul/loader.cc:67-122 | text and data start at pages, are free and in user space, and do not meet |
| `Loader.RegionMeans` | lib/emul/loader.cc:67-122 | each byte that map_region leaves, and when it fails |
| `Loader.BreakRoomIs` | lib/emul/emul_exec.cc:508-511 | there is room for the break area exactly if no byte of it is in use |
| `Loader.WrappedHeaderLoads` | lib/emul/loader.cc:152-171 | a header whose sizes wrap loads, with a break of one page and no memory |
| `Loader.TailNeverLoaded` | lib/emul/loader.cc:107-122 | a text that does not end at a page is never loaded to its end where there was no memory before |
| `Loader.TailNotCleared` | lib/emul/loader.cc:152-156 | a data page without bss that goes on with the file behind the data |
| `Loader.AddressSpace.MapRegion` | lib/emul/loader.cc:67-122 | maps the whole pages at an aligned, free place or fails; for the rest it reads however many bytes the unset length lets it, and faults exactly if there is no memory for them |
| `Loader.AddressSpace.LoadProgramFile` | lib/emul/loader.cc:128-172 | the outcome and the memory for every header; for a text of whole pages and sizes that do not wrap it loads exactly if it can, text and data are the file's bytes and the bss is zero to the end of its last page; the break is page-aligned and covers the image exactly if no size wraps |
| `Loader.AddressSpace.ResetStack` | lib/emul/i386/emul_address_space.cc:108-125 | byte by byte: the block ends where the new stack ends, below it the stack is zero, the old stack is gone where the new one is not, and the rest is as it was; it fails exactly if there is no room |
| `Loader.AddressSpace.StartProgram` | lib/emul/emul_exec.cc:414-511 | loading; byte by byte the new stack with its argument block, and the rest as it was loaded; and the break arena, which starts exactly where the loader says; that is behind the image exactly if no size wraps |
| `Syscalls.Mark` | lib/emul/gen_syscalls.c:122-145 | the first row of each requested name has the mask of the last request for it, all else is unchanged, and the unknown names are reported |
| `Syscalls.LastMaskIs` | lib/emul/gen_syscalls.c:122-145 | that mask is the one of the last request, and there is none exactly if no request has the name |
| `Syscalls.InPlaceIff` | lib/emul/gen_syscalls.c:155-165 | rows come out at their own numbers if and only if these are natural and strictly increasing |
| `Syscalls.Generate` | lib/emul/gen_syscalls.c:155-165 | every row at its place and the default everywhere else |
| `Syscalls.GenerateAll` | lib/emul/gen_syscalls.c:155-211 | three vectors of equal length that agree on which calls are emulated; for an increasing list the entry at n is that of row n |
| `Syscalls.MakeTables` | lib/emul/gen_syscalls.c:122-211 | marking and generating together: for an increasing list the entries at the number of a row are those of the row as the requests leave it, and 0 where no row has the number |
| `Syscalls.MarkedIs` | lib/emul/gen_syscalls.c:117-211 | these entries: the mask of the last request for the name, all bits without one given, if the row is the first of its name; the name with its prefix, and protocol, name and argument count, or the defaults for a mask of 0 |
| `Syscalls.RowMisplaced` | lib/emul/gen_syscalls.c:155-165 | a list that is not increasing and whose second row comes out at a wrong number |
| `Umask.RightsMasked` | lib/emul/emul_io.cc:321-331 | converting commutes with bitwise and |
| `Umask.GrantedIs` | lib/emul/emul_io.cc:308-331 | right by right, what a mode means for each class; administration is the owner's alone |
| `Umask.GrantedMasked` | lib/emul/emul_io.cc:308-357 | masking the rights of a class is the rights of the masked mode |
| `Umask.MaskedBit` | lib/emul/emul_io.cc:337-357 | a bit is left after masking exactly if the mode has it and the mask has not |
| `Umask.Protection.SetUmask` | lib/emul/emul_io.cc:337-357 | the new mask and its rights, and the old mask returned |
| `Umask.Protection.ChangeIdentity` | lib/emul/emul_io.cc:382-424 | the new owner and group, with the mask as it was |
| `Umask.Protection.ForMode` | lib/emul/emul_io.cc:308-318 | after any history the list grants, class by class and bit by bit, the rights of the mode without the bits of the last mask |
| `Umask.RightsAre` | lib/emul/emul_io.cc:308-331 | the rights of each class by the weights of its three bits in mode and mask |
| `Umask.Protection.constructor` | lib/emul/emul_io.cc:281-294 | the first mask is 022 |

## Left out

- Server state beyond the run: `quit()` ends the process and the model; failing `malloc` and `vm_deallocate` are not modelled.
- MachKernel: user reference counts are unbounded, without the kernel's own limit on them.
- Names of machid: `servers/machid_types.h` is not part of this model; the name counter does not wrap around and the numbering of types is abstract.
- MachidServer.Server.DoCheckIn: stated for every finite history of the name server's answers, since an unbounded wait for it need not end.
- MachidServer.Server.PortConsume: only for a port with a record, because on any other the source ends the process.
- MachidServer.Server.PortDestroy: only for a port with a notification under way, because without a record the source ends the process.
- Other machid handlers: they have the shapes of the ones modelled; the choice between in-line and out-of-line reply buffers is not modelled.
- MachidService.Serve: takes it that mach_msg_server destroys the rights of a request whose handler fails, and that a reply takes the reference of the port it carries.
- MachidService.Live: the server's own first calls of do_host_ports and do_host_tasks are messages like any others, and that it ends if one of them fails is not modelled.
- Locking, freeing of memory, diagnostics and the demultiplexing of messages.
- ExecArgs.CopyArgs: sizes are unbounded, so that doubling does not wrap around.
- `copy_args_flat`, the STACK_GROWTH_UP variant, and the look-up of the program file and of the interpreter.
- Dlong: the routines for multiplication, division and strings, which are not in the header.
- Loader.AddressSpace.LoadProgramFile: mapping fails only for lack of room, not for errors of the file server.
- BreakArea.Brk.TrySizes: takes it that `vm_allocate` of no bytes succeeds and leaves the address alone.
- Syscalls: reading and splitting the lines of the two input files, and the text around the vectors.
- The other emul_* calls, fork and wait, signals, and the interactive programs: thin wrappers over servers that are elsewhere.
