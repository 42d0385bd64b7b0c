# Verified model of the vtb control plane

`vtb` moves packets between virtual machines through vhost devices. Its packet pipeline is
still empty; what has behaviour is the control plane around it, and that is what this project
models and proves.

- **Queue-state protocol.** DPDK's vhost callbacks reach `VhostController`, which updates the
  port map of `ConfigManager` and writes fixed-size records to a socket.
  `PortControllerLoopback` replays those records into its own map and decides when to call
  `start()` on one of eight handlers shared by all devices. The two copies are keyed
  differently (a running port counter at arrival, the device id everywhere else), queues 0 and
  1 are announced only at arrival, and only an odd queue starts a handler.
- **Handlers and workers.** `start()` creates named pools and a ring, may fail half way, and
  launches one or two workers that share one running flag with `stop()`.
- **Command line.** A scan with one token of lookahead over a mutable table.
- **Logger.** Callers append under a mutex; a flusher thread drains repeatedly and once more
  at shutdown.

## How it is laid out

| file | content |
|---|---|
| `Records.dfy` | the record on the socket, shared limits |
| `Replica.dfy` | the receiver's map and `start()` calls as functions of the delivered records |
| `Names.dfy` | decimal resource names and their injectivity |
| `Lifecycle.dfy` | workers and flag of one handler as a state machine |
| `PortHandler.dfy` | `start()` and the DPDK name registry, as functions and classes |
| `PortController.dfy` | the controller over any run of deliveries and worker steps; its class |
| `ControllerState.dfy` | workers, registry, handler fields and ready flag after any run |
| `CmdlineParser.dfy` | the parser class, its language, rendering and parsing back |
| `ParseOutcome.dfy` | how parsing any line ends, errors and required arguments included |
| `ConfigManager.dfy` | the port map in arrays, its abstract map, this program's table |
| `Options.dfy` | what this program's options read, by their own names and defaults |
| `VhostController.dfy` | callbacks as programs of small operations; the class |
| `Descriptors.dfy` | socket descriptors as the history of all operations |
| `SenderHistory.dfy` | configuration, records and starts read off the list of callbacks |
| `Midway.dfy` | configuration and records while a callback is part done |
| `Protocol.dfy` | the whole system with a FIFO and all interleavings; the main theorems |
| `Counterexamples.dfy` | reachable states in which natural expectations fail |
| `Logger.dfy` | the logger as a state machine, and its class |

Objects that the program updates in place are classes (`ConfigManager`, `PortMap`,
`VhostController`, `PortControllerLoopback`, `PortHandlerLoopback`, `CmdlineParser`,
`Logger`). Their methods are proved against functions on values, and the long-run properties
are proved about those functions. The two controllers carry a ghost history and their `Valid()`
says that the whole state, socket descriptors apart, is the one this history leads to. Loops over threads
(workers, flusher) are methods that take one atomic step each, so that every interleaving is
a sequence of calls.

Assumed of the environment: a device has at most eight queue pairs, queue ids are below 16,
`enable` is 0 or 1, callbacks run one at a time, records arrive whole and in order. In
`Replica`, `PortHandler` and `PortController` the records are arbitrary; only indexes into the
16-entry rows are required to be in range, and `Protocol.RunSettles` shows they always are.

A run is *fresh* when every arriving device's id equals the port counter it is filed under;
then one key names the device on both sides. Only `SenderHistory.FreshAgreeIff`,
`Protocol.FreshAgreement` and one clause of `Protocol.KeysBelowCounter` assume a fresh run; every
other theorem about the protocol is about all runs.

A callback under way is *heard* once the record that may start a handler has been written
(`Protocol.Heard`). Callbacks *ask* for pair 0 of a device when one with that id arrives, and for
a later pair when its odd queue is enabled while the even one is on (`SenderHistory.Asked`).

Socket assignments reach the port map from outside the callbacks; in `Protocol` they are steps
that may fall anywhere, and everything stated about the callbacks holds up to socket descriptors.

## What turned out false of the code

- Configuration and receiver do not always agree. `SenderHistory.CopiesAgreeIff` has the exact
  condition: a queue from 2 on differs when its latest event came before its device's arrival
  and enabled it (`Counterexamples.EarlyEnableDiverges`); of queues 0 and 1 the receiver only
  ever learns that a device has arrived, so it misses, for one, that they were disabled
  (`Counterexamples.DisabledFirstDiverges`).
- `is_queue_ready` asks about the device that arrived under a port number, while queue states
  are filed under the device id. `Protocol.ReadyNow` has the exact answer. A device whose id is
  no port number in use does not read as ready although it is started
  (`Counterexamples.UnfiledIdIsNotReady`), and the entry of another device may answer for it
  (`Counterexamples.AnotherDeviceAnswers`).
- A pair whose odd queue is enabled first is ready and not started
  (`Counterexamples.OddFirstIsSilent`) until its odd queue is enabled again while the even one
  is on; `Protocol.StartSeenIff` says exactly when a pair has been started.
- A `start()` that fails after its transmit pool was created can never be made good
  (`Counterexamples.HalfStartIsFinal`), and a destroyed device that returns under its old id is
  never relaunched (`Counterexamples.ReturnStaysStopped`). `PortController.LaunchedIff` says
  exactly which pairs of a run have workers.
- A `stop()` that overtakes a worker's store of `true` is lost
  (`Counterexamples.OvertakingStopIsLost`; exactly when: `PortController.DestroyStopsIff`,
  `Lifecycle.StopTerminatesIff`).
- Removing one device stops the workers of every other device, which stay present and ready
  (`Counterexamples.RemovalStopsOthers`) and are not launched again
  (`PortController.NoLaterLaunch`).
- `--help` or `-h` without a value does not show help (`ConfigManager.BareHelpIsIgnored`; exactly
  when: `ConfigManager.HelpShownIff`), although the table describes it as "Show this help menu".

## Model

| member | source | states |
|---|---|---|
| Protocol.ReplicaAgreement | src/vhost_controller.cpp:127-160 | in every state of every run, after the running callback and the undelivered records are played out, the two copies agree on queue q of key p iff the callbacks do not make them diverge there: for q >= 2 by a latest event that enabled it before arrival p, for q < 2 by the arrival of a device with id p not matching what was last set since arrival p |
| Protocol.CurrentAgreement | src/vhost_controller.cpp:127-160 | the same exact condition for the two copies as they stand in the middle of a callback: only the queues the running callback sets can differ beyond that, and from the set to the record iff the receiver was told otherwise before |
| Protocol.QuietAgreement | src/port_controller_loopback.cpp:82-121 | the same condition as direct agreement of the two maps when no callback runs and the channel is empty, in every run |
| Protocol.FreshAgreement | src/port_controller_loopback.cpp:82-121 | in fresh runs every live device has a row, and the maps differ exactly on a queue from 2 on last enabled before its device arrived and on queues 0 and 1 last disabled |
| SenderHistory.CopiesAgreeIff | src/config_manager.cpp:106-131 | the exact agreement condition for every queue of every entry over any list of callbacks |
| SenderHistory.FreshAgreeIff | src/vhost_controller.cpp:127-160 | with ids equal to port numbers an entry is its own device's, and the condition reduces to the latest event alone |
| Midway.MidwayAgreeIff | src/vhost_controller.cpp:135-160 | the exact agreement condition after any proper part of a callback's operations |
| SenderHistory.SentOn | src/vhost_controller.cpp:127-160 | the last record sent for a queue from 2 on carries what its latest vring event said; queues 0 and 1 are on iff a device with that id ever arrived |
| SenderHistory.ConfigMeaning | src/config_manager.cpp:78-131 | over any callbacks, an entry exists exactly under the number of an arrival that no later removal named; it holds that arrival's id and pair count, and each of its bits is what the latest event since then to set it set |
| SenderHistory.ReadyIff | src/config_manager.cpp:247-260 | for any id and pair, is_queue_ready is true iff the entry of that arrival number is still there, has the pair, and the latest events since to set the two queues under that id turned them on |
| SenderHistory.SentStarts | src/port_controller_loopback.cpp:95-110 | the start() calls the sent records cause, read off the callbacks alone |
| SenderHistory.StartCalledIff | src/port_controller_loopback.cpp:95-110 | for pair k >= 1, start() is called iff some event enables vring 2k+1 while 2k is on |
| SenderHistory.PairZeroCalledIff | src/vhost_controller.cpp:140-141 | for pair 0, start() is called iff a device with that id has arrived |
| SenderHistory.FreshKeys | src/vhost_controller.cpp:135-142 | all keys are below the port counter, so a new device's key is absent |
| Protocol.RunSettles | src/vhost_controller.cpp:127-183 | callbacks in small steps with deliveries and socket assignments in between settle, but for socket descriptors, to the callbacks run whole; delivered and in-flight records are a prefix of what they send, all in range |
| Protocol.ReadyNow | src/config_manager.cpp:247-260 | between the callbacks of any run, the exact condition under which a pair reads as ready |
| Protocol.CurrentStarts | src/vhost_controller.cpp:127-183 | in every state of every run, the starts made and in flight are, in order, those the callbacks heard so far ask for, and those made are the first of them |
| Protocol.ReadinessReachesHandler | src/config_manager.cpp:247-260 | in any run with an empty channel, even during a callback, a ready pair has had start() called with its id and queues, unless the record asking for it is still unwritten; for pair 0 a device with that id must have arrived, for a later pair its odd queue only have been enabled while the even one was on |
| Protocol.ReadyPairsRun | src/port_handler_loopback.cpp:28-102 | and if DPDK refuses only duplicate names, its workers have been launched exactly once |
| Protocol.LaunchSeenIff | src/port_handler_loopback.cpp:28-102 | with no refusals but duplicates, in every state a pair has had workers launched iff its start() was called, only if the callbacks heard so far asked for it, and with an empty channel exactly then |
| Protocol.StartSeenIff | src/port_controller_loopback.cpp:95-110 | for every pair, in every state start() was called only if the callbacks heard so far asked for it, and with an empty channel exactly then |
| Counterexamples.OddFirstIsSilent | src/port_controller_loopback.cpp:87-94 | a reachable ready pair that was never started |
| Counterexamples.UnfiledIdIsNotReady | src/vhost_controller.cpp:135-138 | a reachable started pair that is not ready, for every id other than the only port number in use |
| Counterexamples.AnotherDeviceAnswers | src/vhost_controller.cpp:135-138 | a reachable state in which readiness of a device is answered by the entry of another, and its own entry is not ready |
| Counterexamples.EarlyEnableDiverges | src/vhost_controller.cpp:151-160 | a reachable state in which the receiver has a queue on and the configuration has it off |
| Counterexamples.DisabledFirstDiverges | src/vhost_controller.cpp:157-160 | the same for queues 0 and 1, whose changes are not sent |
| Counterexamples.HalfStartIsFinal | src/port_handler_loopback.cpp:48-77 | a run of the whole system in which a start() gets its transmit pool only and, after the device returned, the fully granted one launches nothing |
| Counterexamples.ReturnStaysStopped | src/port_handler_loopback.cpp:48-53 | a run of the whole system in which a launched pair is removed, returns, is started again and launches nothing |
| Counterexamples.OvertakingStopIsLost | src/port_handler.cpp:32-35 | a run of the whole system in which a destroy arrives before a launched worker's store, after which no bound on its steps exists |
| Counterexamples.RemovalStopsOthers | src/port_controller_loopback.cpp:76-80 | a run of the whole system in which one device is removed and all workers of another, which stays present, ready and launched, have left their loops |
| Protocol.KeysBelowCounter | src/vhost_controller.cpp:135-142 | between callbacks keys are below the counter, an entry holds its own arrival's id, and in fresh runs that is the key |
| Protocol.SocketsStayPaired | src/config_manager.cpp:133-143 | with sockets assigned at any moment to any key and slot, the two data sockets of every slot are equal in every state |
| Protocol.InitMeetsAbsentKey | src/config_manager.cpp:78-104 | at every initialisation the key is absent, whatever is interleaved |
| Protocol.PairZeroOncePerArrival | src/port_controller_loopback.cpp:84-107 | in every state, starts of handler 0 are one for one and in order those of the arrivals whose second record has been delivered |
| Protocol.LaunchAndExitSafety | src/port_handler_loopback.cpp:44-136 | in every run of the system, launches are apart, and a worker that left its loop had a destroy record delivered after its own store |
| Protocol.EveryHistoryRuns | src/vhost_controller.cpp:108-122 | every legal list of callbacks has a run that ends with nothing in flight |
| Replica.ReplayMeaning | src/port_controller_loopback.cpp:76-85 | a device has a row iff a record named it; an entry is the enable of the last record for it, or -1 |
| Replica.DestroyLeavesReplica | src/port_controller_loopback.cpp:76-80 | removing a destroy record anywhere from a history changes neither the map nor the starts |
| Replica.ExactStart | src/port_controller_loopback.cpp:82-121 | a record causes a start() iff it enables an odd vring whose even partner's last earlier record enabled it |
| Names.NamesInjective | src/port_handler_loopback.cpp:44-46 | names collide only for the same kind, device and queue |
| Names.DecimalReadsBack | src/port_handler_loopback.cpp:44-46 | an id or queue is spelled in decimal, most significant digit first, and reads back as the number |
| Names.NamesSpelled | src/port_handler_loopback.cpp:44-46 | the three names of one device and pair, letter for letter |
| PortController.ExactLaunch | src/port_handler_loopback.cpp:48-102 | a delivery launches workers iff it completes its pair, all creations are granted, and no earlier start() for the same device and queue got its transmit pool |
| PortController.LaunchedIff | src/port_handler_loopback.cpp:48-102 | over any run, a device and queue have a launch iff workers are configured and the first start() for them that got its transmit pool was granted everything |
| PortController.AtMostOneLaunch | src/port_handler_loopback.cpp:44-101 | over any run each device and pair is launched at most once, and launches share no pool or ring |
| PortController.NoLaterLaunch | src/port_handler_loopback.cpp:48-77 | once a transmit pool was created for a device and queue, no later launch happens for them |
| PortController.GrantedAttemptLaunchesOnce | src/port_handler_loopback.cpp:81-101 | with no refusals but duplicates, every attempted pair has exactly one launch |
| PortController.AttemptsAreStarts | src/port_controller_loopback.cpp:101-110 | the attempts of a run are, in order, the starts its delivered records ask for |
| PortController.ControllerReplays | src/port_controller_loopback.cpp:69-122 | after any run with any worker steps between, the map is the replay of the delivered records |
| PortController.ExitFollowsDestroy | src/port_controller_loopback.cpp:76-80 | a worker leaves its loop only if a destroy record was delivered after its own store |
| PortController.StoppedHandlerSettles | src/port_handler_loopback.cpp:106-136 | a stopped handler with no worker before its store stays stopped through any records, stops and steps of other handlers, as long as nobody is launched on it, and its workers' steps are paid for by what they had left |
| PortController.DestroyStopsIff | src/port_handler_loopback.cpp:106-136 | after a destroy record the steps of a handler's workers are bounded, over all continuations that launch nobody on it, iff none of them had yet to store true |
| PortController.PortControllerLoopback.ProcessNotification | src/port_controller_loopback.cpp:69-122 | the mutable map, flag, handlers and registry after a record are those of the history with that delivery added |
| PortController.PortControllerLoopback.WorkerStep | src/port_handler_loopback.cpp:106-136 | the same for one worker step |
| Lifecycle.NoSpuriousExit | src/port_handler_loopback.cpp:106-136 | for any number of workers and any interleaving, a finished worker was stopped after its own store of true |
| Lifecycle.StopTerminatesIff | src/port_handler.cpp:32-35 | with the flag down, over all continuations that launch nobody, further stops included, the workers' steps are bounded iff none of them is still before its store |
| Lifecycle.StoppedRun | src/port_handler_loopback.cpp:110-136 | then the flag stays down and a measure over the workers pays for every worker step |
| Lifecycle.StuckIsFinished | src/port_handler.cpp:22-35 | a stopped run that cannot go on has finished every worker |
| PortHandler.PortHandlerLoopback.Start | src/port_handler_loopback.cpp:28-102 | fields, registry and outcome of start(), with all its failure exits |
| ControllerState.WorkersExact | src/port_handler_loopback.cpp:81-101 | after any run in mode Loopback with one or two threads every launch starts that many workers and a handler has exactly those of its launches; with any other settings nothing is launched and no handler has a worker |
| ControllerState.RegistryExact | src/port_handler_loopback.cpp:48-77 | after any run, in any mode, a pool or ring is live iff the first start() for its pair to get the transmit pool was granted everything up to it; nothing else is live |
| ControllerState.GrantedStartTakesAll | src/port_handler_loopback.cpp:48-102 | in any mode a fully granted start() for a pair without pool takes both pools and the ring |
| ControllerState.StartOutcome | src/port_handler_loopback.cpp:48-102 | start() ends at the first thing it cannot create, with that exception, keeps what it created before, and otherwise starts as many workers as threads in mode Loopback |
| ControllerState.HandlerFields | src/port_handler_loopback.cpp:48-102 | after any run a handler's ids are those of its last start(), each pool and ring that of the last start() that came as far, null when that one failed there |
| ControllerState.ReadyFlag | src/port_controller_loopback.cpp:84-97 | the ready flag says whether both queues of the pair were on at the last record of an already known device, and is otherwise left alone |
| ControllerState.Shape | src/port_controller_loopback.cpp:76-119 | there are always eight handlers and rows of sixteen entries |
| PortHandler.PortHandlerLoopback.WorkerStep | src/port_handler_loopback.cpp:106-136 | one atomic action of a worker on the shared flag |
| PortHandler.PortHandlerLoopback.Stop | src/port_handler.cpp:32-35 | stop() lowers the flag and nothing else |
| ConfigManager.ConfigManager.InitVhostDevice | src/config_manager.cpp:78-104 | the arrays after initialisation mean the abstract entry with the first n pairs reset and stale ones kept |
| ConfigManager.ConfigManager.SetQueueState | src/config_manager.cpp:106-131 | the linear search switches exactly vring v of an entry with v below twice its pairs, and nothing otherwise |
| ConfigManager.ConfigManager.IsQueueReady | src/config_manager.cpp:247-260 | ready iff both vrings of the pair are in the entry's set |
| ConfigManager.ConfigManager.GetVhostQids | src/config_manager.cpp:221-245 | (vid, 2q, 2q+1) for a valid pair, otherwise (-1, 0, 0) |
| ConfigManager.ConfigManager.AssignPortDataSocket | src/config_manager.cpp:133-143 | both data sockets of one slot are set, all else is kept |
| ConfigManager.ConfigManager.AssignPortControlSocket | src/config_manager.cpp:145-151 | the control socket of one entry is set, all else is kept |
| Descriptors.DescriptorHistory | src/config_manager.cpp:78-151 | after any operations in any order a key is there iff it was initialised and not cleared since, each of its slots holds its last assignment twice, -1 from an initialisation or 0 before any, and its control socket the last one assigned or 0 |
| Descriptors.SlotSinceArrival | src/config_manager.cpp:94-143 | a slot of a device's own pairs holds the descriptor last assigned since its initialisation, or -1 |
| Protocol.SlotsNow | src/config_manager.cpp:94-143 | the same in every state of every run of the system |
| ConfigManager.InitialisedEntry | src/config_manager.cpp:78-104 | initialising n pairs switches off and disconnects exactly those, and keeps what an earlier device left beyond them |
| ConfigManager.ConfigManager.ClearDevice | src/config_manager.cpp:262-272 | the entry under that key is gone, all others are kept |
| ConfigManager.ConfigManager.Init | src/config_manager.cpp:33-46 | proceeds iff the line is accepted and help does not read as true |
| ConfigManager.ConfigManager.constructor | src/config_manager.cpp:13-30 | builds the seven-argument table with an empty port map |
| ConfigManager.DefaultNames | src/config_manager.cpp:13-30 | each of the seven arguments is found under its own long and short name |
| ConfigManager.ProgramRoundTrip | src/cmdline_parser.cpp:17-64 | any EAL prefix and any rendered list of this program's flags is accepted, and both names of every argument read the last value given |
| Options.OptionReads | src/config_manager.cpp:13-30 | behind any EAL prefix, each of the seven options reads, under both its literal names, the last value given to it or its literal default |
| Options.DefaultsRead | src/config_manager.cpp:13-30 | the program name alone, or nothing behind the separator, leaves the fourteen names at the seven literal defaults |
| ConfigManager.HelpArmsAreDead | src/cmdline_parser.cpp:110-113 | after any lines, accepted or not, get<bool> is true only through "true", "1" or "yes" |
| ConfigManager.HelpShownIff | src/config_manager.cpp:33-46 | help is shown iff the last value given to it is a true one; a bare flag never shows it |
| ConfigManager.BareHelpIsIgnored | src/config_manager.cpp:33-46 | the line "program -- -h" is accepted and help reads false |
| VhostController.VhostController.OnNewDevice | src/vhost_controller.cpp:127-143 | configuration, counter and records are, up to socket descriptors, those of the callback history with this arrival added, whatever sockets were assigned before |
| VhostController.VhostController.OnVringStateChanged | src/vhost_controller.cpp:151-160 | the same for a vring event |
| VhostController.VhostController.OnDestroyDevice | src/vhost_controller.cpp:145-149 | the same for a removal |
| VhostController.VhostController.NotifyPortController | src/vhost_controller.cpp:175-183 | one record with the current port counter, in the two modes that have a socket |
| VhostController.VhostController.SocketsKeepValid | src/config_manager.cpp:133-151 | a socket assigned between two callbacks leaves the controller with the state its callback history leads to |
| VhostController.ExecAllSame | src/config_manager.cpp:133-151 | no operation of a callback looks at sockets: states that differ in descriptors only still do after any operations |
| VhostController.ProgramIsCallback | src/vhost_controller.cpp:127-160 | a callback's operations run in sequence make the one change the callback stands for |
| VhostController.ModesCompared | src/vhost_controller.cpp:175-183 | over any callbacks, Back2Back sends what Loopback sends, any other mode sends nothing, and configuration and counter are the same in every mode |
| CmdlineParser.CmdlineParser.Parse | src/cmdline_parser.cpp:17-73 | table and outcome of the loops with their inner skip are those of the recursive scan |
| CmdlineParser.CmdlineParser.GetString | src/cmdline_parser.cpp:90-95 | the value of the first argument with that name, or the empty string |
| CmdlineParser.AcceptedLanguage | src/cmdline_parser.cpp:39-64 | accepted iff every dashed token is a known name and every other token follows a known name |
| CmdlineParser.AcceptedIsRendered | src/cmdline_parser.cpp:39-64 | the accepted tails are exactly the renderings of lists of known flags with optional values not beginning with a dash |
| CmdlineParser.ScanComposes | src/cmdline_parser.cpp:39-64 | scanning accepted tokens followed by dashed ones is scanning one after the other |
| CmdlineParser.ItemsCommute | src/cmdline_parser.cpp:42-58 | neighbouring items for different arguments commute |
| CmdlineParser.RoundTrip | src/cmdline_parser.cpp:17-95 | for any table of optional dashed names, rendering and parsing back returns the last value given |
| CmdlineParser.StoredValues | src/cmdline_parser.cpp:47-50 | over any number of calls, rejected ones included, a value is its first one or does not begin with a dash |
| ParseOutcome.ParseEnds | src/cmdline_parser.cpp:17-73 | for any table of dashed names: which of the four errors a line ends with and about which argument, and otherwise that it is accepted with its items stored |
| ParseOutcome.TokensSplit | src/cmdline_parser.cpp:39-64 | any tokens are items followed by nothing or by a token that is neither a name nor a value, so every line has such an end |
| ParseOutcome.NameReads | src/cmdline_parser.cpp:90-95 | a name reads the value of the first argument called so, or the empty string when there is none |
| Logger.Conservation | src/logger.cpp:29-61 | under every interleaving before the final drain, printed, taken and buffered text make up the accepted messages in lock order, and so for the file |
| Logger.ShutdownDrain | src/logger.cpp:63-83 | when the flusher has finished, console and open file hold exactly the messages accepted before the final drain took the lock |
| Logger.JoinReturns | src/logger.cpp:77-83 | after the shutdown the flusher takes at most eight more steps, whatever is logged meanwhile |
| Logger.PassedIsAppended | src/logger.cpp:29-34 | whatever is interleaved between test and lock, the messages that passed their test are, as a multiset, those appended and those still waiting for the lock |
| Logger.TestOutcome | src/logger.cpp:29-34 | after any run a message passes iff it is an error, or ordinary while not only errors are wanted, or a detail while all is wanted, against the level of the first init() or the default one before it |
| Logger.SettingsAreFirst | src/logger.cpp:15-25 | in every state level, file and flusher are those of the first init(); before it the level is the default, no file is open and no flusher runs |
| Logger.RoundFlushes | src/logger.cpp:36-61 | while running, a flusher left alone prints and files the whole buffer in five steps and is back at its test |
| Logger.Logger.LogTest | src/logger.cpp:30 | passes iff the level test does, outside the lock |
| Logger.Logger.LogAppend | src/logger.cpp:31-32 | a message that passed is appended with a line end, under the lock |
| Logger.Logger.FlushLoopStep | src/logger.cpp:36-75 | one locked section or one write of the flusher |
| Logger.Logger.Init | src/logger.cpp:15-25 | the first call opens, starts and sets the level; later calls do nothing |

## Left out

- Sockets: creation, connection, `epoll_worker`'s dispatch and partial reads; the socket is a FIFO of whole records.
- DPDK itself: the environment is the registry of live names and the choice of which creations succeed.
- Destruction of handlers and controllers: names are freed and threads joined only then, after the modelled runs.
- The RX and TX pipeline methods, and the Back2Back and Emulator controllers, which are empty.
- `get_arg<int>` and `std::stoi`: the thread count is a parameter of `start()`.
- `print_portmap`, `dump_config`, `print_usage` and log texts: formatting only.
- `set_value` and `get_value`: a typed map apart from the protocol.
- `LogStream`'s own level test, which only calls `log` less often.
- Logger.Init: its assignments are one step; the flusher starts only after them, but a level test that falls between them and still sees the old level is not modelled.
- ConfigManager.ConfigManager.InitVhostDevice: takes 0 to 8 pairs only, since more would write outside the arrays.
