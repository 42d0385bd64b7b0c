/** The logger: callers test a message's level and then append it to a buffer under a mutex; one
    flusher thread takes the buffer and writes it out, and drains once more when the logger
    shuts down. Each test, locked section and write is one atomic step. */
module Logger {
  import opened Records

  datatype Level = Error | Default | Full
  {
    function Rank(): nat {
      match this
      case Error => 0
      case Default => 1
      case Full => 2
    }
  }

  /** Where the flusher thread stands. The texts are what it has taken and not yet written. */
  datatype Flusher =
    | NotStarted
    | Checking
    | Waiting
    | Taking
    | ToConsole(text: string)
    | ToFile(text: string)
    | FinalTaking
    | FinalConsole(text: string)
    | FinalFile(text: string)
    | Finished

  /** waiting holds the messages that passed the level test and whose callers have yet to take
      the lock; accepted lists those that were appended, in the order of the lock. */
  datatype State = State(level: Level, initialized: bool, running: bool, down: bool, fileOpen: bool,
                         buffer: string, console: string, file: string, flusher: Flusher,
                         waiting: multiset<string>, accepted: seq<string>)

  datatype Action =
    | Test(level: Level, message: string)
    | Append(message: string)
    | Init(fileOpens: bool, level: Level)
    | Flush
    | Shutdown

  const FIRST: State := State(Default, false, false, false, false, "", "", "", NotStarted, multiset{}, [])

  predicate Enabled(s: State, a: Action) {
    match a
    case Test(_, _) => true
    case Append(message) => message in s.waiting
    case Init(_, _) => !s.down
    case Flush => !s.flusher.NotStarted? && !s.flusher.Finished?
    case Shutdown => !s.down
  }

  predicate Accepts(threshold: Level, level: Level) {
    level.Rank() <= threshold.Rank() || level == Error
  }

  /** One caller's locked section. */
  function Appended(s: State, message: string): State {
    s.(buffer := s.buffer + message + "\n", waiting := s.waiting - multiset{message},
       accepted := s.accepted + [message])
  }

  function FlushStep(s: State): State
    requires Enabled(s, Flush)
  {
    match s.flusher
    case Checking => s.(flusher := if s.running then Waiting else FinalTaking)
    case Waiting => s.(flusher := Taking)
    case Taking => s.(flusher := ToConsole(s.buffer), buffer := "")
    case ToConsole(text) => s.(flusher := ToFile(text), console := s.console + text)
    case ToFile(text) => s.(flusher := Checking, file := if s.fileOpen then s.file + text else s.file)
    case FinalTaking => s.(flusher := FinalConsole(s.buffer))
    case FinalConsole(text) => s.(flusher := FinalFile(text), console := s.console + text)
    case FinalFile(text) => s.(flusher := Finished, file := if s.fileOpen then s.file + text else s.file)
  }

  function Next(s: State, a: Action): State
    requires Enabled(s, a)
  {
    match a
    case Test(level, message) => if Accepts(s.level, level) then s.(waiting := s.waiting + multiset{message}) else s
    case Append(message) => Appended(s, message)
    case Init(opens, level) =>
      if s.initialized then s
      else s.(initialized := true, level := level, fileOpen := opens, running := true, flusher := Checking)
    case Flush => FlushStep(s)
    case Shutdown => s.(running := false, down := true)
  }

  predicate Possible(s: State, run: seq<Action>)
    decreases |run|, 0
  {
    run != [] ==> Possible(s, run[..|run| - 1]) && Enabled(After(s, run[..|run| - 1]), run[|run| - 1])
  }

  function After(s: State, run: seq<Action>): State
    requires Possible(s, run)
    decreases |run|, 1
  {
    if run == [] then s else Next(After(s, run[..|run| - 1]), run[|run| - 1])
  }

  /** The messages as they are printed, one a line. */
  function Text(messages: seq<string>): string {
    if messages == [] then "" else Text(messages[..|messages| - 1]) + messages[|messages| - 1] + "\n"
  }

  /** Taken and not yet on the console. */
  function Unprinted(f: Flusher): string {
    if f.ToConsole? || f.FinalConsole? then f.text else ""
  }

  /** Taken and not yet in the file. */
  function Unfiled(f: Flusher): string {
    if f.ToConsole? || f.ToFile? || f.FinalConsole? || f.FinalFile? then f.text else ""
  }

  /** The final drain has taken the buffer. */
  predicate Drained(f: Flusher) {
    f.FinalConsole? || f.FinalFile? || f.Finished?
  }

  // ----- Conservation

  ghost predicate Conserved(s: State) {
    && s.console + Unprinted(s.flusher) + s.buffer == Text(s.accepted)
    && (s.fileOpen ==> s.file + Unfiled(s.flusher) + s.buffer == Text(s.accepted))
    && (!s.fileOpen ==> s.file == "")
    && (!s.initialized ==> s.flusher == NotStarted && s.console == "" && !s.fileOpen)
    && (s.running ==> !s.down && s.initialized)
    && ((s.initialized && !s.running) ==> s.down)
    && (s.flusher == FinalTaking ==> s.down)
  }

  lemma {:induction false} AppendConserves(s: State, a: Action)
    requires Conserved(s) && a.Append? && Enabled(s, a)
    ensures Conserved(Next(s, a))
  {
    var more := a.message + "\n";
    assert (s.accepted + [a.message])[..|s.accepted|] == s.accepted;
    assert s.buffer + a.message + "\n" == s.buffer + more;
    assert Text(s.accepted + [a.message]) == Text(s.accepted) + more;
    AppendLast(s.console, Unprinted(s.flusher), s.buffer, more);
    AppendLast(s.file, Unfiled(s.flusher), s.buffer, more);
  }

  lemma {:induction false} AppendLast(a: string, b: string, c: string, more: string)
    ensures a + b + (c + more) == a + b + c + more
  {
  }

  lemma {:induction false} ShiftLeft(a: string, b: string, c: string)
    ensures a + "" + b == a + b + ""
    ensures (a + b) + "" + c == a + b + c
  {
  }

  lemma {:induction false} FlushConserves(s: State)
    requires Conserved(s) && Enabled(s, Flush) && !Drained(s.flusher) && !s.flusher.FinalTaking?
    ensures Conserved(FlushStep(s))
  {
    hide Text;
    match s.flusher {
      case Taking =>
        ShiftLeft(s.console, s.buffer, "");
        ShiftLeft(s.file, s.buffer, "");
      case ToConsole(text) => ShiftLeft(s.console, text, s.buffer);
      case ToFile(text) => ShiftLeft(s.file, text, s.buffer);
      case _ =>
    }
  }

  lemma {:induction false} DrainEntered(s: State, a: Action)
    requires Enabled(s, a) && !Drained(s.flusher) && Drained(Next(s, a).flusher)
    ensures a == Flush && s.flusher == FinalTaking
  {
  }

  lemma {:induction false} StartedIsInitialized(run: seq<Action>)
    requires Possible(FIRST, run)
    ensures After(FIRST, run).flusher != NotStarted ==> After(FIRST, run).initialized
  {
    if run != [] {
      StartedIsInitialized(run[..|run| - 1]);
    }
  }

  /** Before the final drain, under every interleaving: what is printed, what is taken and what
      is buffered make up the accepted messages in lock order, nothing lost, doubled or moved;
      and so for the file. */
  lemma {:induction false} Conservation(run: seq<Action>)
    requires Possible(FIRST, run) && !Drained(After(FIRST, run).flusher)
    ensures Conserved(After(FIRST, run))
  {
    hide Conserved, Drained, Next, Enabled;
    if run == [] {
      FirstConserved();
    } else {
      var front, a := run[..|run| - 1], run[|run| - 1];
      StartedIsInitialized(front);
      DrainedStays(After(FIRST, front), a);
      Conservation(front);
      StepConserves(After(FIRST, front), a);
    }
  }

  lemma {:induction false} FirstConserved()
    ensures Conserved(FIRST)
  {
  }

  lemma {:induction false} DrainedStays(s: State, a: Action)
    requires Enabled(s, a) && (s.flusher != NotStarted ==> s.initialized)
    ensures Drained(s.flusher) ==> Drained(Next(s, a).flusher)
  {
    hide Accepts;
  }

  lemma {:induction false} StepConserves(s: State, a: Action)
    requires Conserved(s) && Enabled(s, a) && !Drained(s.flusher) && !Drained(Next(s, a).flusher)
    ensures Conserved(Next(s, a))
  {
    hide Text, Accepts;
    match a {
      case Append(_) => AppendConserves(s, a);
      case Flush => FlushConserves(s);
      case Test(_, _) =>
      case Init(_, _) =>
      case Shutdown =>
    }
  }

  /** The messages of the run that passed their level test, in the order of the tests. */
  function Passed(run: seq<Action>): seq<string>
    requires Possible(FIRST, run)
  {
    if run == [] then []
    else
      var front, a := run[..|run| - 1], run[|run| - 1];
      Passed(front) + if a.Test? && Accepts(After(FIRST, front).level, a.level) then [a.message] else []
  }

  /** Every message that passes its test is appended once or still waiting for the lock, and
      nothing else is ever appended; only the order may differ. */
  lemma {:induction false} PassedIsAppended(run: seq<Action>)
    requires Possible(FIRST, run)
    ensures multiset(Passed(run)) == multiset(After(FIRST, run).accepted) + After(FIRST, run).waiting
  {
    hide Next, Accepts, Enabled;
    if run != [] {
      var front, a := run[..|run| - 1], run[|run| - 1];
      PassedIsAppended(front);
      WaitingStep(After(FIRST, front), a);
    }
  }

  lemma {:induction false} WaitingStep(s: State, a: Action)
    requires Enabled(s, a)
    ensures multiset(Next(s, a).accepted) + Next(s, a).waiting ==
            multiset(s.accepted) + s.waiting +
            multiset(if a.Test? && Accepts(s.level, a.level) then [a.message] else [])
  {
    hide FlushStep, Accepts;
    FlushKeepsMessages(s, a);
  }

  lemma {:induction false} FlushKeepsMessages(s: State, a: Action)
    requires Enabled(s, a)
    ensures a == Flush ==> FlushStep(s).accepted == s.accepted && FlushStep(s).waiting == s.waiting
  {
  }

  // ----- Settings and the level test

  /** The first call of init() in the run. */
  function FirstInit(run: seq<Action>): (first: Option<Action>)
    ensures first.Some? ==> first.value.Init?
  {
    if run == [] then None
    else
      var earlier := FirstInit(run[..|run| - 1]);
      if earlier.None? && run[|run| - 1].Init? then Some(run[|run| - 1]) else earlier
  }

  ghost predicate SettingsAre(s: State, first: Option<Action>)
    requires first.Some? ==> first.value.Init?
  {
    match first
    case None => s.level == Default && !s.fileOpen && !s.initialized && !s.running && s.flusher == NotStarted
    case Some(a) =>
      && s.level == a.level && s.fileOpen == a.fileOpens && s.initialized
      && (s.running <==> !s.down) && s.flusher != NotStarted
  }

  lemma {:induction false} SettingsStep(s: State, first: Option<Action>, a: Action)
    requires first.Some? ==> first.value.Init?
    requires SettingsAre(s, first) && Enabled(s, a)
    ensures SettingsAre(Next(s, a), if first.None? && a.Init? then Some(a) else first)
  {
    hide Accepts;
  }

  /** The settings of any state are those of the first init(): later ones change nothing, and
      before it the level is the default one, no file is open and no flusher runs. */
  lemma {:induction false} SettingsAreFirst(run: seq<Action>)
    requires Possible(FIRST, run)
    ensures SettingsAre(After(FIRST, run), FirstInit(run))
  {
    hide Next, Enabled, SettingsAre;
    if run == [] {
      FirstSettings();
    } else {
      var front := run[..|run| - 1];
      SettingsAreFirst(front);
      SettingsStep(After(FIRST, front), FirstInit(front), run[|run| - 1]);
    }
  }

  lemma {:induction false} FirstSettings()
    ensures SettingsAre(FIRST, None)
  {
  }

  /** Whether a message of the given level is let through under the given threshold. */
  predicate LetThrough(threshold: Level, level: Level) {
    match level
    case Error => true
    case Default => threshold == Default || threshold == Full
    case Full => threshold == Full
  }

  /** A message is tested against the level of the first init(), or the default before it:
      errors always pass, ordinary messages unless only errors are wanted, details when all is
      wanted. A message that passes waits for the lock, one that does not leaves no trace. */
  lemma {:induction false} TestOutcome(run: seq<Action>, a: Action)
    requires Possible(FIRST, run) && a.Test?
    ensures Possible(FIRST, run + [a])
    ensures var threshold := match FirstInit(run) case None => Default case Some(i) => i.level;
            var (s, s') := (After(FIRST, run), After(FIRST, run + [a]));
            if LetThrough(threshold, a.level)
            then Passed(run + [a]) == Passed(run) + [a.message] && s' == s.(waiting := s.waiting + multiset{a.message})
            else Passed(run + [a]) == Passed(run) && s' == s
  {
    SettingsAreFirst(run);
    assert (run + [a])[..|run|] == run;
  }

  // ----- A round of the flusher

  /** While the logger runs, a flusher left alone prints and files all that is buffered in five
      steps, and is back at its test with an empty buffer. */
  lemma {:induction false} RoundFlushes(s: State)
    requires s.flusher == Checking && s.running
    ensures var round := [Flush, Flush, Flush, Flush, Flush];
            && Possible(s, round)
            && var s' := After(s, round);
               && s'.flusher == Checking && s'.buffer == "" && s'.console == s.console + s.buffer
               && s'.file == (if s.fileOpen then s.file + s.buffer else s.file)
               && s'.accepted == s.accepted && s'.waiting == s.waiting
  {
    hide Accepts;
    var round := [] + [Flush] + [Flush] + [Flush] + [Flush] + [Flush];
    assert [Flush, Flush, Flush, Flush, Flush] == round;
    OneMore(s, []);
    OneMore(s, [] + [Flush]);
    OneMore(s, [] + [Flush] + [Flush]);
    OneMore(s, [] + [Flush] + [Flush] + [Flush]);
    OneMore(s, [] + [Flush] + [Flush] + [Flush] + [Flush]);
    hide Possible;
  }

  lemma {:induction false} OneMore(s: State, run: seq<Action>)
    requires Possible(s, run) && Enabled(After(s, run), Flush)
    ensures Possible(s, run + [Flush]) && After(s, run + [Flush]) == FlushStep(After(s, run))
  {
    assert (run + [Flush])[..|run|] == run;
  }

  // ----- The shutdown drain

  /** Step k of the run is the final drain taking the lock. */
  ghost predicate DrainsAt(run: seq<Action>, k: nat)
    requires Possible(FIRST, run)
  {
    k < |run| && run[k] == Flush && Possible(FIRST, run[..k]) && After(FIRST, run[..k]).flusher == FinalTaking
  }

  /** With s0 the state in which the final drain took the lock: exactly the messages accepted
      by then are printed, filed, or on their way, and the buffer was never emptied. */
  ghost predicate DrainedFrom(s0: State, s: State) {
    && s.console + Unprinted(s.flusher) == Text(s0.accepted)
    && (s.fileOpen ==> s.file + Unfiled(s.flusher) == Text(s0.accepted))
    && s0.accepted <= s.accepted
    && s.buffer == s0.buffer + Text(s.accepted[|s0.accepted|..])
    && s.initialized
  }

  lemma {:induction false} DrainKept(s0: State, s: State, a: Action)
    requires Drained(s.flusher) && DrainedFrom(s0, s) && Enabled(s, a)
    ensures Drained(Next(s, a).flusher) && DrainedFrom(s0, Next(s, a))
  {
    if a.Append? {
      var n := |s0.accepted|;
      var later := s.accepted[n..];
      assert (s.accepted + [a.message])[n..] == later + [a.message];
      assert (later + [a.message])[..|later|] == later;
      assert s.buffer + a.message + "\n" == s0.buffer + (Text(later) + a.message + "\n");
    }
  }

  lemma {:induction false} DrainBegins(s: State)
    requires Conserved(s) && s.flusher == FinalTaking && s.initialized
    ensures DrainedFrom(s, FlushStep(s))
  {
    assert s.accepted[|s.accepted|..] == [];
    ShiftLeft(s.console, s.buffer, "");
    ShiftLeft(s.file, s.buffer, "");
  }

  lemma {:induction false} DrainIsExact(run: seq<Action>)
    requires Possible(FIRST, run) && Drained(After(FIRST, run).flusher)
    ensures exists k: nat :: DrainsAt(run, k) && DrainedFrom(After(FIRST, run[..k]), After(FIRST, run))
  {
    hide Text, DrainedFrom, Conserved, FlushStep;
    var n := |run| - 1;
    var front := run[..n];
    var s := After(FIRST, front);
    if Drained(s.flusher) {
      DrainIsExact(front);
      var k: nat :| DrainsAt(front, k) && DrainedFrom(After(FIRST, front[..k]), s);
      DrainKept(After(FIRST, front[..k]), s, run[n]);
      assert front[..k] == run[..k];
      assert DrainsAt(run, k);
    } else {
      Conservation(front);
      StartedIsInitialized(front);
      DrainEntered(s, run[n]);
      assert DrainsAt(run, n);
      DrainBegins(s);
    }
  }

  /** Once the flusher has finished, the console, and the file if it is open, hold exactly the
      messages accepted before the final drain took the lock, although messages accepted
      later stay behind in a buffer that was never cleared. */
  lemma {:induction false} ShutdownDrain(run: seq<Action>)
    requires Possible(FIRST, run) && After(FIRST, run).flusher == Finished
    ensures exists k: nat ::
              && DrainsAt(run, k)
              && var (s0, s) := (After(FIRST, run[..k]), After(FIRST, run));
                 && s.console == Text(s0.accepted)
                 && (s.fileOpen ==> s.file == Text(s0.accepted))
                 && s0.accepted <= s.accepted
                 && s.buffer == s0.buffer + Text(s.accepted[|s0.accepted|..])
  {
    DrainIsExact(run);
    var k: nat :| DrainsAt(run, k) && DrainedFrom(After(FIRST, run[..k]), After(FIRST, run));
    assert DrainsAt(run, k);
  }

  // ----- The join returns

  function Distance(f: Flusher): nat {
    match f
    case NotStarted => 0
    case Waiting => 8
    case Taking => 7
    case ToConsole(_) => 6
    case ToFile(_) => 5
    case Checking => 4
    case FinalTaking => 3
    case FinalConsole(_) => 2
    case FinalFile(_) => 1
    case Finished => 0
  }

  function Flushes(run: seq<Action>): nat {
    if run == [] then 0 else Flushes(run[..|run| - 1]) + if run[|run| - 1] == Flush then 1 else 0
  }

  /** After the shutdown, whatever is logged meanwhile, the flusher takes at most eight more
      steps; when none is left, the thread the destructor joins is finished or never ran. */
  lemma {:induction false} JoinReturns(s: State, run: seq<Action>)
    requires s.down && !s.running && Possible(s, run)
    ensures After(s, run).down && !After(s, run).running
    ensures Flushes(run) + Distance(After(s, run).flusher) <= Distance(s.flusher) <= 8
    ensures !Enabled(After(s, run), Flush) <==> After(s, run).flusher in [NotStarted, Finished]
  {
    hide Next, Enabled;
    if run != [] {
      var front, a := run[..|run| - 1], run[|run| - 1];
      JoinReturns(s, front);
      DistanceFalls(After(s, front), a);
    }
    FlushesWhile(After(s, run));
  }

  lemma {:induction false} FlushesWhile(s: State)
    ensures !Enabled(s, Flush) <==> s.flusher in [NotStarted, Finished]
  {
  }

  lemma {:induction false} DistanceFalls(s: State, a: Action)
    requires s.down && !s.running && Enabled(s, a)
    ensures Next(s, a).down && !Next(s, a).running
    ensures Distance(Next(s, a).flusher) + (if a == Flush then 1 else 0) <= Distance(s.flusher)
  {
  }

  class Logger {
    var level: Level
    var initialized: bool
    var running: bool
    var file: string
    var fileOpen: bool
    var buffer: string
    var console: string
    var flusher: Flusher
    ghost var down: bool
    ghost var waiting: multiset<string>
    ghost var accepted: seq<string>

    constructor ()
      ensures Abs() == FIRST
    {
      level, initialized, running := Default, false, false;
      buffer, console, file, fileOpen := "", "", "", false;
      flusher, down, waiting, accepted := NotStarted, false, multiset{}, [];
    }

    ghost function Abs(): State
      reads this
    {
      State(level, initialized, running, down, fileOpen, buffer, console, file, flusher, waiting, accepted)
    }

    /** Starts the flusher, the first time only. */
    method Init(fileOpens: bool, level: Level)
      requires !down
      modifies this
      ensures Abs() == Next(old(Abs()), Action.Init(fileOpens, level))
    {
      if initialized {
        return;
      }
      initialized := true;
      this.level := level;
      fileOpen := fileOpens;
      running := true;
      flusher := Checking;
    }

    /** The first half of log(): the level test, outside the lock. */
    method LogTest(msgLevel: Level, message: string) returns (passes: bool)
      modifies this`waiting
      ensures Abs() == Next(old(Abs()), Test(msgLevel, message))
      ensures passes <==> Accepts(level, msgLevel)
    {
      passes := msgLevel.Rank() <= level.Rank() || msgLevel == Error;
      if passes {
        waiting := waiting + multiset{message};
      }
    }

    static lemma {:induction false} AppendIsNext(s: State, message: string)
      requires message in s.waiting
      ensures Next(s, Append(message)) == Appended(s, message)
    {
    }

    /** The second half, under the lock, for a message that passed. */
    method LogAppend(message: string)
      requires message in waiting
      modifies this`buffer, this`waiting, this`accepted
      ensures Abs() == Next(old(Abs()), Append(message))
    {
      hide Next;
      AppendIsNext(Abs(), message);
      buffer := buffer + message + "\n";
      waiting := waiting - multiset{message};
      accepted := accepted + [message];
    }

    /** The flusher thread's next atomic step. */
    method FlushLoopStep()
      requires Enabled(Abs(), Flush)
      modifies this
      ensures Abs() == Next(old(Abs()), Flush)
    {
      hide Accepts, FIRST;
      match flusher {
        case Checking =>
          if running {
            flusher := Waiting;
          } else {
            flusher := FinalTaking;
          }
        case Waiting =>
          flusher := Taking;
        case Taking =>
          var toWrite := buffer;
          buffer := "";
          flusher := ToConsole(toWrite);
        case ToConsole(text) =>
          if text != "" {
            console := console + text;
          }
          assert console == old(console) + text;
          flusher := ToFile(text);
        case ToFile(text) =>
          if text != "" && fileOpen {
            file := file + text;
          }
          assert file == if fileOpen then old(file) + text else old(file);
          flusher := Checking;
        case FinalTaking =>
          flusher := FinalConsole(buffer);
        case FinalConsole(text) =>
          if text != "" {
            console := console + text;
          }
          assert console == old(console) + text;
          flusher := FinalFile(text);
        case FinalFile(text) =>
          if text != "" && fileOpen {
            file := file + text;
          }
          assert file == if fileOpen then old(file) + text else old(file);
          flusher := Finished;
      }
    }

    /** The destructor, up to the join. */
    method Shutdown()
      requires !down
      modifies this
      ensures Abs() == Next(old(Abs()), Action.Shutdown)
    {
      running := false;
      down := true;
    }
  }
}
