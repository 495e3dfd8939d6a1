/**
 The command server: the transport's thread appends commands to a vector, and the service thread
 reads the last one, runs it, and then removes the last one.  The two threads share no lock, so a
 command may be appended between the reading and the removing.
 */
module CommandQueue {

  datatype Command =
    Browse | Scan | Initialise | RegisterState | Configure | Start | Stop | Destroy | Print | On | Off

  const ALIVED := 1

  /** The process status a command leaves, or 0 for the commands that leave it alone. */
  function StatusAfter(c: Command): nat {
    match c
    case Browse => 2
    case Scan => 3
    case Initialise => 4
    case RegisterState => 5
    case Configure => 6
    case Start => 7
    case Stop => 8
    case Destroy => 9
    case Print => 0
    case On => 0
    case Off => 0
  }

  /** What came with a `registerstate` command. */
  datatype Args = Args(ctrlreg: nat, state: string)

  /** A command as it was received, and as it was run: with the arguments held at that moment. */
  datatype Entry = Entry(c: Command, args: Args)

  /** Where the service thread is: asleep, or past reading `todo_.back()`, or past running the command. */
  datatype Phase = Asleep | Took(c: Command) | RanIt(c: Command)

  /**
   `todo` is the shared vector, `held` the registered arguments, `status` the published status.  The
   rest is history: the commands received, run and removed, and those received since the service
   thread last read the vector.
   */
  datatype State = State(
    todo: seq<Command>,
    held: Args,
    status: nat,
    phase: Phase,
    received: seq<Entry>,
    ran: seq<Entry>,
    removed: seq<Command>,
    since: seq<Command>)

  predicate Init(s: State) {
    s.todo == [] && s.status == ALIVED && s.phase == Asleep && s.received == [] && s.ran == [] && s.removed == [] && s.since == []
  }

  datatype Step = Receive(c: Command, args: Args) | Take | RunIt | Remove

  predicate Enabled(s: State, e: Step) {
    match e
    case Receive(_, _) => true
    case Take => s.phase.Asleep? && s.todo != []
    case RunIt => s.phase.Took?
    case Remove => s.phase.RanIt? && s.todo != []
  }

  function Next(s: State, e: Step): State
    requires Enabled(s, e)
  {
    match e
    case Receive(c, args) =>
      s.(todo := s.todo + [c], received := s.received + [Entry(c, args)], since := s.since + [c],
         held := if c.RegisterState? then args else s.held)
    case Take =>
      s.(phase := Took(s.todo[|s.todo| - 1]), since := [])
    case RunIt =>
      s.(phase := RanIt(s.phase.c), ran := s.ran + [Entry(s.phase.c, s.held)],
         status := if StatusAfter(s.phase.c) == 0 then s.status else StatusAfter(s.phase.c))
    case Remove =>
      s.(phase := Asleep, todo := s.todo[..|s.todo| - 1], removed := s.removed + [s.todo[|s.todo| - 1]])
  }

  predicate Runs(s: State, steps: seq<Step>)
    decreases |steps|, 0
  {
    steps == [] || (Runs(s, steps[..|steps| - 1]) && Enabled(After(s, steps[..|steps| - 1]), steps[|steps| - 1]))
  }

  function After(s: State, steps: seq<Step>): State
    requires Runs(s, steps)
    decreases |steps|, 1
  {
    if steps == [] then s else Next(After(s, steps[..|steps| - 1]), steps[|steps| - 1])
  }

  // ---------- what every interleaving keeps ----------

  function Commands(es: seq<Entry>): (cs: seq<Command>)
    ensures |cs| == |es|
  {
    if es == [] then [] else Commands(es[..|es| - 1]) + [es[|es| - 1].c]
  }

  /** The status the commands run so far leave. */
  function StatusOf(ran: seq<Entry>): nat {
    if ran == [] then ALIVED
    else
      var c := ran[|ran| - 1].c;
      if StatusAfter(c) != 0 then StatusAfter(c) else StatusOf(ran[..|ran| - 1])
  }

  /** The arguments of the last `registerstate` received, or those of before. */
  function LastArgs(received: seq<Entry>, before: Args): Args {
    if received == [] then before
    else
      var e := received[|received| - 1];
      if e.c.RegisterState? then e.args else LastArgs(received[..|received| - 1], before)
  }

  /** The command that was taken lies right before those received since. */
  predicate InHand(todo: seq<Command>, since: seq<Command>, c: Command) {
    |since| < |todo| && todo[|todo| - |since|..] == since && todo[|todo| - |since| - 1] == c
  }

  ghost predicate Inv(s: State, before: Args) {
    && multiset(Commands(s.received)) == multiset(s.removed) + multiset(s.todo)
    && |s.ran| == |s.removed| + (if s.phase.RanIt? then 1 else 0)
    && s.status == StatusOf(s.ran)
    && s.held == LastArgs(s.received, before)
    && (!s.phase.Asleep? ==> InHand(s.todo, s.since, s.phase.c))
    && (s.phase.RanIt? ==> s.ran[|s.ran| - 1].c == s.phase.c)
  }

  lemma CommandsAppend(es: seq<Entry>, e: Entry)
    ensures Commands(es + [e]) == Commands(es) + [e.c]
  {
    assert (es + [e])[..|es|] == es;
  }

  lemma ReceiveKeepsInv(s: State, c: Command, args: Args, before: Args)
    requires Inv(s, before)
    ensures Inv(Next(s, Receive(c, args)), before)
  {
    var t := Next(s, Receive(c, args));
    ReceiveConserves(s.received, s.removed, s.todo, Entry(c, args));
    assert multiset(Commands(t.received)) == multiset(t.removed) + multiset(t.todo);
    LastArgsAppend(s.received, Entry(c, args), before);
    assert t.held == LastArgs(t.received, before);
    if !s.phase.Asleep? {
      StillInHand(s.todo, s.since, s.phase.c, c);
    }
  }

  lemma ReceiveConserves(received: seq<Entry>, removed: seq<Command>, todo: seq<Command>, e: Entry)
    requires multiset(Commands(received)) == multiset(removed) + multiset(todo)
    ensures multiset(Commands(received + [e])) == multiset(removed) + multiset(todo + [e.c])
  {
    CommandsAppend(received, e);
    assert multiset(Commands(received) + [e.c]) == multiset(Commands(received)) + multiset{e.c};
    assert multiset(todo + [e.c]) == multiset(todo) + multiset{e.c};
  }

  lemma StillInHand(todo: seq<Command>, since: seq<Command>, c: Command, more: Command)
    requires InHand(todo, since, c)
    ensures InHand(todo + [more], since + [more], c)
  {
  }

  lemma LastArgsAppend(es: seq<Entry>, e: Entry, before: Args)
    ensures LastArgs(es + [e], before) == if e.c.RegisterState? then e.args else LastArgs(es, before)
  {
    assert (es + [e])[..|es|] == es;
  }

  lemma RemoveKeepsInv(s: State, before: Args)
    requires Inv(s, before) && Enabled(s, Remove)
    ensures Inv(Next(s, Remove), before)
  {
    var last := s.todo[|s.todo| - 1];
    assert s.todo == s.todo[..|s.todo| - 1] + [last];
    assert multiset(s.removed + [last]) + multiset(s.todo[..|s.todo| - 1]) == multiset(s.removed) + multiset(s.todo);
  }

  lemma StepKeepsInv(s: State, e: Step, before: Args)
    requires Inv(s, before) && Enabled(s, e)
    ensures Inv(Next(s, e), before)
  {
    match e
    case Receive(c, args) => ReceiveKeepsInv(s, c, args, before);
    case Take =>
    case RunIt => assert Next(s, e).ran[..|s.ran|] == s.ran;
    case Remove => RemoveKeepsInv(s, before);
  }

  lemma {:induction false} RunKeepsInv(s: State, steps: seq<Step>)
    requires Init(s) && Runs(s, steps)
    ensures Inv(After(s, steps), s.held)
    decreases |steps|
  {
    if steps == [] {
    } else {
      RunKeepsInv(s, steps[..|steps| - 1]);
      StepKeepsInv(After(s, steps[..|steps| - 1]), steps[|steps| - 1], s.held);
    }
  }

  /**
   In every interleaving no command is lost from or added to the vector: what was received is what was
   removed and what is still there.  The runs are as many as the removals, the vector is never empty
   when a command is to be removed, the status shown is that of the last status-changing command run,
   and `registerstate` runs with the arguments received last.
   */
  lemma QueueIsConserved(s: State, steps: seq<Step>)
    requires Init(s) && Runs(s, steps)
    ensures var t := After(s, steps);
            && multiset(Commands(t.received)) == multiset(t.removed) + multiset(t.todo)
            && |t.received| == |t.removed| + |t.todo|
            && (!t.phase.RanIt? ==> |t.ran| + |t.todo| == |t.received|)
            && (!t.phase.Asleep? ==> t.todo != [])
            && t.status == StatusOf(t.ran)
            && t.held == LastArgs(t.received, s.held)
  {
    RunKeepsInv(s, steps);
    var t := After(s, steps);
    assert |multiset(Commands(t.received))| == |multiset(t.removed)| + |multiset(t.todo)|;
  }

  /** The status in numbers: 1 at first, then that of the last command run that is none of print, on and off. */
  lemma StatusInNumbers(s: State, steps: seq<Step>, i: nat)
    requires Init(s) && Runs(s, steps) && i < |After(s, steps).ran|
    requires forall j | i < j < |After(s, steps).ran| :: After(s, steps).ran[j].c in {Print, On, Off}
    ensures var t := After(s, steps);
            match t.ran[i].c
            case Browse => t.status == 2
            case Scan => t.status == 3
            case Initialise => t.status == 4
            case RegisterState => t.status == 5
            case Configure => t.status == 6
            case Start => t.status == 7
            case Stop => t.status == 8
            case Destroy => t.status == 9
            case _ => i == 0 ==> t.status == 1
  {
    RunKeepsInv(s, steps);
    var ran := After(s, steps).ran;
    QuietStatus(ran, i + 1);
    assert ran[..i + 1][..i] == ran[..i];
  }

  lemma FirstStatus(s: State)
    requires Init(s)
    ensures s.status == 1
  {
  }

  /** Print, on and off leave the status alone. */
  lemma {:induction false} QuietStatus(ran: seq<Entry>, n: nat)
    requires n <= |ran| && forall j | n <= j < |ran| :: ran[j].c in {Print, On, Off}
    ensures StatusOf(ran) == StatusOf(ran[..n])
  {
    if n == |ran| {
      assert ran[..n] == ran;
    } else {
      QuietStatus(ran[..|ran| - 1], n);
      assert ran[..|ran| - 1][..n] == ran[..n];
    }
  }

  /** The arguments held are those of the last `registerstate` received, or those of before. */
  lemma HeldArguments(s: State, steps: seq<Step>, i: nat)
    requires Init(s) && Runs(s, steps) && i < |After(s, steps).received|
    requires forall j | i < j < |After(s, steps).received| :: After(s, steps).received[j].c != RegisterState
    ensures After(s, steps).received[i].c == RegisterState ==> After(s, steps).held == After(s, steps).received[i].args
    ensures After(s, steps).received[i].c != RegisterState && i == 0 ==> After(s, steps).held == s.held
  {
    RunKeepsInv(s, steps);
    var received := After(s, steps).received;
    OthersKeepArgs(received, i + 1, s.held);
    assert received[..i + 1][..i] == received[..i];
  }

  lemma {:induction false} OthersKeepArgs(received: seq<Entry>, n: nat, before: Args)
    requires n <= |received| && forall j | n <= j < |received| :: received[j].c != RegisterState
    ensures LastArgs(received, before) == LastArgs(received[..n], before)
  {
    if n == |received| {
      assert received[..n] == received;
    } else {
      OthersKeepArgs(received[..|received| - 1], n, before);
      assert received[..|received| - 1][..n] == received[..n];
    }
  }

  // ---------- running and removing the same command ----------

  /**
   When the service thread removes a command, it is the one it ran exactly when nothing was received
   since it read the vector, or the last thing received is the same command again.
   */
  lemma RemovesWhatItRan(s: State, steps: seq<Step>)
    requires Init(s) && Runs(s, steps) && Enabled(After(s, steps), Remove)
    ensures var t := After(s, steps);
            var removed := Next(t, Remove).removed;
            && t.ran != []
            && (removed[|removed| - 1] == t.ran[|t.ran| - 1].c <==> t.since == [] || t.since[|t.since| - 1] == t.phase.c)
  {
    RunKeepsInv(s, steps);
    LastOfTodo(After(s, steps), s.held);
  }

  lemma LastOfTodo(t: State, before: Args)
    requires Inv(t, before) && t.phase.RanIt?
    ensures t.ran != [] && t.ran[|t.ran| - 1].c == t.phase.c && t.todo != []
    ensures t.todo[|t.todo| - 1] == if t.since == [] then t.phase.c else t.since[|t.since| - 1]
  {
    if t.since != [] {
      assert t.todo[|t.todo| - 1] == t.todo[|t.todo| - |t.since|..][|t.since| - 1];
    }
  }

  /** No command is received while the service thread is awake. */
  predicate Quiet(s: State, steps: seq<Step>)
    requires Runs(s, steps)
    decreases |steps|
  {
    steps == [] ||
    (Quiet(s, steps[..|steps| - 1]) &&
     (steps[|steps| - 1].Receive? ==> After(s, steps[..|steps| - 1]).phase.Asleep?))
  }

  lemma {:induction false} QuietRuns(s: State, steps: seq<Step>)
    requires Init(s) && Runs(s, steps) && Quiet(s, steps)
    ensures InStep(After(s, steps))
    decreases |steps|
  {
    if steps == [] {
    } else {
      var init, e := steps[..|steps| - 1], steps[|steps| - 1];
      QuietRuns(s, init);
      QuietStep(After(s, init), e);
    }
  }

  /** What has been run is what has been removed, and the command in hand is the newest one pending. */
  predicate InStep(t: State) {
    && (!t.phase.Asleep? ==> t.todo != [] && t.phase.c == t.todo[|t.todo| - 1])
    && Commands(t.ran) == t.removed + (if t.phase.RanIt? then [t.phase.c] else [])
  }

  lemma QuietStep(t: State, e: Step)
    requires InStep(t) && Enabled(t, e) && (e.Receive? ==> t.phase.Asleep?)
    ensures InStep(Next(t, e))
  {
    if e.RunIt? {
      CommandsAppend(t.ran, Entry(t.phase.c, t.held));
    }
  }

  /**
   In a quiet run every command is run once: those run and those pending are those received, and
   each command, when it is taken, is the newest one pending.
   */
  lemma QuietRunsServeEachCommandOnce(s: State, steps: seq<Step>)
    requires Init(s) && Runs(s, steps) && Quiet(s, steps)
    ensures var t := After(s, steps);
            && (t.phase.Asleep? ==> multiset(Commands(t.received)) == multiset(Commands(t.ran)) + multiset(t.todo))
            && (!t.phase.Asleep? ==> t.todo != [] && t.phase.c == t.todo[|t.todo| - 1])
  {
    QueueIsConserved(s, steps);
    QuietRuns(s, steps);
    var t := After(s, steps);
    assert t.phase.Asleep? ==> Commands(t.ran) == t.removed;
  }

  /**
   Without that: start is received, and while it runs stop is.  Then stop is removed without having
   run, and start is run a second time.
   */
  lemma ACommandCanBeLost(s: State, args: Args)
    requires Init(s)
    ensures Runs(s, LosingRun(args))
    ensures var t := After(s, LosingRun(args));
            t.phase.Asleep? && t.todo == [] && Commands(t.received) == [Start, Stop] && Commands(t.ran) == [Start, Start]
  {
    var steps4 := StopArrivesWhileStartRuns(s, args);
    var steps6 := StartIsTakenAgain(s, steps4);
    var steps7 := RunsOn(s, steps6, RunIt);
    var steps8 := RunsOn(s, steps7, Remove);
    assert steps8 == LosingRun(args);
    CommandsOfTwo(Entry(Start, args), Entry(Stop, args));
    CommandsOfTwo(Entry(Start, s.held), Entry(Start, s.held));
  }

  lemma StartIsTakenAgain(s: State, steps: seq<Step>) returns (more: seq<Step>)
    requires Runs(s, steps) && After(s, steps).todo == [Start, Stop] && After(s, steps).phase == RanIt(Start)
    ensures more == steps + [Remove, Take] && Runs(s, more)
    ensures var t := After(s, steps);
            After(s, more) == t.(todo := [Start], phase := Took(Start), since := [], removed := t.removed + [Stop])
  {
    more := RunsOn(s, steps, Remove);
    assert After(s, more).todo == [Start];
    more := RunsOn(s, more, Take);
  }

  lemma StopArrivesWhileStartRuns(s: State, args: Args) returns (steps: seq<Step>)
    requires Init(s)
    ensures steps == LosingRun(args)[..4] && Runs(s, steps)
    ensures After(s, steps) == s.(todo := [Start, Stop], phase := RanIt(Start), status := StatusAfter(Start), since := [Stop],
                                  received := [Entry(Start, args), Entry(Stop, args)], ran := [Entry(Start, s.held)])
  {
    steps := RunsOn(s, [], Receive(Start, args));
    steps := RunsOn(s, steps, Take);
    steps := RunsOn(s, steps, Receive(Stop, args));
    steps := RunsOn(s, steps, RunIt);
  }

  function LosingRun(args: Args): seq<Step> {
    [Receive(Start, args), Take, Receive(Stop, args), RunIt, Remove, Take, RunIt, Remove]
  }

  lemma RunsOn(s: State, steps: seq<Step>, e: Step) returns (more: seq<Step>)
    requires Runs(s, steps) && Enabled(After(s, steps), e)
    ensures more == steps + [e] && Runs(s, more) && After(s, more) == Next(After(s, steps), e)
  {
    more := steps + [e];
    assert more[..|steps|] == steps;
  }

  lemma CommandsOfTwo(e: Entry, f: Entry)
    ensures Commands([e, f]) == [e.c, f.c]
  {
    assert [e, f][..1] == [e] && [e][..0] == [];
    assert Commands([e]) == [e.c];
  }

  // ---------- the server ----------

  class DimDaqControlServer {
    var todo: seq<Command>
    var held: Args
    var processStatus: nat
    ghost var view: State

    ghost predicate Valid()
      reads this
    {
      view.todo == todo && view.held == held && view.status == processStatus
    }

    constructor (args: Args)
      ensures Valid() && Init(view) && view.held == args
    {
      todo, held, processStatus := [], args, ALIVED;
      view := State([], args, ALIVED, Asleep, [], [], [], []);
    }

    /** `commandHandler`: one of the known commands, or none of them. */
    method CommandHandler(known: bool, c: Command, args: Args)
      requires Valid()
      modifies this
      ensures Valid() && view == if known then Next(old(view), Receive(c, args)) else old(view)
    {
      if !known {
        return;
      }
      if c.RegisterState? {
        held := args;
      }
      todo := todo + [c];
      view := Next(view, Receive(c, args));
    }

    /** One turn of the inner loop of `services`, when nothing is received meanwhile. */
    method ServeOne() returns (c: Command)
      requires Valid() && todo != [] && view.phase.Asleep?
      modifies this
      ensures Valid() && c == old(todo[|todo| - 1])
      ensures view == Next(Next(Next(old(view), Take), RunIt), Remove)
    {
      c := todo[|todo| - 1];
      view := Next(view, Take);
      if StatusAfter(c) != 0 {
        processStatus := StatusAfter(c);
      }
      view := Next(view, RunIt);
      todo := todo[..|todo| - 1];
      view := Next(view, Remove);
    }

    /** The inner loop of `services` undisturbed: it runs the pending commands, the newest first. */
    method Services()
      requires Valid() && view.phase.Asleep?
      modifies this
      ensures Valid() && view.phase.Asleep? && todo == []
      ensures Commands(view.ran) == old(Commands(view.ran)) + Reversed(old(todo))
      ensures view.received == old(view.received)
    {
      while todo != []
        invariant Valid() && view.phase.Asleep?
        invariant Commands(view.ran) + Reversed(todo) == old(Commands(view.ran)) + Reversed(old(todo))
        invariant view.received == old(view.received)
        decreases |todo|
      {
        ghost var ran := view.ran;
        var c := ServeOne();
        assert view.ran[..|view.ran| - 1] == ran;
      }
    }
  }

  function Reversed(cs: seq<Command>): seq<Command> {
    if cs == [] then [] else [cs[|cs| - 1]] + Reversed(cs[..|cs| - 1])
  }

  lemma {:induction false} ReversedAt(cs: seq<Command>, i: nat)
    requires i < |cs|
    ensures |Reversed(cs)| == |cs| && Reversed(cs)[i] == cs[|cs| - 1 - i]
  {
    if |cs| > 1 {
      ReversedAt(cs[..|cs| - 1], if i == 0 then 0 else i - 1);
    }
  }
}
