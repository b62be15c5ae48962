/**
 * The recycle routine of the plugin. RecycleCommand asks `cf app` for the
 * instance count, then walks the instances in index order; each one whose
 * status reads "running" is restarted, and the routine polls that instance's
 * status until it reads "running" again before it moves on.
 *
 * The functions below say, for a connection script s, which visits the routine
 * makes and which commands it issues; the methods are the routine itself,
 * proved to issue exactly those commands.
 */
module Plugin {
  import opened Wrappers
  import opened GoStrings
  import opened CfOutput
  import opened Cli

  type Command = seq<string>

  const Running := "running"

  /** `cf app` with everything after the plugin's own subcommand name. */
  function AppCommand(args: seq<string>): Command
    requires |args| >= 1
  {
    ["app"] + args[1..]
  }

  /** The query getInstanceStatus issues. */
  function StatusQuery(app: string): Command {
    ["app", app]
  }

  /** The command restartInstance issues for instance i. */
  function RestartCommand(app: string, i: nat): Command {
    ["restart-app-instance", app, Itoa(i)]
  }

  /** A reply whose rows the status parser reads, for any instance, without indexing past the end of a slice. */
  ghost predicate WellFormed(r: Reply) {
    forall i: nat :: StatusSafe(r.lines, i)
  }

  ghost predicate WellFormedScript(s: seq<Reply>) {
    forall p :: 0 <= p < |s| ==> WellFormed(s[p])
  }

  /** The replies left after some commands are as well formed as the whole script. */
  lemma WellFormedDrop(s: seq<Reply>, n: nat)
    requires WellFormedScript(s)
    ensures WellFormedScript(Drop(s, n))
  {
  }

  /** The status instance i reads as in reply r. */
  function StatusIn(r: Reply, i: nat): string
    requires WellFormed(r)
  {
    StatusOf(r.lines, i)
  }

  /** The position of the first reply in s in which instance i reads "running". */
  function FirstRunning(s: seq<Reply>, i: nat): (r: Option<nat>)
    requires WellFormedScript(s)
    ensures r.Some? ==> r.value < |s| && StatusIn(s[r.value], i) == Running
    ensures r.Some? ==> forall m :: 0 <= m < r.value ==> StatusIn(s[m], i) != Running
    ensures r.None? ==> forall m :: 0 <= m < |s| ==> StatusIn(s[m], i) != Running
    decreases |s|
  {
    if s == [] then None
    else if StatusIn(s[0], i) == Running then Some(0)
    else
      match FirstRunning(s[1..], i)
      case None => None
      case Some(k) => Some(k + 1)
  }

  /** What happened to one instance in the loop of RecycleCommand. */
  datatype Outcome =
    | Skipped                 // its status did not read "running"
    | RestartFailed           // the restart command returned an error, so nothing was polled
    | Restarted(polls: nat)   // restarted, then polled this many times until it read "running"

  datatype Visit = Visit(index: nat, status: string, outcome: Outcome)

  /**
   * What restartInstance does for instance i when s holds the replies from its
   * restart command on. None: no poll in the script reads "running", so the
   * poll loop would never end.
   */
  function RestartOutcome(s: seq<Reply>, i: nat): (r: Option<Outcome>)
    requires WellFormedScript(s)
    ensures r.Some? ==> !r.value.Skipped?
    ensures r == Some(RestartFailed) <==> Next(s).failed
  {
    if Next(s).failed then Some(RestartFailed)
    else
      match FirstRunning(Drop(s, 1), i)
      case None => None
      case Some(k) => Some(Restarted(k + 1))
  }

  /**
   * After a successful restart the number of polls is the position of the
   * first poll that reads "running"; the loop runs forever exactly when no
   * poll in the script does.
   */
  lemma RestartOutcomeSpec(s: seq<Reply>, i: nat)
    requires WellFormedScript(s)
    ensures var r := RestartOutcome(s, i);
      && (r.None? <==> !Next(s).failed && forall m :: 1 <= m < |s| ==> StatusIn(s[m], i) != Running)
      && (r.Some? && r.value.Restarted? ==>
          && 1 <= r.value.polls
          && StatusIn(ReplyAt(s, r.value.polls), i) == Running
          && forall m :: 1 <= m < r.value.polls ==> StatusIn(ReplyAt(s, m), i) != Running)
  {
    if !Next(s).failed {
      var t := Drop(s, 1);
      if RestartOutcome(s, i).None? {
        forall m | 1 <= m < |s| ensures StatusIn(s[m], i) != Running {
          assert s[m] == t[m - 1];
        }
      }
    }
  }

  /** How many replies an outcome uses up after the status query. */
  function OutcomeCost(o: Outcome): nat {
    match o
    case Skipped => 0
    case RestartFailed => 1
    case Restarted(n) => 1 + n
  }

  function Cost(v: Visit): nat {
    1 + OutcomeCost(v.outcome)
  }

  /** n copies of c. */
  function Repeat(c: Command, n: nat): (r: seq<Command>)
    ensures |r| == n && forall k :: 0 <= k < n ==> r[k] == c
  {
    if n == 0 then [] else Repeat(c, n - 1) + [c]
  }

  function OutcomeCommands(app: string, i: nat, o: Outcome): (r: seq<Command>)
    ensures |r| == OutcomeCost(o)
  {
    match o
    case Skipped => []
    case RestartFailed => [RestartCommand(app, i)]
    case Restarted(n) => [RestartCommand(app, i)] + Repeat(StatusQuery(app), n)
  }

  /** The commands one visit issues, one per reply it uses up. */
  function VisitCommands(app: string, v: Visit): (r: seq<Command>)
    ensures |r| == Cost(v)
  {
    [StatusQuery(app)] + OutcomeCommands(app, v.index, v.outcome)
  }

  /** A visit opens with its status query and, unless skipped, restarts its own instance next. */
  lemma VisitStart(app: string, v: Visit)
    ensures var w := VisitCommands(app, v);
      && 1 <= |w| && w[0] == StatusQuery(app)
      && (!v.outcome.Skipped? ==> 2 <= |w| && w[1] == RestartCommand(app, v.index))
  {
  }

  /** How many replies a run of visits uses up. */
  function Consumed(vs: seq<Visit>): nat {
    if vs == [] then 0 else Cost(vs[0]) + Consumed(vs[1..])
  }

  function Trace(app: string, vs: seq<Visit>): (r: seq<Command>)
    ensures |r| == Consumed(vs)
  {
    if vs == [] then [] else VisitCommands(app, vs[0]) + Trace(app, vs[1..])
  }

  lemma TraceCons(app: string, v: Visit, vs: seq<Visit>)
    ensures Trace(app, [v] + vs) == VisitCommands(app, v) + Trace(app, vs)
    ensures Consumed([v] + vs) == Cost(v) + Consumed(vs)
  {
    assert ([v] + vs)[1..] == vs;
  }

  /** One pass of the loop body for instance i, when s holds the replies from its status query on. */
  function VisitOne(s: seq<Reply>, i: nat): (r: Option<Visit>)
    requires WellFormedScript(s)
    ensures r.Some? ==> r.value.index == i && r.value.status == StatusIn(Next(s), i)
    ensures r.Some? ==> (r.value.outcome.Skipped? <==> r.value.status != Running)
    ensures r.None? ==> StatusIn(Next(s), i) == Running && RestartOutcome(Drop(s, 1), i).None?
  {
    var status := StatusIn(Next(s), i);
    if status != Running then Some(Visit(i, status, Skipped))
    else
      match RestartOutcome(Drop(s, 1), i)
      case None => None
      case Some(o) => Some(Visit(i, status, o))
  }

  /**
   * The visits the loop makes to instances i .. total - 1 against script s.
   * None: some poll loop never reads "running" within the script.
   */
  function Visits(s: seq<Reply>, i: nat, total: int): (r: Option<seq<Visit>>)
    requires WellFormedScript(s)
    ensures r.Some? ==> |r.value| == if i < total then total - i else 0
    ensures r.Some? ==> forall k :: 0 <= k < |r.value| ==> r.value[k].index == i + k
    ensures r.Some? ==> forall k :: 0 <= k < |r.value| ==>
      (r.value[k].outcome.Skipped? <==> r.value[k].status != Running)
    decreases total - i
  {
    if total <= i then Some([])
    else
      match VisitOne(s, i)
      case None => None
      case Some(v) =>
        match Visits(Drop(s, Cost(v)), i + 1, total)
        case None => None
        case Some(vs) => Some([v] + vs)
  }

  /**
   * The visits RecycleCommand makes against script s: none when the `cf app`
   * query fails, otherwise one per instance the count announces.
   */
  function Recycle(s: seq<Reply>): (r: Option<seq<Visit>>)
    requires WellFormedScript(s) && (!Next(s).failed ==> CountSafe(Next(s).lines))
    ensures Next(s).failed ==> r == Some([])
    ensures !Next(s).failed && r.Some? ==>
      var n := InstanceCount(Next(s).lines);
      |r.value| == if n > 0 then n else 0
  {
    if Next(s).failed then Some([])
    else Visits(Drop(s, 1), 0, InstanceCount(Next(s).lines))
  }

  /** The app name args[1], or "" when there is none; RecycleTrace uses it only for visits. */
  function AppName(args: seq<string>): string {
    if |args| >= 2 then args[1] else ""
  }

  /**
   * Every command RecycleCommand issues, in order. The app name args[1] is
   * read only once a visit is made, so a run without visits needs no app name.
   */
  function RecycleTrace(args: seq<string>, vs: seq<Visit>): seq<Command>
    requires |args| >= 1 && (vs != [] ==> |args| >= 2)
  {
    [AppCommand(args)] + Trace(AppName(args), vs)
  }

  /** A run opens with the count query and then issues one command per reply its visits use up. */
  lemma RecycleTraceShape(args: seq<string>, vs: seq<Visit>)
    requires |args| >= 1 && (vs != [] ==> |args| >= 2)
    ensures |RecycleTrace(args, vs)| == 1 + Consumed(vs)
    ensures RecycleTrace(args, vs)[0] == AppCommand(args)
  {
  }

  // ---------------------------------------------------------------------------
  // The routine
  // ---------------------------------------------------------------------------

  /** Asks `cf app` and reads the status of one instance; a failed query reads as its lines say. */
  method GetInstanceStatus(conn: Connection, instance: nat, appName: string) returns (status: string)
    requires WellFormedScript(conn.replies)
    modifies conn
    ensures status == StatusIn(Next(old(conn.replies)), instance)
    ensures conn.replies == Drop(old(conn.replies), 1)
    ensures conn.trace == old(conn.trace) + [StatusQuery(appName)]
  {
    var instanceStatus := conn.CliCommandWithoutTerminalOutput(StatusQuery(appName));
    status := ScanStatus(instanceStatus.lines, instance);
  }

  /** Restarts instance i once and, if that succeeds, polls it until it reads "running". */
  method RestartInstance(conn: Connection, args: seq<string>, i: nat)
    requires |args| >= 2
    requires WellFormedScript(conn.replies)
    requires RestartOutcome(conn.replies, i).Some?
    modifies conn
    ensures var o := RestartOutcome(old(conn.replies), i).value;
      && conn.trace == old(conn.trace) + OutcomeCommands(args[1], i, o)
      && conn.replies == Drop(old(conn.replies), OutcomeCost(o))
  {
    ghost var s0 := conn.replies;
    var reply := conn.CliCommandWithoutTerminalOutput(RestartCommand(args[1], i));
    if !reply.failed {
      ghost var k := FirstRunning(Drop(s0, 1), i).value;
      ghost var polls: nat := 0;
      var state := "";
      while state != Running
        invariant polls <= k + 1
        invariant conn.replies == Drop(s0, 1 + polls)
        invariant conn.trace == old(conn.trace) + [RestartCommand(args[1], i)] + Repeat(StatusQuery(args[1]), polls)
        invariant state == Running <==> polls == k + 1
        decreases k + 1 - polls
      {
        PollReads(s0, i, k, polls);
        state := GetInstanceStatus(conn, i, args[1]);
        DropDrop(s0, 1 + polls, 1);
        polls := polls + 1;
      }
      assert RestartOutcome(s0, i) == Some(Restarted(k + 1));
    }
  }

  /** The poll issued after `polls` earlier polls reads "running" exactly when it is the first that does. */
  lemma PollReads(s0: seq<Reply>, i: nat, k: nat, polls: nat)
    requires WellFormedScript(s0)
    requires FirstRunning(Drop(s0, 1), i) == Some(k) && polls <= k
    ensures WellFormedScript(Drop(s0, 1 + polls))
    ensures StatusIn(Next(Drop(s0, 1 + polls)), i) == Running <==> polls == k
  {
    assert Next(Drop(s0, 1 + polls)) == Drop(s0, 1)[polls];
  }

  /** The plugin's recycle subcommand. Its error result is never set. */
  method RecycleCommand(conn: Connection, args: seq<string>) returns (err: Option<string>)
    requires |args| >= 1
    requires WellFormedScript(conn.replies) && (!Next(conn.replies).failed ==> CountSafe(Next(conn.replies).lines))
    requires Recycle(conn.replies).Some?
    requires Recycle(conn.replies).value != [] ==> |args| >= 2
    modifies conn
    ensures var t := RecycleTrace(args, Recycle(old(conn.replies)).value);
      && conn.trace == old(conn.trace) + t
      && conn.replies == Drop(old(conn.replies), |t|)
    ensures err == None
  {
    err := None;
    ghost var s0 := conn.replies;
    var totalInstances := 0;
    var appStatus := conn.CliCommandWithoutTerminalOutput(AppCommand(args));
    if !appStatus.failed {
      totalInstances := ScanInstanceCount(appStatus.lines);
      assert Recycle(s0) == Visits(conn.replies, 0, totalInstances);
      ghost var t1 := conn.trace;
      VisitInstances(conn, args, totalInstances);
      TraceAfterQuery(args, old(conn.trace), t1, conn.trace, Recycle(s0).value);
      DropDrop(s0, 1, Consumed(Recycle(s0).value));
    } else {
      assert Recycle(s0) == Some([]);
      assert RecycleTrace(args, []) == [AppCommand(args)];
    }
  }

  /** The count query followed by the visits issues exactly RecycleTrace. */
  lemma TraceAfterQuery(args: seq<string>, t0: seq<Command>, t1: seq<Command>, t2: seq<Command>, vs: seq<Visit>)
    requires |args| >= 1 && (vs != [] ==> |args| >= 2)
    requires t1 == t0 + [AppCommand(args)] && t2 == t1 + Trace(AppName(args), vs)
    ensures t2 == t0 + RecycleTrace(args, vs)
  {
  }

  /**
   * The loop of RecycleCommand: visits instances 0 .. total - 1 in turn. The
   * app name args[1] is read only inside the loop, so it is needed only when
   * the loop runs.
   */
  method VisitInstances(conn: Connection, args: seq<string>, total: int)
    requires |args| >= 1 && (0 < total ==> |args| >= 2)
    requires WellFormedScript(conn.replies) && Visits(conn.replies, 0, total).Some?
    modifies conn
    ensures conn.trace == old(conn.trace) + Trace(AppName(args), Visits(old(conn.replies), 0, total).value)
    ensures conn.replies == Drop(old(conn.replies), Consumed(Visits(old(conn.replies), 0, total).value))
  {
    ghost var pending := Visits(conn.replies, 0, total).value;
    ghost var trace := conn.trace + Trace(AppName(args), pending);
    ghost var tail := Drop(conn.replies, Consumed(pending));
    var i: nat := 0;
    while i < total
      invariant WellFormedScript(conn.replies)
      invariant Visits(conn.replies, i, total) == Some(pending)
      invariant conn.trace + Trace(AppName(args), pending) == trace
      invariant Drop(conn.replies, Consumed(pending)) == tail
      decreases total - i
    {
      ghost var r, t0 := conn.replies, conn.trace;
      ghost var v := VisitStep(r, i, total);
      ghost var rest := Visits(Drop(r, Cost(v)), i + 1, total).value;
      VisitInstance(conn, args, i);
      LoopTrace(AppName(args), t0, conn.trace, v, rest, trace);
      LoopDrop(r, v, rest, tail);
      pending := rest;
      i := i + 1;
    }
    assert pending == [];
    LoopDone(AppName(args), conn.trace, conn.replies, trace, tail);
  }

  /** One turn of the loop: reads the status of instance i and restarts it if it is running. */
  method VisitInstance(conn: Connection, args: seq<string>, i: nat)
    requires |args| >= 2
    requires WellFormedScript(conn.replies) && VisitOne(conn.replies, i).Some?
    modifies conn
    ensures var v := VisitOne(old(conn.replies), i).value;
      && conn.trace == old(conn.trace) + VisitCommands(args[1], v)
      && conn.replies == Drop(old(conn.replies), Cost(v))
  {
    ghost var r, t0 := conn.replies, conn.trace;
    ghost var v := VisitOne(r, i).value;
    var state := GetInstanceStatus(conn, i, args[1]);
    ghost var tq := conn.trace;
    if state == Running {
      RestartInstance(conn, args, i);
      DropDrop(r, 1, OutcomeCost(v.outcome));
    } else {
      assert conn.trace == tq + OutcomeCommands(args[1], i, v.outcome);
    }
    VisitTrace(args[1], t0, tq, conn.trace, v);
  }

  /** The status query followed by what the outcome issued is the visit's command list. */
  lemma VisitTrace(app: string, t0: seq<Command>, tq: seq<Command>, t1: seq<Command>, v: Visit)
    requires tq == t0 + [StatusQuery(app)] && t1 == tq + OutcomeCommands(app, v.index, v.outcome)
    ensures t1 == t0 + VisitCommands(app, v)
  {
    AppendAssoc(t0, [StatusQuery(app)], OutcomeCommands(app, v.index, v.outcome));
  }

  /** What one turn of the loop issued, moved from the pending visits to the trace so far. */
  lemma LoopTrace(app: string, t0: seq<Command>, t1: seq<Command>, v: Visit, rest: seq<Visit>, trace: seq<Command>)
    requires t1 == t0 + VisitCommands(app, v)
    requires t0 + Trace(app, [v] + rest) == trace
    ensures t1 + Trace(app, rest) == trace
  {
    TraceCons(app, v, rest);
    AppendAssoc(t0, VisitCommands(app, v), Trace(app, rest));
  }

  /** Once no visit is pending, the trace and the replies are the ones aimed for. */
  lemma LoopDone(app: string, t: seq<Command>, rs: seq<Reply>, trace: seq<Command>, tail: seq<Reply>)
    requires t + Trace(app, []) == trace && Drop(rs, Consumed([])) == tail
    ensures t == trace && rs == tail
  {
    assert Trace(app, []) == [];
  }

  /** What one turn of the loop used up, moved from the pending visits to the replies left. */
  lemma LoopDrop(r: seq<Reply>, v: Visit, rest: seq<Visit>, tail: seq<Reply>)
    requires Drop(r, Consumed([v] + rest)) == tail
    ensures Drop(Drop(r, Cost(v)), Consumed(rest)) == tail
  {
    TraceCons("", v, rest);
    DropDrop(r, Cost(v), Consumed(rest));
  }

  lemma AppendAssoc<T>(a: seq<T>, b: seq<T>, c: seq<T>)
    ensures (a + b) + c == a + (b + c)
  {
  }

  /** One turn of the loop in RecycleCommand: the first visit of the remaining ones, and what it uses up. */
  lemma VisitStep(r: seq<Reply>, i: nat, total: int) returns (v: Visit)
    requires WellFormedScript(r) && i < total && Visits(r, i, total).Some?
    ensures VisitOne(r, i) == Some(v)
    ensures WellFormedScript(Drop(r, 1)) && WellFormedScript(Drop(r, Cost(v)))
    ensures Visits(Drop(r, Cost(v)), i + 1, total).Some?
    ensures Visits(r, i, total).value == [v] + Visits(Drop(r, Cost(v)), i + 1, total).value
    ensures v.status == StatusIn(Next(r), i)
    ensures v.status != Running ==> v.outcome == Skipped
    ensures v.status == Running ==> RestartOutcome(Drop(r, 1), i) == Some(v.outcome)
  {
    v := VisitOne(r, i).value;
  }

  /** The plugin's entry point: only the "recycle" subcommand does anything. */
  method Run(conn: Connection, args: seq<string>)
    requires |args| >= 1
    requires args[0] == "recycle" ==>
      && WellFormedScript(conn.replies) && (!Next(conn.replies).failed ==> CountSafe(Next(conn.replies).lines))
      && Recycle(conn.replies).Some?
      && (Recycle(conn.replies).value != [] ==> |args| >= 2)
    modifies conn
    ensures args[0] != "recycle" ==> conn.trace == old(conn.trace) && conn.replies == old(conn.replies)
    ensures args[0] == "recycle" ==>
      var t := RecycleTrace(args, Recycle(old(conn.replies)).value);
      conn.trace == old(conn.trace) + t && conn.replies == Drop(old(conn.replies), |t|)
  {
    if args[0] == "recycle" {
      var _ := RecycleCommand(conn, args);
    }
  }
}
