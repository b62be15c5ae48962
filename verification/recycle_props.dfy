/**
 * What the recycle routine does, read off its trace and its script: which
 * instances it restarts, in which order, how often it polls, and that it
 * finishes one instance before it touches the next.
 */
module RecycleProps {
  import opened Wrappers
  import opened GoStrings
  import opened CfOutput
  import opened Cli
  import opened Plugin

  // ---------------------------------------------------------------------------
  // The `cf app` query
  // ---------------------------------------------------------------------------

  /** If `cf app` fails or prints no count line, nothing follows the query: no status query and no restart. */
  lemma NoCountNoCommands(s: seq<Reply>, args: seq<string>)
    requires |args| >= 1 && WellFormedScript(s) && (!Next(s).failed ==> CountSafe(Next(s).lines))
    requires Next(s).failed || forall k :: 0 <= k < |Next(s).lines| ==> !IsCountLine(Next(s).lines[k])
    ensures Recycle(s) == Some([])
    ensures RecycleTrace(args, Recycle(s).value) == [AppCommand(args)]
  {
    if !Next(s).failed {
      NoCountLineMeansZero(Next(s).lines);
    }
  }

  // ---------------------------------------------------------------------------
  // Traces of runs of visits
  // ---------------------------------------------------------------------------

  lemma {:induction false} TraceAppend(app: string, a: seq<Visit>, b: seq<Visit>)
    ensures Trace(app, a + b) == Trace(app, a) + Trace(app, b)
    ensures Consumed(a + b) == Consumed(a) + Consumed(b)
    decreases |a|
  {
    if a == [] {
      assert a + b == b;
    } else {
      assert a + b == [a[0]] + (a[1..] + b);
      assert a == [a[0]] + a[1..];
      TraceCons(app, a[0], a[1..] + b);
      TraceCons(app, a[0], a[1..]);
      TraceAppend(app, a[1..], b);
      AppendAssoc(VisitCommands(app, a[0]), Trace(app, a[1..]), Trace(app, b));
    }
  }

  /** The commands of visit k sit in the trace right after those of the visits before it. */
  lemma TraceAt(app: string, vs: seq<Visit>, k: nat)
    requires k < |vs|
    ensures var p := Consumed(vs[..k]);
      && p + Cost(vs[k]) <= |Trace(app, vs)|
      && Trace(app, vs)[p..p + Cost(vs[k])] == VisitCommands(app, vs[k])
  {
    assert vs == vs[..k] + ([vs[k]] + vs[k + 1..]);
    TraceAppend(app, vs[..k], [vs[k]] + vs[k + 1..]);
    TraceCons(app, vs[k], vs[k + 1..]);
    AppendAssoc(Trace(app, vs[..k]), VisitCommands(app, vs[k]), Trace(app, vs[k + 1..]));
  }

  /** Visits numbered consecutively from i. */
  predicate Consecutive(vs: seq<Visit>, i: nat) {
    forall k :: 0 <= k < |vs| ==> vs[k].index == i + k
  }

  /** The restart commands one visit issues: one for its own instance, unless it was skipped. */
  lemma RestartsOfVisit(app: string, v: Visit, j: nat)
    ensures multiset(VisitCommands(app, v))[RestartCommand(app, j)]
         == if v.index == j && !v.outcome.Skipped? then 1 else 0
  {
    var rc := RestartCommand(app, j);
    assert StatusQuery(app) != rc by {
      assert |StatusQuery(app)| != |rc|;
    }
    ItoaInjective(v.index, j);
    assert RestartCommand(app, v.index) == rc <==> v.index == j by {
      assert RestartCommand(app, v.index)[2] == Itoa(v.index);
      assert rc[2] == Itoa(j);
    }
    match v.outcome
    case Skipped =>
    case RestartFailed =>
    case Restarted(n) =>
      var polls := Repeat(StatusQuery(app), n);
      assert rc !in polls;
      assert multiset(polls)[rc] == 0;
  }

  lemma CountSplit<T>(a: seq<T>, b: seq<T>, x: T)
    ensures multiset(a + b)[x] == multiset(a)[x] + multiset(b)[x]
  {
  }

  /** A run of visits restarts each instance it restarts exactly once, and only those it did not skip. */
  lemma {:induction false} RestartsOnce(app: string, vs: seq<Visit>, i: nat, j: nat)
    requires Consecutive(vs, i)
    ensures multiset(Trace(app, vs))[RestartCommand(app, j)]
         == if i <= j < i + |vs| && !vs[j - i].outcome.Skipped? then 1 else 0
    decreases |vs|
  {
    if vs != [] {
      ConsecutiveSlice(vs, i, 1, |vs|);
      RestartsOfVisit(app, vs[0], j);
      RestartsOnce(app, vs[1..], i + 1, j);
      TraceCount(app, vs, RestartCommand(app, j));
      RestartedCons(vs, i, j);
    }
  }

  /** A command occurs in a trace as often as in its first visit's commands and the rest together. */
  lemma TraceCount(app: string, vs: seq<Visit>, c: Command)
    requires vs != []
    ensures multiset(Trace(app, vs))[c]
         == multiset(VisitCommands(app, vs[0]))[c] + multiset(Trace(app, vs[1..]))[c]
  {
    CountSplit(VisitCommands(app, vs[0]), Trace(app, vs[1..]), c);
  }

  /** Whether instance j is restarted, split into the first visit and the rest. */
  lemma RestartedCons(vs: seq<Visit>, i: nat, j: nat)
    requires Consecutive(vs, i) && vs != []
    ensures (if i <= j < i + |vs| && !vs[j - i].outcome.Skipped? then 1 else 0)
         == (if vs[0].index == j && !vs[0].outcome.Skipped? then 1 else 0)
          + (if i + 1 <= j < i + |vs| && !vs[1..][j - (i + 1)].outcome.Skipped? then 1 else 0)
  {
    assert vs[0].index == i;
    if i < j < i + |vs| {
      assert vs[1..][j - (i + 1)] == vs[j - i];
    }
  }

  /**
   * Restarts are serial: what visit k issues (its restart and every poll up to
   * the one reading "running") and everything before it restarts only
   * instances up to i + k, and everything after it restarts only later ones.
   */
  lemma OneAtATime(app: string, vs: seq<Visit>, i: nat, k: nat, j: nat)
    requires Consecutive(vs, i) && k < |vs|
    ensures Trace(app, vs) == Trace(app, vs[..k + 1]) + Trace(app, vs[k + 1..])
    ensures RestartCommand(app, j) in Trace(app, vs[..k + 1]) ==> j <= i + k
    ensures RestartCommand(app, j) in Trace(app, vs[k + 1..]) ==> i + k < j
  {
    TraceSplit(app, vs, k + 1);
    RestartsIn(app, vs[..k + 1], i, j);
    RestartsIn(app, vs[k + 1..], i + k + 1, j);
  }

  lemma TraceSplit(app: string, vs: seq<Visit>, k: nat)
    requires k <= |vs|
    ensures Trace(app, vs) == Trace(app, vs[..k]) + Trace(app, vs[k..])
  {
    assert vs == vs[..k] + vs[k..];
    TraceAppend(app, vs[..k], vs[k..]);
  }

  /** A run of visits numbered from i restarts only instances it numbers. */
  lemma RestartsIn(app: string, vs: seq<Visit>, i: nat, j: nat)
    requires Consecutive(vs, i)
    ensures RestartCommand(app, j) in Trace(app, vs) ==> i <= j < i + |vs|
  {
    RestartsOnce(app, vs, i, j);
    if !(i <= j < i + |vs|) {
      AbsentIfUncounted(Trace(app, vs), RestartCommand(app, j));
    }
  }

  lemma ConsecutiveSlice(vs: seq<Visit>, i: nat, a: nat, b: nat)
    requires Consecutive(vs, i) && a <= b <= |vs|
    ensures Consecutive(vs[a..b], i + a)
  {
    forall k | 0 <= k < b - a ensures vs[a..b][k].index == i + a + k {
      assert vs[a..b][k] == vs[a + k];
    }
  }

  lemma AbsentIfUncounted<T>(t: seq<T>, x: T)
    requires multiset(t)[x] == 0
    ensures x !in t
  {
  }

  // ---------------------------------------------------------------------------
  // Visits against the script
  // ---------------------------------------------------------------------------

  /**
   * After the first k visits, the rest of the run is the run that starts at
   * instance i + k against the replies the first k visits left unread.
   */
  lemma {:induction false} VisitsAt(s: seq<Reply>, i: nat, total: int, vs: seq<Visit>, k: nat, j: nat)
    requires WellFormedScript(s) && Visits(s, i, total) == Some(vs) && k <= |vs|
    requires j == i + k
    ensures var d := Drop(s, Consumed(vs[..k]));
      WellFormedScript(d) && Visits(d, j, total) == Some(vs[k..])
    decreases k
  {
    if k == 0 {
      DropNone(s);
      assert vs[..k] == [] && vs[k..] == vs;
    } else {
      var v := VisitStep(s, i, total);
      var s' := Drop(s, Cost(v));
      var rest := Visits(s', i + 1, total).value;
      VisitsAt(s', i + 1, total, rest, k - 1, j);
      DropAfterFirst(s, v, rest, k);
    }
  }

  lemma DropNone(s: seq<Reply>)
    ensures Drop(s, 0) == s
  {
  }

  /** Dropping the replies of the first k visits is dropping those of the first, then those of the next k - 1. */
  lemma DropAfterFirst(s: seq<Reply>, v: Visit, rest: seq<Visit>, k: nat)
    requires 1 <= k <= |rest| + 1
    ensures Drop(s, Consumed(([v] + rest)[..k])) == Drop(Drop(s, Cost(v)), Consumed(rest[..k - 1]))
    ensures ([v] + rest)[k..] == rest[k - 1..]
  {
    PrefixConsumed(v, rest, k);
    DropDrop(s, Cost(v), Consumed(rest[..k - 1]));
  }

  lemma PrefixConsumed(v: Visit, rest: seq<Visit>, k: nat)
    requires 1 <= k <= |rest| + 1
    ensures Consumed(([v] + rest)[..k]) == Cost(v) + Consumed(rest[..k - 1])
  {
    assert ([v] + rest)[..k] == [v] + rest[..k - 1];
    TraceCons("", v, rest[..k - 1]);
  }

  /** The replies after the first p are the script's from position p on. */
  lemma Shifted(s: seq<Reply>, p: nat)
    ensures forall m :: ReplyAt(Drop(s, p), m) == ReplyAt(s, p + m)
  {
    forall m ensures ReplyAt(Drop(s, p), m) == ReplyAt(s, p + m) {
      ReplyAtDrop(s, p, m);
    }
  }

  /** One visit against script d: what it reads from d's replies and what it does. */
  lemma VisitOneReads(d: seq<Reply>, j: nat, v: Visit)
    requires WellFormedScript(d) && VisitOne(d, j) == Some(v)
    ensures v.index == j && v.status == StatusIn(ReplyAt(d, 0), j)
    ensures v.outcome.Skipped? <==> v.status != Running
    ensures v.outcome == RestartFailed <==> v.status == Running && ReplyAt(d, 1).failed
    ensures v.outcome.Restarted? ==> PollsRead(d, 1, j, v.outcome.polls)
  {
    if v.outcome.Restarted? {
      RestartPolls(d, Drop(d, 1), j, v.outcome.polls);
    }
  }

  /** A restart that polled n times read its replies at 1 .. 1 + n of d. */
  lemma RestartPolls(d: seq<Reply>, e: seq<Reply>, j: nat, n: nat)
    requires WellFormedScript(d) && e == Drop(d, 1) && WellFormedScript(e)
    requires RestartOutcome(e, j) == Some(Restarted(n))
    ensures PollsRead(d, 1, j, n)
  {
    RestartOutcomeSpec(e, j);
    Shifted(d, 1);
    forall m | 2 <= m < 1 + n
      ensures StatusIn(ReplyAt(d, m), j) != Running
    {
      assert ReplyAt(e, m - 1) == ReplyAt(d, m);
    }
  }

  // ---------------------------------------------------------------------------
  // The whole routine
  // ---------------------------------------------------------------------------

  /**
   * RecycleCommand visits instances 0 .. n - 1 in ascending order, n being the
   * announced count (none when `cf app` fails), and skips exactly those whose
   * status does not read "running".
   */
  lemma RecycleVisitsInOrder(s: seq<Reply>)
    requires WellFormedScript(s) && (!Next(s).failed ==> CountSafe(Next(s).lines)) && Recycle(s).Some?
    ensures var vs := Recycle(s).value;
      var n := if Next(s).failed then 0 else InstanceCount(Next(s).lines);
      && |vs| == (if n > 0 then n else 0)
      && Consecutive(vs, 0)
      && forall k :: 0 <= k < |vs| ==> (vs[k].outcome.Skipped? <==> vs[k].status != Running)
  {
  }

  /**
   * The commands of visit k sit at positions q .. q + Cost - 1 of the trace of
   * RecycleCommand, q = 1 + Consumed(vs[..k]). When `cf app` succeeds the
   * visits are Visits(Drop(s, 1), 0, n), so by VisitsAt visit k is made against
   * Drop(s, q): the reply at each position of the script answers the command at
   * the same position of the trace.
   */
  lemma RecycleTraceAt(args: seq<string>, vs: seq<Visit>, k: nat)
    requires |args| >= 2 && k < |vs|
    ensures var q := 1 + Consumed(vs[..k]);
      && q + Cost(vs[k]) <= |RecycleTrace(args, vs)|
      && RecycleTrace(args, vs)[q..q + Cost(vs[k])] == VisitCommands(args[1], vs[k])
  {
    TraceAt(args[1], vs, k);
    SliceBehind(AppCommand(args), Trace(args[1], vs), Consumed(vs[..k]), VisitCommands(args[1], vs[k]));
  }

  lemma SliceBehind<T>(head: T, t: seq<T>, c: nat, w: seq<T>)
    requires c + |w| <= |t| && t[c..c + |w|] == w
    ensures 1 + c + |w| <= |[head] + t| && ([head] + t)[1 + c..1 + c + |w|] == w
  {
    assert ([head] + t)[1 + c..1 + c + |w|] == t[c..c + |w|];
  }

  /**
   * The reply at each position answers the command at that position. For
   * visit k of a run that went ahead after `cf app`, with q = 1 +
   * Consumed(vs[..k]): position q of the trace holds its status query and the
   * reply at q is the one its status was read from; a running instance's
   * restart command follows at q + 1, and it counts as failed exactly when the
   * reply at q + 1 is an error; after a successful restart the n polls sit at
   * q + 2 .. q + 1 + n and read the replies there, the last one "running".
   */
  lemma QueryAnswered(s: seq<Reply>, args: seq<string>, n: int, vs: seq<Visit>, k: nat)
    requires |args| >= 2 && WellFormedScript(s)
    requires Visits(Drop(s, 1), 0, n) == Some(vs) && k < |vs|
    ensures var q := 1 + Consumed(vs[..k]);
      var t := RecycleTrace(args, vs);
      && q < |t| && t[q] == StatusQuery(args[1])
      && vs[k].status == StatusIn(ReplyAt(s, q), k)
      && (vs[k].status == Running ==>
          && q + 1 < |t| && t[q + 1] == RestartCommand(args[1], k)
          && (vs[k].outcome == RestartFailed <==> ReplyAt(s, q + 1).failed))
      && (vs[k].outcome.Restarted? ==>
          var polls := vs[k].outcome.polls;
          && q + 1 + polls < |t|
          && (forall m :: q + 2 <= m <= q + 1 + polls ==> t[m] == StatusQuery(args[1]))
          && PollsRead(s, q + 1, k, polls))
  {
    CommandsAt(args, vs, k);
    if vs[k].outcome.Restarted? {
      PollCommandsAt(args, vs, k);
    }
    RepliesAt(s, n, vs, k);
  }

  /** After a successful restart, the polls of visit k follow its restart command in the trace. */
  lemma PollCommandsAt(args: seq<string>, vs: seq<Visit>, k: nat)
    requires |args| >= 2 && k < |vs| && vs[k].outcome.Restarted?
    ensures var q := 1 + Consumed(vs[..k]);
      var t := RecycleTrace(args, vs);
      var polls := vs[k].outcome.polls;
      && q + 1 + polls < |t|
      && forall m :: q + 2 <= m <= q + 1 + polls ==> t[m] == StatusQuery(args[1])
  {
    var q := 1 + Consumed(vs[..k]);
    var t := RecycleTrace(args, vs);
    var polls := vs[k].outcome.polls;
    RecycleTraceAt(args, vs, k);
    var w := VisitCommands(args[1], vs[k]);
    forall m | q + 2 <= m <= q + 1 + polls
      ensures t[m] == StatusQuery(args[1])
    {
      SliceAt(t, q, w, m - q);
      assert w[m - q] == Repeat(StatusQuery(args[1]), polls)[m - q - 2];
    }
  }

  /** Position q of the trace holds visit k's status query, followed by its restart unless it was skipped. */
  lemma CommandsAt(args: seq<string>, vs: seq<Visit>, k: nat)
    requires |args| >= 2 && k < |vs|
    ensures var q := 1 + Consumed(vs[..k]);
      var t := RecycleTrace(args, vs);
      && q < |t| && t[q] == StatusQuery(args[1])
      && (!vs[k].outcome.Skipped? ==> q + 1 < |t| && t[q + 1] == RestartCommand(args[1], vs[k].index))
  {
    var c := Consumed(vs[..k]);
    var t := RecycleTrace(args, vs);
    RecycleTraceAt(args, vs, k);
    var w := VisitCommands(args[1], vs[k]);
    VisitStart(args[1], vs[k]);
    SliceAt(t, 1 + c, w, 0);
    if !vs[k].outcome.Skipped? {
      SliceAt(t, 1 + c, w, 1);
    }
  }

  /** Visit k after `cf app` reads its status from the reply at q and its restart result from the one at q + 1. */
  lemma RepliesAt(s: seq<Reply>, n: int, vs: seq<Visit>, k: nat)
    requires WellFormedScript(s)
    requires Visits(Drop(s, 1), 0, n) == Some(vs) && k < |vs|
    ensures var q := 1 + Consumed(vs[..k]);
      && vs[k].index == k
      && vs[k].status == StatusIn(ReplyAt(s, q), k)
      && (vs[k].outcome.Skipped? <==> vs[k].status != Running)
      && (vs[k].outcome == RestartFailed <==> vs[k].status == Running && ReplyAt(s, q + 1).failed)
      && (vs[k].outcome.Restarted? ==> PollsRead(s, q + 1, k, vs[k].outcome.polls))
  {
    WellFormedDrop(s, 1);
    ReadsAt(s, n, vs, k);
  }

  lemma ReadsAt(s: seq<Reply>, n: int, vs: seq<Visit>, k: nat)
    requires WellFormedScript(s) && WellFormedScript(Drop(s, 1))
    requires Visits(Drop(s, 1), 0, n) == Some(vs) && k < |vs|
    ensures var q := 1 + Consumed(vs[..k]);
      && vs[k].index == k
      && vs[k].status == StatusIn(ReplyAt(s, q), k)
      && (vs[k].outcome.Skipped? <==> vs[k].status != Running)
      && (vs[k].outcome == RestartFailed <==> vs[k].status == Running && ReplyAt(s, q + 1).failed)
      && (vs[k].outcome.Restarted? ==> PollsRead(s, q + 1, k, vs[k].outcome.polls))
  {
    var c := Consumed(vs[..k]);
    var d := Drop(Drop(s, 1), c);
    VisitsAt(Drop(s, 1), 0, n, vs, k, k);
    HeadReads(d, k, n, vs[k..]);
    ShiftReads(s, c, d, vs[k..][0], k);
    if vs[k..][0].outcome.Restarted? {
      ShiftPolls(s, c, d, k, vs[k..][0].outcome.polls);
    }
    assert vs[k..][0] == vs[k];
  }

  /**
   * After a restart whose reply is at position r, the n polls read the replies
   * at r + 1 .. r + n: the restart succeeded, the last poll reads "running" and
   * none before it does.
   */
  ghost predicate PollsRead(s: seq<Reply>, r: nat, j: nat, n: nat)
    requires WellFormedScript(s)
  {
    && 1 <= n && !ReplyAt(s, r).failed
    && StatusIn(ReplyAt(s, r + n), j) == Running
    && forall m :: r + 1 <= m < r + n ==> StatusIn(ReplyAt(s, m), j) != Running
  }

  lemma ShiftReads(s: seq<Reply>, c: nat, d: seq<Reply>, v: Visit, j: nat)
    requires WellFormedScript(s) && WellFormedScript(d) && d == Drop(Drop(s, 1), c)
    requires v.status == StatusIn(ReplyAt(d, 0), j)
    requires v.outcome == RestartFailed <==> v.status == Running && ReplyAt(d, 1).failed
    ensures v.status == StatusIn(ReplyAt(s, 1 + c), j)
    ensures v.outcome == RestartFailed <==> v.status == Running && ReplyAt(s, 1 + c + 1).failed
  {
    ReplyAtDrop(Drop(s, 1), c, 0);
    ReplyAtDrop(Drop(s, 1), c, 1);
    ReplyAtDrop(s, 1, c);
    ReplyAtDrop(s, 1, c + 1);
  }

  lemma ShiftPolls(s: seq<Reply>, c: nat, d: seq<Reply>, j: nat, n: nat)
    requires WellFormedScript(s) && WellFormedScript(d) && d == Drop(Drop(s, 1), c)
    requires PollsRead(d, 1, j, n)
    ensures PollsRead(s, 1 + c + 1, j, n)
  {
    DropDrop(s, 1, c);
    Shifted(s, 1 + c);
    forall m | 1 + c + 2 <= m < 1 + c + 1 + n
      ensures StatusIn(ReplyAt(s, m), j) != Running
    {
      assert ReplyAt(d, m - (1 + c)) == ReplyAt(s, m);
    }
  }

  /** The first visit of a run reads its status from the first reply and its restart result from the second. */
  lemma HeadReads(d: seq<Reply>, j: nat, total: int, ws: seq<Visit>)
    requires WellFormedScript(d) && Visits(d, j, total) == Some(ws) && ws != []
    ensures ws[0].index == j && ws[0].status == StatusIn(ReplyAt(d, 0), j)
    ensures ws[0].outcome.Skipped? <==> ws[0].status != Running
    ensures ws[0].outcome == RestartFailed <==> ws[0].status == Running && ReplyAt(d, 1).failed
    ensures ws[0].outcome.Restarted? ==> PollsRead(d, 1, j, ws[0].outcome.polls)
  {
    var v := VisitStep(d, j, total);
    VisitOneReads(d, j, v);
  }

  lemma SliceAt<T>(t: seq<T>, q: nat, w: seq<T>, m: nat)
    requires q + |w| <= |t| && t[q..q + |w|] == w && m < |w|
    ensures t[q + m] == w[m]
  {
    assert t[q..q + |w|][m] == t[q + m];
  }

  /** RecycleCommand restarts instance j once if its status read "running", and otherwise never. */
  lemma RecycleRestarts(s: seq<Reply>, args: seq<string>, j: nat)
    requires |args| >= 2 && WellFormedScript(s) && (!Next(s).failed ==> CountSafe(Next(s).lines)) && Recycle(s).Some?
    ensures var vs := Recycle(s).value;
      multiset(RecycleTrace(args, vs))[RestartCommand(args[1], j)]
        == if j < |vs| && vs[j].status == Running then 1 else 0
  {
    var vs := Recycle(s).value;
    var rc := RestartCommand(args[1], j);
    RecycleVisitsInOrder(s);
    RestartsOnce(args[1], vs, 0, j);
    assert AppCommand(args) != rc by {
      assert AppCommand(args)[0] != rc[0];
    }
    CountSplit([AppCommand(args)], Trace(args[1], vs), rc);
  }
}
