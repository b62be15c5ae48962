# cf-recycle-plugin: the recycle routine in Dafny

The cf CLI plugin `cf recycle <app>` restarts the instances of a Cloud Foundry
application one at a time. It works in three steps:

1. It runs `cf app <app>` and takes the instance count from the `instances: a/b` line.
2. It walks the instances 0 .. count - 1 in order. For each one it runs `cf app <app>` again and reads that instance's state from its `#i <state> ...` row.
3. If the state reads `running`, it issues `cf restart-app-instance <app> i` once. If that command succeeds, it polls the instance's state until it reads `running` again, and only then moves on.

This project models that routine and proves what it does.

The CLI connection is a scripted oracle: the `Cli.Connection` class. It hands
out the next reply of a fixed script (output lines plus an error flag) for
each command and records every command in a ghost trace. Once the script is
used up, every further command gets no lines and no error.

The model has six files:

- `wrappers.dfy` (module `Wrappers`): the `Option` type used for results that may be absent.
- `go_strings.dfy` (module `GoStrings`): the parts of Go's `strings` and
  `strconv` packages the routine uses: `TrimSpace`, `HasPrefix`, `TrimPrefix`,
  `Split`, `Fields`, `Itoa` and `Atoi`.
- `cf_output.dfy` (module `CfOutput`): the two line scanners.
  - The pure functions `InstanceCount` and `StatusOf` state what each scanner
    settles on.
  - The methods `ScanInstanceCount` and `ScanStatus` are the loops themselves,
    proved equal to those functions.
- `cli.dfy` (module `Cli`): replies, scripts and the connection class.
- `recycle.dfy` (module `Plugin`): the routine itself.
  - Specification functions: `Visits` and `Recycle` say which visit the loop
    makes to each instance, for a given script. `RecycleTrace` says which
    commands it issues.
  - Imperative methods: `RecycleCommand`, `VisitInstances`, `VisitInstance`,
    `RestartInstance`, `GetInstanceStatus` and `Run`. They are proved to issue
    exactly `RecycleTrace` and to use up exactly that many replies.
- `recycle_props.dfy` (module `RecycleProps`): properties of the trace and the
  script. They cover:
  - which instances are restarted, and how often;
  - the order of the visits;
  - that one restart finishes before the next begins;
  - that the reply at each position of the script answers the command at the
    same position of the trace.

A Go panic makes a precondition:

- a count line without `/` in a successful `cf app` reply (a failed reply is never scanned);
- a `#i` row with a single field;
- no app name (`args[1]`) when the loop runs: the name is first read inside the loop, at `cf_recycle_plugin.go:87` and `:101`. A bare `cf recycle` whose `cf app` query fails or announces no instances issues only that query and returns.

The unbounded poll loop is modelled against the finite script. `RestartOutcome`,
`Visits` and `Recycle` return `None` when some poll loop would never read
`running` within the script. The methods require `Recycle(script).Some?`, and
the number of polls is the position of the first poll reply that reads
`running`.

When `cf app` succeeds, `Recycle(s)` is `Visits(Drop(s, 1), 0, n)`, where `n`
is the count the first reply announces. So the lemmas stated over `Visits`
(`QueryAnswered`, `VisitsAt`) apply to a whole run.

The routine's error result is never set. `err` is redeclared by `:=` inside
the `if` at `cf_recycle_plugin.go:76`, so the named result tested at line 93
stays nil. `RecycleCommand` therefore ensures `err == None`.

The routine does not check that the instance it polls has been restarted
anew: any `running` reading ends the poll. It does not check the app's state
before it starts. A failed restart command does not stop the run: that instance
is simply not polled, and the loop goes on with the next index.

## Model

| member | source | states |
|---|---|---|
| GoStrings.TrimLeft | cf_recycle_plugin.go:79 | trimming never lengthens a string |
| GoStrings.TrimLeftSpec | cf_recycle_plugin.go:79 | TrimLeft removes exactly the leading white space: the result is a suffix, everything cut is space, and the result does not start with space |
| GoStrings.TrimRightSpec | cf_recycle_plugin.go:79 | TrimRight removes exactly the trailing white space |
| GoStrings.TrimSpaceSpec | cf_recycle_plugin.go:79 | strings.TrimSpace leaves no space at either end, and is empty exactly for all-space input |
| GoStrings.TrimSpaceOfTrimmed | cf_recycle_plugin.go:118 | a string with no space at either end is left unchanged by TrimSpace |
| GoStrings.TrimPrefix | cf_recycle_plugin.go:81 | strings.TrimPrefix: with the prefix present, prefix + result is the input; otherwise the input is returned unchanged |
| GoStrings.IndexByte | cf_recycle_plugin.go:81 | the position of the first separator, or -1 exactly when it is absent |
| GoStrings.Split | cf_recycle_plugin.go:81 | strings.Split gives at least one piece, and two or more exactly when the separator occurs (so `instances[1]` is in range exactly then) |
| GoStrings.SplitPieces | cf_recycle_plugin.go:81 | no piece of a split contains the separator |
| GoStrings.JoinSplit | cf_recycle_plugin.go:81 | joining the pieces of a split with the separator gives back the input |
| GoStrings.SplitFirst | cf_recycle_plugin.go:81 | a split is the text before the first separator followed by the split of the rest |
| GoStrings.SplitJoin | cf_recycle_plugin.go:81 | splitting separator-free pieces joined by the separator gives back the pieces |
| GoStrings.Word | cf_recycle_plugin.go:119 | the first word is a prefix of the string, and non-empty when the string starts with a non-space character |
| GoStrings.WordSpec | cf_recycle_plugin.go:119 | the first word is the longest space-free prefix |
| GoStrings.FieldsSpec | cf_recycle_plugin.go:119 | every field of strings.Fields is non-empty and space-free |
| GoStrings.FieldsUnwords | cf_recycle_plugin.go:119 | the fields of words joined by single spaces are those words |
| GoStrings.FieldsCons | cf_recycle_plugin.go:119 | a space-free word followed by white space or nothing is the first field |
| GoStrings.WordOf | cf_recycle_plugin.go:119 | a space-free prefix followed by white space or the end is the first word |
| GoStrings.FieldsSkipSpace | cf_recycle_plugin.go:119 | leading white space does not change the fields |
| GoStrings.DigitChar | cf_recycle_plugin.go:101 | the digit character for d is a decimal digit of value d |
| GoStrings.ItoaSpec | cf_recycle_plugin.go:101 | strconv.Itoa prints a non-empty string of decimal digits whose value is n, with a leading zero only for 0 |
| GoStrings.Atoi | cf_recycle_plugin.go:82 | strconv.Atoi with its error discarded: a non-zero result only comes from text that ends in a digit, so empty text, a bare sign and text ending otherwise read as 0 (the rest of the "any other text gives 0" half is AtoiRejects; the value half is AtoiItoa and AtoiSigned) |
| GoStrings.AtoiSigned | cf_recycle_plugin.go:82 | a `+` or `-` in front of a printed number reads back as that number with its sign |
| GoStrings.AtoiRejects | cf_recycle_plugin.go:82 | a character that is neither a digit nor a leading sign makes the text read as 0 |
| GoStrings.AtoiItoa | cf_recycle_plugin.go:82 | strconv.Atoi reads back what Itoa printed |
| GoStrings.ItoaInjective | cf_recycle_plugin.go:120 | different numbers print differently, in both directions |
| CfOutput.InstanceCount | cf_recycle_plugin.go:78-84 | the count the scan settles on, every count line overwriting the last: what the last count line announces, or 0 without one (stated by InstanceCountIsLastCountLine and NoCountLineMeansZero) |
| CfOutput.NoCountLineMeansZero | cf_recycle_plugin.go:71-84 | without a line that starts, once trimmed, with `instances: `, the count stays 0 |
| CfOutput.InstanceCountIsLastCountLine | cf_recycle_plugin.go:78-84 | the count is what the last count line gives: Atoi of the text after its first `/`, up to the next `/` |
| CfOutput.CountLineRoundTrip | cf_recycle_plugin.go:79-82 | the printed line `instances: a/b` is a count line, does not panic, and reads back as b |
| CfOutput.RowStateIsWord | cf_recycle_plugin.go:121 | the state taken from a row is one non-empty space-free word |
| CfOutput.StatusOf | cf_recycle_plugin.go:117-123 | the status getInstanceStatus settles on, every `#i` row overwriting the last: the second field of the last such row, or "" without one (stated by StatusIsLastRow and NoRowMeansEmpty) |
| CfOutput.NoRowMeansEmpty | cf_recycle_plugin.go:117-125 | without a row whose first field is `#i`, the status is the empty string |
| CfOutput.StatusIsWord | cf_recycle_plugin.go:117-125 | the status is always empty or a single space-free word |
| CfOutput.RowGivesStatus | cf_recycle_plugin.go:117-123 | a row of instance i anywhere in the output gives a non-empty status |
| CfOutput.StatusIsLastRow | cf_recycle_plugin.go:117-123 | the status is the second field of the last row whose first field is `#i` |
| CfOutput.TagNamesOneInstance | cf_recycle_plugin.go:120 | a row's first field matches `#i` for at most one i |
| CfOutput.RowRoundTrip | cf_recycle_plugin.go:118-121 | the row `#i state` is a row of instance i that reads back as state |
| CfOutput.ScanInstanceCount | cf_recycle_plugin.go:78-84 | the scanning loop ends with the count InstanceCount specifies (the last count line wins, 0 without one) |
| CfOutput.ScanStatus | cf_recycle_plugin.go:117-123 | the scanning loop ends with the status StatusOf specifies (the last matching row wins, "" without one) |
| Cli.Drop | cf_recycle_plugin.go:76 | after n commands, exactly n replies are gone from the script, or all of them |
| Cli.ReplyAtDrop | cf_recycle_plugin.go:76 | after n commands, the reply to the p-th further command is the script's reply n + p |
| Cli.Connection.constructor | cf_recycle_plugin.go:61 | a fresh connection holds the whole script and has issued nothing |
| Cli.Connection.CliCommandWithoutTerminalOutput | cf_recycle_plugin.go:76 | one CLI call answers with the next reply, uses it up, and appends exactly its argument list to the trace |
| Plugin.FirstRunning | cf_recycle_plugin.go:104-107 | the first reply in which instance i reads "running": no earlier one does, and None means none does |
| Plugin.RestartOutcome | cf_recycle_plugin.go:103-108 | a restart is never a skip, and it counts as failed exactly when the restart command's reply is an error |
| Plugin.RestartOutcomeSpec | cf_recycle_plugin.go:103-108 | the poll loop never ends exactly when the restart succeeded and no later reply reads "running"; otherwise the number of polls is the position of the first "running" poll (at least 1, since `state` starts empty), and no earlier poll reads "running" |
| Plugin.Repeat | cf_recycle_plugin.go:104-107 | n polls issue n identical status queries |
| Plugin.OutcomeCommands | cf_recycle_plugin.go:99-108 | a visit issues as many commands after its status query as it uses replies: none when skipped, one after a failed restart, 1 + polls after a successful one |
| Plugin.VisitCommands | cf_recycle_plugin.go:87-90 | each visit issues one command per reply it uses |
| Plugin.Trace | cf_recycle_plugin.go:86-91 | the loop issues one command per reply it uses |
| Plugin.VisitOne | cf_recycle_plugin.go:87-90 | one turn of the loop for instance i reads its status from the next reply and is skipped exactly when that status is not "running"; it has no outcome only when the instance was running and its poll never reads "running" again |
| Plugin.VisitStart | cf_recycle_plugin.go:87-90 | a visit's commands open with its status query, followed by the restart of its own instance unless it was skipped |
| Plugin.Visits | cf_recycle_plugin.go:86-91 | the loop makes one visit per index from i up to the count (none when the count is 0 or negative), visit k is to instance i + k, and a visit is skipped exactly when its status is not "running" |
| Plugin.Recycle | cf_recycle_plugin.go:76-92 | when `cf app` fails nothing is visited; otherwise there is one visit per announced instance |
| Plugin.GetInstanceStatus | cf_recycle_plugin.go:111-126 | issues exactly `app <name>`, uses one reply, and returns the status StatusOf reads from its lines, whether or not the query failed (the error is discarded) |
| Plugin.RestartInstance | cf_recycle_plugin.go:99-109 | issues exactly one `restart-app-instance <app> <i>` and then, if that succeeded, one status query per poll until the first "running"; uses up exactly those replies |
| Plugin.RecycleTrace | cf_recycle_plugin.go:74-91 | the commands of a run: the count query `app` + args[1:] first, then each visit's commands in order (stated by RecycleTraceShape, RecycleTraceAt and CommandsAt) |
| Plugin.RecycleTraceShape | cf_recycle_plugin.go:74-91 | a run opens with the count query `app` + args[1:] and then issues one command per reply its visits use up |
| Plugin.RecycleCommand | cf_recycle_plugin.go:68-97 | issues exactly `app` + args[1:], then the commands of every visit in order, uses up exactly one reply per command, and always returns no error; a missing app name is allowed when nothing is visited |
| Plugin.VisitInstances | cf_recycle_plugin.go:86-91 | the index loop issues exactly the commands of Visits for the count, in order, and uses up exactly their replies; with no instance to visit it reads no app name |
| Plugin.VisitInstance | cf_recycle_plugin.go:87-90 | one turn of the loop issues exactly the commands of its visit and uses up exactly its replies |
| Plugin.VisitStep | cf_recycle_plugin.go:87-90 | a run that goes ahead starts with the visit to instance i, which reads its status from the next reply, is skipped unless that status is "running", and otherwise has RestartOutcome's outcome |
| Plugin.Run | cf_recycle_plugin.go:61-65 | only `recycle` runs the routine (with RecycleCommand's trace); any other subcommand issues nothing and uses no reply |
| RecycleProps.NoCountNoCommands | cf_recycle_plugin.go:76-92 | if `cf app` fails or prints no count line (no lines at all included), the only command issued is `cf app` itself: no status query and no restart |
| RecycleProps.TraceAppend | cf_recycle_plugin.go:86-91 | the commands and replies of two runs one after the other are those of each, concatenated and added |
| RecycleProps.TraceAt | cf_recycle_plugin.go:86-91 | visit k's commands sit in the trace right after those of the visits before it |
| RecycleProps.RestartsOfVisit | cf_recycle_plugin.go:99-103 | a visit issues the restart command for instance j once if it is the visit to j and was not skipped, and never otherwise |
| RecycleProps.RestartsOnce | cf_recycle_plugin.go:86-91 | a run of visits numbered from i restarts instance j exactly once if it visited j without skipping it, and never otherwise (no retry) |
| RecycleProps.OneAtATime | cf_recycle_plugin.go:86-91 | the trace splits after visit k: the part up to and including visit k (its restart and all its polls) restarts only instances up to i + k, and the part after it only later instances, so one restart settles before the next is issued |
| RecycleProps.RestartsIn | cf_recycle_plugin.go:86-91 | a run numbered from i restarts only instances it numbers |
| RecycleProps.VisitsAt | cf_recycle_plugin.go:86-91 | after the first k visits, the rest of the run is the run that starts at instance i + k on the replies the first k left unread |
| RecycleProps.VisitOneReads | cf_recycle_plugin.go:87-90 | one visit reads its status from the first reply, fails its restart exactly when the second reply is an error, and otherwise polls the following replies until the first "running" |
| RecycleProps.RestartPolls | cf_recycle_plugin.go:103-107 | a restart that polled n times succeeded, its n-th poll reads "running" and none before it does |
| RecycleProps.RecycleVisitsInOrder | cf_recycle_plugin.go:86-91 | the visits go to instances 0 .. n - 1 in ascending order (n = the announced count, none when `cf app` fails), and skip exactly the instances whose status is not "running" |
| RecycleProps.RecycleTraceAt | cf_recycle_plugin.go:74-91 | visit k's commands occupy trace positions 1 + Consumed(earlier visits) onward |
| RecycleProps.QueryAnswered | cf_recycle_plugin.go:86-91 | the reply at each position answers the command at that position. At position q of visit k sit its status query and the reply its status comes from. A running instance's restart command is at q + 1, and it fails exactly when the reply there is an error. The polls sit at q + 2 .. q + 1 + n; the last one reads "running" and no earlier one does |
| RecycleProps.PollCommandsAt | cf_recycle_plugin.go:104-107 | after a successful restart, the next n trace positions hold status queries |
| RecycleProps.CommandsAt | cf_recycle_plugin.go:87-90 | the trace holds visit k's status query at q, followed by the restart command for its own instance unless the visit was skipped |
| RecycleProps.RepliesAt | cf_recycle_plugin.go:87-90 | visit k reads its status from the reply at q, fails its restart exactly when the reply at q + 1 is an error, and polls the replies after that |
| RecycleProps.RecycleRestarts | cf_recycle_plugin.go:86-103 | the routine issues `restart-app-instance <app> <j>` exactly once if instance j was visited and read "running", and never otherwise |

## Left out

- `GetMetadata`, `main` and `plugin.Start` are plugin registration glue returning constant data, so they are not modelled. Of `Run`, only the `args[0] == "recycle"` dispatch is kept.
- The `fmt.Printf` progress and error lines are diagnostics with no effect on behaviour, so they are not modelled.
- `time.Sleep(10 * time.Second)` between polls is wall-clock time, so it is not modelled.
- The real `plugin.CliConnection` and the cf CLI behind it are a foreign library. The model uses a scripted connection whose replies are an input; what cf actually prints is outside the model.
- Go panics are preconditions, not modelled runtime failures:
  - a count line with no `/` in a successful `cf app` reply (`CountSafe`);
  - a `#i` row with one field;
  - an argument list shorter than two, once the loop runs (no app name to read at :87 and :101).
- GetInstanceStatus, RestartInstance, VisitInstances, VisitInstance, RecycleCommand, Run: require `WellFormedScript` of the whole script, that is, no reply holds a one-field `#k` row for any k. Go panics only on such a row for the instance being queried, in a status reply it actually scans. So these methods also exclude scripts that would not panic: a one-field row of another instance, or one in the count reply, a restart reply or a reply never read. The same requirement sits on the functions and lemmas over scripts (`StatusIn`, `RestartOutcome`, `Visits`, `Recycle` and those of `RecycleProps`).
- `RecycleCommand`, `VisitInstances`, `VisitInstance`, `RestartInstance` and `Run` require the poll loops to meet "running" within the script (`Recycle(script).Some?`, and `VisitOne(script, i).Some?` for one turn of the loop). A run whose poll loop never ends, which the real plugin can do, is therefore only described by the functions, which return `None`. The methods do not model it.
- GoStrings.Atoi: accepts an optional sign followed by decimal digits, and gives 0 for any other text (as the discarded error makes it). It does not model the 64-bit range error of strconv.Atoi, which clamps out-of-range values.
- Go strings are UTF-8 bytes, and the model's strings are sequences of Unicode characters. `IsSpace` follows unicode.IsSpace, so byte-level effects of invalid UTF-8 are not modelled.
- The instance index is an unbounded natural number, so Go's `int` overflow is not modelled. No real count reaches it.
- Concurrency, cancellation and the timing of restarts on the platform are not modelled: the program is sequential, and the platform's behaviour is the script.
