/**
 * Parsers for the text that `cf app <name>` prints: the "instances: a/b"
 * summary line and the per-instance "#i <state> ..." rows.
 */
module CfOutput {
  import opened GoStrings

  const CountPrefix := "instances: "

  /** A line that, once trimmed, starts with "instances: ". */
  predicate IsCountLine(line: string) {
    HasPrefix(TrimSpace(line), CountPrefix)
  }

  /** What follows "instances: " on a count line, e.g. "2/3". */
  function CountText(line: string): string {
    TrimPrefix(TrimSpace(line), CountPrefix)
  }

  /** A count line without a '/' makes the plugin index past the end of Split's result. */
  predicate CountLineOk(line: string) {
    IsCountLine(line) ==> '/' in CountText(line)
  }

  predicate CountSafe(lines: seq<string>) {
    forall k :: 0 <= k < |lines| ==> CountLineOk(lines[k])
  }

  /** The number a count line announces: Atoi of the text after its first '/'. */
  function CountOf(line: string): int
    requires IsCountLine(line) && CountLineOk(line)
  {
    Atoi(Split(CountText(line), '/')[1])
  }

  /** The instance count the scan of `cf app` output settles on: every count line overwrites it. */
  function InstanceCount(lines: seq<string>): (r: int)
    requires CountSafe(lines)
    decreases |lines|
  {
    if lines == [] then 0
    else
      var last := lines[|lines| - 1];
      if IsCountLine(last) then CountOf(last) else InstanceCount(lines[..|lines| - 1])
  }

  /** Without a count line the count stays 0. */
  lemma {:induction false} NoCountLineMeansZero(lines: seq<string>)
    requires CountSafe(lines)
    requires forall k :: 0 <= k < |lines| ==> !IsCountLine(lines[k])
    ensures InstanceCount(lines) == 0
    decreases |lines|
  {
    if lines != [] {
      NoCountLineMeansZero(lines[..|lines| - 1]);
    }
  }

  /** The last count line wins. */
  lemma {:induction false} InstanceCountIsLastCountLine(lines: seq<string>, k: nat)
    requires CountSafe(lines)
    requires k < |lines| && IsCountLine(lines[k])
    requires forall m :: k < m < |lines| ==> !IsCountLine(lines[m])
    ensures InstanceCount(lines) == CountOf(lines[k])
    decreases |lines|
  {
    if k < |lines| - 1 {
      var init := lines[..|lines| - 1];
      assert init[k] == lines[k];
      InstanceCountIsLastCountLine(init, k);
    }
  }

  /** The "instances: a/b" line for a running count a and a total b. */
  function CountLine(running: nat, total: nat): string {
    CountPrefix + Itoa(running) + "/" + Itoa(total)
  }

  /** Reading back a printed count line gives the total after the '/'. */
  lemma CountLineRoundTrip(running: nat, total: nat)
    ensures IsCountLine(CountLine(running, total)) && CountLineOk(CountLine(running, total))
    ensures CountOf(CountLine(running, total)) == total
  {
    var a, b := Itoa(running), Itoa(total);
    CountLineText(running, total);
    ItoaNoSlash(running);
    ItoaNoSlash(total);
    SplitPair(a, b, '/');
    AtoiItoa(total);
  }

  /** A printed count line is already trimmed, so its count text is "a/b". */
  lemma CountLineText(running: nat, total: nat)
    ensures IsCountLine(CountLine(running, total))
    ensures CountText(CountLine(running, total)) == Itoa(running) + "/" + Itoa(total)
  {
    var line := CountLine(running, total);
    CountLineTrimmed(running, total);
    assert line == CountPrefix + (Itoa(running) + "/" + Itoa(total));
    assert line[..|CountPrefix|] == CountPrefix;
  }

  lemma CountLineTrimmed(running: nat, total: nat)
    ensures TrimSpace(CountLine(running, total)) == CountLine(running, total)
  {
    var line := CountLine(running, total);
    var b := Itoa(total);
    ItoaSpec(total);
    assert line[0] == 'i';
    assert line[|line| - 1] == b[|b| - 1];
    assert IsDigit(b[|b| - 1]);
    TrimSpaceOfTrimmed(line);
  }

  lemma ItoaNoSlash(n: nat)
    ensures '/' !in Itoa(n)
  {
    ItoaSpec(n);
    var r := Itoa(n);
    assert forall k :: 0 <= k < |r| ==> IsDigit(r[k]);
  }

  /** Two separator-free pieces joined by the separator split back into the two. */
  lemma SplitPair(a: string, b: string, sep: char)
    requires sep !in a && sep !in b
    ensures Split(a + [sep] + b, sep) == [a, b]
  {
    SplitJoin([a, b], sep);
    assert Join([a, b], sep) == a + [sep] + b;
  }

  /** How the plugin names instance i in the rows of `cf app`: "#" and i in decimal. */
  function Tag(i: nat): string {
    "#" + Itoa(i)
  }

  /** The white-space separated fields of a trimmed row. */
  function RowFields(line: string): seq<string> {
    Fields(TrimSpace(line))
  }

  /** A row whose first field is the tag of instance i. */
  predicate IsRowOf(line: string, i: nat) {
    var f := RowFields(line);
    |f| > 0 && f[0] == Tag(i)
  }

  /** A row of instance i with no second field makes the plugin index past the end of Fields' result. */
  predicate RowOk(line: string, i: nat) {
    IsRowOf(line, i) ==> |RowFields(line)| >= 2
  }

  predicate StatusSafe(lines: seq<string>, i: nat) {
    forall k :: 0 <= k < |lines| ==> RowOk(lines[k], i)
  }

  /** The state a row reports: its second field. */
  function RowState(line: string, i: nat): string
    requires IsRowOf(line, i) && RowOk(line, i)
  {
    RowFields(line)[1]
  }

  /** A row's state is one non-empty word. */
  lemma RowStateIsWord(line: string, i: nat)
    requires IsRowOf(line, i) && RowOk(line, i)
    ensures RowState(line, i) != [] && NoSpace(RowState(line, i))
  {
    FieldsSpec(TrimSpace(line));
  }

  /** The status getInstanceStatus reads for instance i: the state of its last row, or "" without one. */
  function StatusOf(lines: seq<string>, i: nat): (r: string)
    requires StatusSafe(lines, i)
    decreases |lines|
  {
    if lines == [] then []
    else
      var last := lines[|lines| - 1];
      if IsRowOf(last, i) then RowState(last, i) else StatusOf(lines[..|lines| - 1], i)
  }

  /** Without a row of instance i the status is empty. */
  lemma {:induction false} NoRowMeansEmpty(lines: seq<string>, i: nat)
    requires StatusSafe(lines, i)
    requires forall k :: 0 <= k < |lines| ==> !IsRowOf(lines[k], i)
    ensures StatusOf(lines, i) == []
    decreases |lines|
  {
    if lines != [] {
      NoRowMeansEmpty(lines[..|lines| - 1], i);
    }
  }

  /** The status is always a single word or empty. */
  lemma {:induction false} StatusIsWord(lines: seq<string>, i: nat)
    requires StatusSafe(lines, i)
    ensures NoSpace(StatusOf(lines, i))
    decreases |lines|
  {
    if lines != [] {
      var last := lines[|lines| - 1];
      if IsRowOf(last, i) {
        RowStateIsWord(last, i);
      } else {
        StatusIsWord(lines[..|lines| - 1], i);
      }
    }
  }

  /** A row of instance i anywhere in the output gives it a non-empty status. */
  lemma {:induction false} RowGivesStatus(lines: seq<string>, i: nat, k: nat)
    requires StatusSafe(lines, i)
    requires k < |lines| && IsRowOf(lines[k], i)
    ensures StatusOf(lines, i) != []
    decreases |lines|
  {
    var last := lines[|lines| - 1];
    if IsRowOf(last, i) {
      RowStateIsWord(last, i);
    } else {
      var init := lines[..|lines| - 1];
      assert init[k] == lines[k];
      RowGivesStatus(init, i, k);
    }
  }

  /** The last row of the instance wins. */
  lemma {:induction false} StatusIsLastRow(lines: seq<string>, i: nat, k: nat)
    requires StatusSafe(lines, i)
    requires k < |lines| && IsRowOf(lines[k], i)
    requires forall m :: k < m < |lines| ==> !IsRowOf(lines[m], i)
    ensures StatusOf(lines, i) == RowState(lines[k], i)
    decreases |lines|
  {
    if k < |lines| - 1 {
      var init := lines[..|lines| - 1];
      assert init[k] == lines[k];
      StatusIsLastRow(init, i, k);
    }
  }

  /** A row names exactly one instance. */
  lemma TagNamesOneInstance(line: string, i: nat, j: nat)
    requires IsRowOf(line, i) && IsRowOf(line, j)
    ensures i == j
  {
    assert Tag(i)[1..] == Itoa(i) && Tag(j)[1..] == Itoa(j);
    ItoaInjective(i, j);
  }

  /** The row "#i state" reads back as state for instance i. */
  lemma RowRoundTrip(i: nat, state: string)
    requires state != [] && NoSpace(state)
    ensures IsRowOf(Tag(i) + " " + state, i) && RowOk(Tag(i) + " " + state, i)
    ensures RowState(Tag(i) + " " + state, i) == state
  {
    var line := Tag(i) + " " + state;
    assert NoSpace(Tag(i)) by {
      var d := Itoa(i);
      ItoaSpec(i);
      assert forall k :: 0 <= k < |d| ==> IsDigit(d[k]);
    }
    assert line == Unwords([Tag(i), state]);
    FieldsUnwords([Tag(i), state]);
    TrimSpaceOfTrimmed(line);
  }

  /** The scan at the top of RecycleCommand: every count line overwrites the total. */
  method ScanInstanceCount(lines: seq<string>) returns (total: int)
    requires CountSafe(lines)
    ensures total == InstanceCount(lines)
  {
    total := 0;
    for j := 0 to |lines|
      invariant total == InstanceCount(lines[..j])
    {
      assert lines[..j + 1][..j] == lines[..j];
      var v := TrimSpace(lines[j]);
      if HasPrefix(v, CountPrefix) {
        var instances := Split(TrimPrefix(v, CountPrefix), '/');
        total := Atoi(instances[1]);
      }
    }
    assert lines[..|lines|] == lines;
  }

  /** The scan in getInstanceStatus: every row of instance i overwrites the status. */
  method ScanStatus(lines: seq<string>, i: nat) returns (status: string)
    requires StatusSafe(lines, i)
    ensures status == StatusOf(lines, i)
  {
    status := "";
    for j := 0 to |lines|
      invariant status == StatusOf(lines[..j], i)
    {
      assert lines[..j + 1][..j] == lines[..j];
      var fields := Fields(TrimSpace(lines[j]));
      if |fields| > 0 && fields[0] == Tag(i) {
        status := fields[1];
      }
    }
    assert lines[..|lines|] == lines;
  }
}
