/**
 * The parts of Go's `strings` and `strconv` packages that the recycle plugin
 * uses, over Dafny strings (sequences of Unicode scalar values).
 */
module GoStrings {

  /** unicode.IsSpace: the white space that TrimSpace and Fields cut on. */
  predicate IsSpace(c: char) {
    || c == ' ' || c == '\t' || c == '\n' || c == '\U{0B}' || c == '\U{0C}' || c == '\r'
    || c == '\U{85}' || c == '\U{A0}' || c == '\U{1680}'
    || ('\U{2000}' <= c <= '\U{200A}')
    || c == '\U{2028}' || c == '\U{2029}' || c == '\U{202F}' || c == '\U{205F}' || c == '\U{3000}'
  }

  predicate NoSpace(s: string) {
    forall k :: 0 <= k < |s| ==> !IsSpace(s[k])
  }

  /** s without its leading white space. */
  function TrimLeft(s: string): (r: string)
    ensures |r| <= |s|
    decreases |s|
  {
    if s != [] && IsSpace(s[0]) then TrimLeft(s[1..]) else s
  }

  /** TrimLeft drops exactly the white space at the front. */
  lemma {:induction false} TrimLeftSpec(s: string)
    ensures var r := TrimLeft(s);
      && r == s[|s| - |r|..]
      && (forall k :: 0 <= k < |s| - |r| ==> IsSpace(s[k]))
      && (r == [] || !IsSpace(r[0]))
    decreases |s|
  {
    if s != [] && IsSpace(s[0]) {
      TrimLeftSpec(s[1..]);
    }
  }

  /** s without its trailing white space. */
  function TrimRight(s: string): string
    decreases |s|
  {
    if s != [] && IsSpace(s[|s| - 1]) then TrimRight(s[..|s| - 1]) else s
  }

  /** TrimRight drops exactly the white space at the end. */
  lemma {:induction false} TrimRightSpec(s: string)
    ensures var r := TrimRight(s);
      && |r| <= |s| && r == s[..|r|]
      && (forall k :: |r| <= k < |s| ==> IsSpace(s[k]))
      && (r == [] || !IsSpace(r[|r| - 1]))
    decreases |s|
  {
    if s != [] && IsSpace(s[|s| - 1]) {
      TrimRightSpec(s[..|s| - 1]);
    }
  }

  /** strings.TrimSpace: the part of s between its leading and its trailing white space. */
  function TrimSpace(s: string): string {
    TrimRight(TrimLeft(s))
  }

  /** TrimSpace leaves no white space at either end, and is empty only for all-space input. */
  lemma TrimSpaceSpec(s: string)
    ensures var r := TrimSpace(s);
      && (r == [] || (!IsSpace(r[0]) && !IsSpace(r[|r| - 1])))
      && (r == [] <==> forall k :: 0 <= k < |s| ==> IsSpace(s[k]))
  {
    var t := TrimLeft(s);
    TrimLeftSpec(s);
    TrimRightSpec(t);
    assert forall k :: |s| - |t| <= k < |s| ==> s[k] == t[k - (|s| - |t|)];
  }

  /** Trimming a string that neither starts nor ends with white space leaves it alone. */
  lemma TrimSpaceOfTrimmed(s: string)
    requires s != [] && !IsSpace(s[0]) && !IsSpace(s[|s| - 1])
    ensures TrimSpace(s) == s
  {
  }

  /** strings.HasPrefix */
  predicate HasPrefix(s: string, prefix: string) {
    |prefix| <= |s| && s[..|prefix|] == prefix
  }

  /** strings.TrimPrefix */
  function TrimPrefix(s: string, prefix: string): (r: string)
    ensures HasPrefix(s, prefix) ==> prefix + r == s
    ensures !HasPrefix(s, prefix) ==> r == s
  {
    if HasPrefix(s, prefix) then s[|prefix|..] else s
  }

  /** strings.IndexByte: the position of the first c in s, or -1. */
  function IndexByte(s: string, c: char): (k: int)
    ensures -1 <= k < |s|
    ensures k == -1 <==> c !in s
    ensures 0 <= k ==> s[k] == c && c !in s[..k]
    decreases |s|
  {
    if s == [] then -1
    else if s[0] == c then 0
    else
      var j := IndexByte(s[1..], c);
      if j < 0 then -1
      else
        assert s[..j + 1] == [s[0]] + s[1..][..j];
        j + 1
  }

  /** strings.Split(s, sep) for a one-character separator. */
  function Split(s: string, sep: char): (parts: seq<string>)
    ensures |parts| >= 1
    ensures |parts| >= 2 <==> sep in s
    decreases |s|
  {
    var k := IndexByte(s, sep);
    if k < 0 then [s] else [s[..k]] + Split(s[k + 1..], sep)
  }

  /** No piece of a split holds the separator. */
  lemma {:induction false} SplitPieces(s: string, sep: char)
    ensures forall k :: 0 <= k < |Split(s, sep)| ==> sep !in Split(s, sep)[k]
    decreases |s|
  {
    var k := IndexByte(s, sep);
    if 0 <= k {
      SplitPieces(s[k + 1..], sep);
    }
  }

  /** strings.Join(parts, sep) for a one-character separator: the inverse of Split. */
  function Join(parts: seq<string>, sep: char): string
    decreases |parts|
  {
    if parts == [] then []
    else if |parts| == 1 then parts[0]
    else parts[0] + [sep] + Join(parts[1..], sep)
  }

  lemma {:induction false} JoinSplit(s: string, sep: char)
    ensures Join(Split(s, sep), sep) == s
    decreases |s|
  {
    if sep in s {
      var head, rest := SplitFirst(s, sep);
      JoinSplit(rest, sep);
      assert Split(s, sep)[1..] == Split(rest, sep);
    }
  }

  /** Splitting a string that holds sep: the text before the first sep, then the split of the rest. */
  lemma SplitFirst(s: string, sep: char) returns (head: string, rest: string)
    requires sep in s
    ensures s == head + [sep] + rest && sep !in head
    ensures Split(s, sep) == [head] + Split(rest, sep)
  {
    var k := IndexByte(s, sep);
    head, rest := s[..k], s[k + 1..];
  }

  lemma {:induction false} SplitJoin(parts: seq<string>, sep: char)
    requires |parts| >= 1
    requires forall k :: 0 <= k < |parts| ==> sep !in parts[k]
    ensures Split(Join(parts, sep), sep) == parts
    decreases |parts|
  {
    if |parts| == 1 {
      assert IndexByte(parts[0], sep) == -1;
    } else {
      var s := Join(parts, sep);
      var p := parts[0];
      assert s == p + [sep] + Join(parts[1..], sep);
      assert s[|p|] == sep && s[..|p|] == p;
      assert IndexByte(s, sep) == |p|;
      assert s[|p| + 1..] == Join(parts[1..], sep);
      SplitJoin(parts[1..], sep);
      assert parts == [p] + parts[1..];
    }
  }

  /** The longest prefix of s free of white space. */
  function Word(s: string): (w: string)
    ensures |w| <= |s| && w == s[..|w|]
    ensures s != [] && !IsSpace(s[0]) ==> w != []
    decreases |s|
  {
    if s == [] || IsSpace(s[0]) then [] else [s[0]] + Word(s[1..])
  }

  /** Word takes characters up to the first white space. */
  lemma {:induction false} WordSpec(s: string)
    ensures var w := Word(s);
      && w == s[..|w|] && NoSpace(w)
      && (|w| < |s| ==> IsSpace(s[|w|]))
    decreases |s|
  {
    if s != [] && !IsSpace(s[0]) {
      WordSpec(s[1..]);
      var w := Word(s[1..]);
      assert [s[0]] + w == s[..|w| + 1];
    }
  }

  /** strings.Fields: the maximal runs of non-space characters of s, in order. */
  function Fields(s: string): seq<string>
    decreases |s|
  {
    var t := TrimLeft(s);
    if t == [] then []
    else
      var w := Word(t);
      [w] + Fields(t[|w|..])
  }

  /** Every field is non-empty and free of white space. */
  lemma {:induction false} FieldsSpec(s: string)
    ensures forall k :: 0 <= k < |Fields(s)| ==> Fields(s)[k] != [] && NoSpace(Fields(s)[k])
    decreases |s|
  {
    var t := TrimLeft(s);
    if t != [] {
      TrimLeftSpec(s);
      var w := Word(t);
      WordSpec(t);
      var rest := Fields(t[|w|..]);
      FieldsSpec(t[|w|..]);
      assert Fields(s) == [w] + rest;
      forall k | 0 <= k < |Fields(s)|
        ensures Fields(s)[k] != [] && NoSpace(Fields(s)[k])
      {
        if k > 0 {
          assert Fields(s)[k] == rest[k - 1];
        }
      }
    }
  }

  /** The words ws written one after another with one space between each. */
  function Unwords(ws: seq<string>): string
    decreases |ws|
  {
    if ws == [] then []
    else if |ws| == 1 then ws[0]
    else ws[0] + " " + Unwords(ws[1..])
  }

  lemma {:induction false} FieldsUnwords(ws: seq<string>)
    requires forall k :: 0 <= k < |ws| ==> ws[k] != [] && NoSpace(ws[k])
    ensures Fields(Unwords(ws)) == ws
    decreases |ws|
  {
    if |ws| == 1 {
      FieldsCons(ws[0], []);
      assert ws[0] + [] == ws[0];
    } else if |ws| > 1 {
      var rest := Unwords(ws[1..]);
      var gap := " " + rest;
      assert Unwords(ws) == ws[0] + gap;
      calc {
        Fields(Unwords(ws));
        { FieldsCons(ws[0], gap); }
        [ws[0]] + Fields(gap);
        { FieldsSkipSpace(gap); assert TrimLeft(gap) == TrimLeft(rest); FieldsSkipSpace(rest); }
        [ws[0]] + Fields(rest);
        { FieldsUnwords(ws[1..]); }
        [ws[0]] + ws[1..];
        ws;
      }
    }
  }

  /** A space-free word followed by nothing or by white space is the first field. */
  lemma FieldsCons(w: string, rest: string)
    requires w != [] && NoSpace(w)
    requires rest == [] || IsSpace(rest[0])
    ensures Fields(w + rest) == [w] + Fields(rest)
  {
    var s := w + rest;
    assert s[..|w|] == w;
    assert TrimLeft(s) == s;
    WordOf(s, w);
    assert s[|w|..] == rest;
  }

  /** The longest space-free prefix of a string that starts with w and then white space is w. */
  lemma {:induction false} WordOf(s: string, w: string)
    requires w != [] && NoSpace(w) && HasPrefix(s, w)
    requires |w| < |s| ==> IsSpace(s[|w|])
    ensures Word(s) == w
    decreases |w|
  {
    assert s[0] == w[0];
    if |w| == 1 {
      assert Word(s) == [s[0]] + Word(s[1..]);
    } else {
      assert s[1..][..|w| - 1] == w[1..];
      WordOf(s[1..], w[1..]);
      assert w == [w[0]] + w[1..];
    }
  }

  /** Leading white space does not change the fields. */
  lemma FieldsSkipSpace(s: string)
    ensures Fields(s) == Fields(TrimLeft(s))
  {
    var t := TrimLeft(s);
    TrimLeftSpec(s);
    assert TrimLeft(t) == t;
  }

  predicate IsDigit(c: char) {
    '0' <= c <= '9'
  }

  predicate AllDigits(s: string) {
    forall k :: 0 <= k < |s| ==> IsDigit(s[k])
  }

  function DigitChar(d: nat): (c: char)
    requires d < 10
    ensures IsDigit(c) && (c as int) - ('0' as int) == d
  {
    ('0' as int + d) as char
  }

  /** The value of a string of decimal digits. */
  function Value(s: string): nat
    requires AllDigits(s)
    decreases |s|
  {
    if s == [] then 0 else Value(s[..|s| - 1]) * 10 + ((s[|s| - 1] as int) - ('0' as int))
  }

  /** strconv.Itoa of a non-negative number (also what fmt's %v prints for it). */
  function Itoa(n: nat): string {
    if n < 10 then [DigitChar(n)] else Itoa(n / 10) + [DigitChar(n % 10)]
  }

  /** Itoa prints digits with no leading zero, whose value is n. */
  lemma {:induction false} ItoaSpec(n: nat)
    ensures var r := Itoa(n);
      && r != [] && AllDigits(r) && Value(r) == n
      && (r[0] == '0' ==> n == 0 && r == "0")
  {
    if 10 <= n {
      ItoaSpec(n / 10);
      var r := Itoa(n);
      assert r[..|r| - 1] == Itoa(n / 10);
    }
  }

  /**
   * strconv.Atoi with its error discarded: an optional '+' or '-' followed by
   * one or more decimal digits gives their signed value; anything else gives 0.
   */
  function Atoi(s: string): (r: int)
    ensures r != 0 ==> s != [] && IsDigit(s[|s| - 1])
  {
    if s != [] && (s[0] == '+' || s[0] == '-') then
      var digits := s[1..];
      if digits != [] && AllDigits(digits) then
        var v: int := Value(digits);
        if s[0] == '-' then -v else v
      else 0
    else if s != [] && AllDigits(s) then Value(s)
    else 0
  }

  lemma AtoiItoa(n: nat)
    ensures Atoi(Itoa(n)) == n
  {
    var r := Itoa(n);
    ItoaSpec(n);
    assert IsDigit(r[0]);
  }

  /** A sign in front of a printed number reads back as the signed number. */
  lemma AtoiSigned(n: nat)
    ensures Atoi("+" + Itoa(n)) == n && Atoi("-" + Itoa(n)) == -(n as int)
  {
    var d := Itoa(n);
    ItoaSpec(n);
    assert ("+" + d)[1..] == d && ("-" + d)[1..] == d;
  }

  /** A character that is neither a digit nor a leading sign makes the text read as 0. */
  lemma AtoiRejects(s: string, k: nat)
    requires k < |s| && !IsDigit(s[k]) && (k == 0 ==> s[0] != '+' && s[0] != '-')
    ensures Atoi(s) == 0
  {
    if 0 < k {
      assert s[1..][k - 1] == s[k];
    }
  }

  /** Different numbers print differently, so a decimal tag names one number. */
  lemma ItoaInjective(a: nat, b: nat)
    ensures Itoa(a) == Itoa(b) <==> a == b
  {
    ItoaSpec(a);
    ItoaSpec(b);
  }
}
