/** The test an OSD removal log must pass, on ASCII text: trim, split into lines, lower the last
    line, look for the success message. */
module JobLogs {

  const SUCCESS_MESSAGE: string := "completed removal"

  predicate IsSpace(c: char) {
    c == ' ' || c == '\t' || c == '\n' || c == '\r' || c as int == 11 || c as int == 12
  }

  /** Space, tab, line feed, vertical tab, form feed and carriage return. */
  const WHITE_SPACE: set<int> := {32, 9, 10, 11, 12, 13}

  /** Nothing but white space in s[lo..hi]. */
  predicate BlankIn(s: string, lo: int, hi: int)
    requires 0 <= lo && hi <= |s|
  {
    forall k :: lo <= k < hi ==> s[k] as int in WHITE_SPACE
  }

  predicate Blank(s: string) {
    BlankIn(s, 0, |s|)
  }

  function TrimLeft(s: string): string {
    if s != "" && IsSpace(s[0]) then TrimLeft(s[1..]) else s
  }

  function TrimRight(s: string): string {
    if s != "" && IsSpace(s[|s| - 1]) then TrimRight(s[..|s| - 1]) else s
  }

  function TrimSpace(s: string): string {
    TrimRight(TrimLeft(s))
  }

  function Lines(s: string): (r: seq<string>)
    ensures |r| >= 1
  {
    if s == "" then [""]
    else
      var rest := Lines(s[1..]);
      if s[0] == '\n' then [""] + rest else [[s[0]] + rest[0]] + rest[1..]
  }

  function LowerChar(c: char): char {
    if 'A' <= c <= 'Z' then c + ' ' else c
  }

  function Lower(s: string): string {
    seq(|s|, i requires 0 <= i < |s| => LowerChar(s[i]))
  }

  predicate Contains(s: string, part: string) {
    exists i :: 0 <= i <= |s| - |part| && s[i..][..|part|] == part
  }

  /** validateJobLogs on the text of the log. */
  predicate Accepts(log: string) {
    var lines := Lines(TrimSpace(log));
    Contains(Lower(lines[|lines| - 1]), SUCCESS_MESSAGE)
  }

  /** The character c reads m when case does not matter: it is m itself, or m is a small letter and c
      its capital, 32 places before it. */
  ghost predicate Reads(c: char, m: char) {
    c == m || ('a' <= m <= 'z' && c as int == m as int - 32)
  }

  /** The success message stands at i, in any mix of cases. */
  ghost predicate MessageAt(log: string, i: int) {
    && 0 <= i <= |log| - |SUCCESS_MESSAGE|
    && forall k :: 0 <= k < |SUCCESS_MESSAGE| ==> Reads(log[i + k], SUCCESS_MESSAGE[k])
  }

  /** Lowering a character and looking for one of the message, which has no capitals, is reading it. */
  lemma LoweredReads(c: char, k: nat)
    requires k < |SUCCESS_MESSAGE|
    ensures LowerChar(c) == SUCCESS_MESSAGE[k] <==> Reads(c, SUCCESS_MESSAGE[k])
  {
    assert forall j :: 0 <= j < |SUCCESS_MESSAGE| ==> !('A' <= SUCCESS_MESSAGE[j] <= 'Z');
  }

  /** After the message comes the rest of its line, up to j, and then only white space. */
  ghost predicate LastWordIs(log: string, i: int, j: int) {
    && MessageAt(log, i)
    && i + |SUCCESS_MESSAGE| <= j <= |log|
    && (forall k :: i <= k < j ==> log[k] != '\n')
    && BlankIn(log, j, |log|)
  }

  lemma MessageHasNoSpaceAtItsEnds(log: string, i: int)
    requires MessageAt(log, i)
    ensures !IsSpace(log[i]) && !IsSpace(log[i + |SUCCESS_MESSAGE| - 1])
  {
    assert Reads(log[i + 0], SUCCESS_MESSAGE[0]) && SUCCESS_MESSAGE[0] == 'c';
    var e := |SUCCESS_MESSAGE| - 1;
    assert Reads(log[i + e], SUCCESS_MESSAGE[e]) && SUCCESS_MESSAGE[e] == 'l';
  }

  lemma {:induction false} TrimLeftDrops(s: string) returns (k: nat)
    ensures k <= |s| && TrimLeft(s) == s[k..] && BlankIn(s, 0, k)
  {
    if s != "" && IsSpace(s[0]) {
      var m := TrimLeftDrops(s[1..]);
      k := m + 1;
      assert s[1..][m..] == s[k..];
      assert forall q :: 1 <= q < k ==> s[q] == s[1..][q - 1];
    } else {
      k := 0;
    }
  }

  lemma {:induction false} TrimRightDrops(s: string) returns (k: nat)
    ensures k <= |s| && TrimRight(s) == s[..k] && BlankIn(s, k, |s|)
    ensures k > 0 ==> !IsSpace(s[k - 1])
  {
    if s != "" && IsSpace(s[|s| - 1]) {
      var t := s[..|s| - 1];
      k := TrimRightDrops(t);
      assert forall q :: 0 <= q < |t| ==> s[q] == t[q];
      assert t[..k] == s[..k];
    } else {
      k := |s|;
    }
  }

  lemma {:induction false} LastLineStarts(s: string) returns (k: nat)
    ensures k <= |s| && Lines(s)[|Lines(s)| - 1] == s[k..]
    ensures forall m :: k <= m < |s| ==> s[m] != '\n'
    ensures k > 0 ==> s[k - 1] == '\n'
    ensures |Lines(s)| == 1 ==> k == 0
  {
    if s == "" {
      k := 0;
    } else {
      var rest := Lines(s[1..]);
      var m := LastLineStarts(s[1..]);
      assert s[1..][m..] == s[m + 1..];
      assert forall q :: m + 1 <= q < |s| ==> s[q] == s[1..][q - 1];
      if s[0] != '\n' && |rest| == 1 {
        k := 0;
        assert [s[0]] + s[1..] == s;
        assert s[1..][0..] == s[1..];
      } else {
        k := m + 1;
        if s[0] != '\n' {
          assert m > 0 by { if m == 0 { OneLine(s[1..]); } }
        }
      }
    }
  }

  /** A text without newlines is one line. */
  lemma {:induction false} OneLine(s: string)
    requires forall m :: 0 <= m < |s| ==> s[m] != '\n'
    ensures |Lines(s)| == 1
  {
    if s != "" {
      OneLine(s[1..]);
    }
  }

  /** Where the last line of the trimmed log lies in the log. */
  lemma LastLineSpan(log: string) returns (lo: nat, hi: nat)
    ensures lo <= hi <= |log|
    ensures var lines := Lines(TrimSpace(log)); lines[|lines| - 1] == log[lo..hi]
    ensures forall k :: lo <= k < hi ==> log[k] != '\n'
    ensures BlankIn(log, hi, |log|)
    ensures if lo == hi then Blank(log) else !IsSpace(log[hi - 1])
    ensures BlankIn(log, 0, lo) || (lo > 0 && log[lo - 1] == '\n')
  {
    var a := TrimLeftDrops(log);
    var left := TrimLeft(log);
    var b := TrimRightDrops(left);
    var c := LastLineStarts(TrimSpace(log));
    lo, hi := a + c, a + b;
    assert forall q :: 0 <= q < |left| ==> left[q] == log[a + q];
    assert left[..b][c..] == log[lo..hi];
    assert forall k :: hi <= k < |log| ==> log[k] == left[k - a];
    assert forall k :: lo <= k < hi ==> log[k] == left[..b][k - a];
  }

  /** The message is where equal text is. */
  lemma MessageMoves(s: string, i: int, t: string, j: int)
    requires MessageAt(s, i) && 0 <= j <= |t| - |SUCCESS_MESSAGE|
    requires forall k :: i <= k < i + |SUCCESS_MESSAGE| ==> s[k] == t[k - i + j]
    ensures MessageAt(t, j)
  {
    forall k | 0 <= k < |SUCCESS_MESSAGE| ensures Reads(t[j + k], SUCCESS_MESSAGE[k]) {
      assert s[i + k] == t[i + k - i + j];
    }
  }

  lemma ContainsAt(line: string, i: int)
    requires 0 <= i <= |line| - |SUCCESS_MESSAGE|
    ensures Lower(line)[i..][..|SUCCESS_MESSAGE|] == SUCCESS_MESSAGE <==> MessageAt(line, i)
  {
    var part := Lower(line)[i..][..|SUCCESS_MESSAGE|];
    forall k | 0 <= k < |SUCCESS_MESSAGE| ensures part[k] == SUCCESS_MESSAGE[k] <==> Reads(line[i + k], SUCCESS_MESSAGE[k]) {
      LoweredReads(line[i + k], k);
    }
  }

  ghost predicate MessageBetween(log: string, lo: int, hi: int) {
    exists i :: lo <= i <= hi - |SUCCESS_MESSAGE| && MessageAt(log, i)
  }

  lemma ContainsIffMessage(line: string)
    ensures Contains(Lower(line), SUCCESS_MESSAGE) <==> MessageBetween(line, 0, |line|)
  {
    var n := |SUCCESS_MESSAGE|;
    if Contains(Lower(line), SUCCESS_MESSAGE) {
      var i :| 0 <= i <= |Lower(line)| - n && Lower(line)[i..][..n] == SUCCESS_MESSAGE;
      ContainsAt(line, i);
    }
    if i :| 0 <= i <= |line| - n && MessageAt(line, i) {
      ContainsAt(line, i);
    }
  }

  lemma MessageInSlice(log: string, lo: nat, hi: nat)
    requires lo <= hi <= |log|
    ensures MessageBetween(log[lo..hi], 0, hi - lo) <==> MessageBetween(log, lo, hi)
  {
    var line := log[lo..hi];
    if i :| 0 <= i <= |line| - |SUCCESS_MESSAGE| && MessageAt(line, i) {
      MessageMoves(line, i, log, lo + i);
    }
    if i :| lo <= i <= hi - |SUCCESS_MESSAGE| && MessageAt(log, i) {
      MessageMoves(log, i, line, i - lo);
    }
  }

  /** A log is accepted iff the success message occurs, in any case, on the last line that holds
      anything but white space. */
  lemma AcceptsIffLastLineSaysSo(log: string)
    ensures Accepts(log) <==> exists i, j :: LastWordIs(log, i, j)
  {
    var lo, hi := LastLineSpan(log);
    ContainsIffMessage(log[lo..hi]);
    MessageInSlice(log, lo, hi);
    if i :| lo <= i <= hi - |SUCCESS_MESSAGE| && MessageAt(log, i) {
      assert LastWordIs(log, i, hi);
    }
    if i, j :| LastWordIs(log, i, j) {
      MessageHasNoSpaceAtItsEnds(log, i);
      assert lo <= i <= hi - |SUCCESS_MESSAGE|;
    }
  }

  /** Trailing white space, empty lines included, does not change the verdict. */
  lemma AcceptanceIgnoresTrailingSpace(log: string, space: string)
    requires Blank(space)
    ensures Accepts(log + space) == Accepts(log)
  {
    var all := log + space;
    AcceptsIffLastLineSaysSo(log);
    AcceptsIffLastLineSaysSo(all);
    if i, j :| LastWordIs(log, i, j) {
      assert LastWordIs(all, i, j);
    }
    if i, j :| LastWordIs(all, i, j) {
      MessageHasNoSpaceAtItsEnds(all, i);
      assert i + |SUCCESS_MESSAGE| <= |log|;
      var j' := if j <= |log| then j else |log|;
      assert forall k :: 0 <= k < |log| ==> log[k] == all[k];
      assert LastWordIs(log, i, j');
    }
  }

  lemma WordShifts(log: string, all: string, n: nat, i: int, j: int)
    requires n <= |all| && log == all[n..]
    ensures LastWordIs(log, i, j) ==> LastWordIs(all, n + i, n + j)
    ensures i >= n && LastWordIs(all, i, j) ==> LastWordIs(log, i - n, j - n)
  {
    if LastWordIs(log, i, j) {
      MessageMoves(log, i, all, n + i);
      assert forall k :: n <= k < |all| ==> all[k] == log[k - n];
    }
    if i >= n && LastWordIs(all, i, j) {
      MessageMoves(all, i, log, i - n);
      assert forall k :: 0 <= k < |log| ==> log[k] == all[n + k];
    }
  }

  /** Whatever lines come before a log that says anything, its verdict is its own. */
  lemma AcceptanceIgnoresEarlierLines(lines: string, log: string)
    requires !Blank(log)
    ensures Accepts(lines + "\n" + log) == Accepts(log)
  {
    var n := |lines| + 1;
    var all := lines + "\n" + log;
    assert log == all[n..];
    AcceptsIffLastLineSaysSo(log);
    AcceptsIffLastLineSaysSo(all);
    if i, j :| LastWordIs(log, i, j) {
      WordShifts(log, all, n, i, j);
    }
    if i, j :| LastWordIs(all, i, j) {
      assert all[n - 1] == '\n';
      var w :| 0 <= w < |log| && !IsSpace(log[w]);
      assert log[w] == all[n + w];
      WordShifts(log, all, n, i, j);
    }
  }
}
