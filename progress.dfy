/**
 * Progress polling (`getRenderingPercent`): the last `percentage:` value
 * melt wrote to the log, reconciled with the 99 threshold and with the
 * process table, over an explicit file system and session slot.
 */
module Progress {
  import opened PhpText

  /** What `render` keeps in the session: the launched pid and the run id
      the log file is named after. */
  datatype Session = Session(pid: nat, runId: string)

  /** `tmp_dir_path/<runId>.txt`, the log a render writes. */
  function LogPathOf(tmpDir: string, runId: string): string {
    tmpDir + "/" + runId + ".txt"
  }

  // ---------------------------------------------------------------------
  // The pattern `percentage:\s+(\d+)`

  const Marker: string := "percentage:"

  /** PCRE's `\s`: space, tab, newline, vertical tab, form feed and
      carriage return. */
  predicate IsSpace(c: char) {
    c == ' ' || c == '\t' || c == '\n' || c == '\U{0B}' || c == '\U{0C}' || c == '\r'
  }

  /** The number of `\s` characters of `s` from index `i` on. */
  function SpaceRun(s: string, i: nat): (n: nat)
    requires i <= |s|
    ensures i + n <= |s| && forall j :: i <= j < i + n ==> IsSpace(s[j])
    ensures i + n < |s| ==> !IsSpace(s[i + n])
    decreases |s| - i
  {
    if i < |s| && IsSpace(s[i]) then 1 + SpaceRun(s, i + 1) else 0
  }

  /** The number of digits of `s` from index `i` on. */
  function DigitsFrom(s: string, i: nat): (n: nat)
    requires i <= |s|
    ensures i + n <= |s| && forall j :: i <= j < i + n ==> IsDigit(s[j])
    ensures i + n < |s| ==> !IsDigit(s[i + n])
    decreases |s| - i
  {
    if i < |s| && IsDigit(s[i]) then 1 + DigitsFrom(s, i + 1) else 0
  }

  /** The marker is written at `p`. */
  predicate MarkerAt(log: string, p: nat) {
    p + |Marker| <= |log| && forall k :: 0 <= k < |Marker| ==> log[p + k] == Marker[k]
  }

  /** The pattern matches at `p`: the marker, at least one blank, at least
      one digit.  Blanks and digits are disjoint, so the greedy `\s+` never
      has to give a character back. */
  predicate MatchesAt(log: string, p: nat) {
    MarkerAt(log, p)
    && SpaceRun(log, p + |Marker|) > 0
    && DigitsFrom(log, p + |Marker| + SpaceRun(log, p + |Marker|)) > 0
  }

  /** Where the digits of a match at `p` start, and where the match ends. */
  function DigitsStart(log: string, p: nat): (d: nat)
    requires MatchesAt(log, p)
    ensures p + |Marker| < d < |log|
  {
    p + |Marker| + SpaceRun(log, p + |Marker|)
  }

  function MatchEnd(log: string, p: nat): (e: nat)
    requires MatchesAt(log, p)
    ensures DigitsStart(log, p) < e <= |log|
  {
    DigitsStart(log, p) + DigitsFrom(log, DigitsStart(log, p))
  }

  /** The captured digits of the match at `p`, read as `(int)` reads them. */
  function MatchValue(log: string, p: nat): nat
    requires MatchesAt(log, p)
  {
    DigitsValue(log[DigitsStart(log, p)..MatchEnd(log, p)])
  }

  /** The positions where the pattern matches. */
  function Matches(log: string): nat -> bool {
    (p: nat) => MatchesAt(log, p)
  }

  /** The last position below `n` where `P` holds. */
  function LastBelow(P: nat -> bool, n: nat): (r: Option<nat>)
    ensures r.Some? ==> r.value < n && P(r.value)
  {
    if n == 0 then None
    else if P(n - 1) then Some(n - 1)
    else LastBelow(P, n - 1)
  }

  /** Nothing beyond the position `LastBelow` finds satisfies `P`, and
      nothing at all when it finds none. */
  lemma {:induction false} LastBelowIsLast(P: nat -> bool, n: nat, q: nat)
    requires q < n
    ensures LastBelow(P, n).Some? && LastBelow(P, n).value < q ==> !P(q)
    ensures LastBelow(P, n).None? ==> !P(q)
  {
    if q < n - 1 && !P(n - 1) {
      LastBelowIsLast(P, n - 1, q);
    }
  }

  /** A position followed by no other where `P` holds is the one
      `LastBelow` finds. */
  lemma {:induction false} LastBelowFound(P: nat -> bool, p: nat, n: nat)
    requires P(p) && p < n
    requires forall q :: p < q < n ==> !P(q)
    ensures LastBelow(P, n) == Some(p)
  {
    if n - 1 > p {
      LastBelowFound(P, p, n - 1);
    }
  }

  /** `(int) array_pop($matches[1])` after `preg_match_all`: the value of
      the last match, 0 when there is none. */
  function LastPercentage(log: string): nat {
    match LastBelow(Matches(log), |log|)
    case None => 0
    case Some(p) => MatchValue(log, p)
  }

  /** Two matches never overlap: a match can only start after the previous
      one ends, because no character of a match but its first is a `p`.
      So the matches `preg_match_all` reports, scanning left to right, are
      exactly the positions where the pattern matches, and the last one it
      reports is the last such position. */
  lemma MatchesDisjoint(log: string, p: nat, q: nat)
    requires MatchesAt(log, p) && MatchesAt(log, q) && p < q
    ensures q >= MatchEnd(log, p)
  {
    assert log[q + 0] == Marker[0];
    NoMarkerInside(log, p, q);
  }

  /** Only the first character of a match is a `p`. */
  lemma NoMarkerInside(log: string, p: nat, j: nat)
    requires MatchesAt(log, p)
    ensures p < j < MatchEnd(log, p) ==> log[j] != 'p'
  {
    if p < j < p + |Marker| {
      assert log[p + (j - p)] == Marker[j - p];
    } else if p + |Marker| <= j < DigitsStart(log, p) {
      assert IsSpace(log[j]);
    } else if DigitsStart(log, p) <= j < MatchEnd(log, p) {
      assert IsDigit(log[j]);
    }
  }

  lemma {:induction false} DigitsFromAll(s: string, i: nat)
    requires i <= |s| && forall j :: i <= j < |s| ==> IsDigit(s[j])
    ensures DigitsFrom(s, i) == |s| - i
    decreases |s| - i
  {
    if i < |s| {
      DigitsFromAll(s, i + 1);
    }
  }

  /** The progress line melt appends last is the one a poll reads: after
      `percentage: <v>` at the end of the log, `LastPercentage` is `v`,
      whatever the log held before. */
  lemma ReadsLastReport(log: string, v: nat)
    ensures LastPercentage(log + Marker + " " + NatToString(v)) == v
  {
    var full := log + Marker + " " + NatToString(v);
    var p := |log|;
    ReportMatches(log, v);
    forall q | p < q < |full| ensures !Matches(full)(q) {
      NoMarkerInside(full, p, q);
      assert Marker[0] == 'p';
    }
    LastBelowFound(Matches(full), p, |full|);
    DigitsValueOfNatToString(v);
  }

  /** The report appended to a log is a match that runs to its end and
      captures the value's digits. */
  lemma ReportMatches(log: string, v: nat)
    ensures var full := log + Marker + " " + NatToString(v);
      && MatchesAt(full, |log|) && MatchEnd(full, |log|) == |full|
      && full[DigitsStart(full, |log|)..MatchEnd(full, |log|)] == NatToString(v)
  {
    var digits := NatToString(v);
    var full := log + Marker + " " + digits;
    var p := |log|;
    assert MarkerAt(full, p) by {
      forall k | 0 <= k < |Marker| ensures full[p + k] == Marker[k] {
        assert full[p + k] == (log + Marker)[p + k];
      }
    }
    assert full[p + |Marker|] == ' ';
    assert SpaceRun(full, p + |Marker|) == 1 by {
      assert full[p + |Marker| + 1] == digits[0];
    }
    var d := p + |Marker| + 1;
    assert full[d..] == digits;
    DigitsFromAll(full, d);
  }

  // ---------------------------------------------------------------------
  // Reconciliation and the poll

  /** The percent after the threshold and the process check: 99 or more
      counts as done, and so does a known pid that is no longer running. */
  function Reconcile(found: nat, pid: nat, running: set<nat>): (r: nat)
    ensures r == 100 || r < 99
    ensures r == 100 <==> found >= 99 || (pid != 0 && pid !in running)
    ensures r != 100 ==> r == found
  {
    var percent := if found >= 99 then 100 else found;
    if pid != 0 && pid !in running then 100 else percent
  }

  /** The log a poll reads: the given path, else the one the session's run
      id names, else none. */
  function ResolvedPath(session: Option<Session>, tmpDir: string, logPath: string): Option<string> {
    if !Falsy(logPath) then Some(logPath)
    else if session.Some? && !Falsy(session.value.runId) then Some(LogPathOf(tmpDir, session.value.runId))
    else None
  }

  /** The pid a poll checks: the given one, else the session's. */
  function EffectivePid(session: Option<Session>, pid: nat): nat {
    if pid == 0 && session.Some? then session.value.pid else pid
  }

  /** The result of `getRenderingPercent`: null without a log to read,
      otherwise the reconciled last percentage of the log. */
  function Poll(files: map<string, string>, session: Option<Session>, tmpDir: string,
                logPath: string, pid: nat, running: set<nat>): (r: Option<nat>)
    ensures r.Some? <==> ResolvedPath(session, tmpDir, logPath).Some? && ResolvedPath(session, tmpDir, logPath).value in files
    ensures r.Some? ==> r.value == 100 || r.value < 99
  {
    match ResolvedPath(session, tmpDir, logPath)
    case None => None
    case Some(path) =>
      if path !in files then None
      else Some(Reconcile(LastPercentage(files[path]), EffectivePid(session, pid), running))
  }

  /** A poll that reports 100 is the last one: once its log is deleted and
      the session slot cleared, the same poll finds nothing to read. */
  lemma CompletedPollIsFinal(files: map<string, string>, session: Option<Session>, tmpDir: string,
                             logPath: string, pid: nat, running: set<nat>, pid': nat, running': set<nat>)
    requires Poll(files, session, tmpDir, logPath, pid, running) == Some(100)
    ensures Poll(files - {ResolvedPath(session, tmpDir, logPath).value}, None, tmpDir, logPath, pid', running') == None
  {
  }

  /** A poll below 99 reports what the log says, exactly. */
  lemma PollReportsLog(files: map<string, string>, session: Option<Session>, tmpDir: string,
                       logPath: string, pid: nat, running: set<nat>)
    requires Poll(files, session, tmpDir, logPath, pid, running).Some?
    requires Poll(files, session, tmpDir, logPath, pid, running).value != 100
    ensures var path := ResolvedPath(session, tmpDir, logPath).value;
      && Poll(files, session, tmpDir, logPath, pid, running).value == LastPercentage(files[path])
      && LastPercentage(files[path]) < 99
      && (EffectivePid(session, pid) == 0 || EffectivePid(session, pid) in running)
  {
  }

  /** Without a path, a poll reads the log of the run the session records. */
  lemma SessionNamesLog(pid: nat, runId: string, tmpDir: string)
    requires !Falsy(runId)
    ensures ResolvedPath(Some(Session(pid, runId)), tmpDir, "") == Some(LogPathOf(tmpDir, runId))
  {
  }
}
