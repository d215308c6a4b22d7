/**
 * The window's state (`AppState` in src/main.rs) and the two places that
 * change it outside the widgets: the drain of the message channel at the top
 * of `update`, and the pre-flight checks of the "Run" button, which run a
 * dry run, read its statistics and start the transfer.
 *
 * The channel is modelled by the messages waiting in it when `update`
 * drains it; the dry run by what it printed on standard output and on
 * standard error; a running rsync process by the command it was started
 * with.
 */
module App {
  import opened Wrappers
  import opened Text
  import opened Commands
  import opened Pump
  import Stats

  /** The run the window is following: the transfer command and the file count it was given. */
  datatype Job = Job(command: Command, filesCount: nat)

  /** What the drain changes: the logs, the progress shown, and whether the run is over. */
  datatype Screen = Screen(
    logs: string,
    errorLogs: string,
    currentProgress: ProgressState,
    isFinished: bool,
    child: Option<Command>)

  // ---------------------------------------------------------------------------
  // The drain: `while let Ok(msg) = rx.try_recv()`

  /** One message applied to the screen. */
  function Receive(v: Screen, m: StateMessage): Screen {
    match m
    case Progress(p) => v.(currentProgress := p)
    case NextFile(line) => if line != [] then v.(logs := v.logs + line + "\n") else v
    case Finished => v.(isFinished := true, child := None)
    case Error(line) => v.(errorLogs := v.errorLogs + line + "\n")
  }

  /** The messages applied one after another, first to last. */
  function Drain(v: Screen, msgs: seq<StateMessage>): Screen {
    if msgs == [] then v else Receive(Drain(v, msgs[..|msgs| - 1]), msgs[|msgs| - 1])
  }

  /** Each line followed by a '\n'. */
  function Joined(ls: seq<string>): string {
    if ls == [] then [] else Joined(ls[..|ls| - 1]) + ls[|ls| - 1] + "\n"
  }

  /** The lines that are not empty, in order. */
  function NonEmpty(ls: seq<string>): seq<string> {
    if ls == [] then []
    else NonEmpty(ls[..|ls| - 1]) + (if ls[|ls| - 1] != [] then [ls[|ls| - 1]] else [])
  }

  /** The lines the `Error` messages carry, in order. */
  function ErrorLines(msgs: seq<StateMessage>): seq<string> {
    if msgs == [] then []
    else ErrorLines(msgs[..|msgs| - 1]) + (if msgs[|msgs| - 1].Error? then [msgs[|msgs| - 1].line] else [])
  }

  /** The states the `Progress` messages carry, in order. */
  function States(msgs: seq<StateMessage>): seq<ProgressState> {
    if msgs == [] then []
    else States(msgs[..|msgs| - 1]) + (if msgs[|msgs| - 1].Progress? then [msgs[|msgs| - 1].state] else [])
  }

  lemma JoinedSnoc(ls: seq<string>, l: string)
    ensures Joined(ls + [l]) == Joined(ls) + l + "\n"
  {
    assert (ls + [l])[..|ls|] == ls;
  }

  lemma NonEmptySnoc(ls: seq<string>, l: string)
    ensures NonEmpty(ls + [l]) == NonEmpty(ls) + (if l != [] then [l] else [])
  {
    assert (ls + [l])[..|ls|] == ls;
  }

  /**
   * The log after a drain: every non-empty file name announced, each on a
   * line of its own, appended to what was there.  Nothing is lost from it.
   */
  lemma {:induction false} DrainLogs(v: Screen, msgs: seq<StateMessage>)
    ensures Drain(v, msgs).logs == v.logs + Joined(NonEmpty(Names(msgs)))
  {
    if msgs == [] {
      assert v.logs + [] == v.logs;
    } else {
      var init := msgs[..|msgs| - 1];
      var m := msgs[|msgs| - 1];
      DrainLogs(v, init);
      var before := Drain(v, init);
      var j := Joined(NonEmpty(Names(init)));
      if m.NextFile? {
        assert Names(msgs) == Names(init) + [m.line];
        NonEmptySnoc(Names(init), m.line);
        if m.line != [] {
          JoinedSnoc(NonEmpty(Names(init)), m.line);
          AppendLine(v.logs, j, m.line);
        } else {
          assert NonEmpty(Names(msgs)) == NonEmpty(Names(init));
        }
      } else {
        assert Names(msgs) == Names(init);
      }
    }
  }

  /** The error log after a drain: every error line, each followed by a '\n', appended to what was there. */
  lemma {:induction false} DrainErrorLogs(v: Screen, msgs: seq<StateMessage>)
    ensures Drain(v, msgs).errorLogs == v.errorLogs + Joined(ErrorLines(msgs))
  {
    if msgs == [] {
      assert v.errorLogs + [] == v.errorLogs;
    } else {
      var init := msgs[..|msgs| - 1];
      var m := msgs[|msgs| - 1];
      DrainErrorLogs(v, init);
      if m.Error? {
        assert ErrorLines(msgs) == ErrorLines(init) + [m.line];
        JoinedSnoc(ErrorLines(init), m.line);
        AppendLine(v.errorLogs, Joined(ErrorLines(init)), m.line);
      } else {
        assert ErrorLines(msgs) == ErrorLines(init);
      }
    }
  }

  lemma AppendLine(a: string, b: string, line: string)
    ensures a + b + line + "\n" == a + (b + line + "\n")
  {
  }

  /** The run is over after a drain exactly when it was before or a `Finished` came; the child is then dropped. */
  lemma {:induction false} DrainFinished(v: Screen, msgs: seq<StateMessage>)
    ensures Drain(v, msgs).isFinished <==> v.isFinished || Finished in msgs
    ensures Drain(v, msgs).child == if Finished in msgs then None else v.child
  {
    if msgs != [] {
      var init := msgs[..|msgs| - 1];
      DrainFinished(v, init);
      assert msgs == init + [msgs[|msgs| - 1]];
    }
  }

  /** The progress shown after a drain is the one the last `Progress` message carried, if any came. */
  lemma {:induction false} DrainProgress(v: Screen, msgs: seq<StateMessage>)
    ensures var ps := States(msgs);
      Drain(v, msgs).currentProgress == if ps == [] then v.currentProgress else ps[|ps| - 1]
  {
    if msgs != [] {
      DrainProgress(v, msgs[..|msgs| - 1]);
    }
  }

  /** Draining in two goes is draining once: it does not matter how many frames the messages arrive over. */
  lemma {:induction false} DrainAppend(v: Screen, a: seq<StateMessage>, b: seq<StateMessage>)
    ensures Drain(v, a + b) == Drain(Drain(v, a), b)
    decreases |b|
  {
    if b == [] {
      assert a + b == a;
    } else {
      assert (a + b)[..|a + b| - 1] == a + b[..|b| - 1];
      DrainAppend(v, a, b[..|b| - 1]);
    }
  }

  lemma {:induction false} ErrorLinesAppend(a: seq<StateMessage>, b: seq<StateMessage>)
    ensures ErrorLines(a + b) == ErrorLines(a) + ErrorLines(b)
    decreases |b|
  {
    if b == [] {
      assert a + b == a;
    } else {
      var b' := b[..|b| - 1];
      assert (a + b)[..|a + b| - 1] == a + b';
      ErrorLinesAppend(a, b');
    }
  }

  /** The stdout pump sends no `Error` message: those come from the standard error thread only. */
  lemma {:induction false} PumpSendsNoErrors(parse: Parser, lines: seq<string>, filesCount: nat)
    ensures ErrorLines(Messages(parse, lines, filesCount)) == []
  {
    if lines != [] {
      var init := lines[..|lines| - 1];
      var line := lines[|lines| - 1];
      PumpSendsNoErrors(parse, init, filesCount);
      var ps := ProgressPart(parse(line), FileCount(init), filesCount);
      var fs := FilePart(line);
      assert ErrorLines(ps) == [] by {
        if ps != [] {
          assert ps[..0] == [];
        }
      }
      assert ErrorLines(fs) == [] by {
        if fs != [] {
          assert fs[..0] == [];
        }
      }
      ErrorLinesAppend(ps, fs);
      ErrorLinesAppend(Messages(parse, init, filesCount), ps + fs);
    }
  }

  /**
   * A whole run of the pump, drained: the log gains the name of every file
   * rsync reported, one per line, the error log gains nothing, and the run
   * is over with no child left.
   */
  lemma PumpThenDrain(parse: Parser, out: seq<byte>, filesCount: nat, v: Screen)
    ensures var w := Drain(v, Messages(parse, StdoutLines(out), filesCount) + [Finished]);
      && w.logs == v.logs + Joined(NonEmpty(FileNames(StdoutLines(out))))
      && w.errorLogs == v.errorLogs
      && w.isFinished && w.child == None
  {
    var lines := StdoutLines(out);
    var msgs := Messages(parse, lines, filesCount);
    var sent := msgs + [Finished];
    PumpStdoutMeaning(parse, out, filesCount);
    DrainLogs(v, sent);
    DrainErrorLogs(v, sent);
    DrainFinished(v, sent);
    PumpSendsNoErrors(parse, lines, filesCount);
    assert ErrorLines(sent) == [] by {
      assert sent[..|sent| - 1] == msgs;
    }
    assert Finished in sent by {
      assert sent[|sent| - 1] == Finished;
    }
  }

  // ---------------------------------------------------------------------------
  // The "Run" button

  const PermissionDenied := "Permission denied"
  const SshKeyMessage := "Access denied when connecting to the server via SSH. Please check if your SSH key is configured.\n"
  const NoCountMessage := "Could not determine the file count for the transfer.\n"

  /** How the checks end: the transfer is refused, cannot be counted, panics on its count, or starts. */
  datatype Verdict =
    | AuthDenied
    | NoFileCount
    | Unparsable(count: string)  // `.parse::<u64>().unwrap()` panics on this text
    | Launch(filesCount: nat)

  /** The error log the checks leave behind and how they end. */
  datatype Decision = Decision(errors: string, verdict: Verdict)

  /** Non-blank standard error of the dry run, as it is logged; blank standard error logs nothing. */
  function StderrReport(stderr: string): (r: string)
    ensures r == [] <==> IsBlank(stderr)
    ensures r != [] ==> r == stderr + "\n"
  {
    TrimEmptyIffBlank(stderr);
    if Trim(stderr) != [] then stderr + "\n" else []
  }

  /** The statistics of the dry run's standard output. */
  function DryRunStats(stdout: string): map<string, string> {
    Stats.StatsOf(Lines(stdout))
  }

  /** Standard error that refuses the transfer: non-blank, and saying "Permission denied". */
  predicate Denied(stderr: string) {
    Trim(stderr) != [] && Contains(stderr, PermissionDenied)
  }

  /** The checks of the "Run" button on what the dry run printed, starting from a cleared error log. */
  function Decide(stdout: string, stderr: string): (d: Decision)
    ensures d.verdict == AuthDenied <==> Denied(stderr)
    ensures StderrReport(stderr) <= d.errors
  {
    if Denied(stderr) then Decision(StderrReport(stderr) + SshKeyMessage, AuthDenied)
    else CountDecision(StderrReport(stderr), stdout, DryRunStats(stdout))
  }

  /** The checks after standard error has been logged as `report`: the file count, from the statistics `stats`. */
  function CountDecision(report: string, stdout: string, stats: map<string, string>): (d: Decision)
    ensures d.verdict != AuthDenied
    ensures report <= d.errors
    ensures d.verdict == NoFileCount <==> Stats.RegularKey !in stats
  {
    if Stats.RegularKey !in stats then
      Decision(report + NoCountMessage + stdout + "\n", NoFileCount)
    else
      match ParseU64(RemoveChar(stats[Stats.RegularKey], '.'))
      case None => Decision(report, Unparsable(stats[Stats.RegularKey]))
      case Some(n) => Decision(report, Launch(n))
  }

  /** Text that contains a non-blank string is not blank. */
  lemma ContainsNotBlank(s: string, needle: string, i: nat, k: nat)
    requires OccursAt(s, needle, i) && k < |needle| && !IsSpace(needle[k])
    ensures Trim(s) != []
  {
    TrimEmptyIffBlank(s);
    assert s[i + k] == needle[k];
  }

  /**
   * A "Permission denied" anywhere on standard error refuses the transfer,
   * whatever the dry run printed: the error log is that standard error, then
   * the message about the SSH key.
   */
  lemma DeniedWhateverStdout(stdout: string, stderr: string)
    requires Contains(stderr, PermissionDenied)
    ensures Decide(stdout, stderr) == Decision(stderr + "\n" + SshKeyMessage, AuthDenied)
  {
    var i :| 0 <= i <= |stderr| - |PermissionDenied| && OccursAt(stderr, PermissionDenied, i);
    ContainsNotBlank(stderr, PermissionDenied, i, 0);
  }

  /**
   * Any other standard error does not stop the transfer: it is logged, and
   * the checks end as they would with nothing on standard error.
   */
  lemma OtherStderrIsOnlyLogged(stdout: string, stderr: string)
    requires !Contains(stderr, PermissionDenied)
    ensures var quiet := Decide(stdout, "");
      Decide(stdout, stderr) == Decision(StderrReport(stderr) + quiet.errors, quiet.verdict)
  {
    assert Trim("") == [];
    assert StderrReport("") == [];
    CountDecisionAfterReport(StderrReport(stderr), stdout, DryRunStats(stdout));
  }

  /** What the count checks log comes after the report of standard error, which changes nothing else. */
  lemma CountDecisionAfterReport(report: string, stdout: string, stats: map<string, string>)
    ensures var plain := CountDecision([], stdout, stats);
      CountDecision(report, stdout, stats) == Decision(report + plain.errors, plain.verdict)
  {
    if Stats.RegularKey !in stats {
      assert report + NoCountMessage + stdout + "\n" == report + ([] + NoCountMessage + stdout + "\n");
    } else {
      assert report + [] == report;
    }
  }

  /** The transfer is refused for want of a file count exactly when the statistics lack "Number of files (regular)". */
  lemma NoFileCountMeaning(stdout: string, stderr: string)
    requires !Contains(stderr, PermissionDenied)
    ensures Decide(stdout, stderr).verdict == NoFileCount <==> Stats.RegularKey !in DryRunStats(stdout)
    ensures Stats.RegularKey !in DryRunStats(stdout) ==>
      Decide(stdout, stderr).errors == StderrReport(stderr) + NoCountMessage + stdout + "\n"
  {
  }

  /**
   * The file count of a started transfer is the "Number of files (regular)"
   * statistic with its '.' grouping separators removed, read as a decimal
   * number that fits in 64 bits.
   */
  lemma LaunchCount(stdout: string, stderr: string, n: nat)
    ensures Decide(stdout, stderr).verdict == Launch(n) <==>
      && !(Trim(stderr) != [] && Contains(stderr, PermissionDenied))
      && Stats.RegularKey in DryRunStats(stdout)
      && var ds := RemoveChar(DryRunStats(stdout)[Stats.RegularKey], '.');
         && |ds| > 0
         && var digits := if ds[0] == '+' then ds[1..] else ds;
            Run(digits, Digit) && n == DecimalValue(digits) && n <= U64_MAX
  {
  }

  // ---------------------------------------------------------------------------
  // The window

  class AppState {
    var src: string
    var dest: string
    var options: Options
    /** `progress`: present while the window follows a run. */
    var progress: Option<Job>
    var logs: string
    var errorLogs: string
    var currentProgress: ProgressState
    var isFinished: bool
    /** `child`: the rsync process started for the run, by its command. */
    var child: Option<Command>

    /** `AppState::default()`. */
    constructor ()
      ensures src == [] && dest == [] && options == Options(false, false, false, false, false, false, false)
      ensures progress == None && child == None
      ensures logs == [] && errorLogs == [] && currentProgress == NoProgress && !isFinished
    {
      src, dest := [], [];
      options := Options(false, false, false, false, false, false, false);
      progress, child := None, None;
      logs, errorLogs := [], [];
      currentProgress := NoProgress;
      isFinished := false;
    }

    function View(): Screen
      reads this
    {
      Screen(logs, errorLogs, currentProgress, isFinished, child)
    }

    /**
     * The top of `update`: when the window follows a run, every message
     * waiting in the channel is applied, in order of arrival.
     */
    method Update(pending: seq<StateMessage>)
      modifies this
      ensures View() == if old(progress).Some? then Drain(old(View()), pending) else old(View())
      ensures src == old(src) && dest == old(dest) && options == old(options) && progress == old(progress)
    {
      if progress.None? {
        return;
      }
      for i := 0 to |pending|
        invariant View() == Drain(old(View()), pending[..i])
        invariant src == old(src) && dest == old(dest) && options == old(options) && progress == old(progress)
      {
        assert pending[..i + 1][..i] == pending[..i];
        match pending[i]
        case Progress(x) =>
          currentProgress := x;
        case NextFile(line) =>
          if line != [] {
            logs := logs + line;
            logs := logs + "\n";
          }
        case Finished =>
          isFinished := true;
          child := None;
        case Error(line) =>
          errorLogs := errorLogs + line;
          errorLogs := errorLogs + "\n";
      }
      assert pending[..|pending|] == pending;
    }

    /**
     * The "Run" button, given what the dry run of
     * `CreateRsyncDryRunCommand(options, src, dest)` printed.  It clears the
     * logs and the progress, runs the checks, and starts the transfer with
     * the counted files when they pass.  `Unparsable` is the panic of the
     * source's `unwrap` on a count that is not a number.
     */
    method RunClicked(stdout: string, stderr: string) returns (verdict: Verdict)
      modifies this
      ensures Started(Decide(stdout, stderr), old(progress), old(child))
      ensures verdict == Decide(stdout, stderr).verdict
      ensures src == old(src) && dest == old(dest) && options == old(options)
    {
      var d := Checks(stdout, stderr);
      Start(d);
      verdict := d.verdict;
    }

    /**
     * The state the button leaves: the logs cleared but for what the checks
     * logged, no progress, and when the checks pass, the transfer following
     * the checked count.
     */
    predicate Started(d: Decision, progress0: Option<Job>, child0: Option<Command>)
      reads this
    {
      && errorLogs == d.errors
      && logs == [] && currentProgress == NoProgress && !isFinished
      && (d.verdict.Launch? ==>
            var command := CreateRsyncCommand(options, src, dest);
            progress == Some(Job(command, d.verdict.filesCount)) && child == Some(command))
      && (!d.verdict.Launch? ==> progress == progress0 && child == child0)
    }

    /** The body of the button around the checks: reset, log, and start the transfer when they pass. */
    method Start(d: Decision)
      modifies this
      ensures Started(d, old(progress), old(child))
      ensures src == old(src) && dest == old(dest) && options == old(options)
    {
      errorLogs := [];
      logs := [];
      isFinished := false;
      currentProgress := NoProgress;
      errorLogs := errorLogs + d.errors;
      if d.verdict.Launch? {
        var command := CreateRsyncCommand(options, src, dest);
        progress := Some(Job(command, d.verdict.filesCount));
        child := Some(command);
      }
    }
  }

  /**
   * The checks of the "Run" button: log non-blank standard error, stop on
   * "Permission denied", read the statistics, stop when the file count is
   * missing, and read the count.  `d.errors` is what they append to the
   * error log.
   */
  method Checks(stdout: string, stderr: string) returns (d: Decision)
    ensures d == Decide(stdout, stderr)
  {
    var errors: string := [];
    if Trim(stderr) != [] {
      errors := errors + stderr;
      errors := errors + "\n";
      assert errors == StderrReport(stderr);
      if Contains(stderr, PermissionDenied) {
        errors := errors + SshKeyMessage;
        assert Denied(stderr);
        return Decision(errors, AuthDenied);
      }
    }
    assert errors == StderrReport(stderr) && !Denied(stderr);
    var data := Stats.ParseRsyncStats(stdout);
    d := ReadCount(errors, stdout, data);
    assert d == CountDecision(StderrReport(stderr), stdout, DryRunStats(stdout));
  }

  /** The checks after standard error: look up the file count and read it. */
  method ReadCount(errors: string, stdout: string, data: map<string, string>) returns (d: Decision)
    ensures d == CountDecision(errors, stdout, data)
  {
    if Stats.RegularKey !in data {
      var logged := errors + NoCountMessage;
      logged := logged + stdout;
      logged := logged + "\n";
      return Decision(logged, NoFileCount);
    }
    var count := ParseU64(RemoveChar(data[Stats.RegularKey], '.'));
    if count.None? {
      return Decision(errors, Unparsable(data[Stats.RegularKey]));
    }
    return Decision(errors, Launch(count.value));
  }
}
