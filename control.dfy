/**
 * The simulator control of PersoSim as values: the stored personalization, the socket
 * simulator (absent, or built with a personalization and running or stopped), and the
 * effect of each operation and shell command on them.
 */
module Control {
  import opened Wrappers
  import opened JavaString
  import opened CommandLine

  /** A personalization: the built-in default test PKI, or one unmarshalled from an XML document. */
  datatype Perso = DefaultPersoTestPki | Unmarshalled(document: string)

  /**
   * The personalization files the program can read. A name that is not a key is a file
   * that does not exist; a key mapped to None is a file that cannot be unmarshalled.
   */
  type PersoFiles = map<string, Option<Perso>>

  /** Why parsePersonalization threw an IllegalArgumentException. */
  datatype ParseError = PersoFileNotFound(fileName: string) | UnableToParse(fileName: string)

  /** A SocketSimulator: the personalization it was built with and whether it is running. */
  datatype Simulator = Simulator(perso: Perso, running: bool)

  /** The fields of a PersoSim object: currentPersonalization and simulator (None is null). */
  datatype Session = Session(perso: Option<Perso>, sim: Option<Simulator>)

  /**
   * A simulator is only ever built from getPersonalization, which stores what it returns:
   * while a simulator exists, a personalization is stored.
   */
  predicate Consistent(s: Session) {
    s.sim.Some? ==> s.perso.Some?
  }

  /** The state after an operation that may throw, and what it threw. */
  datatype Loaded = Loaded(session: Session, failure: Option<ParseError>)

  /** The state after one shell command, and whether the shell reads another one. */
  datatype StepResult = StepResult(session: Session, keepRunning: bool)

  /** The state when the shell stops reading, and whether it stopped on `exit`. */
  datatype RunResult = RunResult(session: Session, exited: bool)

  const CmdStart: string := "start"
  const CmdRestart: string := "restart"
  const CmdStop: string := "stop"
  const CmdExit: string := "exit"
  const CmdLoadPersonalization: string := "loadPerso"
  const CmdLoadPersonalizationShort: string := "-p"
  const CmdSendApdu: string := "sendapdu"
  const CmdHelp: string := "help"

  /** parsePersonalization: the file's personalization, or why it cannot be had. */
  function ParsePersonalization(files: PersoFiles, fileName: string): (r: Result<Perso, ParseError>)
    ensures r.Success? <==> fileName in files && files[fileName].Some?
    ensures r.Success? ==> files[fileName] == Some(r.value)
    ensures r.Failure? ==> r.error.fileName == fileName
    ensures r.Failure? ==> (r.error.PersoFileNotFound? <==> fileName !in files)
  {
    if fileName !in files then Failure(PersoFileNotFound(fileName))
    else match files[fileName]
      case None => Failure(UnableToParse(fileName))
      case Some(p) => Success(p)
  }

  /**
   * getPersonalization: the stored personalization, which is set to the default test PKI
   * first when there is none. Afterwards the stored one is set and is the one returned;
   * a stored one is returned untouched; nothing else changes.
   */
  function GetPersonalization(s: Session): (r: (Perso, Session))
    ensures r.1 == s.(perso := Some(r.0))
    ensures s.perso.Some? ==> r.0 == s.perso.value && r.1 == s
    ensures s.perso.None? ==> r.0 == DefaultPersoTestPki
  {
    match s.perso
    case Some(p) => (p, s)
    case None => (DefaultPersoTestPki, s.(perso := Some(DefaultPersoTestPki)))
  }

  /**
   * setPersonalization: the stored personalization is replaced only once the file has
   * been parsed; a failure reports the file and leaves everything as it was.
   */
  function SetPersonalization(s: Session, files: PersoFiles, fileName: string): (r: Loaded)
    ensures r.failure.None? <==> fileName in files && files[fileName].Some?
    ensures r.failure.None? ==> r.session == s.(perso := files[fileName])
    ensures r.failure.Some? ==> r.session == s && r.failure.value.fileName == fileName
  {
    match ParsePersonalization(files, fileName)
    case Success(p) => Loaded(s.(perso := Some(p)), None)
    case Failure(e) => Loaded(s, Some(e))
  }

  /**
   * startSimulator: afterwards a simulator exists and runs. An existing simulator is only
   * (re)started, never rebuilt, so it keeps the personalization it was built with; a new
   * one is built with the personalization getPersonalization yields.
   */
  function StartSimulator(s: Session): (r: Session)
    ensures r.sim.Some? && r.sim.value.running
    ensures Consistent(s) ==> Consistent(r)
    ensures s.sim.Some? ==> r.perso == s.perso && r.sim.value.perso == s.sim.value.perso
    ensures s.sim.None? ==> r.sim.value.perso == GetPersonalization(s).0 == r.perso.value
  {
    var built :=
      if s.sim.None? then
        var got := GetPersonalization(s);
        got.1.(sim := Some(Simulator(got.0, false)))
      else s;
    if !built.sim.value.running then built.(sim := Some(built.sim.value.(running := true))) else built
  }

  /**
   * stopSimulator: without a simulator nothing happens; otherwise the simulator is
   * stopped and keeps its personalization, and the stored personalization is untouched.
   */
  function StopSimulator(s: Session): (r: Session)
    ensures s.sim.None? ==> r == s
    ensures s.sim.Some? ==> r.perso == s.perso && r.sim == Some(Simulator(s.sim.value.perso, false))
  {
    match s.sim
    case None => s
    case Some(sim) => s.(sim := Some(sim.(running := false)))
  }

  /**
   * The `loadPerso` command with the parsed line `args`. Without exactly one file name
   * nothing changes. When the file parses, it becomes the stored personalization and the
   * simulator is stopped and started again; an existing simulator keeps serving its old
   * personalization. When it does not parse, the stored personalization stays and the
   * simulator is left stopped.
   */
  function LoadPerso(s: Session, files: PersoFiles, args: seq<string>): (r: Session)
    ensures |args| != 2 ==> r == s
    ensures |args| == 2 && SetPersonalization(s, files, args[1]).failure.None? ==>
      r.perso == files[args[1]] && r.sim.Some? && r.sim.value.running &&
      r.sim.value.perso == (if s.sim.Some? then s.sim.value.perso else files[args[1]].value)
    ensures |args| == 2 && SetPersonalization(s, files, args[1]).failure.Some? ==>
      r.perso == s.perso && r.sim == (if s.sim.Some? then Some(Simulator(s.sim.value.perso, false)) else None)
  {
    if |args| == 2 then
      var loaded := SetPersonalization(s, files, args[1]);
      if loaded.failure.None? then StartSimulator(StopSimulator(loaded.session))
      else StopSimulator(s)
    else s
  }

  /** Whether the shell reads `line` as `command`: the first word of the trimmed line. */
  predicate IsCommand(line: string, command: string) {
    var args := SplitCommandLine(line);
    |args| > 0 && args[0] == command
  }

  /**
   * One pass of the command loop on `line`: the switch over the first word. `restart`
   * has no break, so after stopping and starting it also runs `stop`. `sendapdu` talks to
   * the simulator over its socket and changes no field; `help` and unknown words only print.
   */
  function Dispatch(s: Session, files: PersoFiles, line: string): StepResult {
    var args := SplitCommandLine(line);
    if |args| == 0 then StepResult(s, true)
    else
      var command := args[0];
      if command == CmdLoadPersonalization then StepResult(LoadPerso(s, files, args), true)
      else if command == CmdSendApdu then StepResult(s, true)
      else if command == CmdStart then StepResult(StartSimulator(s), true)
      else if command == CmdRestart then StepResult(StopSimulator(StartSimulator(StopSimulator(s))), true)
      else if command == CmdStop then StepResult(StopSimulator(s), true)
      else if command == CmdExit then StepResult(StopSimulator(s), false)
      else StepResult(s, true)
  }

  /**
   * Only `exit` ends the loop, and it leaves the simulator stopped. A simulator, once
   * built, stays and keeps its personalization; a stored personalization is never cleared.
   */
  lemma DispatchInvariants(s: Session, files: PersoFiles, line: string)
    ensures var r := Dispatch(s, files, line);
      (!r.keepRunning <==> IsCommand(line, CmdExit)) &&
      (!r.keepRunning ==> r.session.sim.None? || !r.session.sim.value.running) &&
      (s.sim.Some? ==> r.session.sim.Some? && r.session.sim.value.perso == s.sim.value.perso) &&
      (s.perso.Some? ==> r.session.perso.Some?) &&
      (Consistent(s) ==> Consistent(r.session))
  {
    var args := SplitCommandLine(line);
    var r := Dispatch(s, files, line);
    if |args| == 0 {
      assert r == StepResult(s, true);
    } else if args[0] == CmdLoadPersonalization {
      assert r == StepResult(LoadPerso(s, files, args), true);
    } else if args[0] == CmdRestart {
      assert r == StepResult(StopSimulator(StartSimulator(StopSimulator(s))), true);
    } else if args[0] == CmdExit {
      assert r == StepResult(StopSimulator(s), false);
    } else {
      assert r.keepRunning;
    }
  }

  /** handleUserCommands over the input `lines`: one Dispatch per line until `exit`. */
  function HandleUserCommands(s: Session, files: PersoFiles, lines: seq<string>): RunResult
    decreases |lines|
  {
    if lines == [] then RunResult(s, false)
    else
      var step := Dispatch(s, files, lines[0]);
      if !step.keepRunning then RunResult(step.session, true)
      else HandleUserCommands(step.session, files, lines[1..])
  }

  /**
   * Over any input: after `exit` the simulator is stopped; a simulator that exists keeps
   * its personalization throughout; a stored personalization is never cleared.
   */
  lemma {:induction false} HandleUserCommandsInvariants(s: Session, files: PersoFiles, lines: seq<string>)
    ensures var r := HandleUserCommands(s, files, lines);
      (r.exited ==> r.session.sim.None? || !r.session.sim.value.running) &&
      (s.sim.Some? ==> r.session.sim.Some? && r.session.sim.value.perso == s.sim.value.perso) &&
      (s.perso.Some? ==> r.session.perso.Some?) &&
      (Consistent(s) ==> Consistent(r.session))
    decreases |lines|
  {
    if lines != [] {
      DispatchInvariants(s, files, lines[0]);
      var step := Dispatch(s, files, lines[0]);
      if step.keepRunning {
        HandleUserCommandsInvariants(step.session, files, lines[1..]);
      }
    }
  }

  /** The loop ends on `exit` exactly when some input line is `exit`; otherwise the input runs out. */
  lemma {:induction false} HandleUserCommandsExitsOnExit(s: Session, files: PersoFiles, lines: seq<string>)
    ensures HandleUserCommands(s, files, lines).exited <==>
      exists i :: 0 <= i < |lines| && IsCommand(lines[i], CmdExit)
    decreases |lines|
  {
    if lines != [] {
      DispatchInvariants(s, files, lines[0]);
      var step := Dispatch(s, files, lines[0]);
      if step.keepRunning {
        HandleUserCommandsExitsOnExit(step.session, files, lines[1..]);
        assert forall i :: 0 < i < |lines| ==> lines[1..][i - 1] == lines[i];
      }
    }
  }

  /** run: start the simulator, then read commands. */
  function Run(s: Session, files: PersoFiles, lines: seq<string>): RunResult {
    HandleUserCommands(StartSimulator(s), files, lines)
  }

  /**
   * Whatever `loadPerso` commands follow, the simulator serves for the whole run the
   * personalization it was first built with: that of an existing simulator, else the
   * stored one, else the default test PKI.
   */
  lemma RunServesInitialPerso(s: Session, files: PersoFiles, lines: seq<string>)
    ensures var r := Run(s, files, lines);
      r.session.sim.Some? &&
      r.session.sim.value.perso == (if s.sim.Some? then s.sim.value.perso else GetPersonalization(s).0) &&
      (Consistent(s) ==> Consistent(r.session))
  {
    HandleUserCommandsInvariants(StartSimulator(s), files, lines);
  }

  /**
   * handleArgs: walks the arguments; `-p` takes the next argument as a personalization
   * file and sets it, a `-p` with nothing after it is ignored, every other argument is
   * skipped. The first file that cannot be parsed aborts the walk with its error.
   */
  function HandleArgs(s: Session, files: PersoFiles, args: seq<string>): (r: Loaded)
    ensures r.session.sim == s.sim
    decreases |args|
  {
    if args == [] then Loaded(s, None)
    else if args[0] == CmdLoadPersonalizationShort then
      if |args| >= 2 then
        var loaded := SetPersonalization(s, files, args[1]);
        if loaded.failure.Some? then loaded else HandleArgs(loaded.session, files, args[2..])
      else Loaded(s, None)
    else HandleArgs(s, files, args[1..])
  }

  /** The file names the arguments ask for: each argument that follows a `-p`, pairing from the left. */
  function RequestedFiles(args: seq<string>): (names: seq<string>)
    ensures |names| <= |args| / 2
    decreases |args|
  {
    if args == [] then []
    else if args[0] == CmdLoadPersonalizationShort then
      if |args| >= 2 then [args[1]] + RequestedFiles(args[2..]) else []
    else RequestedFiles(args[1..])
  }

  /** Arguments without any `-p` are all skipped: nothing changes and nothing fails. */
  lemma {:induction false} HandleArgsWithoutFlag(s: Session, files: PersoFiles, args: seq<string>)
    requires CmdLoadPersonalizationShort !in args
    ensures HandleArgs(s, files, args) == Loaded(s, None)
    decreases |args|
  {
    if args != [] {
      assert args[0] != CmdLoadPersonalizationShort;
      assert CmdLoadPersonalizationShort !in args[1..] by {
        forall i | 0 <= i < |args[1..]| ensures args[1..][i] != CmdLoadPersonalizationShort {
          assert args[1..][i] == args[i + 1];
        }
      }
      HandleArgsWithoutFlag(s, files, args[1..]);
    }
  }

  /** Unknown arguments are skipped and a `-p` at the end asks for nothing. */
  lemma RequestedFilesExample()
    ensures RequestedFiles(["-v", "-p", "a.xml", "extra", "-p"]) == ["a.xml"]
  {
    var args := ["-v", "-p", "a.xml", "extra", "-p"];
    assert args[1..] == ["-p", "a.xml", "extra", "-p"];
    assert args[1..][2..] == ["extra", "-p"];
    assert args[1..][2..][1..] == ["-p"];
  }

  /** Set each named personalization in turn, stopping at the first that fails. */
  function SetAll(s: Session, files: PersoFiles, names: seq<string>): (r: Loaded)
    decreases |names|
  {
    if names == [] then Loaded(s, None)
    else
      var loaded := SetPersonalization(s, files, names[0]);
      if loaded.failure.Some? then loaded else SetAll(loaded.session, files, names[1..])
  }

  /** Every name is a file that parses. */
  predicate AllParse(files: PersoFiles, names: seq<string>) {
    forall i :: 0 <= i < |names| ==> names[i] in files && files[names[i]].Some?
  }

  /** handleArgs sets exactly the requested files, in order. */
  lemma {:induction false} HandleArgsSetsRequested(s: Session, files: PersoFiles, args: seq<string>)
    ensures HandleArgs(s, files, args) == SetAll(s, files, RequestedFiles(args))
    decreases |args|
  {
    if args == [] {
    } else if args[0] == CmdLoadPersonalizationShort {
      if |args| >= 2 {
        var loaded := SetPersonalization(s, files, args[1]);
        if loaded.failure.None? {
          HandleArgsSetsRequested(loaded.session, files, args[2..]);
          assert ([args[1]] + RequestedFiles(args[2..]))[1..] == RequestedFiles(args[2..]);
        }
      }
    } else {
      HandleArgsSetsRequested(s, files, args[1..]);
    }
  }

  /**
   * When every named file parses, nothing fails and the last one named is the stored
   * personalization (the old one when no file is named).
   */
  lemma {:induction false} SetAllLastWins(s: Session, files: PersoFiles, names: seq<string>)
    requires AllParse(files, names)
    ensures SetAll(s, files, names).failure.None?
    ensures SetAll(s, files, names).session ==
      if names == [] then s else s.(perso := files[names[|names| - 1]])
    decreases |names|
  {
    if names != [] {
      var loaded := SetPersonalization(s, files, names[0]);
      assert AllParse(files, names[1..]) by {
        forall i | 0 <= i < |names[1..]|
          ensures names[1..][i] in files && files[names[1..][i]].Some?
        {
          assert names[1..][i] == names[i + 1];
        }
      }
      SetAllLastWins(loaded.session, files, names[1..]);
    }
  }

  /**
   * When a named file does not parse, the walk fails on the first such file; the stored
   * personalization is then that of the last file before it (or the old one).
   */
  lemma {:induction false} SetAllFirstFailure(s: Session, files: PersoFiles, names: seq<string>, k: nat)
    requires k < |names| && AllParse(files, names[..k])
    requires !(names[k] in files && files[names[k]].Some?)
    ensures SetAll(s, files, names).failure == Some(ParsePersonalization(files, names[k]).error)
    ensures SetAll(s, files, names).session ==
      if k == 0 then s else s.(perso := files[names[k - 1]])
    decreases |names|
  {
    if k == 0 {
    } else {
      assert names[0] == names[..k][0];
      var loaded := SetPersonalization(s, files, names[0]);
      assert names[1..][..k - 1] == names[1..k];
      assert AllParse(files, names[1..k]) by {
        forall i | 0 <= i < k - 1
          ensures names[1..k][i] in files && files[names[1..k][i]].Some?
        {
          assert names[1..k][i] == names[..k][i + 1];
        }
      }
      SetAllFirstFailure(loaded.session, files, names[1..], k - 1);
      if k > 1 {
        assert names[1..][k - 2] == names[k - 1];
      } else {
        assert names[0] == names[k - 1];
      }
    }
  }

  /** main: handle the arguments; if one aborts, stop the simulator, otherwise run the shell. */
  datatype LaunchResult = Aborted(error: ParseError, session: Session) | Ran(session: Session, exited: bool)

  function Launch(files: PersoFiles, args: seq<string>, lines: seq<string>): LaunchResult {
    var loaded := HandleArgs(Session(None, None), files, args);
    if loaded.failure.Some? then Aborted(loaded.failure.value, StopSimulator(loaded.session))
    else
      var run := Run(loaded.session, files, lines);
      Ran(run.session, run.exited)
  }

  /**
   * When every file named after a `-p` parses, the program runs, and its simulator serves,
   * through the whole session, the personalization of the last such file, or the default
   * test PKI when there is none: later `loadPerso` commands only change the stored one.
   */
  lemma LaunchServesLastRequestedFile(files: PersoFiles, args: seq<string>, lines: seq<string>)
    requires AllParse(files, RequestedFiles(args))
    ensures var names := RequestedFiles(args);
      var r := Launch(files, args, lines);
      r.Ran? && r.session.sim.Some? &&
      r.session.sim.value.perso ==
        (if names == [] then DefaultPersoTestPki else files[names[|names| - 1]].value)
  {
    var start := Session(None, None);
    HandleArgsSetsRequested(start, files, args);
    SetAllLastWins(start, files, RequestedFiles(args));
    RunServesInitialPerso(HandleArgs(start, files, args).session, files, lines);
  }

  /**
   * When a file named after a `-p` does not parse, the program aborts with the error of
   * the first such file, without having built a simulator or read a command.
   */
  lemma LaunchAbortsOnFirstBadFile(files: PersoFiles, args: seq<string>, lines: seq<string>, k: nat)
    requires var names := RequestedFiles(args);
      k < |names| && AllParse(files, names[..k]) && !(names[k] in files && files[names[k]].Some?)
    ensures var names := RequestedFiles(args);
      Launch(files, args, lines) ==
        Aborted(ParsePersonalization(files, names[k]).error,
                Session(if k == 0 then None else files[names[k - 1]], None))
  {
    var start := Session(None, None);
    HandleArgsSetsRequested(start, files, args);
    SetAllFirstFailure(start, files, RequestedFiles(args), k);
  }

  /** getPersonalization is idempotent: a second call returns the same and changes nothing. */
  lemma GetPersonalizationIdempotent(s: Session)
    ensures var (p, s1) := GetPersonalization(s);
      GetPersonalization(s1) == (p, s1)
  {
  }

  /**
   * `restart` falls through into `stop`: it leaves a simulator that exists and is stopped,
   * the one that was there if any, and the shell goes on reading.
   */
  lemma RestartLeavesSimulatorStopped(s: Session, files: PersoFiles, line: string)
    requires IsCommand(line, CmdRestart)
    ensures var r := Dispatch(s, files, line);
      r.keepRunning && r.session.sim.Some? && !r.session.sim.value.running &&
      (s.sim.Some? ==> r.session.sim.value.perso == s.sim.value.perso) &&
      (s.sim.None? ==> r.session.sim.value.perso == GetPersonalization(s).0)
  {
  }

  /** `stop` without a simulator, `help`, `sendapdu` and unknown words change nothing. */
  lemma InertCommands(s: Session, files: PersoFiles, line: string)
    requires var args := SplitCommandLine(line);
      args == [] ||
      (args[0] == CmdStop && s.sim.None?) ||
      args[0] !in {CmdLoadPersonalization, CmdStart, CmdRestart, CmdStop, CmdExit}
    ensures Dispatch(s, files, line) == StepResult(s, true)
  {
  }

  /** Lines after `exit` are never read. */
  lemma {:induction false} HandleUserCommandsIgnoresAfterExit(s: Session, files: PersoFiles, lines: seq<string>, more: seq<string>)
    requires HandleUserCommands(s, files, lines).exited
    ensures HandleUserCommands(s, files, lines + more) == HandleUserCommands(s, files, lines)
    decreases |lines|
  {
    assert lines != [];
    var step := Dispatch(s, files, lines[0]);
    assert (lines + more)[0] == lines[0];
    if step.keepRunning {
      assert (lines + more)[1..] == lines[1..] + more;
      HandleUserCommandsIgnoresAfterExit(step.session, files, lines[1..], more);
      assert HandleUserCommands(s, files, lines) == HandleUserCommands(step.session, files, lines[1..]);
    } else {
      assert HandleUserCommands(s, files, lines) == RunResult(step.session, true);
    }
  }

  /** Input read in two parts, with no `exit` in the first, gives the same state as read at once. */
  lemma {:induction false} HandleUserCommandsAppend(s: Session, files: PersoFiles, lines: seq<string>, more: seq<string>)
    requires !HandleUserCommands(s, files, lines).exited
    ensures HandleUserCommands(s, files, lines + more) ==
      HandleUserCommands(HandleUserCommands(s, files, lines).session, files, more)
    decreases |lines|
  {
    if lines == [] {
      assert lines + more == more;
    } else {
      var step := Dispatch(s, files, lines[0]);
      assert (lines + more)[0] == lines[0];
      assert (lines + more)[1..] == lines[1..] + more;
      HandleUserCommandsAppend(step.session, files, lines[1..], more);
    }
  }

  /** `loadPerso f`, for a trimmed file name `f`, is the `loadPerso` command with the one file name `f`. */
  lemma LoadPersoLineSplit(f: string)
    requires f != "" && IsTrimmed(f)
    ensures SplitCommandLine(CmdLoadPersonalization + " " + f) == [CmdLoadPersonalization, f]
  {
    var line := CmdLoadPersonalization + " " + f;
    assert IsTrimmed(line) by {
      assert line[0] == 'l' && line[|line| - 1] == f[|f| - 1];
    }
    assert IndexOf(line, ' ') == 9 by {
      IndexOfAt(line, ' ', 9);
    }
    assert Trim(line[9..]) == f by {
      assert line[9..] == " " + f;
      TrimAfterSpace(f);
    }
    assert line[..9] == CmdLoadPersonalization;
    assert ParseArgs(line) == [CmdLoadPersonalization, f] by {
      ParseArgsTrimmedSplit(line);
    }
    assert Trim(line) == line by {
      TrimIdentity(line);
    }
    ShellSplitAgrees(line);
  }

  /**
   * Loading a personalization into a running session: the stored personalization is the
   * new one, while the simulator, restarted, still serves the default test PKI it was
   * started with.
   */
  lemma LoadPersoKeepsStaleSimulator(files: PersoFiles, f: string, p: Perso)
    requires f != "" && IsTrimmed(f) && f in files && files[f] == Some(p)
    ensures var r := Run(Session(None, None), files, [CmdLoadPersonalization + " " + f]);
      !r.exited && r.session.perso == Some(p) &&
      r.session.sim == Some(Simulator(DefaultPersoTestPki, true))
  {
    var line := CmdLoadPersonalization + " " + f;
    LoadPersoLineSplit(f);
    var started := Session(Some(DefaultPersoTestPki), Some(Simulator(DefaultPersoTestPki, true)));
    assert StartSimulator(Session(None, None)) == started;
    var loaded := Session(Some(p), Some(Simulator(DefaultPersoTestPki, true)));
    assert LoadPerso(started, files, [CmdLoadPersonalization, f]) == loaded;
    assert Dispatch(started, files, line) == StepResult(loaded, true);
    assert [line][1..] == [];
    assert HandleUserCommands(started, files, [line]) == HandleUserCommands(loaded, files, []);
    assert Run(Session(None, None), files, [line]) == RunResult(loaded, false);
  }
}
