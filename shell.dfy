/**
 * The PersoSim object: its two fields change in place, and each method is proved to have
 * the effect the matching Control function describes.
 */
module Shell {
  import opened Wrappers
  import opened JavaString
  import opened CommandLine
  import opened Control

  class PersoSim {
    /** The socket simulator; None until startSimulator first builds it. */
    var simulator: Option<Simulator>
    /** The personalization in use; None until one is loaded or the default is taken. */
    var currentPersonalization: Option<Perso>

    ghost function State(): Session
      reads this
    {
      Session(currentPersonalization, simulator)
    }

    constructor ()
      ensures State() == Session(None, None)
    {
      simulator := None;
      currentPersonalization := None;
    }

    method GetPersonalization() returns (perso: Perso)
      modifies this
      ensures (perso, State()) == Control.GetPersonalization(old(State()))
    {
      if currentPersonalization.None? {
        currentPersonalization := Some(DefaultPersoTestPki);
      }
      perso := currentPersonalization.value;
    }

    /** Parses first and assigns after, so a failure leaves the field as it was. */
    method SetPersonalization(files: PersoFiles, persoFileName: string) returns (failure: Option<ParseError>)
      modifies this
      ensures Loaded(State(), failure) == Control.SetPersonalization(old(State()), files, persoFileName)
    {
      var parsed := ParsePersonalization(files, persoFileName);
      match parsed
      case Failure(e) =>
        failure := Some(e);
      case Success(perso) =>
        currentPersonalization := Some(perso);
        failure := None;
    }

    method StartSimulator()
      modifies this
      ensures State() == Control.StartSimulator(old(State()))
    {
      if simulator.None? {
        var perso := GetPersonalization();
        simulator := Some(Simulator(perso, false));
      }
      if !simulator.value.running {
        simulator := Some(simulator.value.(running := true));
      }
    }

    method StopSimulator()
      modifies this
      ensures State() == Control.StopSimulator(old(State()))
    {
      if simulator.Some? {
        simulator := Some(simulator.value.(running := false));
      }
    }

    /**
     * One pass of the command loop: the line is trimmed and split by parseArgs, and the
     * switch runs on the first word. Returns false only for `exit`.
     */
    method Dispatch(files: PersoFiles, line: string) returns (keepRunning: bool)
      modifies this
      ensures StepResult(State(), keepRunning) == Control.Dispatch(old(State()), files, line)
    {
      var cmd := Trim(line);
      var args := ParseArgs(cmd);
      ShellSplitAgrees(line);
      keepRunning := true;
      if |args| > 0 {
        var command := args[0];
        if command == CmdLoadPersonalization {
          if |args| == 2 {
            var failure := SetPersonalization(files, args[1]);
            if failure.None? {
              StopSimulator();
              StartSimulator();
            } else {
              StopSimulator();
            }
          }
        } else if command == CmdSendApdu {
          // the APDU goes to the simulator over its socket; no field changes
        } else if command == CmdStart {
          StartSimulator();
        } else if command == CmdRestart {
          StopSimulator();
          StartSimulator();
          StopSimulator();
        } else if command == CmdStop {
          StopSimulator();
        } else if command == CmdExit {
          StopSimulator();
          keepRunning := false;
        }
      }
    }

    /**
     * handleUserCommands: reads the lines in order until `exit` or the end of the input.
     * Returns whether it stopped on `exit`.
     */
    method HandleUserCommands(files: PersoFiles, lines: seq<string>) returns (exited: bool)
      modifies this
      ensures RunResult(State(), exited) == Control.HandleUserCommands(old(State()), files, lines)
    {
      var executeUserCommands := true;
      var i := 0;
      while executeUserCommands && i < |lines|
        invariant 0 <= i <= |lines|
        invariant Control.HandleUserCommands(old(State()), files, lines) ==
          if executeUserCommands then Control.HandleUserCommands(State(), files, lines[i..])
          else RunResult(State(), true)
      {
        assert lines[i..][1..] == lines[i + 1..];
        executeUserCommands := Dispatch(files, lines[i]);
        i := i + 1;
      }
      exited := !executeUserCommands;
    }

    /**
     * handleArgs: walks the arguments, setting the personalization named after each `-p`.
     * The first file that cannot be parsed ends the walk and is reported.
     */
    method HandleArgs(files: PersoFiles, args: seq<string>) returns (failure: Option<ParseError>)
      modifies this
      ensures Loaded(State(), failure) == Control.HandleArgs(old(State()), files, args)
    {
      failure := None;
      var i := 0;
      while i < |args| && failure.None?
        invariant 0 <= i <= |args|
        invariant Control.HandleArgs(old(State()), files, args) ==
          if failure.None? then Control.HandleArgs(State(), files, args[i..])
          else Loaded(State(), failure)
      {
        var currentArgument := args[i];
        i := i + 1;
        if currentArgument == CmdLoadPersonalizationShort {
          if i < |args| {
            var fileName := args[i];
            i := i + 1;
            assert args[i - 2..][2..] == args[i..];
            failure := SetPersonalization(files, fileName);
          } else {
            assert args[i - 1..] == [currentArgument];
          }
        } else {
          assert args[i - 1..][1..] == args[i..];
        }
      }
    }

    /** run: start the simulator, then read commands. */
    method Run(files: PersoFiles, lines: seq<string>) returns (exited: bool)
      modifies this
      ensures RunResult(State(), exited) == Control.Run(old(State()), files, lines)
    {
      StartSimulator();
      exited := HandleUserCommands(files, lines);
    }

    /** main: a new PersoSim handles the arguments and then runs, or stops when they fail. */
    static method Launch(files: PersoFiles, args: seq<string>, lines: seq<string>)
      returns (sim: PersoSim, result: LaunchResult)
      ensures result == Control.Launch(files, args, lines)
      ensures sim.State() == result.session
    {
      sim := new PersoSim();
      var failure := sim.HandleArgs(files, args);
      if failure.Some? {
        sim.StopSimulator();
        result := Aborted(failure.value, Session(sim.currentPersonalization, sim.simulator));
      } else {
        var exited := sim.Run(files, lines);
        result := Ran(Session(sim.currentPersonalization, sim.simulator), exited);
      }
    }
  }
}
