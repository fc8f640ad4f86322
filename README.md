# PersoSim command-line control, modelled in Dafny

PersoSim simulates an identity-document chip behind a socket. This project models the
program's command-line front end, the `PersoSim` class. The chip's command-processing
engine is not in it. The model covers:

- **`parseArgs`**, which splits a console line into a command word and a parameter string;
- **the simulator control**: the stored personalization, the socket simulator (built with a
  personalization, then running or stopped), `getPersonalization` (lazily takes the default
  test PKI), `setPersonalization`, `startSimulator` and `stopSimulator`;
- **the interactive shell**: the `handleUserCommands` loop and its switch over `loadPerso`,
  `sendapdu`, `start`, `restart`, `stop`, `exit` and `help`;
- **`handleArgs`**, which consumes `-p <file>` pairs from the program arguments, and `main`/`run`,
  which chain `handleArgs`, `startSimulator` and the shell.

Modules:

- `wrappers.dfy`: `Option` (Java's null) and `Result` (Java's exceptions).
- `java_string.dfy`: the `String.trim`, `toLowerCase` and `indexOf` semantics the code relies on.
  `trim` is written like the JDK's loop over start and end indices.
- `command_line.dfy`: `ParseArgs` as written, and `SplitCommandLine`, the split the doc
  comment describes.
- `control.dfy`: the object's fields as a value (`Session`), one function per operation,
  and the lemmas about them.
- `shell.dfy`: class `PersoSim`. Its fields `simulator` and `currentPersonalization` are
  updated in place. Each method is proved to have exactly the effect of the matching
  `Control` function. The two loops (`HandleUserCommands`, `HandleArgs`) carry invariants
  that tie the unread input to the function.

Parsing a personalization file is an oracle. `PersoFiles` maps a file name to
`Some(personalization)`, or to `None` when unmarshalling fails. A name that is not in the map
is a missing file. Console input is a sequence of lines.

The `restart` case has no `break`, so it falls through into `stop`. The model keeps this
as written: `restart` leaves the simulator stopped. `startSimulator` only builds a
simulator when none exists. So after `loadPerso` the restarted simulator still serves the
personalization it was first built with. This is also modelled as written and stated as
lemmas.

## Model

| member | source | states |
|---|---|---|
| CommandLine.ParseArgs | de.persosim.simulator/src/de/persosim/simulator/PersoSim.java:173-190 | at most two elements; no element exactly when the input is the zero-length string |
| CommandLine.ParseArgsBlank | de.persosim.simulator/src/de/persosim/simulator/PersoSim.java:174-187 | a non-empty, all-whitespace input comes back whole as the only element (emptiness is tested before trimming) |
| CommandLine.ParseArgsNoSpace | de.persosim.simulator/src/de/persosim/simulator/PersoSim.java:176-187 | an input without a space comes back unchanged, case included, as the only element (none for "") |
| CommandLine.ParseArgsTrimmedSplit | de.persosim.simulator/src/de/persosim/simulator/PersoSim.java:173-181 | on a trimmed input with a space: [text before the first space, trimmed rest]; the command is non-empty, has no space and keeps its case; the rest is non-empty and trimmed |
| CommandLine.ParseArgsTrimmedLosesOnlyWhitespace | de.persosim.simulator/src/de/persosim/simulator/PersoSim.java:176-181 | on a trimmed input with a space, the input is exactly command + whitespace + parameter string |
| CommandLine.SplitCommandLine | de.persosim.simulator/src/de/persosim/simulator/PersoSim.java:164-172 | the documented split, reading the doc's "white space" as the space character the code searches for: at most two parts; none exactly for a blank line |
| CommandLine.SplitCommandLineParts | de.persosim.simulator/src/de/persosim/simulator/PersoSim.java:164-172 | the documented parts: a non-empty command starting with a visible character and holding no space; a non-empty trimmed parameter string |
| CommandLine.SplitCommandLineTrimInvariant | de.persosim.simulator/src/de/persosim/simulator/PersoSim.java:166-168 | the documented split depends only on the trimmed line |
| CommandLine.ShellSplitAgrees | de.persosim.simulator/src/de/persosim/simulator/PersoSim.java:106-108 | on the trimmed line the shell passes in, parseArgs returns the documented split |
| CommandLine.ParseArgsMiscutsLeadingWhitespace | de.persosim.simulator/src/de/persosim/simulator/PersoSim.java:174-180 | with leading whitespace before a line holding a space, parseArgs' command differs from the documented one |
| CommandLine.ParseArgsLeadingSpaceExample | de.persosim.simulator/src/de/persosim/simulator/PersoSim.java:174-181 | parseArgs(" a b") is [" ", "a b"] while the documented split is ["a", "b"] |
| Control.ParsePersonalization | de.persosim.simulator/src/de/persosim/simulator/PersoSim.java:231-246 | success exactly for an existing, parsable file; a missing file is reported as not found, any other failure as unparsable |
| Control.GetPersonalization | de.persosim.simulator/src/de/persosim/simulator/PersoSim.java:217-229 | afterwards a personalization is stored and returned; a stored one is returned and nothing changes; only a missing one is replaced by the default test PKI |
| Control.GetPersonalizationIdempotent | de.persosim.simulator/src/de/persosim/simulator/PersoSim.java:223-228 | a second call returns the same personalization and changes nothing |
| Control.SetPersonalization | de.persosim.simulator/src/de/persosim/simulator/PersoSim.java:248-252 | succeeds exactly when the file parses, and then stores its personalization and changes nothing else; a failure names the file and changes nothing |
| Control.StartSimulator | de.persosim.simulator/src/de/persosim/simulator/PersoSim.java:195-204 | afterwards a simulator exists and runs; an existing one is not rebuilt and keeps its personalization; a new one gets getPersonalization's |
| Control.StopSimulator | de.persosim.simulator/src/de/persosim/simulator/PersoSim.java:257-261 | no simulator: nothing changes; otherwise it is stopped, keeps its personalization, and the stored one is untouched |
| Control.LoadPerso | de.persosim.simulator/src/de/persosim/simulator/PersoSim.java:112-126 | no file name: nothing changes; success: new personalization stored, simulator running with its old personalization (or built with the new one); failure: personalization kept, simulator stopped |
| Control.Dispatch | de.persosim.simulator/src/de/persosim/simulator/PersoSim.java:105-155 | one pass of the command loop: the trimmed line's first word selects the switch case, and `restart` falls through into `stop`. It has no contract of its own: DispatchInvariants, RestartLeavesSimulatorStopped and InertCommands state its properties, and Shell.PersoSim.Dispatch is proved equal to it |
| Control.HandleUserCommands | de.persosim.simulator/src/de/persosim/simulator/PersoSim.java:93-162 | the command loop over the input: one Dispatch per line until `exit`. It has no contract of its own: HandleUserCommandsInvariants, HandleUserCommandsExitsOnExit, HandleUserCommandsIgnoresAfterExit and HandleUserCommandsAppend state its properties |
| Control.Run | de.persosim.simulator/src/de/persosim/simulator/PersoSim.java:76-81 | startSimulator, then the command loop. It has no contract of its own: RunServesInitialPerso and LoadPersoKeepsStaleSimulator state its properties |
| Control.Launch | de.persosim.simulator/src/de/persosim/simulator/PersoSim.java:63-73 | main: handleArgs on a new object, then the stop on failure or run. It has no contract of its own: LaunchServesLastRequestedFile and LaunchAbortsOnFirstBadFile state its properties |
| Control.DispatchInvariants | de.persosim.simulator/src/de/persosim/simulator/PersoSim.java:111-155 | a command ends the loop iff it is exit, which leaves the simulator stopped; a simulator stays and keeps its personalization; a stored personalization stays |
| Control.RestartLeavesSimulatorStopped | de.persosim.simulator/src/de/persosim/simulator/PersoSim.java:133-138 | restart falls through into stop: a simulator exists and is stopped, the existing one if any, and the loop goes on |
| Control.InertCommands | de.persosim.simulator/src/de/persosim/simulator/PersoSim.java:127-154 | an empty line, help, sendapdu, unknown words and stop without a simulator change nothing |
| Control.HandleUserCommandsInvariants | de.persosim.simulator/src/de/persosim/simulator/PersoSim.java:93-162 | over any input, the invariants of one command hold for the whole loop |
| Control.HandleUserCommandsExitsOnExit | de.persosim.simulator/src/de/persosim/simulator/PersoSim.java:95-142 | the loop ends on exit exactly when some input line is exit |
| Control.HandleUserCommandsIgnoresAfterExit | de.persosim.simulator/src/de/persosim/simulator/PersoSim.java:97-142 | input after an exit is never read |
| Control.HandleUserCommandsAppend | de.persosim.simulator/src/de/persosim/simulator/PersoSim.java:97-161 | reading input in two parts, with no exit in the first, ends in the same state as reading it at once |
| Control.RunServesInitialPerso | de.persosim.simulator/src/de/persosim/simulator/PersoSim.java:76-81 | after run, the simulator serves the personalization it was first built with, whatever loadPerso commands came |
| Control.HandleArgs | de.persosim.simulator/src/de/persosim/simulator/PersoSim.java:338-363 | handleArgs never touches the simulator |
| Control.HandleArgsSetsRequested | de.persosim.simulator/src/de/persosim/simulator/PersoSim.java:338-363 | handleArgs sets, in order, exactly the files named after each -p, stopping at the first failure |
| Control.HandleArgsWithoutFlag | de.persosim.simulator/src/de/persosim/simulator/PersoSim.java:345-359 | arguments without -p are all skipped: nothing changes, nothing fails |
| Control.RequestedFilesExample | de.persosim.simulator/src/de/persosim/simulator/PersoSim.java:346-359 | an unknown argument is skipped and a trailing -p asks for nothing |
| Control.SetAllLastWins | de.persosim.simulator/src/de/persosim/simulator/PersoSim.java:342-357 | when every requested file parses, the last one is the stored personalization |
| Control.SetAllFirstFailure | de.persosim.simulator/src/de/persosim/simulator/PersoSim.java:349-353 | when a requested file fails, the walk fails with the first failing file's error, keeping the personalization of the last file before it (the initial one when it is the first) |
| Control.LaunchServesLastRequestedFile | de.persosim.simulator/src/de/persosim/simulator/PersoSim.java:63-81 | when every -p file parses, the program runs, and at the end its simulator serves the last file's personalization (the default test PKI when no -p is given) |
| Control.LaunchAbortsOnFirstBadFile | de.persosim.simulator/src/de/persosim/simulator/PersoSim.java:63-73 | when a -p file fails, main aborts with the first failing file's error, without a simulator |
| Control.LoadPersoLineSplit | de.persosim.simulator/src/de/persosim/simulator/PersoSim.java:106-113 | "loadPerso f" is the loadPerso command with the single file name f (which may contain spaces) |
| Control.LoadPersoKeepsStaleSimulator | de.persosim.simulator/src/de/persosim/simulator/PersoSim.java:112-117 | after start and loadPerso f, f's personalization is stored while the running simulator still serves the default test PKI |
| Shell.PersoSim.constructor | de.persosim.simulator/src/de/persosim/simulator/PersoSim.java:51-53 | a new object has no personalization and no simulator |
| Shell.PersoSim.GetPersonalization | de.persosim.simulator/src/de/persosim/simulator/PersoSim.java:217-229 | returns and stores as Control.GetPersonalization |
| Shell.PersoSim.SetPersonalization | de.persosim.simulator/src/de/persosim/simulator/PersoSim.java:248-252 | parses first and assigns after, with the effect of Control.SetPersonalization |
| Shell.PersoSim.StartSimulator | de.persosim.simulator/src/de/persosim/simulator/PersoSim.java:195-204 | updates the fields as Control.StartSimulator |
| Shell.PersoSim.StopSimulator | de.persosim.simulator/src/de/persosim/simulator/PersoSim.java:257-261 | updates the fields as Control.StopSimulator |
| Shell.PersoSim.Dispatch | de.persosim.simulator/src/de/persosim/simulator/PersoSim.java:105-157 | trims, calls parseArgs and switches; the fields and the loop flag end as in the documented-split Control.Dispatch |
| Shell.PersoSim.HandleUserCommands | de.persosim.simulator/src/de/persosim/simulator/PersoSim.java:93-162 | the while loop over the input ends in the state and with the exit flag of Control.HandleUserCommands |
| Shell.PersoSim.HandleArgs | de.persosim.simulator/src/de/persosim/simulator/PersoSim.java:338-363 | the iterator loop ends in the state and with the failure of Control.HandleArgs |
| Shell.PersoSim.Run | de.persosim.simulator/src/de/persosim/simulator/PersoSim.java:76-81 | starts the simulator, then runs the loop: Control.Run |
| Shell.PersoSim.Launch | de.persosim.simulator/src/de/persosim/simulator/PersoSim.java:63-73 | main on a new object: Control.Launch |

## Left out

- `cmdSendApdu` and `exchangeApdu` (regular expression, socket I/O): the `sendapdu` command is modelled as changing no field. Its malformed-argument RuntimeException is caught by the loop and changes nothing either.
- Console I/O and printing: input is a sequence of lines; messages, the prompt and `showExceptionToUser` are dropped.
- End of input: at end of input `readLine` returns null on every call, so the source loop spins forever. The model stops when the lines run out (`exited` is false).
- `parsePersonalization`'s JAXB unmarshalling of the file: replaced by the `PersoFiles` oracle.
- Control.ParsePersonalization: the oracle has two failure outcomes, a missing file and an unparsable file, so it assumes two things that can fail in the source. First, that the JAXB context is available: if creating the unmarshaller fails (PersoSim.java:237), every file is reported unparsable, a missing one included. Second, that the cast to `Personalization` at 239-240 never fails. A document whose root binds to another class throws ClassCastException. That exception escapes both catches (241-245), which has two consequences. In `loadPerso`, the handler at 118-122 does not run and the catch-all at 158 swallows the exception, so the simulator keeps running with no field changed; Control.LoadPerso instead stops the simulator on every failure. In `main`, the catch at 69 does not match, so the exception ends the program, where Control.Launch only reports Aborted.
- `SocketSimulator` is not part of this model. It becomes a value: the personalization it was built with and a running flag. Its thread and socket are left out. Its constructor, `start` and `stop` are taken never to throw, and `start` after `stop` is taken to run it again.
- The catch-all for RuntimeException around the switch (PersoSim.java:158-160) is not a separate path in the model. In the source it catches exceptions from `cmdSendApdu` and from `parseArgs` (see JavaString.ToLowerCase below). Both are thrown before any field changes, so the line leaves the fields as they were, which is also what the model computes for such a line. It also catches the ClassCastException of a personalization file whose document is not a `Personalization`. The model does not produce that outcome (see Control.ParsePersonalization above).
- BouncyCastle provider registration in the constructor, `simHost`/`simPort`, and the contents of `DefaultPersoTestPki` (a single opaque value here).
- JavaString.ToLowerCase: maps only the ASCII letters. Java's full Unicode lower-casing can lengthen a string: U+0130 (İ) becomes two characters. parseArgs takes the space's position in the lower-cased copy and cuts the original line there. So with İ before the first space, the cut lands past that space: `"İ a"` gives `["İ ", "a"]` and `"İİ a"` gives `["İİ a", ""]`. The cut can also land past the end: `"İİİ a"` throws StringIndexOutOfBoundsException. The model's parseArgs cuts at the real first space in these cases. The shell's fields are unaffected: a first word cut past the space contains that space, so it matches no command, and the catch-all swallows the exception before any field changes.
- Null strings in the argument array and null file names are not modelled.
- PersonalizationFactory, SelectPersoFromFileHandler, Crypto and the test fixtures (TestPerso009Test, Profile01Tr03124Test, Profile10Test) are not part of this model.

## Findings

| source | as written | input that shows it | evidently intended | confidence | as-written member | corrected member |
|---|---|---|---|---|---|---|
| de.persosim.simulator/src/de/persosim/simulator/PersoSim.java:174-181 | the split position is searched in the trimmed copy of the input, but both parts are cut from the untrimmed input. The same cause shows without an inner space: lines 183-184 return the untrimmed input, so `"a "` gives `["a "]` and a blank line gives `["   "]` where the trimmed split gives `["a"]` and `[]` | `" a b"` gives `[" ", "a b"]` | split the trimmed line, as the doc comment says: `["a", "b"]` | medium (the shell trims first, so it never passes such a line; other callers can), not executed | CommandLine.ParseArgsMiscutsLeadingWhitespace | CommandLine.SplitCommandLine |

`Control.Dispatch` uses `SplitCommandLine`. `CommandLine.ShellSplitAgrees` proves that it equals `parseArgs` on the trimmed line the shell passes.
