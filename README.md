# Dota 2 voice companion — handler and bootstrap model

A Dafny model of the core of a small Windows companion program for Dota 2. The
game client pushes game-state snapshots to the program; for each snapshot the
program asks for the selected hero's voice line when a new match starts and
refills its recent-health buffer when the hero dies. At start-up it derives the
game's install folder from the path of the running executable and writes a
game-state-integration configuration file there, unless one already exists.

Modules:

- `GameStateHandler` — the handler `GSL_OnNewGameState`, `FillArray` and the
  buffer fill done by `Start`. `Step` and `Run` specify the handler on values;
  the class `Program` keeps the same state in fields and a 25-slot array.
  `OnNewGameState` is proved to follow `Step`; `Start` and `FillArray` are
  specified by `Filled`, the buffer with every slot at one value. Playing a sound is replaced by
  returning the names of the resources asked for; whether a resource exists is
  the parameter `hasResource`.
- `GsiConfig` — the path computation of `CreateGSIFile` (`String.Split`,
  `String.Join` with a count, `String.IsNullOrWhiteSpace`, the two suffixes) and
  its "write only if absent" rule over a map from file paths to file lines.
- `SoundRequest` — the value type `CustomSoundRequest` and its two constructors.
- `Wrappers` — `Option` and `Result`.

A snapshot taken outside a match (match id -1) leaves the remembered snapshot
as it is; it is not cleared. A new match is recognised by the remembered
snapshot being absent or carrying another match id.

## Model

| member | source | states |
|---|---|---|
| `SoundRequest.WithData` | CustomSoundRequest.cs:11-15 | the event name and every dictionary entry are kept unchanged |
| `SoundRequest.WithEntry` | CustomSoundRequest.cs:17-21 | the event name is kept; the dictionary has exactly one entry, mapping `key` to `value` |
| `SoundRequest.WithEntryIsSingletonData` | CustomSoundRequest.cs:11-21 | the three-argument constructor equals the two-argument one given the one-entry dictionary `{key: value}` |
| `GsiConfig.Split` | Program.cs:113 | splitting on `\` yields at least one piece and no piece contains `\` |
| `GsiConfig.SplitLength` | Program.cs:113 | the number of pieces is the number of separators plus one |
| `GsiConfig.Join` | Program.cs:114 | `String.Join`: no pieces give the empty string (the exactly-three-components case); otherwise the result starts with the first piece and its length is the pieces' total plus one separator between each two; `JoinSplit`, `SplitJoin` and `JoinAppend` relate it to `Split` |
| `GsiConfig.IsWhiteSpace` | Program.cs:116 | a character is white space exactly when it is one of the 25 characters .NET's `Char.IsWhiteSpace` accepts |
| `GsiConfig.IsNullOrWhiteSpace` | Program.cs:116 | a string is blank exactly when every character is one of `Char.IsWhiteSpace`'s; the empty string is blank |
| `GsiConfig.JoinSplit` | Program.cs:113-114 | joining the pieces with `\` gives back the executable path |
| `GsiConfig.SplitJoin` | Program.cs:113-114 | splitting a join of separator-free pieces gives back the pieces |
| `GsiConfig.JoinAppend` | Program.cs:114 | joining two non-empty runs of pieces is joining each and gluing them with the separator |
| `GsiConfig.LocateGsiFile` | Program.cs:113-138 | fewer than 3 components is exactly the negative-count failure; the not-found exit happens exactly when there are at least 3 components and the first n-3 join to a blank string, so exactly 3 always takes it; a located root is not blank, the folder is the root plus `\dota\cfg\gamestate_integration`, the file is the folder plus `\gamestate_integration_admiralbulldogVoice.cfg` |
| `GsiConfig.LocatedRootIsPrefix` | Program.cs:113-114 | a located root is the first n-3 components of the executable path, and the path is the root, `\` and the last three components |
| `GsiConfig.SplitConcat` | Program.cs:113 | splitting at a separator is splitting each side and concatenating the pieces |
| `GsiConfig.LocatesInstallRoot` | Program.cs:113-138 | every path `root\a\b\c` with separator-free `a`, `b`, `c` and a non-blank `root` is located, with `root` as install root and the folder and file built from it |
| `GsiConfig.CreateGsiFile` | Program.cs:138-166 | a location failure is passed on; otherwise every existing file keeps its contents, the configuration file is added only when absent, and then holds the settings lines |
| `GsiConfig.CreateGsiFileIdempotent` | Program.cs:140 | running the bootstrap again on its own result changes nothing |
| `GameStateHandler.Filled` | Program.cs:103-108 | a buffer of `n` slots each holding the fill value |
| `GameStateHandler.Step` | Program.cs:71-99 | the first-state flag is down afterwards; a no-match snapshot asks for nothing and changes neither the previous snapshot nor the buffer; otherwise the snapshot becomes the previous one; the hero's line is asked for iff the match is new and the resource exists; the buffer is refilled with 100 iff an alive-to-dead transition happened inside a match, else untouched |
| `GameStateHandler.Run` | Program.cs:71-100 | the listener handing the snapshots to the handler one after another: at most one sound per snapshot, and the buffer keeps its size |
| `GameStateHandler.RunSnoc` | Program.cs:71-99 | handling one more snapshot after a sequence is one step from the state the sequence left |
| `GameStateHandler.FirstStateStaysCleared` | Program.cs:73-79 | after any snapshot the first-state flag is down and it never comes back up |
| `GameStateHandler.HealthStaysFull` | Program.cs:94-97 | a buffer with 25 slots at 100 stays so over any sequence of snapshots |
| `GameStateHandler.PreviousIsLastInMatch` | Program.cs:82-99 | the remembered snapshot is the last snapshot taken inside a match, or the one held before if there is none |
| `GameStateHandler.NoRepeatWithinMatch` | Program.cs:85-91 | while every snapshot has the remembered match id or -1, no voice line is asked for |
| `GameStateHandler.SoundsAreHeroLines` | Program.cs:85-91 | every sound asked for exists and is the hero name of one of the snapshots |
| `GameStateHandler.Program.constructor` | Program.cs:27-32 | a fresh 25-slot buffer of zeros, first-state flag up, no previous snapshot |
| `GameStateHandler.Program.Start` | Program.cs:51 | the buffer keeps its 25 slots, every slot becomes 100 and nothing else changes |
| `GameStateHandler.Program.OnNewGameState` | Program.cs:71-100 | the buffer keeps its 25 slots; the fields and the sounds asked for are exactly those `Step` gives for the old fields |
| `GameStateHandler.Program.FillArray` | Program.cs:103-108 | every slot of the array holds the value afterwards |

## Left out

- Waiting for the game process, the console key loop and `Thread.Sleep` (Program.cs:36-43, 65-68): operating-system polling and console input.
- Creating and starting the `GameStateListener` and registering the handler (Program.cs:48-60): a third-party HTTP listener; the model takes the snapshots it delivers as inputs to `OnNewGameState` and `Run`.
- Looking up the audio stream and `SoundPlayer.Play` (Program.cs:87-90): resource and audio I/O, replaced by the `hasResource` parameter and the returned sound names.
- Printing the provider version and name on the first snapshot (Program.cs:75-76): console output.
- Creating the configuration folder, `File.Exists`, `File.WriteAllLines`, the `UnauthorizedAccessException` handlers with their exits, `Console` output and `Environment.Exit` (Program.cs:116-136, 164-184): file-system and console effects, none of which the model contains; only the path strings, the two exits the path computation takes (as `LocateError`) and the write-if-absent rule are modelled, with the file system as a map from path to lines.
- `FindDota2Folder` (Program.cs:186-202): reads the process's main module, a foreign call; its result is the input string `exePath`.
- The unused `MatchID` and `Args` properties (Program.cs:209, 212).
- The health buffer's `float` type: only the constant 100 is ever written, so slots are `real`.
- The snapshot holds only the match id, hero name and alive flag; every other part of the pushed game state is unread by the handler.
- SoundRequest.WithData: the C# dictionary is a shared reference, so later changes through another alias would show in the request; the model stores a map value.
- SoundRequest.WithEntry: C# strings may be null and the dictionary initialiser throws `ArgumentNullException` for a null `key`; the model's strings are never null, so neither null arguments nor that exception are modelled.
