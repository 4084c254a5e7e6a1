# gh sw — a verified model of the branch switcher

`gh sw` is a GitHub CLI extension that switches git branches. With no
argument it offers the local branches in an interactive prompt. `-r` offers
the remote branches and `-a` offers both. `-h` prints usage, and any other
first argument is handed straight to `git switch`. This project models
`main.go`, the whole program, in Dafny. The models cover:

- how the output of `git for-each-ref --format=%(refname:short)` becomes a sorted branch list;
- how the option list each mode shows is built;
- how a chosen value is turned into the name given to `git switch`;
- the choice of mode from the arguments;
- the exit status `exitWithStatus` chooses.

The project is split into modules:

- `GoStrings`: the Go operations applied to git's output. These are `strings.TrimSpace` (Unicode white space), `strings.Split` on `"\n"`, `strings.Index` and `strings.HasSuffix`. `strings.Contains(line, "/")` is Dafny's own membership test `'/' in line`.
- `StringOrder`: Go's string order and `slices.Sort`. The sort is an insertion sort in place on an `array<string>`, proved to yield an ascending permutation, and therefore equal to the reference function `Sort`, since an ascending permutation is unique.
- `Refs`: `getLocalBranches` and `getRemoteBranches` once git has printed its output. Each is a method with its filtering loop, proved equal to the function `Branches`.
- `Options`: the three option loops (local, remote, combined), each proved equal to a function. The properties of those functions are proved as lemmas.
- `Selection`: stripping a remote prefix from the selected value.
- `Cli`: argument dispatch and `exitWithStatus`.
- `Session`: one whole run of the program, driven by what the outside world answers.
  - The modelled answers are the git listings, the current-branch query, the prompt's answer and the outcome of `git switch`.
  - A run records four things: the options the prompt was shown, the name switched to, the messages printed and the exit status.
  - `InteractiveSwitchLocal`, `InteractiveSwitchRemote`, `InteractiveSwitchAll`, `FetchAllBranches` and `GhSw` (main) are methods, each proved equal to the corresponding function.

Five behaviours of the code are worth stating plainly, since a quick reading can miss them:

- **The current branch is pinned, not excluded.** In every mode it comes first, muted and marked `* `, and stays selectable. The help text says as much for the remote mode ("Select from remote branches (+ current branch)", `main.go:28`). The empty-list check of the local mode runs before the current branch is taken out, so a local listing holding only the current branch still prompts, with that one option (`Session.LocalEmptyCheck`).
- **A listing failure adopts git's exit status.** A failed listing ends the run through `exitWithStatus`, which passes on git's own status whenever git exited with one, and uses 1 only for other errors (`Session.ListingFailureStops`).
- **Duplicate lines are kept.** The parsers keep every non-empty line as often as git printed it (`Refs.FilterCount`).
- **The combined list is not sorted as a whole.** The sorted local branches come first, then the sorted remote branches (`Options.AllOptionsSpec`).
- **Every chosen value is cut at its first "/" in the remote and combined modes.** The pinned current branch and local branches are cut too: with `feature/x` checked out, choosing the pinned entry with `-r` switches to `x` (`Session.PinnedSlashNameStripped`), and `-a` switches a local `feature/auth` as `auth` (`Selection.LocalSlashNameStripped`).

## Model

| member | source | states |
|---|---|---|
| GoStrings.TrimSpace | main.go:90 | the trimmed output starts and ends with a non-space character and is never longer than git's output |
| GoStrings.TrimSpaceSlice | main.go:74 | TrimSpace keeps one contiguous slice of its input, starting after the leading white space (Leading) |
| GoStrings.TrimSpaceDropsSpace | main.go:74 | everything TrimSpace removes is Unicode white space, on either side of the kept slice |
| GoStrings.TrimSpaceIdempotent | main.go:74 | trimming an already trimmed name changes nothing |
| GoStrings.Split | main.go:90 | splitting always yields at least one piece, even for empty output |
| GoStrings.SplitPiecesFree | main.go:90 | no line of a split contains a line break |
| GoStrings.JoinSplit | main.go:90 | rejoining the lines with "\n" gives back the trimmed output, so splitting loses nothing |
| GoStrings.Index | main.go:225 | strings.Index's result is -1 exactly when there is no "/"; otherwise it is the offset of the first "/" |
| StringOrder.SortInPlace | main.go:98 | slices.Sort leaves the slice ascending in Go's string order and a permutation of what it held |
| StringOrder.SortSpec | main.go:132 | the reference sort's result is ascending and a permutation of its input |
| StringOrder.SortedUnique | main.go:98 | two ascending permutations of the same names are equal, so any correct sort gives the reference result |
| StringOrder.SortOfSorted | main.go:132 | sorting an already ascending list leaves it unchanged |
| StringOrder.BelowTotal | main.go:98 | Go's string order compares any two names |
| StringOrder.BelowTransitive | main.go:98 | Go's string order is transitive |
| StringOrder.BelowAntisymmetric | main.go:98 | two names below each other are equal |
| Refs.ParseLocalRefs | main.go:89-100 | getLocalBranches returns exactly Branches(Heads, output): the non-empty trimmed lines, sorted |
| Refs.ParseRemoteRefs | main.go:115-134 | getRemoteBranches returns exactly Branches(Remotes, output): the lines kept by its three filters, sorted |
| Refs.FilterCount | main.go:91-96 | each kept line appears as often as git printed it, and every dropped line does not appear at all |
| Refs.LocalBranchesSpec | main.go:89-100 | local branches are ascending and are a permutation of the non-empty lines; each is a non-empty line without a line break |
| Refs.RemoteBranchesSpec | main.go:115-134 | remote branches are ascending; a name is listed exactly when it is a line containing "/" and not ending in "/HEAD", as often as the line occurs |
| Refs.RemoteHeadDropped | main.go:125-128 | a symbolic remote head such as origin/HEAD is never listed |
| Refs.NoEmptyBranch | main.go:92-94 | no listing yields the empty name |
| Options.BuildLocalOptions | main.go:151-161 | the local option loop produces LocalOptions(branches, current) |
| Options.BuildRemoteOptions | main.go:198-206 | the remote option loop produces RemoteOptions(remotes, current) |
| Options.BuildAllOptions | main.go:248-262 | the combined option loops produce AllOptions(locals, remotes, current) |
| Options.LocalOptionsSpec | main.go:151-161 | a known current branch is the first option, muted and marked "* "; the other values are the local branches without it, in order; every later option is labelled with its value |
| Options.LocalCurrentOnce | main.go:153-160 | a known current branch is among the local values exactly once; an unknown one is absent |
| Options.LocalOptionsOrder | main.go:157-161 | without a current branch the values are exactly the branches; ascending branches give ascending values after the pin |
| Options.RemoteOptionsSpec | main.go:198-206 | a known current branch comes first; then every remote branch, unfiltered and in order, each labelled with its value |
| Options.AllOptionsSpec | main.go:248-262 | the values are the pinned current branch, the local branches without it, then all remote branches; without a current branch, exactly locals then remotes |
| Options.WithoutCount | main.go:157-160 | the local loop removes every occurrence of the current branch and keeps every other branch as often as it occurs |
| Options.WithoutConcat | main.go:157-160 | removing the current branch keeps the order of the remaining branches |
| Options.WithoutSorted | main.go:157-160 | removing the current branch from an ascending list leaves it ascending |
| Options.WithoutAbsent | main.go:157-160 | nothing is removed when the current branch is not listed |
| Selection.StripSpec | main.go:224-227 | a selection without "/" is switched to unchanged; otherwise it is a slash-free prefix, "/", then the result, which is shorter |
| Selection.StripFormsAgree | main.go:280-285 | the combined mode's form of the strip, with its Contains guard, equals the remote mode's form |
| Selection.StripQualified | main.go:224-227 | stripping undoes qualification by a remote whose name has no "/" |
| Selection.StripRemoteExample | main.go:224 | origin/feature/auth is switched to as feature/auth |
| Selection.LocalSlashNameStripped | main.go:280-285 | the combined mode also strips a local branch whose name contains "/": feature/auth becomes auth |
| Cli.Dispatch | main.go:46-65 | no argument selects local mode; -h/--help, -a/--all and -r/--remote select their modes; any other first argument is switched to directly, in both directions |
| Cli.DispatchFirstOnly | main.go:47-48 | only the first argument decides what the program does |
| Cli.DispatchDirectExamples | main.go:59 | "-" and "feature/auth" go directly to git switch |
| Cli.ExitWithStatus | main.go:345-353 | a child's exit status is adopted with nothing printed; any other error is printed and gives status 1 |
| Cli.ObservedStatus | main.go:348 | the status the shell sees is eight bits, and equals the argument when it is already in 0..255 |
| Cli.FailureIsNeverSuccess | main.go:345-353 | a failure is never observed as status 0; the child's own status is observed when it exited normally, and 255 when it was killed by a signal |
| Session.CurrentBranch | main.go:68-75 | a failed query gives "", and otherwise the trimmed output, with no space at either end |
| Session.PromptedSpec | main.go:163-181 | a prompted run records its options; an answer leads to a switch to its resolved name; an abort is benign; the status is git's verdict |
| Session.LocalEmptyCheck | main.go:144-161 | no local branch means the "No local branches found" message, status 0 and no prompt; any non-empty listing prompts with the local options; a listing of only the current branch prompts with that branch alone |
| Session.RemoteEmptyCheck | main.go:191-206 | no remote branch means the "No remote branches found" message, status 0 and no prompt; any non-empty listing prompts with the remote options; the message appears exactly when the listing is empty |
| Session.PinnedSlashNameStripped | main.go:200-202 | in the remote mode, choosing a pinned current branch whose name contains "/" switches to what follows its first "/" |
| Session.AllEmptyCheck | main.go:241-244 | the combined mode skips the prompt and says nothing was found exactly when both listings are empty |
| Session.AllStopsAtLocalFailure | main.go:327-331 | when the local listing fails, the combined mode ends with that failure whatever the remote listing is |
| Session.OptionsNonEmpty | main.go:151-161 | a non-empty listing always leaves at least one option in every mode |
| Session.StoppedSpec | main.go:138-142 | a run stopped by a listing failure shows no prompt, switches nothing, and takes exitWithStatus's status |
| Session.SwitchToSpec | main.go:59-61 | a direct switch hands its argument to git and takes its status from git |
| Session.LocalRunSpec | main.go:137-182 | the local mode never prompts with an empty list, takes its status from git's switch, and treats an abort as benign |
| Session.RemoteRunSpec | main.go:184-232 | the same three promises for the remote mode |
| Session.AllRunSpec | main.go:234-290 | the same three promises for the combined mode |
| Session.ProgramSpec | main.go:42-66 | every run never prompts with an empty list, has git's verdict as its status whenever a switch happens, and ends with status 0 after an abort |
| Session.NonInteractiveCommands | main.go:49-62 | help prints usage with status 0; a direct switch is exactly switchBranch(args[0]) followed by exitWithStatus on failure, with no prompt |
| Session.DirectSwitchIgnoresListings | main.go:59-62 | a direct switch depends only on its argument and git's verdict: the listings, the current-branch query and the prompt answer play no part |
| Session.ListingFailureStops | main.go:138-142 | a listing failure in any mode ends the run before the prompt, with exitWithStatus's status; in the combined mode that is a failed local listing, or a failed remote listing after a successful local one |
| Session.FetchAllBranches | main.go:320-336 | fetchAllBranches produces FetchAll: the local listing first; the remote listing is used only when the local one succeeds |
| Session.InteractiveSwitchLocal | main.go:137-182 | interactiveSwitchLocal produces LocalRun |
| Session.InteractiveSwitchRemote | main.go:184-232 | interactiveSwitchRemote produces RemoteRun |
| Session.InteractiveSwitchAll | main.go:234-290 | interactiveSwitchAll produces AllRun |
| Session.GhSw | main.go:42-66 | main produces Program(args, world) |

## Left out

- Running git. The outputs of `for-each-ref`, `rev-parse` and `switch` are inputs to the model, as is the failure each may report.
- Git's standard error passthrough (`main.go:79`, `84`, `105`, `110`, `341`). It is I/O, written by git itself.
- The five-second context timeout. A timed-out listing is just one more listing failure among the inputs.
- The spinners and the goroutine they run the listing on. The model is sequential; `fetchLocalBranches` and `fetchRemoteBranches` only forward the result of the lister they wrap.
- The huh prompt's rendering, titles, cursor and keyboard handling. The prompt is an input answer: a chosen value or an abort.
- Session.PromptedSpec: the answer is not constrained to one of the offered values. The library guarantees that, so the model proves the properties for any chosen value.
- lipgloss styling. The gray style is the label constructor `Muted`; colours and escape sequences are not modelled.
- The help text's content. The model records only that usage was printed.
- `os.Exit` ending the process, and Go's `fmt` formatting of an error. `exitWithStatus` is modelled as the message it prints and the status it passes (`Cli.Exit`).
- Cli.ObservedStatus: assumes a Unix-like system, where the parent sees the low eight bits of the status passed to `os.Exit`; other platforms are not modelled.
- UTF-8 and bytes. Strings are sequences of Unicode characters; the separators used are ASCII, so offsets select the same substrings. Output that is not valid UTF-8 is not modelled.
