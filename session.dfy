/** One run of the program: the three interactive modes and the entry point
    that picks between them and a direct switch. The git commands and the
    prompt are inputs: a listing or the current-branch query is the output
    git printed or its failure, the prompt's answer is a chosen value or an
    abort, and a switch is the outcome git reports. What is recorded of a
    run is the option list the prompt was shown, the name handed to
    `git switch`, the messages written, and the exit status. */
module Session {
  import opened GoStrings
  import opened StringOrder
  import opened Refs
  import opened Options
  import opened Selection
  import opened Cli

  datatype Option<T> = None | Some(value: T)

  /** A git command whose standard output is captured. */
  datatype Output = Printed(stdout: string) | Failed(err: Failure)

  /** The prompt's result: the value of the chosen option, or an abort. */
  datatype Answer = Chosen(value: string) | Aborted

  /** What `git switch` reported. */
  datatype SwitchResult = Switched | SwitchFailed(err: Failure)

  /** What the program writes besides git's own output. */
  datatype Message =
    | NoLocalBranchesFound
    | NoRemoteBranchesFound
    | NoBranchesFound
    | OperationCancelled
    | Usage
    | ErrorText(text: string)

  datatype Run = Run(prompt: Option<seq<SelectOption>>, target: Option<string>, messages: seq<Message>, status: int)

  /** The interactive mode, which decides how a chosen value is resolved. */
  datatype Mode = LocalMode | RemoteMode | AllMode

  /** Everything the outside world answers during one run. */
  datatype World = World(localRefs: Output, remoteRefs: Output, head: Output, answer: Answer, switched: SwitchResult)

  /** getCurrentBranch as its callers use it: the trimmed output of
      `git rev-parse --abbrev-ref HEAD`, and "" when that fails. */
  function CurrentBranch(head: Output): (current: string)
    ensures head.Failed? ==> current == ""
    ensures head.Printed? ==> |current| <= |head.stdout|
    ensures current == "" || (!IsSpace(current[0]) && !IsSpace(current[|current| - 1]))
  {
    match head
    case Printed(out) => TrimSpace(out)
    case Failed(_) => ""
  }

  /** The run ends in exitWithStatus(err). */
  function Stopped(prompt: Option<seq<SelectOption>>, target: Option<string>, err: Failure): Run {
    var e := ExitWithStatus(err);
    Run(prompt, target, seq(|e.printed|, i requires 0 <= i < |e.printed| => ErrorText(e.printed[i])), e.status)
  }

  /** switchBranch(target), then exitWithStatus if it failed. */
  function SwitchTo(prompt: Option<seq<SelectOption>>, target: string, result: SwitchResult): Run {
    match result
    case Switched => Run(prompt, Some(target), [], 0)
    case SwitchFailed(err) => Stopped(prompt, Some(target), err)
  }

  /** The name a chosen value is switched to in each mode. */
  function Resolve(mode: Mode, selected: string): string {
    match mode
    case LocalMode => selected
    case RemoteMode => StripRemotePrefix(selected)
    case AllMode => StripInAllMode(selected)
  }

  /** The prompt is run on the options; an abort is reported and ends the
      run normally. */
  function Prompted(mode: Mode, options: seq<SelectOption>, answer: Answer, result: SwitchResult): Run {
    match answer
    case Aborted => Run(Some(options), None, [OperationCancelled], 0)
    case Chosen(v) => SwitchTo(Some(options), Resolve(mode, v), result)
  }

  /** interactiveSwitchLocal once the local branches are listed: an empty
      list is reported, any other is offered with the current branch pinned. */
  function LocalChoice(branches: seq<string>, current: string, answer: Answer, result: SwitchResult): Run {
    if |branches| == 0 then Run(None, None, [NoLocalBranchesFound], 0)
    else Prompted(LocalMode, LocalOptions(branches, current), answer, result)
  }

  /** interactiveSwitchLocal. */
  function LocalRun(listing: Output, head: Output, answer: Answer, result: SwitchResult): Run {
    match listing
    case Failed(err) => Stopped(None, None, err)
    case Printed(out) => LocalChoice(Branches(Heads, out), CurrentBranch(head), answer, result)
  }

  /** interactiveSwitchRemote once the remote branches are listed. */
  function RemoteChoice(remotes: seq<string>, current: string, answer: Answer, result: SwitchResult): Run {
    if |remotes| == 0 then Run(None, None, [NoRemoteBranchesFound], 0)
    else Prompted(RemoteMode, RemoteOptions(remotes, current), answer, result)
  }

  /** interactiveSwitchRemote. */
  function RemoteRun(listing: Output, head: Output, answer: Answer, result: SwitchResult): Run {
    match listing
    case Failed(err) => Stopped(None, None, err)
    case Printed(out) => RemoteChoice(Branches(Remotes, out), CurrentBranch(head), answer, result)
  }

  /** The listings of the combined mode, or the failure that ended them. */
  datatype Fetch = Fetched(locals: seq<string>, remotes: seq<string>) | FetchFailed(err: Failure)

  /** fetchAllBranches: the local listing first; when it fails the remote
      listing is not used. */
  function FetchAll(localRefs: Output, remoteRefs: Output): Fetch {
    match localRefs
    case Failed(err) => FetchFailed(err)
    case Printed(lo) =>
      match remoteRefs
      case Failed(err) => FetchFailed(err)
      case Printed(ro) => Fetched(Branches(Heads, lo), Branches(Remotes, ro))
  }

  /** interactiveSwitchAll once both listings are in: only when both are
      empty is nothing offered. */
  function AllChoice(locals: seq<string>, remotes: seq<string>, current: string, answer: Answer, result: SwitchResult): Run {
    if |locals| == 0 && |remotes| == 0 then Run(None, None, [NoBranchesFound], 0)
    else Prompted(AllMode, AllOptions(locals, remotes, current), answer, result)
  }

  /** interactiveSwitchAll. */
  function AllRun(localRefs: Output, remoteRefs: Output, head: Output, answer: Answer, result: SwitchResult): Run {
    match FetchAll(localRefs, remoteRefs)
    case FetchFailed(err) => Stopped(None, None, err)
    case Fetched(locals, remotes) => AllChoice(locals, remotes, CurrentBranch(head), answer, result)
  }

  /** main, for the arguments after the program name. */
  function Program(args: seq<string>, w: World): Run {
    match Dispatch(args)
    case ShowHelp => Run(None, None, [Usage], 0)
    case SwitchAll => AllRun(w.localRefs, w.remoteRefs, w.head, w.answer, w.switched)
    case SwitchRemote => RemoteRun(w.remoteRefs, w.head, w.answer, w.switched)
    case SwitchDirect(branch) => SwitchTo(None, branch, w.switched)
    case SwitchLocal => LocalRun(w.localRefs, w.head, w.answer, w.switched)
  }

  // What a run promises

  /** The run's status is git's verdict on the switch whenever one is
      attempted: 0 when it succeeded, and otherwise the status exitWithStatus
      chooses, which is the child's own exit status, with nothing more
      printed, when the child reported one. */
  predicate StatusIsVerdict(run: Run, result: SwitchResult) {
    run.target.Some? ==>
      && run.status == (match result
                        case Switched => 0
                        case SwitchFailed(err) => ExitWithStatus(err).status)
      && (result.SwitchFailed? && result.err.ExitError? ==> run.status == result.err.code && run.messages == [])
  }

  /** What an abort at the prompt leaves: no switch, the cancellation
      message, and status 0. */
  predicate AbortHandled(run: Run) {
    run.prompt.Some? ==> run.target == None && run.messages == [OperationCancelled] && run.status == 0
  }

  /** A prompted run records the options it showed, resolves a chosen value
      to its target, and takes its status from the switch. */
  lemma PromptedSpec(mode: Mode, options: seq<SelectOption>, answer: Answer, result: SwitchResult)
    ensures var run := Prompted(mode, options, answer, result);
      && run.prompt == Some(options)
      && NoBranchesFound !in run.messages
      && NoRemoteBranchesFound !in run.messages
      && (answer.Chosen? <==> run.target.Some?)
      && (answer.Chosen? ==> run.target == Some(Resolve(mode, answer.value)))
      && StatusIsVerdict(run, result)
      && (answer == Aborted ==> AbortHandled(run))
  {
  }

  /** The empty-list check of the local mode looks at the listing before the
      current branch is taken out: with no local branch at all the run says
      so and ends with status 0 without prompting, while a listing of only the
      current branch still prompts, with that branch as the only option. */
  lemma LocalEmptyCheck(branches: seq<string>, current: string, answer: Answer, result: SwitchResult)
    ensures branches == [] ==> LocalChoice(branches, current, answer, result) == Run(None, None, [NoLocalBranchesFound], 0)
    ensures current != "" && branches == [current] ==>
              LocalChoice(branches, current, answer, result).prompt == Some([PinnedOption(current)])
    ensures branches != [] ==>
              LocalChoice(branches, current, answer, result).prompt == Some(LocalOptions(branches, current))
  {
    if branches != [] {
      PromptedSpec(LocalMode, LocalOptions(branches, current), answer, result);
    }
    if current != "" && branches == [current] {
      assert Without([current], current) == [] by {
        assert [current][..0] == [];
      }
      assert LocalOptions([current], current) == [PinnedOption(current)];
      PromptedSpec(LocalMode, [PinnedOption(current)], answer, result);
    }
  }

  /** The remote mode resolves every chosen value by its first "/", the
      pinned current branch included: with a local branch feature/x checked
      out, choosing the pinned entry switches to x. */
  lemma PinnedSlashNameStripped(prefix: string, rest: string, remotes: seq<string>, result: SwitchResult)
    requires '/' !in prefix
    ensures var current := Qualify(prefix, rest);
      && RemoteOptions(remotes, current)[0] == PinnedOption(current)
      && Prompted(RemoteMode, RemoteOptions(remotes, current), Chosen(current), result).target == Some(rest)
  {
    var current := Qualify(prefix, rest);
    PinFirst(current, Entries(remotes));
    StripQualified(prefix, rest);
  }

  /** The remote mode reports that no remote branch was found, ends with
      status 0 and skips the prompt exactly when the remote listing is empty;
      any other listing is offered. */
  lemma RemoteEmptyCheck(remotes: seq<string>, current: string, answer: Answer, result: SwitchResult)
    ensures remotes == [] ==> RemoteChoice(remotes, current, answer, result) == Run(None, None, [NoRemoteBranchesFound], 0)
    ensures remotes != [] ==>
              RemoteChoice(remotes, current, answer, result).prompt == Some(RemoteOptions(remotes, current))
    ensures var run := RemoteChoice(remotes, current, answer, result);
      (NoRemoteBranchesFound in run.messages) <==> remotes == []
  {
    if remotes != [] {
      PromptedSpec(RemoteMode, RemoteOptions(remotes, current), answer, result);
    }
  }

  /** The combined mode reports that nothing was found, and skips the
      prompt, exactly when both listings are empty. */
  lemma AllEmptyCheck(locals: seq<string>, remotes: seq<string>, current: string, answer: Answer, result: SwitchResult)
    ensures var run := AllChoice(locals, remotes, current, answer, result);
      (NoBranchesFound in run.messages) <==> locals == [] && remotes == []
    ensures var run := AllChoice(locals, remotes, current, answer, result);
      run.prompt.None? <==> locals == [] && remotes == []
  {
    if |locals| != 0 || |remotes| != 0 {
      PromptedSpec(AllMode, AllOptions(locals, remotes, current), answer, result);
    }
  }

  /** When the local listing fails, the combined mode ends with that failure
      whatever the remote listing would have been. */
  lemma AllStopsAtLocalFailure(err: Failure, remoteRefs: Output, head: Output, answer: Answer, result: SwitchResult)
    ensures AllRun(Failed(err), remoteRefs, head, answer, result) == Stopped(None, None, err)
  {
  }

  /** A non-empty listing always leaves an option: the pinned current
      branch or, without one, every listed branch. */
  lemma OptionsNonEmpty(locals: seq<string>, remotes: seq<string>, current: string)
    requires "" !in locals
    ensures locals != [] ==> LocalOptions(locals, current) != []
    ensures remotes != [] ==> RemoteOptions(remotes, current) != []
    ensures locals != [] || remotes != [] ==> AllOptions(locals, remotes, current) != []
  {
    if current == "" {
      WithoutAbsent(locals, current);
    }
  }

  /** What every run of the program promises: the prompt is never shown an
      empty list, the status is git's verdict whenever a switch is
      attempted, and an abort at the prompt is no error. */
  predicate Promised(run: Run, answer: Answer, result: SwitchResult) {
    && (run.prompt.Some? ==> run.prompt.value != [])
    && StatusIsVerdict(run, result)
    && (answer == Aborted ==> AbortHandled(run))
  }

  /** A run that ends in exitWithStatus before any switch. */
  lemma StoppedSpec(err: Failure, answer: Answer, result: SwitchResult)
    ensures Stopped(None, None, err).prompt == None && Stopped(None, None, err).target == None
    ensures Stopped(None, None, err).status == ExitWithStatus(err).status
    ensures Promised(Stopped(None, None, err), answer, result)
  {
  }

  lemma LocalRunSpec(listing: Output, head: Output, answer: Answer, result: SwitchResult)
    ensures Promised(LocalRun(listing, head, answer, result), answer, result)
  {
    match listing {
      case Failed(err) =>
        StoppedSpec(err, answer, result);
      case Printed(out) =>
        var branches := Branches(Heads, out);
        var current := CurrentBranch(head);
        if |branches| > 0 {
          NoEmptyBranch(Heads, out);
          OptionsNonEmpty(branches, [], current);
          PromptedSpec(LocalMode, LocalOptions(branches, current), answer, result);
        }
    }
  }

  lemma RemoteRunSpec(listing: Output, head: Output, answer: Answer, result: SwitchResult)
    ensures Promised(RemoteRun(listing, head, answer, result), answer, result)
  {
    match listing {
      case Failed(err) =>
        StoppedSpec(err, answer, result);
      case Printed(out) =>
        var remotes := Branches(Remotes, out);
        var current := CurrentBranch(head);
        if |remotes| > 0 {
          OptionsNonEmpty([], remotes, current);
          PromptedSpec(RemoteMode, RemoteOptions(remotes, current), answer, result);
        }
    }
  }

  lemma AllRunSpec(localRefs: Output, remoteRefs: Output, head: Output, answer: Answer, result: SwitchResult)
    ensures Promised(AllRun(localRefs, remoteRefs, head, answer, result), answer, result)
  {
    match FetchAll(localRefs, remoteRefs) {
      case FetchFailed(err) =>
        StoppedSpec(err, answer, result);
      case Fetched(locals, remotes) =>
        var current := CurrentBranch(head);
        if |locals| != 0 || |remotes| != 0 {
          assert locals == Branches(Heads, localRefs.stdout);
          NoEmptyBranch(Heads, localRefs.stdout);
          OptionsNonEmpty(locals, remotes, current);
          PromptedSpec(AllMode, AllOptions(locals, remotes, current), answer, result);
        }
    }
  }

  /** A direct switch takes its status from git. */
  lemma SwitchToSpec(target: string, answer: Answer, result: SwitchResult)
    ensures SwitchTo(None, target, result).prompt == None
    ensures SwitchTo(None, target, result).target == Some(target)
    ensures Promised(SwitchTo(None, target, result), answer, result)
  {
  }

  lemma ProgramSpec(args: seq<string>, w: World)
    ensures Promised(Program(args, w), w.answer, w.switched)
  {
    match Dispatch(args) {
      case ShowHelp =>
      case SwitchDirect(branch) =>
        SwitchToSpec(branch, w.answer, w.switched);
      case SwitchLocal =>
        LocalRunSpec(w.localRefs, w.head, w.answer, w.switched);
      case SwitchRemote =>
        RemoteRunSpec(w.remoteRefs, w.head, w.answer, w.switched);
      case SwitchAll =>
        AllRunSpec(w.localRefs, w.remoteRefs, w.head, w.answer, w.switched);
    }
  }

  /** Help and direct switching bypass the listings and the prompt. */
  lemma NonInteractiveCommands(args: seq<string>, w: World)
    ensures Dispatch(args) == ShowHelp ==> Program(args, w) == Run(None, None, [Usage], 0)
    ensures args != [] && Dispatch(args).SwitchDirect? ==>
              Program(args, w).prompt == None && Program(args, w).target == Some(args[0])
    ensures args != [] && Dispatch(args).SwitchDirect? ==> Program(args, w) == SwitchTo(None, args[0], w.switched)
  {
  }

  /** A direct switch depends on nothing but the argument and git's verdict
      on the switch: neither listing, the current-branch query nor a prompt
      answer plays a part. */
  lemma DirectSwitchIgnoresListings(args: seq<string>, w: World, v: World)
    requires args != [] && Dispatch(args).SwitchDirect? && w.switched == v.switched
    ensures Program(args, w) == Program(args, v)
  {
    NonInteractiveCommands(args, w);
    NonInteractiveCommands(args, v);
  }

  /** A listing failure ends the run before the prompt, with exitWithStatus. */
  lemma ListingFailureStops(args: seq<string>, w: World, err: Failure)
    requires (Dispatch(args) == SwitchLocal && w.localRefs == Failed(err))
          || (Dispatch(args) == SwitchRemote && w.remoteRefs == Failed(err))
          || (Dispatch(args) == SwitchAll && w.localRefs == Failed(err))
          || (Dispatch(args) == SwitchAll && w.localRefs.Printed? && w.remoteRefs == Failed(err))
    ensures Program(args, w) == Stopped(None, None, err)
    ensures Program(args, w).status == ExitWithStatus(err).status
  {
  }

  // The same runs as the program executes them

  /** fetchAllBranches, with both parsers run as the program runs them. */
  method FetchAllBranches(localRefs: Output, remoteRefs: Output) returns (f: Fetch)
    ensures f == FetchAll(localRefs, remoteRefs)
  {
    match localRefs
    case Failed(err) =>
      return FetchFailed(err);
    case Printed(lo) =>
      var locals := ParseLocalRefs(lo);
      match remoteRefs
      case Failed(err) =>
        return FetchFailed(err);
      case Printed(ro) =>
        var remotes := ParseRemoteRefs(ro);
        return Fetched(locals, remotes);
  }

  method InteractiveSwitchLocal(listing: Output, head: Output, answer: Answer, result: SwitchResult)
    returns (run: Run)
    ensures run == LocalRun(listing, head, answer, result)
  {
    match listing
    case Failed(err) =>
      return Stopped(None, None, err);
    case Printed(out) =>
      var branches := ParseLocalRefs(out);
      if |branches| == 0 {
        return Run(None, None, [NoLocalBranchesFound], 0);
      }
      var options := BuildLocalOptions(branches, CurrentBranch(head));
      run := Prompted(LocalMode, options, answer, result);
  }

  method InteractiveSwitchRemote(listing: Output, head: Output, answer: Answer, result: SwitchResult)
    returns (run: Run)
    ensures run == RemoteRun(listing, head, answer, result)
  {
    match listing
    case Failed(err) =>
      return Stopped(None, None, err);
    case Printed(out) =>
      var remotes := ParseRemoteRefs(out);
      if |remotes| == 0 {
        return Run(None, None, [NoRemoteBranchesFound], 0);
      }
      var options := BuildRemoteOptions(remotes, CurrentBranch(head));
      run := Prompted(RemoteMode, options, answer, result);
  }

  method InteractiveSwitchAll(localRefs: Output, remoteRefs: Output, head: Output, answer: Answer, result: SwitchResult)
    returns (run: Run)
    ensures run == AllRun(localRefs, remoteRefs, head, answer, result)
  {
    var f := FetchAllBranches(localRefs, remoteRefs);
    match f
    case FetchFailed(err) =>
      return Stopped(None, None, err);
    case Fetched(locals, remotes) =>
      if |locals| == 0 && |remotes| == 0 {
        return Run(None, None, [NoBranchesFound], 0);
      }
      var options := BuildAllOptions(locals, remotes, CurrentBranch(head));
      run := Prompted(AllMode, options, answer, result);
  }

  /** main. */
  method GhSw(args: seq<string>, w: World) returns (run: Run)
    ensures run == Program(args, w)
  {
    match Dispatch(args)
    case ShowHelp =>
      run := Run(None, None, [Usage], 0);
    case SwitchAll =>
      run := InteractiveSwitchAll(w.localRefs, w.remoteRefs, w.head, w.answer, w.switched);
    case SwitchRemote =>
      run := InteractiveSwitchRemote(w.remoteRefs, w.head, w.answer, w.switched);
    case SwitchDirect(branch) =>
      run := SwitchTo(None, branch, w.switched);
    case SwitchLocal =>
      run := InteractiveSwitchLocal(w.localRefs, w.head, w.answer, w.switched);
  }
}
