/** Turning the standard output of `git for-each-ref --format=%(refname:short)`
    into the sorted branch lists of getLocalBranches (refs/heads) and
    getRemoteBranches (refs/remotes). Running git is not modelled: its output
    is the input string. */
module Refs {
  import opened GoStrings
  import opened StringOrder

  /** Which ref namespace was listed. */
  datatype RefKind = Heads | Remotes

  /** The lines of the listing: the whole output trimmed, then split on "\n". */
  function RefLines(output: string): seq<string> {
    Split(TrimSpace(output), '\n')
  }

  /** Whether a line of the listing is kept as a branch: local listings drop
      empty lines; remote listings also drop lines with no "/" (the bare
      remote name a symbolic ref abbreviates to) and lines ending in "/HEAD". */
  predicate Keeps(kind: RefKind, line: string) {
    line != "" && (kind == Remotes ==> '/' in line && !HasSuffix(line, "/HEAD"))
  }

  /** The kept lines in listing order. */
  function Filter(kind: RefKind, lines: seq<string>): seq<string> {
    if lines == [] then []
    else
      var last := lines[|lines| - 1];
      Filter(kind, lines[..|lines| - 1]) + (if Keeps(kind, last) then [last] else [])
  }

  /** One more line looked at by a parser loop. */
  lemma FilterStep(kind: RefKind, lines: seq<string>, i: int)
    requires 0 <= i < |lines|
    ensures Keeps(kind, lines[i]) ==> Filter(kind, lines[..i + 1]) == Filter(kind, lines[..i]) + [lines[i]]
    ensures !Keeps(kind, lines[i]) ==> Filter(kind, lines[..i + 1]) == Filter(kind, lines[..i])
  {
    assert lines[..i + 1][..i] == lines[..i];
    assert Filter(kind, lines[..i]) + [] == Filter(kind, lines[..i]);
  }

  /** What the parser returns: the kept lines in ascending order. */
  function Branches(kind: RefKind, output: string): seq<string> {
    Sort(Filter(kind, RefLines(output)))
  }

  /** Filter keeps every kept line exactly as often as the listing has it and
      drops every other line completely. */
  lemma {:induction false} FilterCount(kind: RefKind, lines: seq<string>, x: string)
    ensures multiset(Filter(kind, lines))[x] == if Keeps(kind, x) then multiset(lines)[x] else 0
  {
    if lines != [] {
      var init := lines[..|lines| - 1];
      FilterCount(kind, init, x);
      assert lines == init + [lines[|lines| - 1]];
    }
  }

  /** The sorted result has the multiplicities Filter has. */
  lemma BranchesCount(kind: RefKind, output: string, x: string)
    ensures multiset(Branches(kind, output))[x]
      == if Keeps(kind, x) then multiset(RefLines(output))[x] else 0
  {
    SortSpec(Filter(kind, RefLines(output)));
    FilterCount(kind, RefLines(output), x);
  }

  /** No listing yields the empty name. */
  lemma NoEmptyBranch(kind: RefKind, output: string)
    ensures "" !in Branches(kind, output)
  {
    BranchesCount(kind, output, "");
  }

  /** getLocalBranches' result: ascending, a permutation of the non-empty
      lines of the trimmed output (none lost, none duplicated), and every
      branch is a non-empty line without a line break. */
  lemma LocalBranchesSpec(output: string)
    ensures Sorted(Branches(Heads, output))
    ensures forall x ::
              multiset(Branches(Heads, output))[x] == if x == "" then 0 else multiset(RefLines(output))[x]
    ensures forall b :: b in Branches(Heads, output) ==> b != "" && '\n' !in b && b in RefLines(output)
  {
    var r := Branches(Heads, output);
    SortSpec(Filter(Heads, RefLines(output)));
    forall x ensures multiset(r)[x] == if x == "" then 0 else multiset(RefLines(output))[x] {
      BranchesCount(Heads, output, x);
    }
    SplitPiecesFree(TrimSpace(output), '\n');
    forall b | b in r ensures b != "" && '\n' !in b && b in RefLines(output) {
      assert multiset(r)[b] > 0;
      BranchesCount(Heads, output, b);
    }
  }

  /** getRemoteBranches' result: ascending, and a branch is listed exactly
      when it is a line of the trimmed output that contains "/" and does not
      end in "/HEAD", as often as the output has that line. */
  lemma RemoteBranchesSpec(output: string)
    ensures Sorted(Branches(Remotes, output))
    ensures forall x ::
              multiset(Branches(Remotes, output))[x]
                == if '/' in x && !HasSuffix(x, "/HEAD") then multiset(RefLines(output))[x] else 0
    ensures forall b ::
              b in Branches(Remotes, output) <==> b in RefLines(output) && '/' in b && !HasSuffix(b, "/HEAD")
  {
    var r := Branches(Remotes, output);
    SortSpec(Filter(Remotes, RefLines(output)));
    forall x ensures multiset(r)[x]
      == if '/' in x && !HasSuffix(x, "/HEAD") then multiset(RefLines(output))[x] else 0
    {
      BranchesCount(Remotes, output, x);
    }
  }

  /** A symbolic remote head such as "origin/HEAD" is never offered. */
  lemma RemoteHeadDropped(output: string, remote: string)
    ensures remote + "/HEAD" !in Branches(Remotes, output)
  {
    var h := remote + "/HEAD";
    assert h[|h| - 5..] == "/HEAD";
    RemoteBranchesSpec(output);
  }

  /** The slice of kept lines, copied to an array and sorted in place. */
  method SortedCopy(kept: seq<string>) returns (sorted: seq<string>)
    ensures sorted == Sort(kept)
  {
    var a := new string[|kept|](i requires 0 <= i < |kept| => kept[i]);
    assert a[..] == kept;
    SortInPlace(a);
    sorted := a[..];
    SortSpec(kept);
    SortedUnique(sorted, Sort(kept));
  }

  /** getLocalBranches, once git has printed `output`. */
  method ParseLocalRefs(output: string) returns (branches: seq<string>)
    ensures branches == Branches(Heads, output)
  {
    var lines := Split(TrimSpace(output), '\n');
    var kept: seq<string> := [];
    for i := 0 to |lines|
      invariant kept == Filter(Heads, lines[..i])
    {
      FilterStep(Heads, lines, i);
      var line := lines[i];
      if line == "" {
        continue;
      }
      kept := kept + [line];
    }
    assert lines[..|lines|] == lines;
    branches := SortedCopy(kept);
  }

  /** getRemoteBranches, once git has printed `output`. */
  method ParseRemoteRefs(output: string) returns (branches: seq<string>)
    ensures branches == Branches(Remotes, output)
  {
    var lines := Split(TrimSpace(output), '\n');
    var kept: seq<string> := [];
    for i := 0 to |lines|
      invariant kept == Filter(Remotes, lines[..i])
    {
      FilterStep(Remotes, lines, i);
      var line := lines[i];
      if line == "" {
        continue;
      }
      if '/' !in line {
        continue;
      }
      if HasSuffix(line, "/HEAD") {
        continue;
      }
      kept := kept + [line];
    }
    assert lines[..|lines|] == lines;
    branches := SortedCopy(kept);
  }
}
