/** Resolving the value chosen in the prompt to the name handed to
    `git switch`: the remote and combined modes drop a remote prefix, that is
    everything up to and including the first "/". */
module Selection {
  import opened GoStrings

  /** The remote mode's form: cut at strings.Index(selected, "/") when it is
      not -1. */
  function StripRemotePrefix(selected: string): string {
    var idx := Index(selected, '/');
    if idx != -1 then selected[idx + 1..] else selected
  }

  /** The combined mode's form: the same cut, guarded first by
      strings.Contains(selected, "/"). */
  function StripInAllMode(selected: string): string {
    if '/' in selected then
      var idx := Index(selected, '/');
      if idx != -1 then selected[idx + 1..] else selected
    else selected
  }

  /** A remote-qualified name: the remote, "/", and the branch on it. */
  function Qualify(remote: string, branch: string): string {
    remote + "/" + branch
  }

  /** The two forms are the same function. */
  lemma StripFormsAgree(selected: string)
    ensures StripInAllMode(selected) == StripRemotePrefix(selected)
  {
  }

  /** Without a "/" the selection is switched to unchanged; with one, the
      result is what follows the first "/": the selection is some slash-free
      prefix, "/", then the result. Either way it is never longer. */
  lemma StripSpec(selected: string)
    ensures var r := StripRemotePrefix(selected);
      && |r| <= |selected|
      && ('/' !in selected ==> r == selected)
      && ('/' in selected ==>
            && |r| < |selected|
            && selected == Qualify(selected[..|selected| - |r| - 1], r)
            && '/' !in selected[..|selected| - |r| - 1])
  {
    var idx := Index(selected, '/');
    if idx != -1 {
      var r := selected[idx + 1..];
      assert |selected| - |r| - 1 == idx;
      assert selected == selected[..idx] + "/" + r;
    }
  }

  /** Stripping inverts qualification by a remote whose name has no "/":
      origin/feature/auth resolves to feature/auth. */
  lemma {:induction false} StripQualified(remote: string, branch: string)
    requires '/' !in remote
    ensures StripRemotePrefix(Qualify(remote, branch)) == branch
  {
    var q := Qualify(remote, branch);
    assert q[|remote|] == '/';
    assert q[..|remote|] == remote;
    var idx := Index(q, '/');
    assert idx == |remote|;
    assert q[idx + 1..] == branch;
  }

  /** A remote branch resolves to its name on the remote. */
  lemma StripRemoteExample()
    ensures StripRemotePrefix("origin/feature/auth") == "feature/auth"
  {
    var q := Qualify("origin", "feature/auth");
    assert q == "origin/feature/auth";
    StripQualified("origin", "feature/auth");
  }

  /** The combined mode strips any selection containing "/", a local branch
      included: the local branch feature/auth is switched to as auth. */
  lemma LocalSlashNameStripped()
    ensures StripInAllMode("feature/auth") == "auth"
  {
    var q := Qualify("feature", "auth");
    assert q == "feature/auth";
    StripQualified("feature", "auth");
  }
}
