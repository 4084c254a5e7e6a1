/** The option lists the three interactive modes hand to the selection prompt.
    An option is a display label and the value the prompt returns when it is
    chosen; a muted label stands for text rendered in the gray style. */
module Options {
  import opened StringOrder

  datatype Label = Muted(text: string) | Plain(text: string)

  datatype SelectOption = SelectOption(display: Label, value: string)

  /** The entry for the checked-out branch: "* " before its name, muted. */
  function PinnedOption(current: string): SelectOption {
    SelectOption(Muted("* " + current), current)
  }

  /** The entry for any other branch: its name, as label and as value. */
  function Entry(branch: string): SelectOption {
    SelectOption(Plain(branch), branch)
  }

  /** The pinned entry, present only when a current branch is known. */
  function Pin(current: string): seq<SelectOption> {
    if current != "" then [PinnedOption(current)] else []
  }

  /** One plain entry per branch, in order. */
  function Entries(branches: seq<string>): seq<SelectOption> {
    seq(|branches|, i requires 0 <= i < |branches| => Entry(branches[i]))
  }

  /** branches without any occurrence of x, in their original order. */
  function Without(branches: seq<string>, x: string): seq<string> {
    if branches == [] then []
    else
      var last := branches[|branches| - 1];
      Without(branches[..|branches| - 1], x) + (if last != x then [last] else [])
  }

  /** The values of a list of options, in order. */
  function Values(options: seq<SelectOption>): seq<string> {
    seq(|options|, i requires 0 <= i < |options| => options[i].value)
  }

  /** Options of the local mode: the pinned current branch, then every other
      local branch. */
  function LocalOptions(branches: seq<string>, current: string): seq<SelectOption> {
    Pin(current) + Entries(Without(branches, current))
  }

  /** Options of the remote mode: the pinned current branch, then every
      remote branch. */
  function RemoteOptions(remotes: seq<string>, current: string): seq<SelectOption> {
    Pin(current) + Entries(remotes)
  }

  /** Options of the combined mode: the pinned current branch, every other
      local branch, then every remote branch. */
  function AllOptions(locals: seq<string>, remotes: seq<string>, current: string): seq<SelectOption> {
    Pin(current) + Entries(Without(locals, current)) + Entries(remotes)
  }

  // Properties of the building blocks

  lemma ValuesConcat(a: seq<SelectOption>, b: seq<SelectOption>)
    ensures Values(a + b) == Values(a) + Values(b)
  {
  }

  /** The entries of a list of branches return exactly those branches. */
  lemma ValuesEntries(branches: seq<string>)
    ensures Values(Entries(branches)) == branches
  {
  }

  lemma EntriesSnoc(branches: seq<string>, b: string)
    ensures Entries(branches + [b]) == Entries(branches) + [Entry(b)]
  {
  }

  /** One more branch looked at by an option loop. */
  lemma WithoutStep(branches: seq<string>, i: int, x: string)
    requires 0 <= i < |branches|
    ensures branches[i] != x ==> Without(branches[..i + 1], x) == Without(branches[..i], x) + [branches[i]]
    ensures branches[i] == x ==> Without(branches[..i + 1], x) == Without(branches[..i], x)
  {
    assert branches[..i + 1][..i] == branches[..i];
    assert Without(branches[..i], x) + [] == Without(branches[..i], x);
  }

  lemma ValuesPin(current: string)
    ensures Values(Pin(current)) == if current != "" then [current] else []
  {
  }

  /** Without removes each occurrence of x and keeps every other element as
      often as it occurs. */
  lemma {:induction false} WithoutCount(branches: seq<string>, x: string, y: string)
    ensures multiset(Without(branches, x))[y] == if y == x then 0 else multiset(branches)[y]
  {
    if branches != [] {
      var init := branches[..|branches| - 1];
      var last := branches[|branches| - 1];
      WithoutCount(init, x, y);
      assert branches == init + [last];
      assert multiset(branches) == multiset(init) + multiset{last};
      assert Without(branches, x) == Without(init, x) + (if last != x then [last] else []);
    }
  }

  /** Without keeps the order: it distributes over concatenation. */
  lemma {:induction false} WithoutConcat(a: seq<string>, b: seq<string>, x: string)
    ensures Without(a + b, x) == Without(a, x) + Without(b, x)
  {
    if b != [] {
      var init := b[..|b| - 1];
      var last := b[|b| - 1];
      assert (a + b)[..|a + b| - 1] == a + init;
      assert (a + b)[|a + b| - 1] == last;
      assert Without(a + b, x) == Without(a + init, x) + (if last != x then [last] else []);
      WithoutConcat(a, init, x);
      assert Without(b, x) == Without(init, x) + (if last != x then [last] else []);
    } else {
      assert a + b == a;
    }
  }

  /** Nothing is removed when x does not occur. */
  lemma {:induction false} WithoutAbsent(branches: seq<string>, x: string)
    requires x !in branches
    ensures Without(branches, x) == branches
  {
    if branches != [] {
      var init := branches[..|branches| - 1];
      WithoutAbsent(init, x);
      assert branches == init + [branches[|branches| - 1]];
    }
  }

  /** Every element of Without(branches, x) is an element of branches. */
  lemma {:induction false} WithoutSubset(branches: seq<string>, x: string)
    ensures forall b :: b in Without(branches, x) ==> b in branches && b != x
  {
    if branches != [] {
      WithoutSubset(branches[..|branches| - 1], x);
    }
  }

  /** Removing one name from an ascending list leaves it ascending. */
  lemma {:induction false} WithoutSorted(branches: seq<string>, x: string)
    requires Sorted(branches)
    ensures Sorted(Without(branches, x))
  {
    if branches != [] {
      var init := branches[..|branches| - 1];
      var last := branches[|branches| - 1];
      var w := Without(init, x);
      WithoutSorted(init, x);
      if last != x {
        WithoutSubset(init, x);
        forall i | 0 <= i < |w| ensures Below(w[i], last) {
          assert w[i] in init;
          var k :| 0 <= k < |init| && init[k] == w[i];
          assert branches[k] == w[i];
        }
        var t := w + [last];
        forall i, j | 0 <= i < j < |t| ensures Below(t[i], t[j]) {
          if j < |w| {
            assert t[i] == w[i] && t[j] == w[j];
          }
        }
      }
    }
  }

  // What the option builders promise

  /** Every mode puts the pinned current branch first, when it is known. */
  lemma PinFirst(current: string, rest: seq<SelectOption>)
    ensures current != "" ==> (Pin(current) + rest)[0] == PinnedOption(current)
    ensures current == "" ==> Pin(current) + rest == rest
  {
  }

  /** The options after the pin are plain entries labelled with their values. */
  lemma EntriesLabelled(current: string, branches: seq<string>)
    ensures var options := Pin(current) + Entries(branches);
      forall i :: |Pin(current)| <= i < |options| ==> options[i] == Entry(options[i].value)
  {
    var options := Pin(current) + Entries(branches);
    forall i | |Pin(current)| <= i < |options| ensures options[i] == Entry(options[i].value) {
      assert options[i] == Entries(branches)[i - |Pin(current)|];
    }
  }

  /** The values of a pin followed by entries. */
  lemma PinnedValues(current: string, branches: seq<string>)
    ensures Values(Pin(current) + Entries(branches)) == (if current != "" then [current] else []) + branches
  {
    ValuesConcat(Pin(current), Entries(branches));
    ValuesPin(current);
    ValuesEntries(branches);
  }

  /** Local mode pins the current branch: when it is known, the first option
      is it, muted and marked "* "; the remaining values are the local branches
      with every occurrence of it removed, in their order; so it is among the
      values exactly once. Every option after the pin is labelled with its
      value. */
  lemma LocalOptionsSpec(branches: seq<string>, current: string)
    ensures var options := LocalOptions(branches, current);
      && (current != "" ==> options != [] && options[0] == PinnedOption(current))
      && Values(options) == (if current != "" then [current] else []) + Without(branches, current)
      && forall i :: |Pin(current)| <= i < |options| ==> options[i] == Entry(options[i].value)
  {
    var w := Without(branches, current);
    PinFirst(current, Entries(w));
    PinnedValues(current, w);
    EntriesLabelled(current, w);
  }

  /** The current branch is among the local mode's values exactly once when
      it is known, and not at all otherwise. */
  lemma LocalCurrentOnce(branches: seq<string>, current: string)
    ensures multiset(Values(LocalOptions(branches, current)))[current] == if current != "" then 1 else 0
  {
    var w := Without(branches, current);
    PinnedValues(current, w);
    WithoutCount(branches, current, current);
  }

  /** Local mode without a current branch lists exactly the branches, and
      when these are ascending, so are the values after the pin. */
  lemma LocalOptionsOrder(branches: seq<string>, current: string)
    requires "" !in branches
    ensures current == "" ==> Values(LocalOptions(branches, current)) == branches
    ensures Sorted(branches) ==> Sorted(Values(LocalOptions(branches, current))[|Pin(current)|..])
  {
    var w := Without(branches, current);
    PinnedValues(current, w);
    if current == "" {
      WithoutAbsent(branches, current);
    }
    if Sorted(branches) {
      WithoutSorted(branches, current);
      var v := Values(LocalOptions(branches, current));
      assert v[|Pin(current)|..] == w;
    }
  }

  /** Remote mode: the pinned current branch, then every remote branch
      unfiltered and in order; without a current branch, exactly the remote
      branches. */
  lemma RemoteOptionsSpec(remotes: seq<string>, current: string)
    ensures var options := RemoteOptions(remotes, current);
      && (current != "" ==> options != [] && options[0] == PinnedOption(current))
      && Values(options) == (if current != "" then [current] else []) + remotes
      && forall i :: |Pin(current)| <= i < |options| ==> options[i] == Entry(options[i].value)
  {
    PinFirst(current, Entries(remotes));
    PinnedValues(current, remotes);
    EntriesLabelled(current, remotes);
  }

  /** Combined mode: the pinned current branch, the local branches without
      it, then every remote branch; without a current branch (and with no
      empty name listed) exactly the local then the remote branches. */
  lemma AllOptionsSpec(locals: seq<string>, remotes: seq<string>, current: string)
    ensures current != "" ==>
              AllOptions(locals, remotes, current) != [] && AllOptions(locals, remotes, current)[0] == PinnedOption(current)
    ensures Values(AllOptions(locals, remotes, current))
      == (if current != "" then [current] else []) + Without(locals, current) + remotes
    ensures current == "" && "" !in locals ==> Values(AllOptions(locals, remotes, current)) == locals + remotes
  {
    AllPinFirst(locals, remotes, current);
    AllOptionsValues(locals, remotes, current);
    if current == "" && "" !in locals {
      WithoutAbsent(locals, current);
    }
  }

  lemma AllPinFirst(locals: seq<string>, remotes: seq<string>, current: string)
    ensures current != "" ==>
              AllOptions(locals, remotes, current) != [] && AllOptions(locals, remotes, current)[0] == PinnedOption(current)
  {
    var local := Pin(current) + Entries(Without(locals, current));
    PinFirst(current, Entries(Without(locals, current)));
    assert AllOptions(locals, remotes, current) == local + Entries(remotes);
  }

  lemma AllOptionsValues(locals: seq<string>, remotes: seq<string>, current: string)
    ensures Values(AllOptions(locals, remotes, current))
      == (if current != "" then [current] else []) + Without(locals, current) + remotes
  {
    var w := Without(locals, current);
    assert Entries(w) + Entries(remotes) == Entries(w + remotes);
    assert AllOptions(locals, remotes, current) == Pin(current) + Entries(w + remotes);
    PinnedValues(current, w + remotes);
  }

  /** BuildLocalOptions: the option loop of the local mode. */
  method BuildLocalOptions(branches: seq<string>, current: string) returns (options: seq<SelectOption>)
    ensures options == LocalOptions(branches, current)
  {
    options := [];
    if current != "" {
      options := options + [PinnedOption(current)];
    }
    ghost var kept: seq<string> := [];
    for i := 0 to |branches|
      invariant kept == Without(branches[..i], current)
      invariant options == Pin(current) + Entries(kept)
    {
      WithoutStep(branches, i, current);
      var branch := branches[i];
      if branch != current {
        EntriesSnoc(kept, branch);
        options := options + [Entry(branch)];
        kept := kept + [branch];
      }
    }
    assert branches[..|branches|] == branches;
  }

  /** The option loop of the remote mode. */
  method BuildRemoteOptions(remotes: seq<string>, current: string) returns (options: seq<SelectOption>)
    ensures options == RemoteOptions(remotes, current)
  {
    options := [];
    if current != "" {
      options := options + [PinnedOption(current)];
    }
    for i := 0 to |remotes|
      invariant options == Pin(current) + Entries(remotes[..i])
    {
      assert remotes[..i + 1] == remotes[..i] + [remotes[i]];
      EntriesSnoc(remotes[..i], remotes[i]);
      options := options + [Entry(remotes[i])];
    }
    assert remotes[..|remotes|] == remotes;
  }

  /** The two option loops of the combined mode. */
  method BuildAllOptions(locals: seq<string>, remotes: seq<string>, current: string)
    returns (options: seq<SelectOption>)
    ensures options == AllOptions(locals, remotes, current)
  {
    options := [];
    if current != "" {
      options := options + [PinnedOption(current)];
    }
    ghost var kept: seq<string> := [];
    for i := 0 to |locals|
      invariant kept == Without(locals[..i], current)
      invariant options == Pin(current) + Entries(kept)
    {
      WithoutStep(locals, i, current);
      var branch := locals[i];
      if branch != current {
        EntriesSnoc(kept, branch);
        options := options + [Entry(branch)];
        kept := kept + [branch];
      }
    }
    assert locals[..|locals|] == locals;
    ghost var head := options;
    for i := 0 to |remotes|
      invariant options == head + Entries(remotes[..i])
    {
      assert remotes[..i + 1] == remotes[..i] + [remotes[i]];
      EntriesSnoc(remotes[..i], remotes[i]);
      options := options + [Entry(remotes[i])];
    }
    assert remotes[..|remotes|] == remotes;
  }
}
