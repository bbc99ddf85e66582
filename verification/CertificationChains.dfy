/**
 Chains of accepted pull requests whose entry stays verified.

 History is strict and linear: every commit is checked against the one before it, whose ledger and
 package file can be read, and git answers every question about it.
 */
module CertificationChains {
  import opened Common
  import opened Certification

  predicate Verified(c: Commit) {
    c.entry.status == "verified"
  }

  function Owned(c: Commit): seq<string> {
    OrEmpty(c.entry.ownedPaths)
  }

  /** The verified entry of c passes, whatever git lists as changed since its reviewed ref. */
  ghost predicate Accepted(repo: map<string, Files>, c: Commit) {
    && Verified(c)
    && exists review: Review, product: Compared, upstream: Option<Canonical> ::
         ProductAnswers(repo, c, product) && EntryFailures([], true, c, review, product, upstream) == []
  }

  /** The pull request from a to b, with the changes git lists, passes both groups of checks. */
  ghost predicate Step(repo: map<string, Files>, a: Commit, b: Commit, changed: seq<string>) {
    && Accepted(repo, a) && Accepted(repo, b)
    && Listing(changed, a.files, b.files, [])
    && TransitionFailures([], true, Some(a.entry), Some(a.ui), b, Some(changed)) == []
  }

  ghost predicate Chain(repo: map<string, Files>, commits: seq<Commit>, changes: seq<seq<string>>) {
    && |commits| == |changes| + 1
    && forall k :: 0 <= k < |changes| ==> Step(repo, commits[k], commits[k + 1], changes[k])
  }

  ghost predicate SameRef(commits: seq<Commit>, i: nat, j: nat)
    requires i <= j < |commits|
  {
    forall k :: i <= k <= j ==> Reviewed(commits[k].entry) == Reviewed(commits[i].entry)
  }

  lemma AcceptedIsFresh(repo: map<string, Files>, c: Commit)
    requires Accepted(repo, c)
    ensures Fresh(repo, c) && GoodStanding(c, Review(true, true))
  {
    hide EntryFailures, ProductAnswers, Fresh, UpstreamAgrees, Filled, GoodRuns, GoodArtifacts;
    var review: Review, product: Compared, upstream: Option<Canonical> :|
      ProductAnswers(repo, c, product) && EntryFailures([], true, c, review, product, upstream) == [];
    VerifiedPassesIff(repo, c, review, product, upstream);
  }

  lemma StepAt(repo: map<string, Files>, commits: seq<Commit>, changes: seq<seq<string>>, k: nat)
    requires Chain(repo, commits, changes) && k < |commits| - 1
    ensures k < |changes| && Step(repo, commits[k], commits[k + 1], changes[k])
  {}

  /** A pull request that touches an owned path, or upgrades the interface package, changes both the reviewed ref and the evidence. */
  lemma EveryTouchIsRecertified(repo: map<string, Files>, a: Commit, b: Commit, changed: seq<string>)
    requires Step(repo, a, b, changed)
    requires Touches(changed, Owned(a)) || a.ui != b.ui
    ensures Reviewed(a.entry) != Reviewed(b.entry) && a.entry.evidence != b.entry.evidence
    ensures Fresh(repo, b)
  {
    hide EntryFailures, TransitionFailures, Touches, Listing, Fresh;
    AcceptedIsFresh(repo, b);
    TransitionPassesIff(a.entry, a.ui, b, Some(changed));
    TouchesIff(changed, Owned(a));
    RefIsNewIff(b.entry, a.entry);
  }

  lemma SameRefStep(repo: map<string, Files>, commits: seq<Commit>, changes: seq<seq<string>>, i: nat, j: nat, k: nat)
    requires Chain(repo, commits, changes) && i <= k < j < |commits| && SameRef(commits, i, j)
    ensures k < |changes| && !Touches(changes[k], Owned(commits[k]))
    ensures commits[k].ui == commits[k + 1].ui
  {
    hide Chain, Touches, Step;
    StepAt(repo, commits, changes, k);
    assert Reviewed(commits[k].entry) == Reviewed(commits[i].entry) == Reviewed(commits[k + 1].entry);
    if Touches(changes[k], Owned(commits[k])) || commits[k].ui != commits[k + 1].ui {
      EveryTouchIsRecertified(repo, commits[k], commits[k + 1], changes[k]);
    }
  }

  /** While the reviewed ref stays, no pull request touches what the entry before it owns, and the interface package stays. */
  lemma SameRefTouchesNothing(repo: map<string, Files>, commits: seq<Commit>, changes: seq<seq<string>>, i: nat, j: nat)
    requires Chain(repo, commits, changes) && i <= j < |commits| && SameRef(commits, i, j)
    ensures j <= |changes| && forall k :: i <= k < j ==> !Touches(changes[k], Owned(commits[k]))
    ensures forall k :: i <= k <= j ==> commits[k].ui == commits[i].ui
  {
    hide Chain, Touches, SameRef;
    ChainLength(repo, commits, changes);
    var n := i;
    while n < j
      invariant i <= n <= j
      invariant forall k :: i <= k < n ==> !Touches(changes[k], Owned(commits[k]))
      invariant forall k :: i <= k <= n ==> commits[k].ui == commits[i].ui
    {
      SameRefStep(repo, commits, changes, i, j, n);
      n := n + 1;
    }
  }

  lemma ChainLength(repo: map<string, Files>, commits: seq<Commit>, changes: seq<seq<string>>)
    requires Chain(repo, commits, changes)
    ensures |commits| == |changes| + 1
  {}

  lemma ListedIsTouched(changed: seq<string>, prefixes: seq<string>, p: string)
    ensures p in changed && Touched(p, prefixes) ==> Touches(changed, prefixes)
  {
    hide Touched;
  }

  lemma UntouchedStep(a: Files, b: Files, changed: seq<string>, prefixes: seq<string>, p: string)
    requires Listing(changed, a, b, []) && !Touches(changed, prefixes) && Touched(p, prefixes) && p in b
    ensures Same(a, b, p)
  {
    hide Touched, Touches, SomeAdded;
    ListedIsTouched(changed, prefixes, p);
  }

  lemma SameRefShorter(commits: seq<Commit>, i: nat, j: nat)
    requires i < j < |commits| && SameRef(commits, i, j)
    ensures SameRef(commits, i, j - 1)
  {}

  lemma SameAsItself(a: Files, p: string)
    ensures Same(a, a, p)
  {}

  lemma SameTwice(a: Files, b: Files, c: Files, p: string)
    requires Same(b, c, p) && p in c
    ensures p in b && (Same(a, b, p) ==> Same(a, c, p))
  {}

  lemma {:induction false} SameRefKeepsWhatStays(repo: map<string, Files>, commits: seq<Commit>, changes: seq<seq<string>>,
                                                 i: nat, j: nat, p: string)
    requires Chain(repo, commits, changes) && i <= j < |commits| && SameRef(commits, i, j)
    requires forall k :: i <= k < j ==> Touched(p, Owned(commits[k]))
    requires p in commits[j].files
    ensures Same(commits[i].files, commits[j].files, p)
    decreases j
  {
    hide *;
    if i == j {
      SameAsItself(commits[i].files, p);
    } else {
      var a, b := commits[j - 1].files, commits[j].files;
      StepAt(repo, commits, changes, j - 1);
      StepLists(repo, commits[j - 1], commits[j], changes[j - 1]);
      SameRefStep(repo, commits, changes, i, j, j - 1);
      UntouchedStep(a, b, changes[j - 1], Owned(commits[j - 1]), p);
      SameTwice(commits[i].files, a, b, p);
      SameRefShorter(commits, i, j);
      SameRefKeepsWhatStays(repo, commits, changes, i, j - 1, p);
    }
  }

  /**
   While the reviewed ref stays, a file that every entry of the stretch owns has the same content at both
   ends exactly if it did not disappear; a file moved away is the one way it can.
   */
  lemma SameRefKeepsOwned(repo: map<string, Files>, commits: seq<Commit>, changes: seq<seq<string>>, i: nat, j: nat, p: string)
    requires Chain(repo, commits, changes) && i <= j < |commits| && SameRef(commits, i, j)
    requires forall k :: i <= k < j ==> Touched(p, Owned(commits[k]))
    ensures Same(commits[i].files, commits[j].files, p) <==> (p in commits[i].files ==> p in commits[j].files)
  {
    hide Chain, SameRef, Touched;
    if p in commits[j].files {
      SameRefKeepsWhatStays(repo, commits, changes, i, j, p);
    }
  }

  lemma StepLists(repo: map<string, Files>, a: Commit, b: Commit, changed: seq<string>)
    requires Step(repo, a, b, changed)
    ensures Listing(changed, a.files, b.files, []) && Accepted(repo, a) && Accepted(repo, b)
  {}

  /**
   Any two accepted commits with the same reviewed ref agree on everything both entries select,
   deletions included, whatever lies between them.
   */
  lemma SameRefSameContent(repo: map<string, Files>, a: Commit, b: Commit, p: string)
    requires Accepted(repo, a) && Accepted(repo, b) && Reviewed(a.entry) == Reviewed(b.entry)
    requires Selected(p, Owned(a)) && Selected(p, Owned(b))
    ensures Same(a.files, b.files, p)
  {
    hide Accepted, Selected;
    AcceptedIsFresh(repo, a);
    AcceptedIsFresh(repo, b);
  }

  // ----- The two notions of owning a path -----

  /** With something owned, every path git selects is also touched. */
  lemma SelectedIsTouched(p: string, specs: seq<string>)
    requires specs != [] && Selected(p, specs)
    ensures Touched(p, specs)
  {
    var i :| 0 <= i < |specs| && Matches(specs[i], p);
    assert specs[i] <= p;
  }

  /** A path is touched but not selected exactly when it only extends the names of owned files or directories. */
  lemma TouchedNotSelectedIff(p: string, specs: seq<string>)
    requires specs != [] && "" !in specs
    ensures Touched(p, specs) && !Selected(p, specs) <==>
            && (exists i :: 0 <= i < |specs| && specs[i] <= p)
            && (forall i :: 0 <= i < |specs| && specs[i] <= p ==>
                  |specs[i]| < |p| && specs[i][|specs[i]| - 1] != '/' && p[|specs[i]|] != '/')
  {
    forall i | 0 <= i < |specs| && specs[i] <= p
      ensures specs[i] != "" && (Matches(specs[i], p) <==> specs[i] == p || specs[i][|specs[i]| - 1] == '/' || p[|specs[i]|] == '/')
      ensures specs[i] == p <==> |specs[i]| == |p|
    {}
  }

  // ----- Moved files -----

  /**
   A file moved out of the owned paths is listed under its new name only, so the transition rules pass
   with an untouched entry; the comparison with the reviewed ref is what rejects it.
   */
  lemma MovedFileEscapesTransition(a: Commit, b: Commit, review: Review, stale: seq<string>, upstream: Option<Canonical>)
    requires Verified(a) && b.entry == a.entry && b.ui == a.ui
    requires a.entry.ownedPaths == Some(["o/"])
    requires a.files == map["o/x" := "1"] && b.files == map["n/x" := "1"]
    requires Listing(stale, a.files, b.files, ["o/"])
    ensures Listing(["n/x"], a.files, b.files, [])
    ensures TransitionFailures([], true, Some(a.entry), Some(a.ui), b, Some(["n/x"])) == []
    ensures EntryFailures([], true, b, review, Compared(true, Some(stale)), upstream) != []
  {
    hide EntryFailures, TransitionFailures, Listing;
    MovedListing();
    TransitionPassesIff(a.entry, a.ui, b, Some(["n/x"]));
    TouchesIff(["n/x"], ["o/"]);
    EmptyListingIff(stale, a.files, b.files, ["o/"]);
    StaleFails(b, review, stale, upstream);
  }

  lemma MovedListing()
    ensures Listing(["n/x"], map["o/x" := "1"], map["n/x" := "1"], [])
    ensures !Touches(["n/x"], ["o/"])
    ensures Selected("o/x", ["o/"]) && !Same(map["o/x" := "1"], map["n/x" := "1"], "o/x")
  {
    assert "n/x"[0] == 'n' && "o/"[0] == 'o' && "o/x"[0] == 'o';
    assert ["n/x"][0] in ["n/x"];
    assert Matches(["o/"][0], "o/x");
  }

  lemma StaleFails(c: Commit, review: Review, stale: seq<string>, upstream: Option<Canonical>)
    requires Verified(c) && stale != []
    ensures EntryFailures([], true, c, review, Compared(true, Some(stale)), upstream) != []
  {
    hide EntryFailures, GoodStanding, UpstreamAgrees;
    VerifiedChecks(true, c, review, Compared(true, Some(stale)), upstream);
  }
}
