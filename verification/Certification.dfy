/**
 The checks of check-showcase-parity-certification.mjs on the ledger, its entry and a pull request.

 A commit is its files, the interface package version its package.json names, and the ledger entry.
 What git answers is a parameter: None when the command fails, and `Listing` says what a list of
 changed names may be. What the review document says is a parameter too. Two JSON values print
 alike when they are equal.
 */
module Certification {
  import opened Common
  import opened Sorting

  type Files = map<string, string>

  datatype Run = Run(id: int, result: string)

  datatype Artifact = Artifact(id: int, sha256: Option<string>)

  datatype Evidence = Evidence(runs: seq<Run>, artifacts: seq<Artifact>)

  datatype Refs = Refs(gossoAdmin: Option<string>, gounoUi: Option<string>)

  datatype Entry = Entry(id: string, status: string, reviewMethod: string, canonicalIds: Option<seq<string>>,
                         manualReview: Option<string>, reviewDate: Option<string>, reviewedRefs: Option<Refs>,
                         uiVersion: Option<string>, stateCoverage: Option<seq<string>>, reviewDimensions: Option<seq<string>>,
                         ownedPaths: Option<seq<string>>, canonicalPaths: Option<seq<string>>, evidence: Option<Evidence>,
                         rest: string)

  datatype Ledger = Ledger(schemaVersion: int, policy: string, certifications: Option<seq<Entry>>)

  datatype Commit = Commit(files: Files, ui: Option<string>, entry: Entry)

  /** What the review document records. */
  datatype Review = Review(verified: bool, rendered: bool)

  /** Git on a reviewed ref: whether it is a commit, and the listed changes since. */
  datatype Compared = Compared(found: bool, changed: Option<seq<string>>)

  /** The canonical repository, if it is at hand. */
  datatype Canonical = Canonical(compared: Compared, status: Option<string>, productIds: Option<seq<string>>)

  datatype Repo = Product | Upstream

  datatype Failure =
    | WrongSchema | WrongPolicy | NotOneEntry
    | UnsupportedStatus | WrongMethod | WrongIds
    | FieldMissing(field: string) | OtherUiVersion | ReviewNotVerified | ReviewNotRendered | RunsMissing | ArtifactsMissing
    | RefUnavailable(repo: Repo) | NotComparable(repo: Repo) | Stale(repo: Repo) | NotFrozen | OtherCanonicalIds
    | ChangesUnknown | EntryNotUpdated | RefNotFresh | EvidenceNotFresh
    | UpgradeNotRecorded | UpgradeRefNotFresh | UpgradeEvidenceNotFresh

  const ENTRY_ID := "gosso-admin-frozen"

  const REQUIRED_FIELDS: seq<string> := [
    "manualReview", "reviewDate", "reviewedRefs", "gounoUiPackageVersion", "stateCoverage", "reviewDimensions", "ownedPaths",
    "canonicalPaths", "browserEvidence"]

  const EXPECTED_IDS: seq<string> := [
    "gosso-account-settings", "gosso-callback", "gosso-forgot-password", "gosso-login", "gosso-not-found", "gosso-overview",
    "gosso-reset-password", "gosso-system-audit-logs", "gosso-system-clients", "gosso-system-site-settings",
    "gosso-system-status", "gosso-system-users"]

  // ----- Sets of strings -----

  // [...new Set(values)]
  function Once(values: seq<string>): seq<string> {
    if values == [] then []
    else
      var before := Once(values[..|values| - 1]);
      if values[|values| - 1] in before then before else before + [values[|values| - 1]]
  }

  lemma {:induction false} OnceIsDistinct(values: seq<string>)
    ensures Distinct(Once(values))
    ensures forall x :: x in Once(values) <==> x in values
  {
    if values != [] {
      var n := |values| - 1;
      OnceIsDistinct(values[..n]);
      assert values == values[..n] + [values[n]];
    }
  }

  function OrEmpty<T>(values: Option<seq<T>>): seq<T> {
    if values.Some? then values.value else []
  }

  predicate SameStrings(left: Option<seq<string>>, right: Option<seq<string>>) {
    Sort(Once(OrEmpty(left))) == Sort(Once(OrEmpty(right)))
  }

  /** sameStrings compares its arguments as sets; a missing list is the empty set. */
  lemma SameStringsIff(left: Option<seq<string>>, right: Option<seq<string>>)
    ensures SameStrings(left, right) <==> forall x :: x in OrEmpty(left) <==> x in OrEmpty(right)
  {
    OnceIsDistinct(OrEmpty(left));
    OnceIsDistinct(OrEmpty(right));
    DistinctSortsAgreeIff(Once(OrEmpty(left)), Once(OrEmpty(right)));
  }

  // ----- Paths -----

  predicate Touched(path: string, prefixes: seq<string>) {
    exists i :: 0 <= i < |prefixes| && prefixes[i] <= path
  }

  predicate Touches(changed: seq<string>, prefixes: seq<string>) {
    exists i :: 0 <= i < |changed| && Touched(changed[i], prefixes)
  }

  // What `git diff -- spec...` looks at: the file itself or anything below it; everything without a spec.
  predicate Matches(spec: string, path: string) {
    && spec <= path
    && (spec == path || (spec != "" && (spec[|spec| - 1] == '/' || path[|spec|] == '/')))
  }

  predicate Selected(path: string, specs: seq<string>) {
    specs == [] || exists i :: 0 <= i < |specs| && Matches(specs[i], path)
  }

  predicate Same(a: Files, b: Files, path: string) {
    (path in a <==> path in b) && (path in a && path in b ==> a[path] == b[path])
  }

  /**
   A list of changed names: only names that changed, and all of them, except that a file git pairs
   with an added one as its new name is listed under that name alone.
   */
  ghost predicate Listing(changed: seq<string>, a: Files, b: Files, specs: seq<string>) {
    && (forall p :: p in changed ==> Selected(p, specs) && !Same(a, b, p))
    && (forall p :: Selected(p, specs) && !Same(a, b, p) && p !in changed ==> p !in b && SomeAdded(changed, a, b))
  }

  ghost predicate SomeAdded(changed: seq<string>, a: Files, b: Files) {
    exists q :: q in changed && q !in a && q in b
  }

  lemma EmptyListingIff(changed: seq<string>, a: Files, b: Files, specs: seq<string>)
    requires Listing(changed, a, b, specs)
    ensures changed == [] <==> forall p :: Selected(p, specs) ==> Same(a, b, p)
  {
    hide Selected, Same;
    assert changed == [] ==> !SomeAdded(changed, a, b);
    if changed != [] {
      assert changed[0] in changed;
    }
  }

  // ----- The checks -----

  // The failures so far, and one more if the condition holds.
  function Push(failures: seq<Failure>, condition: bool, f: Failure): seq<Failure> {
    if condition then failures + [f] else failures
  }

  predicate RunsSuffice(e: Option<Evidence>) {
    e.Some? && |e.value.runs| >= 4 && forall i :: 0 <= i < |e.value.runs| ==> e.value.runs[i].result == "success"
  }

  predicate ArtifactsSuffice(e: Option<Evidence>) {
    && e.Some? && |e.value.artifacts| >= 2
    && forall i :: 0 <= i < |e.value.artifacts| ==>
         e.value.artifacts[i].sha256.Some? && e.value.artifacts[i].sha256.value != ""
  }

  function Reviewed(e: Entry): Option<string> {
    if e.reviewedRefs.Some? then e.reviewedRefs.value.gossoAdmin else None
  }

  // Whether the entry holds something under a name; an empty text counts as nothing, an empty list does not.
  predicate Has(e: Entry, field: string) {
    match field
    case "manualReview" => e.manualReview.Some? && e.manualReview.value != ""
    case "reviewDate" => e.reviewDate.Some? && e.reviewDate.value != ""
    case "reviewedRefs" => e.reviewedRefs.Some?
    case "gounoUiPackageVersion" => e.uiVersion.Some? && e.uiVersion.value != ""
    case "stateCoverage" => e.stateCoverage.Some?
    case "reviewDimensions" => e.reviewDimensions.Some?
    case "ownedPaths" => e.ownedPaths.Some?
    case "canonicalPaths" => e.canonicalPaths.Some?
    case _ => e.evidence.Some?
  }

  function MissingFields(e: Entry, fields: seq<string>): seq<Failure> {
    if fields == [] then []
    else Push(MissingFields(e, fields[..|fields| - 1]), !Has(e, fields[|fields| - 1]), FieldMissing(fields[|fields| - 1]))
  }

  lemma {:induction false} NothingMissingIff(e: Entry, fields: seq<string>)
    ensures MissingFields(e, fields) == [] <==> forall i :: 0 <= i < |fields| ==> Has(e, fields[i])
  {
    hide Has;
    if fields != [] {
      NothingMissingIff(e, fields[..|fields| - 1]);
    }
  }

  function LedgerFailures(log: seq<Failure>, ledger: Ledger): seq<Failure> {
    var entries := OrEmpty(ledger.certifications);
    var log := Push(log, ledger.schemaVersion != 1, WrongSchema);
    var log := Push(log, ledger.policy != "manual-first-v1", WrongPolicy);
    Push(log, |entries| != 1 || entries[0].id != ENTRY_ID, NotOneEntry)
  }

  function Find(entries: seq<Entry>): Option<Entry> {
    if entries == [] then None else if entries[0].id == ENTRY_ID then Some(entries[0]) else Find(entries[1..])
  }

  function EntryFailures(log: seq<Failure>, strict: bool, head: Commit, review: Review, product: Compared,
                         upstream: Option<Canonical>): seq<Failure>
  {
    var e := head.entry;
    var log := HeadFailures(log, e);
    if e.status != "verified" then log
    else
      var log := RecordFailures(log + MissingFields(e, REQUIRED_FIELDS), head, review);
      UpstreamFailures(RefFailures(log, strict, product, Product), strict, e, upstream)
  }

  function HeadFailures(log: seq<Failure>, e: Entry): seq<Failure> {
    var log := Push(log, e.status !in ["needs-manual-recertification", "verified", "blocked"], UnsupportedStatus);
    var log := Push(log, e.reviewMethod != "manual-first", WrongMethod);
    Push(log, !SameStrings(e.canonicalIds, Some(EXPECTED_IDS)), WrongIds)
  }

  // What the entry records.
  function RecordFailures(log: seq<Failure>, head: Commit, review: Review): seq<Failure> {
    var e := head.entry;
    var log := Push(log, head.ui != e.uiVersion, OtherUiVersion);
    var log := Push(log, !review.verified, ReviewNotVerified);
    var log := Push(log, !review.rendered, ReviewNotRendered);
    var log := Push(log, !RunsSuffice(e.evidence), RunsMissing);
    Push(log, !ArtifactsSuffice(e.evidence), ArtifactsMissing)
  }

  // What changed since the review.
  function RefFailures(log: seq<Failure>, strict: bool, c: Compared, repo: Repo): seq<Failure> {
    if !c.found then Push(log, strict, RefUnavailable(repo))
    else Push(Push(log, strict && c.changed.None?, NotComparable(repo)), OrEmpty(c.changed) != [], Stale(repo))
  }

  function UpstreamFailures(log: seq<Failure>, strict: bool, e: Entry, upstream: Option<Canonical>): seq<Failure> {
    if upstream.None? then log
    else
      var u := upstream.value;
      var log := RefFailures(log, strict, u.compared, Upstream);
      var log := Push(log, u.status != Some("frozen"), NotFrozen);
      Push(log, !SameStrings(e.canonicalIds, u.productIds), OtherCanonicalIds)
  }

  // previous: the entry at the base, if it can be read; before: the base's interface version, likewise.
  function TransitionFailures(log: seq<Failure>, strict: bool, previous: Option<Entry>, before: Option<Option<string>>,
                              head: Commit, changes: Option<seq<string>>): seq<Failure>
  {
    var log := Push(log, strict && changes.None?, ChangesUnknown);
    if previous.None? || previous.value.status != "verified" then log
    else
      var p, e := previous.value, head.entry;
      var touched := Touches(OrEmpty(changes), OrEmpty(p.ownedPaths));
      var log := Push(log, touched && p == e, EntryNotUpdated);
      var log := Push(log, touched && e.status == "verified" && Reviewed(e) == Reviewed(p), RefNotFresh);
      var log := Push(log, touched && e.status == "verified" && e.evidence == p.evidence, EvidenceNotFresh);
      if before.Some? then UpgradeFailures(log, p, before.value, head) else log
  }

  // What an upgrade of the interface package asks for.
  function UpgradeFailures(log: seq<Failure>, p: Entry, before: Option<string>, head: Commit): seq<Failure> {
    var e := head.entry;
    if before != head.ui && e.status == "verified" then
      var log := Push(log, e.uiVersion != head.ui, UpgradeNotRecorded);
      var log := Push(log, Reviewed(e) == Reviewed(p), UpgradeRefNotFresh);
      Push(log, e.evidence == p.evidence, UpgradeEvidenceNotFresh)
    else log
  }

  class Report {
    var failures: seq<Failure>

    constructor ()
      ensures failures == []
    {
      failures := [];
    }

    method Fail(f: Failure)
      modifies this
      ensures failures == old(failures) + [f]
    {
      failures := failures + [f];
    }

    method CheckLedger(ledger: Ledger) returns (entry: Option<Entry>)
      modifies this
      ensures failures == LedgerFailures(old(failures), ledger)
      ensures entry == Find(OrEmpty(ledger.certifications))
    {
      if ledger.schemaVersion != 1 { Fail(WrongSchema); }
      if ledger.policy != "manual-first-v1" { Fail(WrongPolicy); }
      var entries := OrEmpty(ledger.certifications);
      if |entries| != 1 || entries[0].id != ENTRY_ID { Fail(NotOneEntry); }
      entry := Find(entries);
    }

    method CheckEntry(strict: bool, head: Commit, review: Review, product: Compared, upstream: Option<Canonical>)
      modifies this
      ensures failures == EntryFailures(old(failures), strict, head, review, product, upstream)
    {
      hide SameStrings, RecordFailures, RefFailures, UpstreamFailures, MissingFields;
      var entry := head.entry;
      if entry.status !in ["needs-manual-recertification", "verified", "blocked"] { Fail(UnsupportedStatus); }
      if entry.reviewMethod != "manual-first" { Fail(WrongMethod); }
      if !SameStrings(entry.canonicalIds, Some(EXPECTED_IDS)) { Fail(WrongIds); }
      if entry.status == "verified" {
        CheckFields(entry);
        CheckRecord(head, review);
        CheckRef(strict, product, Product);
        CheckUpstream(strict, entry, upstream);
      }
    }

    method CheckFields(entry: Entry)
      modifies this
      ensures failures == old(failures) + MissingFields(entry, REQUIRED_FIELDS)
    {
      hide Has;
      var fields := REQUIRED_FIELDS;
      assert fields[..0] == [];
      for i := 0 to |fields|
        invariant failures == old(failures) + MissingFields(entry, fields[..i])
      {
        assert fields[..i + 1][..i] == fields[..i];
        if !Has(entry, fields[i]) { Fail(FieldMissing(fields[i])); }
      }
      assert fields[..|fields|] == fields;
    }

    method CheckRecord(head: Commit, review: Review)
      modifies this
      ensures failures == RecordFailures(old(failures), head, review)
    {
      hide RunsSuffice, ArtifactsSuffice;
      var entry := head.entry;
      if head.ui != entry.uiVersion { Fail(OtherUiVersion); }
      if !review.verified { Fail(ReviewNotVerified); }
      if !review.rendered { Fail(ReviewNotRendered); }
      if !RunsSuffice(entry.evidence) { Fail(RunsMissing); }
      if !ArtifactsSuffice(entry.evidence) { Fail(ArtifactsMissing); }
    }

    method CheckRef(strict: bool, c: Compared, repo: Repo)
      modifies this
      ensures failures == RefFailures(old(failures), strict, c, repo)
    {
      if !c.found {
        if strict { Fail(RefUnavailable(repo)); }
        return;
      }
      if c.changed.None? && strict { Fail(NotComparable(repo)); }
      var changed := OrEmpty(c.changed);
      if changed != [] { Fail(Stale(repo)); }
    }

    method CheckUpstream(strict: bool, entry: Entry, upstream: Option<Canonical>)
      modifies this
      ensures failures == UpstreamFailures(old(failures), strict, entry, upstream)
    {
      hide SameStrings, RefFailures;
      if upstream.None? { return; }
      CheckRef(strict, upstream.value.compared, Upstream);
      if upstream.value.status != Some("frozen") { Fail(NotFrozen); }
      if !SameStrings(entry.canonicalIds, upstream.value.productIds) { Fail(OtherCanonicalIds); }
    }

    method CheckTransition(strict: bool, previous: Option<Entry>, before: Option<Option<string>>, head: Commit,
                           changes: Option<seq<string>>)
      modifies this
      ensures failures == TransitionFailures(old(failures), strict, previous, before, head, changes)
    {
      hide Touches;
      if changes.None? && strict { Fail(ChangesUnknown); }
      var changed := OrEmpty(changes);
      if previous.Some? && previous.value.status == "verified" {
        var p, entry := previous.value, head.entry;
        var productTouched := Touches(changed, OrEmpty(p.ownedPaths));
        var entryUnchanged := p == entry;
        if productTouched && entryUnchanged { Fail(EntryNotUpdated); }
        if productTouched && entry.status == "verified" {
          if Reviewed(entry) == Reviewed(p) { Fail(RefNotFresh); }
          if entry.evidence == p.evidence { Fail(EvidenceNotFresh); }
        }
        if before.Some? {
          if before.value != head.ui && entry.status == "verified" {
            if entry.uiVersion != head.ui { Fail(UpgradeNotRecorded); }
            if Reviewed(entry) == Reviewed(p) { Fail(UpgradeRefNotFresh); }
            if entry.evidence == p.evidence { Fail(UpgradeEvidenceNotFresh); }
          }
        }
      }
    }
  }

  // ----- What acceptance means -----

  /** The ref names a commit that has, on everything selected, what these files have. */
  ghost predicate FreshSince(repo: map<string, Files>, ref: Option<string>, files: Files, specs: seq<string>) {
    && ref.Some? && ref.value in repo
    && forall p :: Selected(p, specs) ==>
         && (p in repo[ref.value] <==> p in files)
         && (p in repo[ref.value] && p in files ==> repo[ref.value][p] == files[p])
  }

  ghost predicate Answers(repo: map<string, Files>, ref: Option<string>, files: Files, specs: seq<string>, c: Compared) {
    && (c.found <==> ref.Some? && ref.value in repo)
    && (c.found && c.changed.Some? ==> Listing(c.changed.value, repo[ref.value], files, specs))
  }

  /** The reviewed commit has, on everything the entry owns, what this commit has. */
  ghost predicate Fresh(repo: map<string, Files>, c: Commit) {
    && c.entry.reviewedRefs.Some? && c.entry.reviewedRefs.value.gossoAdmin.Some?
    && var ref := c.entry.reviewedRefs.value.gossoAdmin;
       FreshSince(repo, ref, c.files, OrEmpty(c.entry.ownedPaths))
  }

  /** What git answers about the reviewed ref and what changed since. */
  ghost predicate ProductAnswers(repo: map<string, Files>, c: Commit, product: Compared) {
    Answers(repo, Reviewed(c.entry), c.files, OrEmpty(c.entry.ownedPaths), product)
  }

  ghost predicate GoodStanding(c: Commit, review: Review) {
    && c.entry.reviewMethod == "manual-first" && c.entry.uiVersion == c.ui && review == Review(true, true)
    && (forall x :: x in OrEmpty(c.entry.canonicalIds) <==> x in EXPECTED_IDS)
    && Filled(c.entry.manualReview) && Filled(c.entry.reviewDate) && Filled(c.entry.uiVersion)
    && c.entry.reviewedRefs.Some? && c.entry.stateCoverage.Some? && c.entry.reviewDimensions.Some?
    && c.entry.ownedPaths.Some? && c.entry.canonicalPaths.Some?
    && c.entry.evidence.Some? && GoodRuns(c.entry.evidence.value.runs) && GoodArtifacts(c.entry.evidence.value.artifacts)
  }

  ghost predicate Filled(text: Option<string>) {
    text.Some? && text.value != ""
  }

  /** At least four workflow runs, and every one succeeded. */
  ghost predicate GoodRuns(runs: seq<Run>) {
    |runs| >= 4 && forall r :: r in runs ==> r.result == "success"
  }

  /** At least two browser artifacts, and every one has a digest. */
  ghost predicate GoodArtifacts(artifacts: seq<Artifact>) {
    |artifacts| >= 2 && forall a :: a in artifacts ==> Filled(a.sha256)
  }

  /** Nothing changed since the ref; where history need not be complete, or nobody can tell. */
  ghost predicate Unchanged(strict: bool, c: Compared) {
    (c.found && c.changed == Some([])) || (!strict && (!c.found || c.changed == None))
  }

  ghost predicate UpstreamAgrees(strict: bool, e: Entry, upstream: Option<Canonical>) {
    upstream.Some? ==>
      && Unchanged(strict, upstream.value.compared) && upstream.value.status == Some("frozen")
      && forall x :: x in OrEmpty(e.canonicalIds) <==> x in OrEmpty(upstream.value.productIds)
  }

  lemma RefPassesIff(log: seq<Failure>, strict: bool, c: Compared, repo: Repo)
    ensures RefFailures(log, strict, c, repo) == [] <==> log == [] && Unchanged(strict, c)
  {}

  lemma ComparedIsFreshIff(repo: map<string, Files>, ref: Option<string>, files: Files, specs: seq<string>, c: Compared)
    requires Answers(repo, ref, files, specs, c)
    ensures Unchanged(true, c) <==> FreshSince(repo, ref, files, specs) && c.changed.Some?
  {
    if ref.Some? && ref.value in repo {
      forall p ensures Same(repo[ref.value], files, p) <==>
          (p in repo[ref.value] <==> p in files) && (p in repo[ref.value] && p in files ==> repo[ref.value][p] == files[p]) {}
    }
    hide Listing, Selected, Same;
    if c.found && c.changed.Some? {
      EmptyListingIff(c.changed.value, repo[ref.value], files, specs);
    }
  }

  lemma RecordPassesIff(log: seq<Failure>, c: Commit, review: Review)
    ensures RecordFailures(log, c, review) == [] <==>
            && log == [] && c.ui == c.entry.uiVersion && review == Review(true, true)
            && c.entry.evidence.Some?
            && GoodRuns(c.entry.evidence.value.runs) && GoodArtifacts(c.entry.evidence.value.artifacts)
  {
    EvidenceSufficesIff(c.entry.evidence);
    hide RunsSuffice, ArtifactsSuffice, GoodRuns, GoodArtifacts;
  }

  lemma EvidenceSufficesIff(e: Option<Evidence>)
    ensures RunsSuffice(e) <==> e.Some? && GoodRuns(e.value.runs)
    ensures ArtifactsSuffice(e) <==> e.Some? && GoodArtifacts(e.value.artifacts)
  {
    if e.Some? {
      forall i | 0 <= i < |e.value.runs| ensures e.value.runs[i] in e.value.runs {}
      forall i | 0 <= i < |e.value.artifacts| ensures e.value.artifacts[i] in e.value.artifacts {}
    }
  }

  lemma FieldsAreThere(e: Entry)
    ensures MissingFields(e, REQUIRED_FIELDS) == [] <==>
            && Filled(e.manualReview) && Filled(e.reviewDate) && Filled(e.uiVersion)
            && e.reviewedRefs.Some? && e.stateCoverage.Some? && e.reviewDimensions.Some?
            && e.ownedPaths.Some? && e.canonicalPaths.Some? && e.evidence.Some?
  {
    hide MissingFields;
    NothingMissingIff(e, REQUIRED_FIELDS);
    var f := REQUIRED_FIELDS;
    assert (forall i :: 0 <= i < |f| ==> Has(e, f[i])) <==>
      Has(e, f[0]) && Has(e, f[1]) && Has(e, f[2]) && Has(e, f[3]) && Has(e, f[4]) && Has(e, f[5]) && Has(e, f[6]) && Has(e, f[7]) && Has(e, f[8]);
  }

  lemma UpstreamPassesIff(log: seq<Failure>, strict: bool, e: Entry, upstream: Option<Canonical>)
    ensures UpstreamFailures(log, strict, e, upstream) == [] <==> log == [] && UpstreamAgrees(strict, e, upstream)
  {
    hide RefFailures, SameStrings, Unchanged;
    if upstream.Some? {
      RefPassesIff(log, strict, upstream.value.compared, Upstream);
      SameStringsIff(e.canonicalIds, upstream.value.productIds);
    }
  }

  lemma HeadPassesIff(e: Entry)
    ensures HeadFailures([], e) == [] <==>
            && (e.status == "needs-manual-recertification" || e.status == "verified" || e.status == "blocked")
            && e.reviewMethod == "manual-first" && forall x :: x in OrEmpty(e.canonicalIds) <==> x in EXPECTED_IDS
  {
    hide SameStrings;
    SameStringsIff(e.canonicalIds, Some(EXPECTED_IDS));
  }

  /** An entry that is not verified passes exactly if its status is one of the two others, its method manual-first and its ids the expected ones. */
  lemma UnverifiedPassesIff(strict: bool, c: Commit, review: Review, product: Compared, upstream: Option<Canonical>)
    requires c.entry.status != "verified"
    ensures EntryFailures([], strict, c, review, product, upstream) == [] <==>
            && (c.entry.status == "needs-manual-recertification" || c.entry.status == "blocked")
            && c.entry.reviewMethod == "manual-first"
            && forall x :: x in OrEmpty(c.entry.canonicalIds) <==> x in EXPECTED_IDS
  {
    hide HeadFailures;
    HeadPassesIff(c.entry);
  }

  /** A verified entry passes, strictly or not, exactly if it is in good standing and nothing changed here or upstream. */
  lemma VerifiedChecks(strict: bool, c: Commit, review: Review, product: Compared, upstream: Option<Canonical>)
    requires c.entry.status == "verified"
    ensures EntryFailures([], strict, c, review, product, upstream) == [] <==>
            GoodStanding(c, review) && Unchanged(strict, product) && UpstreamAgrees(strict, c.entry, upstream)
  {
    hide HeadFailures, MissingFields, GoodRuns, GoodArtifacts, Filled, RecordFailures, RefFailures, UpstreamFailures, UpstreamAgrees,
      Unchanged;
    var e := c.entry;
    var head := HeadFailures([], e);
    var fields := head + MissingFields(e, REQUIRED_FIELDS);
    var record := RecordFailures(fields, c, review);
    HeadPassesIff(e);
    FieldsAreThere(e);
    assert fields == [] <==> head == [] && MissingFields(e, REQUIRED_FIELDS) == [];
    RecordPassesIff(fields, c, review);
    RefPassesIff(record, strict, product, Product);
    UpstreamPassesIff(RefFailures(record, strict, product, Product), strict, e, upstream);
  }

  lemma FreshIs(repo: map<string, Files>, c: Commit)
    ensures Fresh(repo, c) <==> FreshSince(repo, Reviewed(c.entry), c.files, OrEmpty(c.entry.ownedPaths))
  {
    hide Selected, Same;
  }

  /** With strict history, a verified entry passes exactly when it is in good standing, git could compare, it is fresh, and upstream agrees. */
  lemma VerifiedPassesIff(repo: map<string, Files>, c: Commit, review: Review, product: Compared, upstream: Option<Canonical>)
    requires c.entry.status == "verified" && ProductAnswers(repo, c, product)
    ensures EntryFailures([], true, c, review, product, upstream) == [] <==>
            GoodStanding(c, review) && Fresh(repo, c) && product.changed.Some? && UpstreamAgrees(true, c.entry, upstream)
  {
    hide EntryFailures, GoodStanding, UpstreamAgrees, Answers, FreshSince, Fresh, Unchanged;
    VerifiedChecks(true, c, review, product, upstream);
    ComparedIsFreshIff(repo, Reviewed(c.entry), c.files, OrEmpty(c.entry.ownedPaths), product);
    FreshIs(repo, c);
  }

  /** The ledger passes exactly when it holds the one expected entry, which is then the entry checked. */
  lemma LedgerPassesIff(ledger: Ledger)
    ensures LedgerFailures([], ledger) == [] <==>
            && ledger.schemaVersion == 1 && ledger.policy == "manual-first-v1"
            && exists e: Entry :: e.id == ENTRY_ID && ledger.certifications == Some([e]) && Find(OrEmpty(ledger.certifications)) == Some(e)
  {
    var entries := OrEmpty(ledger.certifications);
    if |entries| == 1 {
      assert entries == [entries[0]];
      assert ledger.certifications == Some([entries[0]]);
    }
  }

  /** Some listed path starts with some owned one. */
  ghost predicate ListsOwned(changed: seq<string>, owned: seq<string>) {
    exists path, prefix :: path in changed && prefix in owned && prefix <= path
  }

  lemma TouchesIff(changed: seq<string>, prefixes: seq<string>)
    ensures Touches(changed, prefixes) <==> ListsOwned(changed, prefixes)
  {
    if Touches(changed, prefixes) {
      var i :| 0 <= i < |changed| && Touched(changed[i], prefixes);
      var j :| 0 <= j < |prefixes| && prefixes[j] <= changed[i];
      assert changed[i] in changed && prefixes[j] in prefixes;
    }
    forall path, prefix | path in changed && prefix in prefixes && prefix <= path ensures Touches(changed, prefixes) {
      var i :| 0 <= i < |changed| && changed[i] == path;
      var j :| 0 <= j < |prefixes| && prefixes[j] == prefix;
      assert Touched(changed[i], prefixes);
    }
  }

  /** The two entries name different reviewed commits of the product. */
  ghost predicate RefIsNew(e: Entry, previous: Entry) {
    && (e.reviewedRefs.None? || e.reviewedRefs.value.gossoAdmin.None? ==>
          previous.reviewedRefs.Some? && previous.reviewedRefs.value.gossoAdmin.Some?)
    && forall ref :: e.reviewedRefs.Some? && e.reviewedRefs.value.gossoAdmin == Some(ref) ==>
         !(previous.reviewedRefs.Some? && previous.reviewedRefs.value.gossoAdmin == Some(ref))
  }

  lemma RefIsNewIff(e: Entry, previous: Entry)
    ensures RefIsNew(e, previous) <==> Reviewed(e) != Reviewed(previous)
  {}

  /** Between verified entries, a pull request passes exactly when what it touches or upgrades is recertified. */
  lemma TransitionPassesIff(previous: Entry, before: Option<string>, head: Commit, changes: Option<seq<string>>)
    requires previous.status == "verified" && head.entry.status == "verified"
    ensures TransitionFailures([], true, Some(previous), Some(before), head, changes) == [] <==>
            && changes.Some?
            && (ListsOwned(changes.value, OrEmpty(previous.ownedPaths)) || before != head.ui ==>
                  RefIsNew(head.entry, previous) && head.entry.evidence != previous.evidence)
            && (before != head.ui ==> head.entry.uiVersion == head.ui)
  {
    TouchesIff(OrEmpty(changes), OrEmpty(previous.ownedPaths));
    RefIsNewIff(head.entry, previous);
    hide Touches, ListsOwned, RefIsNew, Reviewed;
  }

  /** Unless both entries are verified, a pull request passes whenever its changes are known; without strict history always. */
  lemma DemotionPassesIff(strict: bool, previous: Option<Entry>, before: Option<Option<string>>, head: Commit,
                          changes: Option<seq<string>>)
    requires previous.None? || previous.value.status != "verified" || head.entry.status != "verified"
    ensures TransitionFailures([], strict, previous, before, head, changes) == [] <==> (strict ==> changes.Some?)
  {
    hide Touches;
  }

  // ----- The whole script -----

  /** What git and the base commit tell about a pull request; previous and before are missing where the base cannot be read. */
  datatype Base = Base(previous: Option<Entry>, before: Option<Option<string>>, changes: Option<seq<string>>)

  lemma EntryKeepsFailures(log: seq<Failure>, strict: bool, head: Commit, review: Review, product: Compared, upstream: Option<Canonical>)
    ensures EntryFailures(log, strict, head, review, product, upstream) == [] ==> log == []
  {
    hide SameStrings, RunsSuffice, ArtifactsSuffice, MissingFields;
  }

  lemma TransitionKeepsFailures(log: seq<Failure>, strict: bool, previous: Option<Entry>, before: Option<Option<string>>,
                                head: Commit, changes: Option<seq<string>>)
    ensures TransitionFailures(log, strict, previous, before, head, changes) == [] ==> log == []
  {
    hide Touches;
  }

  /** The script succeeds exactly if the ledger, the entry it holds and the pull request each pass on their own. */
  method Certify(strict: bool, ledger: Ledger, files: Files, ui: Option<string>, review: Review, product: Compared,
                 upstream: Option<Canonical>, base: Option<Base>) returns (ok: bool)
    ensures ok <==>
            && LedgerFailures([], ledger) == []
            && exists e :: ledger.certifications == Some([e])
                 && EntryFailures([], strict, Commit(files, ui, e), review, product, upstream) == []
                 && (base.Some? ==>
                       TransitionFailures([], strict, base.value.previous, base.value.before, Commit(files, ui, e),
                                          base.value.changes) == [])
  {
    var report := new Report();
    var entry := report.CheckLedger(ledger);
    LedgerPassesIff(ledger);
    hide LedgerFailures, EntryFailures, TransitionFailures;
    if entry.Some? {
      var head := Commit(files, ui, entry.value);
      ghost var before := report.failures;
      report.CheckEntry(strict, head, review, product, upstream);
      EntryKeepsFailures(before, strict, head, review, product, upstream);
      if base.Some? {
        ghost var checked := report.failures;
        report.CheckTransition(strict, base.value.previous, base.value.before, head, base.value.changes);
        TransitionKeepsFailures(checked, strict, base.value.previous, base.value.before, head, base.value.changes);
      }
    }
    ok := report.failures == [];
  }
}
