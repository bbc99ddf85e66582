/** Exactly which failures the certification script reports, each with its condition spelled out. */
module CertificationReport {
  import opened Common
  import opened Certification

  lemma PushHas(log: seq<Failure>, condition: bool, f: Failure, x: Failure)
    ensures x in Push(log, condition, f) <==> x in log || (condition && x == f)
  {}

  // ----- The ledger -----

  /** The three ways a ledger fails. */
  lemma LedgerFailuresAre(ledger: Ledger, f: Failure)
    ensures f in LedgerFailures([], ledger) <==>
            || (f == WrongSchema && ledger.schemaVersion != 1)
            || (f == WrongPolicy && ledger.policy != "manual-first-v1")
            || (f == NotOneEntry && !exists e: Entry :: e.id == "gosso-admin-frozen" && ledger.certifications == Some([e]))
  {
    var entries := OrEmpty(ledger.certifications);
    if |entries| == 1 {
      assert entries == [entries[0]] && ledger.certifications == Some([entries[0]]);
    }
  }

  // ----- The entry -----

  ghost predicate Is(ids: Option<seq<string>>, expected: seq<string>) {
    forall x :: x in OrEmpty(ids) <==> x in expected
  }

  ghost predicate RefFails(strict: bool, c: Compared, repo: Repo, f: Failure) {
    || (f == RefUnavailable(repo) && strict && !c.found)
    || (f == NotComparable(repo) && strict && c.found && c.changed == None)
    || (f == Stale(repo) && c.found && c.changed.Some? && c.changed.value != [])
  }

  lemma RefFailuresAre(log: seq<Failure>, strict: bool, c: Compared, repo: Repo, f: Failure)
    ensures f in RefFailures(log, strict, c, repo) <==> f in log || RefFails(strict, c, repo, f)
  {}

  ghost predicate FieldFails(e: Entry, f: Failure) {
    || (f == FieldMissing("manualReview") && !Filled(e.manualReview))
    || (f == FieldMissing("reviewDate") && !Filled(e.reviewDate))
    || (f == FieldMissing("reviewedRefs") && e.reviewedRefs == None)
    || (f == FieldMissing("gounoUiPackageVersion") && !Filled(e.uiVersion))
    || (f == FieldMissing("stateCoverage") && e.stateCoverage == None)
    || (f == FieldMissing("reviewDimensions") && e.reviewDimensions == None)
    || (f == FieldMissing("ownedPaths") && e.ownedPaths == None)
    || (f == FieldMissing("canonicalPaths") && e.canonicalPaths == None)
    || (f == FieldMissing("browserEvidence") && e.evidence == None)
  }

  lemma {:induction false} MissingFieldsAre(e: Entry, fields: seq<string>, f: Failure)
    ensures f in MissingFields(e, fields) <==> exists i :: 0 <= i < |fields| && !Has(e, fields[i]) && f == FieldMissing(fields[i])
  {
    hide Has;
    if fields != [] {
      MissingFieldsAre(e, fields[..|fields| - 1], f);
    }
  }

  lemma FieldFailuresAre(e: Entry, f: Failure)
    ensures f in MissingFields(e, REQUIRED_FIELDS) <==> FieldFails(e, f)
  {
    hide MissingFields, Has, FieldFails;
    MissingFieldsAre(e, REQUIRED_FIELDS, f);
    FieldsAre(e, f);
    var r := REQUIRED_FIELDS;
    assert (exists i :: 0 <= i < |r| && !Has(e, r[i]) && f == FieldMissing(r[i])) <==>
      (!Has(e, r[0]) && f == FieldMissing(r[0])) || (!Has(e, r[1]) && f == FieldMissing(r[1])) || (!Has(e, r[2]) && f == FieldMissing(r[2]))
      || (!Has(e, r[3]) && f == FieldMissing(r[3])) || (!Has(e, r[4]) && f == FieldMissing(r[4])) || (!Has(e, r[5]) && f == FieldMissing(r[5]))
      || (!Has(e, r[6]) && f == FieldMissing(r[6])) || (!Has(e, r[7]) && f == FieldMissing(r[7])) || (!Has(e, r[8]) && f == FieldMissing(r[8]));
  }

  lemma HasAre(e: Entry)
    ensures Has(e, "manualReview") <==> Filled(e.manualReview)
    ensures Has(e, "reviewDate") <==> Filled(e.reviewDate)
    ensures Has(e, "reviewedRefs") <==> e.reviewedRefs != None
    ensures Has(e, "gounoUiPackageVersion") <==> Filled(e.uiVersion)
    ensures Has(e, "stateCoverage") <==> e.stateCoverage != None
    ensures Has(e, "reviewDimensions") <==> e.reviewDimensions != None
    ensures Has(e, "ownedPaths") <==> e.ownedPaths != None
    ensures Has(e, "canonicalPaths") <==> e.canonicalPaths != None
    ensures Has(e, "browserEvidence") <==> e.evidence != None
  {}

  lemma FieldsAre(e: Entry, f: Failure)
    ensures FieldFails(e, f) <==>
            || (f == FieldMissing("manualReview") && !Has(e, "manualReview"))
            || (f == FieldMissing("reviewDate") && !Has(e, "reviewDate"))
            || (f == FieldMissing("reviewedRefs") && !Has(e, "reviewedRefs"))
            || (f == FieldMissing("gounoUiPackageVersion") && !Has(e, "gounoUiPackageVersion"))
            || (f == FieldMissing("stateCoverage") && !Has(e, "stateCoverage"))
            || (f == FieldMissing("reviewDimensions") && !Has(e, "reviewDimensions"))
            || (f == FieldMissing("ownedPaths") && !Has(e, "ownedPaths"))
            || (f == FieldMissing("canonicalPaths") && !Has(e, "canonicalPaths"))
            || (f == FieldMissing("browserEvidence") && !Has(e, "browserEvidence"))
  {
    HasAre(e);
    hide Has, Filled;
  }

  ghost predicate RecordFails(c: Commit, review: Review, f: Failure) {
    || (f == OtherUiVersion && c.ui != c.entry.uiVersion)
    || (f == ReviewNotVerified && !review.verified)
    || (f == ReviewNotRendered && !review.rendered)
    || (f == RunsMissing && !(c.entry.evidence.Some? && GoodRuns(c.entry.evidence.value.runs)))
    || (f == ArtifactsMissing && !(c.entry.evidence.Some? && GoodArtifacts(c.entry.evidence.value.artifacts)))
  }

  lemma RecordFailuresAre(log: seq<Failure>, c: Commit, review: Review, f: Failure)
    ensures f in RecordFailures(log, c, review) <==> f in log || RecordFails(c, review, f)
  {
    EvidenceSufficesIff(c.entry.evidence);
    hide RunsSuffice, ArtifactsSuffice, GoodRuns, GoodArtifacts;
  }

  ghost predicate UpstreamFails(strict: bool, e: Entry, upstream: Option<Canonical>, f: Failure) {
    && upstream.Some?
    && (|| RefFails(strict, upstream.value.compared, Upstream, f)
        || (f == NotFrozen && upstream.value.status != Some("frozen"))
        || (f == OtherCanonicalIds && !Is(e.canonicalIds, OrEmpty(upstream.value.productIds))))
  }

  lemma UpstreamFailuresAre(log: seq<Failure>, strict: bool, e: Entry, upstream: Option<Canonical>, f: Failure)
    ensures f in UpstreamFailures(log, strict, e, upstream) <==> f in log || UpstreamFails(strict, e, upstream, f)
  {
    hide RefFailures, RefFails, SameStrings;
    if upstream.Some? {
      RefFailuresAre(log, strict, upstream.value.compared, Upstream, f);
      SameStringsIff(e.canonicalIds, upstream.value.productIds);
    }
  }

  ghost predicate HeadFails(e: Entry, f: Failure) {
    || (f == UnsupportedStatus && e.status != "needs-manual-recertification" && e.status != "verified" && e.status != "blocked")
    || (f == WrongMethod && e.reviewMethod != "manual-first")
    || (f == WrongIds && !Is(e.canonicalIds, EXPECTED_IDS))
  }

  lemma HeadFailuresAre(e: Entry, f: Failure)
    ensures f in HeadFailures([], e) <==> HeadFails(e, f)
  {
    hide SameStrings;
    SameStringsIff(e.canonicalIds, Some(EXPECTED_IDS));
  }

  /** Every failure of an entry, and when it is reported: beyond its head, only a verified entry is looked at. */
  lemma EntryFailuresAre(strict: bool, c: Commit, review: Review, product: Compared, upstream: Option<Canonical>, f: Failure)
    ensures f in EntryFailures([], strict, c, review, product, upstream) <==>
            || HeadFails(c.entry, f)
            || (c.entry.status == "verified"
                && (|| FieldFails(c.entry, f) || RecordFails(c, review, f)
                    || RefFails(strict, product, Product, f) || UpstreamFails(strict, c.entry, upstream, f)))
  {
    hide HeadFailures, HeadFails, MissingFields, FieldFails, RecordFailures, RecordFails, RefFailures, RefFails, UpstreamFailures,
      UpstreamFails;
    var e := c.entry;
    var head := HeadFailures([], e);
    var fields := head + MissingFields(e, REQUIRED_FIELDS);
    var record := RecordFailures(fields, c, review);
    HeadFailuresAre(e, f);
    FieldFailuresAre(e, f);
    RecordFailuresAre(fields, c, review, f);
    RefFailuresAre(record, strict, product, Product, f);
    UpstreamFailuresAre(RefFailures(record, strict, product, Product), strict, e, upstream, f);
  }

  // ----- The pull request -----

  ghost predicate UpgradeFails(p: Entry, before: Option<string>, head: Commit, f: Failure) {
    && before != head.ui && head.entry.status == "verified"
    && (|| (f == UpgradeNotRecorded && head.entry.uiVersion != head.ui)
        || (f == UpgradeRefNotFresh && !RefIsNew(head.entry, p))
        || (f == UpgradeEvidenceNotFresh && head.entry.evidence == p.evidence))
  }

  lemma UpgradeFailuresAre(log: seq<Failure>, p: Entry, before: Option<string>, head: Commit, f: Failure)
    ensures f in UpgradeFailures(log, p, before, head) <==> f in log || UpgradeFails(p, before, head, f)
  {
    hide RefIsNew, Reviewed;
    RefIsNewIff(head.entry, p);
  }

  // What touching an owned path asks for.
  ghost predicate TouchFails(p: Entry, e: Entry, f: Failure) {
    || (f == EntryNotUpdated && e == p)
    || (f == RefNotFresh && e.status == "verified" && !RefIsNew(e, p))
    || (f == EvidenceNotFresh && e.status == "verified" && e.evidence == p.evidence)
  }

  lemma TouchFailuresAre(log: seq<Failure>, touched: bool, p: Entry, e: Entry, f: Failure) returns (after: seq<Failure>)
    ensures after ==
            var log := Push(log, touched && p == e, EntryNotUpdated);
            var log := Push(log, touched && e.status == "verified" && Reviewed(e) == Reviewed(p), RefNotFresh);
            Push(log, touched && e.status == "verified" && e.evidence == p.evidence, EvidenceNotFresh)
    ensures f in after <==> f in log || (touched && TouchFails(p, e, f))
  {
    RefIsNewIff(e, p);
    hide RefIsNew, Reviewed;
    var one := Push(log, touched && p == e, EntryNotUpdated);
    var two := Push(one, touched && e.status == "verified" && Reviewed(e) == Reviewed(p), RefNotFresh);
    after := Push(two, touched && e.status == "verified" && e.evidence == p.evidence, EvidenceNotFresh);
  }

  /** Every failure of a pull request, and when it is reported. */
  lemma TransitionFailuresAre(strict: bool, previous: Option<Entry>, before: Option<Option<string>>, head: Commit,
                              changes: Option<seq<string>>, f: Failure)
    ensures f in TransitionFailures([], strict, previous, before, head, changes) <==>
            || (f == ChangesUnknown && strict && changes == None)
            || (previous.Some? && previous.value.status == "verified"
                && var p := previous.value;
                   || (ListsOwned(OrEmpty(changes), OrEmpty(p.ownedPaths)) && TouchFails(p, head.entry, f))
                   || (before.Some? && UpgradeFails(p, before.value, head, f)))
  {
    hide Touches, ListsOwned, RefIsNew, Reviewed, TouchFails, UpgradeFailures, UpgradeFails;
    if previous.Some? && previous.value.status == "verified" {
      var p := previous.value;
      TouchesIff(OrEmpty(changes), OrEmpty(p.ownedPaths));
      var log := Push([], strict && changes.None?, ChangesUnknown);
      var after := TouchFailuresAre(log, Touches(OrEmpty(changes), OrEmpty(p.ownedPaths)), p, head.entry, f);
      hide Push;
      PushHas([], strict && changes.None?, ChangesUnknown, f);
      if before.Some? {
        UpgradeFailuresAre(after, p, before.value, head, f);
      }
    }
  }
}
