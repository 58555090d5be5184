/**
 * From the uploaded artifacts to the release evidence (scripts/ci/aggregate-checks.ts): the newest attempt of each
 * partition is selected, its report is read, and what was selected is combined.
 */
module NewestRelease {
  import opened Wrappers
  import opened Sequences
  import opened CheckPlan
  import opened PlanFacts
  import opened CheckRun
  import opened CheckEvidence
  import opened Partition
  import opened Contributors
  import opened Aggregate
  import opened ReleaseAudit

  /** What each artifact's directory holds. */
  type Contents = Artifact -> Contributor

  function PartOf(row: Row): PartKey { (row.suite, row.shard) }

  function KeyOfPart(part: PartKey): RowKey { ([part.0], part.1) }

  function PartIn(entry: Entry): PartKey { entry.key }

  function ReadEntry(contents: Contents): Entry -> Contributor {
    (entry: Entry) => contents(entry.artifact)
  }

  /** The name of an artifact agrees with the provenance and the selection recorded in it. */
  predicate NameAgrees(entry: Entry, contributor: Contributor, runId: int) {
    && contributor.meta.origin.runId == runId && contributor.meta.attempt == entry.attempt
    && KeyOfContributor(contributor) == KeyOfPart(entry.key)
  }

  /**
   * So what an artifact holds is of this workflow run, of the attempt in the artifact's name, and asked for just the
   * suite and the shard in it; and it could be found under one name only.
   */
  lemma NameAgreesExactly(entry: Entry, contributor: Contributor, runId: int)
    ensures NameAgrees(entry, contributor, runId) <==>
      && contributor.meta.origin.runId == runId && contributor.meta.attempt == entry.attempt
      && contributor.report.selection.suites == [entry.key.0] && contributor.report.selection.shard == entry.key.1
    ensures forall other: Entry :: NameAgrees(entry, contributor, runId) && NameAgrees(other, contributor, runId) ==>
      other.key == entry.key && other.attempt == entry.attempt
  {
    forall other: Entry | NameAgrees(entry, contributor, runId) && NameAgrees(other, contributor, runId)
      ensures other.key == entry.key && other.attempt == entry.attempt
    {
      KeyTells(other.key, entry.key);
    }
  }

  /** Some listing of the selected entries, each once. */
  ghost predicate Lists(parts: seq<Entry>, selected: map<PartKey, Entry>) {
    NoRepeat(parts) && forall entry :: entry in parts <==> entry.key in selected && selected[entry.key] == entry
  }

  /** The uploads are of the partitions the matrix names, and each of these has some attempt. */
  ghost predicate Uploaded(rows: seq<Row>, entries: seq<Entry>) {
    forall part: PartKey :: part in Map(PartOf, rows) <==> part in Map(PartIn, entries)
  }

  /** No attempt of its partition is higher. */
  ghost predicate IsNewest(entries: seq<Entry>, entry: Entry) {
    && entry in entries
    && forall i :: 0 <= i < |entries| && entries[i].key == entry.key ==> entries[i].attempt <= entry.attempt
  }

  /** The newest attempt of this row passed, and its artifact holds the report its runner wrote. */
  ghost predicate NewestPassed(cat: Catalogue, ctx: AggregateContext, row: Row, entries: seq<Entry>,
          contents: Contents)
  {
    forall entry :: IsNewest(entries, entry) && entry.key == PartOf(row) ==>
      && contents(entry.artifact).meta.attempt == entry.attempt
      && exists job :: JobReported(cat, ctx, row, job, contents(entry.artifact))
  }

  lemma SelectedFits(cat: Catalogue, ctx: AggregateContext, row: Row, entry: Entry, contributor: Contributor)
    requires WellNamed(cat) && Hex40(ctx.base.commit) && RowOk(cat, row) && entry.key == PartOf(row)
    requires ctx.producer.Some? && contributor.meta.attempt == entry.attempt
    requires exists job :: JobReported(cat, ctx, row, job, contributor)
    ensures ContributorOk(cat, contributor, ctx) && NameAgrees(entry, contributor, ctx.producer.value.origin.runId)
  {
    var job :| JobReported(cat, ctx, row, job, contributor);
    JobValid(cat, ctx, row, job, contributor);
    JobKey(cat, ctx, row, job, contributor);
  }

  /** What the listing of the selected entries amounts to: the newest attempt of each partition, once. */
  lemma ListedOnce(suites: seq<Suite>, lastAttempt: nat, artifacts: seq<Artifact>, parts: seq<Entry>)
    requires NoRepeat(artifacts) && AdmitAll(Admits(suites, lastAttempt), artifacts).Some?
    requires SelectNewest(Admits(suites, lastAttempt), artifacts).Some? ==>
      Lists(parts, SelectNewest(Admits(suites, lastAttempt), artifacts).value.selected)
    ensures var entries := AdmitAll(Admits(suites, lastAttempt), artifacts).value;
      && SelectNewest(Admits(suites, lastAttempt), artifacts).Some?
      && (forall i :: 0 <= i < |parts| ==> IsNewest(entries, parts[i]))
      && NoRepeat(Map(PartIn, parts))
      && (forall part :: part in Map(PartIn, parts) <==> part in Map(PartIn, entries))
  {
    SelectsNewest(suites, lastAttempt, artifacts);
    var entries := AdmitAll(Admits(suites, lastAttempt), artifacts).value;
    var selected := SelectNewest(Admits(suites, lastAttempt), artifacts).value.selected;
    HighestOnce(entries, selected, parts);
  }

  lemma HighestOnce(entries: seq<Entry>, selected: map<PartKey, Entry>, parts: seq<Entry>)
    requires Highest(entries, selected) && Lists(parts, selected)
    ensures forall i :: 0 <= i < |parts| ==> IsNewest(entries, parts[i])
    ensures NoRepeat(Map(PartIn, parts))
    ensures forall part :: part in Map(PartIn, parts) <==> part in Map(PartIn, entries)
  {
    assert forall i :: 0 <= i < |parts| ==> parts[i] in parts;
    forall i, j | 0 <= i < j < |parts|
      ensures Map(PartIn, parts)[i] != Map(PartIn, parts)[j]
    {
      assert parts[i] != parts[j];
    }
    forall part: PartKey
      ensures part in Map(PartIn, parts) <==> part in Map(PartIn, entries)
    {
      PartListed(entries, selected, parts, part);
    }
  }

  lemma PartListed(entries: seq<Entry>, selected: map<PartKey, Entry>, parts: seq<Entry>, part: PartKey)
    requires Highest(entries, selected) && Lists(parts, selected)
    ensures part in Map(PartIn, parts) <==> part in Map(PartIn, entries)
  {
    if i :| 0 <= i < |parts| && Map(PartIn, parts)[i] == part {
      assert parts[i] in parts && parts[i] in entries;
      var k :| 0 <= k < |entries| && entries[k] == parts[i];
      assert Map(PartIn, entries)[k] == part;
    }
    if k :| 0 <= k < |entries| && Map(PartIn, entries)[k] == part {
      assert selected[part] in parts;
      var i :| 0 <= i < |parts| && parts[i] == selected[part];
      assert Map(PartIn, parts)[i] == part;
    }
  }

  /** The contributors' suites and shards are those of the rows, each once. */
  lemma KeysOfParts(rows: seq<Row>, entries: seq<Entry>, parts: seq<Entry>, contributors: seq<Contributor>)
    requires Uploaded(rows, entries) && NoRepeat(Map(PartIn, parts)) && |contributors| == |parts|
    requires forall part :: part in Map(PartIn, parts) <==> part in Map(PartIn, entries)
    requires forall i :: 0 <= i < |parts| ==> KeyOfContributor(contributors[i]) == KeyOfPart(parts[i].key)
    ensures NoRepeat(Map(KeyOfContributor, contributors))
    ensures forall key :: key in Map(KeyOfContributor, contributors) <==> key in Map(KeyOfRow, rows)
  {
    forall i, j | 0 <= i < j < |contributors|
      ensures KeyOfContributor(contributors[i]) != KeyOfContributor(contributors[j])
    {
      assert Map(PartIn, parts)[i] != Map(PartIn, parts)[j];
      if KeyOfPart(parts[i].key) == KeyOfPart(parts[j].key) { KeyTells(parts[i].key, parts[j].key); }
    }
    forall key: RowKey
      ensures key in Map(KeyOfContributor, contributors) <==> key in Map(KeyOfRow, rows)
    {
      if i :| 0 <= i < |contributors| && Map(KeyOfContributor, contributors)[i] == key {
        assert Map(PartIn, parts)[i] in Map(PartOf, rows);
        var r :| 0 <= r < |rows| && Map(PartOf, rows)[r] == parts[i].key;
        assert Map(KeyOfRow, rows)[r] == key;
      }
      if r :| 0 <= r < |rows| && Map(KeyOfRow, rows)[r] == key {
        assert Map(PartOf, rows)[r] in Map(PartIn, parts);
        var i :| 0 <= i < |parts| && Map(PartIn, parts)[i] == PartOf(rows[r]);
        assert Map(KeyOfContributor, contributors)[i] == key;
      }
    }
  }

  lemma KeyTells(a: PartKey, b: PartKey)
    requires KeyOfPart(a) == KeyOfPart(b)
    ensures a == b
  {
    assert [a.0][0] == [b.0][0];
  }

  lemma PartFits(cat: Catalogue, ctx: AggregateContext, rows: seq<Row>, entries: seq<Entry>,
          contents: Contents, entry: Entry)
    requires WellNamed(cat) && Audits(cat, rows) && Hex40(ctx.base.commit) && ctx.producer.Some?
    requires Uploaded(rows, entries) && IsNewest(entries, entry)
    requires forall r :: 0 <= r < |rows| ==> NewestPassed(cat, ctx, rows[r], entries, contents)
    ensures ContributorOk(cat, contents(entry.artifact), ctx)
    ensures NameAgrees(entry, contents(entry.artifact), ctx.producer.value.origin.runId)
  {
    var k :| 0 <= k < |entries| && entries[k] == entry;
    assert Map(PartIn, entries)[k] in Map(PartOf, rows);
    var r :| 0 <= r < |rows| && Map(PartOf, rows)[r] == entry.key;
    assert NewestPassed(cat, ctx, rows[r], entries, contents);
    SelectedFits(cat, ctx, rows[r], entry, contents(entry.artifact));
  }

  /**
   * Valid contributors, one for each partition of the matrix, are accepted together, even if the matrix repeats a row.
   */
  lemma PartsCombine(cat: Catalogue, ctx: AggregateContext, rows: seq<Row>, contributors: seq<Contributor>)
    requires Audits(cat, rows) && rows != [] && RequiredSuites(cat, ctx) == cat.releaseSuites
    requires forall i :: 0 <= i < |contributors| ==> ContributorOk(cat, contributors[i], ctx)
    requires NoRepeat(Map(KeyOfContributor, contributors))
    requires forall key :: key in Map(KeyOfContributor, contributors) <==> key in Map(KeyOfRow, rows)
    ensures CompleteEvidence(cat, Whole(Combination(cat, ctx, contributors)), ctx)
  {
    assert Map(KeyOfRow, rows)[0] in Map(KeyOfContributor, contributors);
    ObservedByKey(cat, ctx, contributors);
    RowsByKey(cat, rows);
    FlatMapOnce(UnitsOfKey(cat), Map(KeyOfContributor, contributors), Map(KeyOfRow, rows));
    CoveringCombines(cat, ctx, rows, contributors);
  }

  /**
   * From the uploads to the evidence: if the audit accepts the matrix, the uploads are attempts of its partitions, and
   * the newest attempt of each passed, then the loop refuses nothing, every selected artifact's name agrees with its
   * contents, and the selected reports combine into complete release evidence, whatever the superseded artifacts hold.
   */
  lemma NewestAccepted(cat: Catalogue, ctx: AggregateContext, rows: seq<Row>, lastAttempt: nat,
          artifacts: seq<Artifact>, contents: Contents, parts: seq<Entry>)
    requires WellNamed(cat) && Audits(cat, rows) && rows != [] && RequiredSuites(cat, ctx) == cat.releaseSuites
    requires Hex40(ctx.base.commit) && ctx.producer.Some?
    requires NoRepeat(artifacts) && AdmitAll(Admits(cat.suites, lastAttempt), artifacts).Some?
    requires var entries := AdmitAll(Admits(cat.suites, lastAttempt), artifacts).value;
      && Uploaded(rows, entries)
      && forall r :: 0 <= r < |rows| ==> NewestPassed(cat, ctx, rows[r], entries, contents)
    requires SelectNewest(Admits(cat.suites, lastAttempt), artifacts).Some? ==>
      Lists(parts, SelectNewest(Admits(cat.suites, lastAttempt), artifacts).value.selected)
    ensures SelectNewest(Admits(cat.suites, lastAttempt), artifacts).Some?
    ensures forall i :: 0 <= i < |parts| ==>
      NameAgrees(parts[i], contents(parts[i].artifact), ctx.producer.value.origin.runId)
    ensures CompleteEvidence(cat, Whole(Combination(cat, ctx, Map(ReadEntry(contents), parts))), ctx)
  {
    var entries := AdmitAll(Admits(cat.suites, lastAttempt), artifacts).value;
    var contributors := Map(ReadEntry(contents), parts);
    ListedOnce(cat.suites, lastAttempt, artifacts, parts);
    forall i | 0 <= i < |parts|
      ensures ContributorOk(cat, contributors[i], ctx)
      ensures NameAgrees(parts[i], contributors[i], ctx.producer.value.origin.runId)
    {
      PartFits(cat, ctx, rows, entries, contents, parts[i]);
    }
    KeysOfParts(rows, entries, parts, contributors);
    PartsCombine(cat, ctx, rows, contributors);
  }
}
