/**
 * The choice of each partition's newest artifact (scripts/ci/aggregate-checks.ts): of all attempts downloaded, the
 * highest of each partition is selected and every other is kept as superseded.
 */
module Contributors {
  import opened Wrappers
  import opened Sequences
  import opened CheckPlan
  import opened Partition

  /** A directory's name after its fixed prefix: the attempt and the partition, as text. */
  datatype Artifact = Artifact(attempt: string, partition: string)

  datatype Entry = Entry(artifact: Artifact, attempt: nat, key: PartKey)

  /** Read one name; none where it is refused. */
  function Admit(suites: seq<Suite>, lastAttempt: nat, artifact: Artifact): Option<Entry> {
    if artifact.attempt == [] || !AllDigits(artifact.attempt) then None
    else
      var attempt := Value(artifact.attempt);
      if attempt < 1 || Decimal(attempt) != artifact.attempt || attempt > lastAttempt then None
      else
        match ReadPartition(suites, artifact.partition)
        case None => None
        case Some(key) => Some(Entry(artifact, attempt, key))
  }

  type Admission = Artifact -> Option<Entry>

  function Admits(suites: seq<Suite>, lastAttempt: nat): Admission {
    (artifact: Artifact) => Admit(suites, lastAttempt, artifact)
  }

  /**
   * A name is read as an attempt and a partition exactly when it is written with the attempt's own digits, the attempt
   * is at least 1 and not after the last one, and the rest is the partition's canonical name.
   */
  lemma AdmitExactly(suites: seq<Suite>, lastAttempt: nat, artifact: Artifact, entry: Entry)
    ensures Admit(suites, lastAttempt, artifact) == Some(entry) <==>
      && entry.artifact == artifact
      && artifact.attempt == Decimal(entry.attempt) && 1 <= entry.attempt <= lastAttempt
      && ReadPartition(suites, artifact.partition) == Some(entry.key)
  {
    DecimalValue(entry.attempt);
  }

  datatype Choice = Choice(selected: map<PartKey, Entry>, superseded: seq<Entry>)

  /** Take one more entry into account; none if the one selected so far has the same attempt. */
  function Choose(choice: Choice, entry: Entry): Option<Choice> {
    if entry.key !in choice.selected then Some(choice.(selected := choice.selected[entry.key := entry]))
    else
      var previous := choice.selected[entry.key];
      if previous.attempt == entry.attempt then None
      else if previous.attempt < entry.attempt then
        Some(Choice(choice.selected[entry.key := entry], choice.superseded + [previous]))
      else Some(choice.(superseded := choice.superseded + [entry]))
  }

  const NOTHING_CHOSEN := Choice(map[], [])

  function ChooseAll(entries: seq<Entry>): Option<Choice> {
    Steps(Choose, NOTHING_CHOSEN, entries)
  }

  function Admitting(admit: Admission): (seq<Entry>, Artifact) -> Option<seq<Entry>> {
    (entries: seq<Entry>, artifact: Artifact) =>
      match admit(artifact)
      case None => None
      case Some(entry) => Some(entries + [entry])
  }

  function AdmitAll(admit: Admission, artifacts: seq<Artifact>): Option<seq<Entry>> {
    Steps(Admitting(admit), [], artifacts)
  }

  function Selecting(admit: Admission): (Choice, Artifact) -> Option<Choice> {
    (choice: Choice, artifact: Artifact) =>
      match admit(artifact)
      case None => None
      case Some(entry) => Choose(choice, entry)
  }

  function SelectNewest(admit: Admission, artifacts: seq<Artifact>): Option<Choice> {
    Steps(Selecting(admit), NOTHING_CHOSEN, artifacts)
  }

  /** Reading names and choosing in one loop is reading all the names and then choosing among the entries. */
  lemma {:induction false} SelectIsChoose(admit: Admission, artifacts: seq<Artifact>)
    ensures SelectNewest(admit, artifacts) ==
      match AdmitAll(admit, artifacts)
      case None => None
      case Some(entries) => ChooseAll(entries)
  {
    if artifacts != [] {
      var init := artifacts[..|artifacts| - 1];
      SelectIsChoose(admit, init);
      if AdmitAll(admit, artifacts).Some? {
        var before, entries := AdmitAll(admit, init).value, AdmitAll(admit, artifacts).value;
        assert entries[..|entries| - 1] == before;
      }
    }
  }

  // ---------------------------------------------------------------- the loop

  method SelectParts(suites: seq<Suite>, lastAttempt: nat, artifacts: seq<Artifact>) returns (choice: Option<Choice>)
    ensures choice == SelectNewest(Admits(suites, lastAttempt), artifacts)
  {
    ghost var step := Selecting(Admits(suites, lastAttempt));
    var selected: map<PartKey, Entry> := map[];
    var superseded: seq<Entry> := [];
    var n := 0;
    while n < |artifacts|
      invariant n <= |artifacts|
      invariant Steps(step, NOTHING_CHOSEN, artifacts[..n]) == Some(Choice(selected, superseded))
    {
      StepsNext(step, NOTHING_CHOSEN, artifacts, n);
      n := n + 1;
      var admitted := Admit(suites, lastAttempt, artifacts[n - 1]);
      if admitted.None? {
        StepsStop(step, NOTHING_CHOSEN, artifacts, n);
        return None;
      }
      var candidate := admitted.value;
      if candidate.key in selected && selected[candidate.key].attempt == candidate.attempt {
        StepsStop(step, NOTHING_CHOSEN, artifacts, n);
        return None;
      }
      if candidate.key !in selected || selected[candidate.key].attempt < candidate.attempt {
        if candidate.key in selected { superseded := superseded + [selected[candidate.key]]; }
        selected := selected[candidate.key := candidate];
      } else {
        superseded := superseded + [candidate];
      }
    }
    assert artifacts[..n] == artifacts;
    return Some(Choice(selected, superseded));
  }

  // ---------------------------------------------------------------- what is chosen

  /** The selected entry of each partition is one of the entries, and the highest of its partition. */
  ghost predicate Highest(entries: seq<Entry>, selected: map<PartKey, Entry>) {
    && (forall key :: key in selected ==> selected[key] in entries && selected[key].key == key)
    && (forall i :: 0 <= i < |entries| ==>
         entries[i].key in selected && entries[i].attempt <= selected[entries[i].key].attempt)
  }

  lemma {:induction false} ChoosesHighest(entries: seq<Entry>)
    requires ChooseAll(entries).Some?
    ensures Highest(entries, ChooseAll(entries).value.selected)
  {
    if entries != [] {
      var init, last := entries[..|entries| - 1], entries[|entries| - 1];
      ChoosesHighest(init);
      var before, after := ChooseAll(init).value.selected, ChooseAll(entries).value.selected;
      forall key | key in after
        ensures after[key] in entries && after[key].key == key
      {
        assert after[key] == last || (key in before && after[key] == before[key]);
        assert entries[|entries| - 1] == last;
      }
      forall i | 0 <= i < |entries|
        ensures entries[i].key in after && entries[i].attempt <= after[entries[i].key].attempt
      {
        assert i < |init| ==> entries[i] == init[i];
      }
    }
  }

  /** How many of the entries are `entry`, selected or not. */
  function Kept(choice: Choice, entry: Entry): nat {
    multiset(choice.superseded)[entry]
    + if entry.key in choice.selected && choice.selected[entry.key] == entry then 1 else 0
  }

  ghost predicate Keyed(selected: map<PartKey, Entry>) {
    forall key :: key in selected ==> selected[key].key == key
  }

  lemma ChooseKeeps(choice: Choice, last: Entry, entry: Entry)
    requires Keyed(choice.selected) && Choose(choice, last).Some?
    ensures Kept(Choose(choice, last).value, entry) == Kept(choice, entry) + if entry == last then 1 else 0
  {
  }

  /** Nothing is lost: the selected and the superseded are together the entries, each as often. */
  lemma {:induction false} ChooseConserves(entries: seq<Entry>, entry: Entry)
    requires ChooseAll(entries).Some?
    ensures multiset(entries)[entry] == Kept(ChooseAll(entries).value, entry)
  {
    if entries != [] {
      var init, last := entries[..|entries| - 1], entries[|entries| - 1];
      Snoc(entries);
      ChooseConserves(init, entry);
      ChoosesHighest(init);
      ChooseKeeps(ChooseAll(init).value, last, entry);
    }
  }

  /** No two entries of one partition have the same attempt. */
  predicate AttemptsDiffer(entries: seq<Entry>) {
    forall i, j :: 0 <= i < j < |entries| ==>
      entries[i].key != entries[j].key || entries[i].attempt != entries[j].attempt
  }

  /** When attempts differ, nothing is refused. */
  lemma {:induction false} DifferentChoose(entries: seq<Entry>)
    requires AttemptsDiffer(entries)
    ensures ChooseAll(entries).Some?
  {
    if entries != [] {
      var init, last := entries[..|entries| - 1], entries[|entries| - 1];
      DifferentChoose(init);
      ChoosesHighest(init);
      var before := ChooseAll(init).value.selected;
      if last.key in before {
        var i :| 0 <= i < |init| && init[i] == before[last.key];
        assert entries[i] == init[i];
      }
    }
  }

  /** The order in which the directories are listed does not change the selection. */
  lemma SelectionIgnoresOrder(entries: seq<Entry>, other: seq<Entry>)
    requires AttemptsDiffer(entries) && multiset(entries) == multiset(other)
    ensures ChooseAll(entries).Some? && ChooseAll(other).Some?
    ensures ChooseAll(entries).value.selected == ChooseAll(other).value.selected
    ensures multiset(ChooseAll(entries).value.superseded) == multiset(ChooseAll(other).value.superseded)
  {
    DifferPermuted(entries, other);
    DifferentChoose(entries);
    DifferentChoose(other);
    ChoosesHighest(entries);
    ChoosesHighest(other);
    var a, b := ChooseAll(entries).value, ChooseAll(other).value;
    SameHighest(entries, other, a.selected, b.selected);
    forall entry: Entry
      ensures multiset(a.superseded)[entry] == multiset(b.superseded)[entry]
    {
      ChooseConserves(entries, entry);
      ChooseConserves(other, entry);
    }
  }

  function Named(entry: Entry): (PartKey, nat) { (entry.key, entry.attempt) }

  lemma DifferPermuted(entries: seq<Entry>, other: seq<Entry>)
    requires AttemptsDiffer(entries) && multiset(entries) == multiset(other)
    ensures AttemptsDiffer(other)
  {
    MapPermutes(Named, entries, other);
    assert NoRepeat(Map(Named, entries));
    DistinctPermutes(Map(Named, entries), Map(Named, other));
    forall i, j | 0 <= i < j < |other|
      ensures other[i].key != other[j].key || other[i].attempt != other[j].attempt
    {
      assert Map(Named, other)[i] != Map(Named, other)[j];
    }
  }

  lemma SameHighest(entries: seq<Entry>, other: seq<Entry>, a: map<PartKey, Entry>,
          b: map<PartKey, Entry>)
    requires AttemptsDiffer(entries) && multiset(entries) == multiset(other) && Highest(entries, a) && Highest(other, b)
    ensures a == b
  {
    forall entry: Entry
      ensures entry in entries <==> entry in other
    {
      assert entry in entries <==> entry in multiset(entries);
      assert entry in other <==> entry in multiset(other);
    }
    forall key | key in a
      ensures key in b && a[key] == b[key]
    {
      BothHighest(entries, other, a, b, key);
    }
    forall key | key in b
      ensures key in a
    {
      var i :| 0 <= i < |entries| && entries[i] == b[key];
    }
  }

  lemma BothHighest(entries: seq<Entry>, other: seq<Entry>, a: map<PartKey, Entry>,
          b: map<PartKey, Entry>, key: PartKey)
    requires AttemptsDiffer(entries) && Highest(entries, a) && Highest(other, b) && key in a
    requires forall entry: Entry :: entry in entries <==> entry in other
    ensures key in b && a[key] == b[key]
  {
    var i :| 0 <= i < |entries| && entries[i] == a[key];
    assert a[key] in other;
    var j :| 0 <= j < |other| && other[j] == a[key];
    assert b[key] in entries;
    var k :| 0 <= k < |entries| && entries[k] == b[key];
    assert entries[i].attempt == entries[k].attempt;
  }

  /**
   * Directory names read in full are different entries, so a directory listing is never refused for a repeated attempt.
   */
  lemma NamesDiffer(suites: seq<Suite>, lastAttempt: nat, a: Artifact, b: Artifact)
    requires a != b && Admit(suites, lastAttempt, a).Some? && Admit(suites, lastAttempt, b).Some?
    ensures Named(Admit(suites, lastAttempt, a).value) != Named(Admit(suites, lastAttempt, b).value)
  {
    ReadIsName(suites, a.partition);
    ReadIsName(suites, b.partition);
  }

  lemma {:induction false} AdmitsEach(admit: Admission, artifacts: seq<Artifact>)
    requires AdmitAll(admit, artifacts).Some?
    ensures var entries := AdmitAll(admit, artifacts).value;
      |entries| == |artifacts| && forall i :: 0 <= i < |artifacts| ==> admit(artifacts[i]) == Some(entries[i])
  {
    if artifacts != [] {
      AdmitsEach(admit, artifacts[..|artifacts| - 1]);
    }
  }

  /**
   * Newest-attempt selection over a directory: if every name is in order, each partition's highest attempt is selected,
   * and the selected and the superseded are together the directory, nothing lost and nothing twice.
   */
  lemma SelectsNewest(suites: seq<Suite>, lastAttempt: nat, artifacts: seq<Artifact>)
    requires NoRepeat(artifacts) && AdmitAll(Admits(suites, lastAttempt), artifacts).Some?
    ensures var admit := Admits(suites, lastAttempt);
      SelectNewest(admit, artifacts).Some?
    ensures var admit := Admits(suites, lastAttempt);
      var entries, choice := AdmitAll(admit, artifacts).value, SelectNewest(admit, artifacts).value;
      Highest(entries, choice.selected) && forall entry :: multiset(entries)[entry] == Kept(choice, entry)
  {
    var admit := Admits(suites, lastAttempt);
    var entries := AdmitAll(admit, artifacts).value;
    AdmitsEach(admit, artifacts);
    SelectIsChoose(admit, artifacts);
    forall i, j | 0 <= i < j < |entries|
      ensures entries[i].key != entries[j].key || entries[i].attempt != entries[j].attempt
    {
      NamesDiffer(suites, lastAttempt, artifacts[i], artifacts[j]);
    }
    DifferentChoose(entries);
    ChoosesHighest(entries);
    forall entry: Entry
      ensures multiset(entries)[entry] == Kept(ChooseAll(entries).value, entry)
    {
      ChooseConserves(entries, entry);
    }
  }

  /** The entry at `j` repeats the highest attempt of its partition so far. */
  ghost predicate Clashes(entries: seq<Entry>, j: nat)
    requires j < |entries|
  {
    && (exists i :: 0 <= i < j && entries[i].key == entries[j].key && entries[i].attempt == entries[j].attempt)
    && (forall i :: 0 <= i < j && entries[i].key == entries[j].key ==> entries[i].attempt <= entries[j].attempt)
  }

  lemma ClashLast(init: seq<Entry>, last: Entry)
    requires ChooseAll(init).Some?
    ensures Choose(ChooseAll(init).value, last).None? <==> Clashes(init + [last], |init|)
  {
    ChoosesHighest(init);
    var selected, all := ChooseAll(init).value.selected, init + [last];
    assert all[|init|] == last && forall i :: 0 <= i < |init| ==> all[i] == init[i];
    if last.key in selected {
      var i :| 0 <= i < |init| && init[i] == selected[last.key];
      assert all[i] == init[i];
    }
  }

  /** The loop refuses exactly when an entry repeats the highest attempt seen so far of its partition. */
  lemma {:induction false} RefusedExactly(entries: seq<Entry>)
    ensures ChooseAll(entries).None? <==> exists j: nat :: j < |entries| && Clashes(entries, j)
  {
    if entries != [] {
      var init, last := entries[..|entries| - 1], entries[|entries| - 1];
      RefusedExactly(init);
      Snoc(entries);
      forall j: nat | j < |init|
        ensures Clashes(init, j) <==> Clashes(entries, j)
      {
        assert forall i :: 0 <= i < |init| ==> entries[i] == init[i];
      }
      if ChooseAll(init).Some? { ClashLast(init, last); }
    }
  }

  /**
   * So its check of duplicates is not complete: a repeated attempt that has been superseded in between is missed, and
   * whether one is noticed depends on the order. Only the directory's names being different rules duplicates out.
   */
  lemma DuplicateMissed(a: Entry, b: Entry)
    requires a.key == b.key && a.attempt < b.attempt
    ensures ChooseAll([a, b, a]).Some? && ChooseAll([a, a, b]).None?
  {
    RefusedExactly([a, b, a]);
    RefusedExactly([a, a, b]);
    var s := [a, a, b];
    assert s[0] == s[1];
    assert Clashes(s, 1);
    var t := [a, b, a];
    assert t[0] == a == t[2] && t[1] == b;
  }
}
