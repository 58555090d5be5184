/**
 * The names of the release's check partitions: a suite, or a suite and a shard (scripts/ci/aggregate-checks.ts,
 * scripts/ci/audit-release-matrix.ts). A name is read back to exactly the suite and shard it was written for.
 */
module Partition {
  import opened Wrappers
  import opened CheckPlan
  import opened CheckEvidence

  // ---------------------------------------------------------------- decimal numbers

  predicate IsDigit(c: char) { '0' <= c <= '9' }

  predicate AllDigits(text: string) { forall i :: 0 <= i < |text| ==> IsDigit(text[i]) }

  function DigitOf(n: nat): char
    requires n < 10
  {
    '0' + n as char
  }

  function Decimal(n: nat): (text: string)
    ensures text != [] && AllDigits(text)
  {
    if n < 10 then [DigitOf(n)] else Decimal(n / 10) + [DigitOf(n % 10)]
  }

  /** The number some digits stand for; leading zeros count for nothing. */
  function Value(text: string): nat
    requires AllDigits(text)
  {
    if text == [] then 0 else Value(text[..|text| - 1]) * 10 + (text[|text| - 1] - '0') as nat
  }

  lemma {:induction false} DecimalValue(n: nat)
    ensures Value(Decimal(n)) == n
  {
    var text := Decimal(n);
    if n >= 10 {
      DecimalValue(n / 10);
      assert text[..|text| - 1] == Decimal(n / 10);
    } else {
      assert text[..0] == [];
    }
  }

  // ---------------------------------------------------------------- names

  type PartKey = (string, Option<ShardPart>)

  function PartitionName(key: PartKey): string {
    key.0 + match key.1
            case None => []
            case Some(part) => ['-'] + ShardText(part.index, part.total)
  }

  function ShardText(index: nat, total: nat): string { Decimal(index) + ['-'] + Decimal(total) }

  /** Where the first dash is; the length if there is none. */
  function DashAt(text: string, from: nat): (at: nat)
    requires from <= |text|
    ensures from <= at <= |text| && (at < |text| ==> text[at] == '-')
    ensures forall i :: from <= i < at ==> text[i] != '-'
    decreases |text| - from
  {
    if from == |text| || text[from] == '-' then from else DashAt(text, from + 1)
  }

  /** Digits, a dash and digits. */
  function ReadShard(text: string): Option<(nat, nat)> {
    var at := DashAt(text, 0);
    if at == 0 || at + 1 >= |text| then None
    else if !AllDigits(text[..at]) || !AllDigits(text[at + 1..]) then None
    else Some((Value(text[..at]), Value(text[at + 1..])))
  }

  /** Whether the name is of this suite, whole or sharded. */
  predicate OfSuite(text: string, id: string) {
    || text == id
    || (|text| > |id| && text[..|id|] == id && text[|id|] == '-' && ReadShard(text[|id| + 1..]).Some?)
  }

  function FindSuite(suites: seq<Suite>, text: string): (found: Option<string>)
    ensures found.Some? ==> OfSuite(text, found.value)
  {
    if suites == [] then None
    else if OfSuite(text, suites[0].id) then Some(suites[0].id)
    else FindSuite(suites[1..], text)
  }

  /**
   * The suite and shard of a partition name, if it is the canonical name of a known suite and a shard within bounds.
   */
  function ReadPartition(suites: seq<Suite>, text: string): Option<PartKey> {
    match FindSuite(suites, text)
    case None => None
    case Some(id) =>
      if text == id then Some((id, None))
      else
        var shard := ReadShard(text[|id| + 1..]).value;
        if !(1 <= shard.0 <= shard.1 <= MAX_SHARDS) then None
        else if text != PartitionName((id, Some(Part(shard.0, shard.1)))) then None
        else Some((id, Some(Part(shard.0, shard.1))))
  }

  /** No suite id has a dash in it. */
  predicate NoDashes(suites: seq<Suite>) {
    forall i :: 0 <= i < |suites| ==> '-' !in suites[i].id
  }

  lemma DashFirst(text: string, at: nat, from: nat)
    requires from <= at < |text| && text[at] == '-' && forall i :: from <= i < at ==> text[i] != '-'
    ensures DashAt(text, from) == at
    decreases at - from
  {
    if from < at {
      DashFirst(text, at, from + 1);
    }
  }

  lemma ShardReadBack(index: nat, total: nat)
    ensures ReadShard(ShardText(index, total)) == Some((index, total))
  {
    var text, i := ShardText(index, total), |Decimal(index)|;
    assert text[..i] == Decimal(index) && text[i + 1..] == Decimal(total);
    assert forall k :: 0 <= k < i ==> text[k] == Decimal(index)[k];
    DashFirst(text, i, 0);
    DecimalValue(index);
    DecimalValue(total);
  }

  /** A name of one suite is of no other. */
  lemma OneSuite(key: PartKey, id: string)
    requires '-' !in key.0 && '-' !in id && OfSuite(PartitionName(key), id)
    ensures id == key.0
  {
    var text := PartitionName(key);
    assert if key.1.None? then text == key.0 else text[|key.0|] == '-';
    assert forall i :: 0 <= i < |key.0| ==> text[i] == key.0[i];
    assert forall i :: 0 <= i < |id| ==> text[i] == id[i] by {
      assert text == id || text[..|id|] == id;
    }
    if |id| == |key.0| {
      assert id == key.0;
    }
  }

  lemma {:induction false} FindsSuite(suites: seq<Suite>, key: PartKey)
    requires NoDashes(suites) && (exists i :: 0 <= i < |suites| && suites[i].id == key.0)
    requires OfSuite(PartitionName(key), key.0)
    ensures FindSuite(suites, PartitionName(key)) == Some(key.0)
  {
    var i :| 0 <= i < |suites| && suites[i].id == key.0;
    if OfSuite(PartitionName(key), suites[0].id) {
      OneSuite(key, suites[0].id);
    } else {
      assert suites[1..][i - 1].id == key.0;
      FindsSuite(suites[1..], key);
    }
  }

  lemma NameOfSuite(key: PartKey)
    ensures OfSuite(PartitionName(key), key.0)
    ensures key.1.Some? ==> PartitionName(key)[|key.0| + 1..] == ShardText(key.1.value.index, key.1.value.total)
  {
    var text := PartitionName(key);
    if key.1.Some? {
      assert text[..|key.0|] == key.0;
      assert text[|key.0| + 1..] == ShardText(key.1.value.index, key.1.value.total);
      ShardReadBack(key.1.value.index, key.1.value.total);
    } else {
      assert text == key.0;
    }
  }

  /**
   * Names and partitions correspond: the name of a known suite and a shard within bounds is read back to just these.
   */
  lemma NameReadBack(suites: seq<Suite>, key: PartKey)
    requires NoDashes(suites) && exists i :: 0 <= i < |suites| && suites[i].id == key.0
    requires key.1.Some? ==> key.1.value.total <= 32
    ensures ReadPartition(suites, PartitionName(key)) == Some(key)
  {
    NameOfSuite(key);
    FindsSuite(suites, key);
    if key.1.Some? {
      ShardReadBack(key.1.value.index, key.1.value.total);
    } else {
      assert PartitionName(key) == key.0;
    }
  }

  lemma {:induction false} FoundIsKnown(suites: seq<Suite>, text: string)
    requires FindSuite(suites, text).Some?
    ensures exists i :: 0 <= i < |suites| && suites[i].id == FindSuite(suites, text).value
  {
    if !OfSuite(text, suites[0].id) {
      FoundIsKnown(suites[1..], text);
      var i :| 0 <= i < |suites[1..]| && suites[1..][i].id == FindSuite(suites, text).value;
      assert suites[i + 1].id == FindSuite(suites, text).value;
    }
  }

  /**
   * And an accepted name is the name of what it is read as, a known suite and perhaps one shard of at most 32, so two
   * accepted names never stand for one partition.
   */
  lemma ReadIsName(suites: seq<Suite>, text: string)
    requires ReadPartition(suites, text).Some?
    ensures var key := ReadPartition(suites, text).value;
      && text == PartitionName(key)
      && (exists i :: 0 <= i < |suites| && suites[i].id == key.0)
      && (key.1.Some? ==> key.1.value.total <= 32)
  {
    FoundIsKnown(suites, text);
    var id := FindSuite(suites, text).value;
    if text == id {
      assert PartitionName((id, None)) == id + [];
    }
  }
}
