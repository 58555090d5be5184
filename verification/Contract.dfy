/**
 * Two shared rules of the broker contract (contracts/generated/broker-client.snapshot.ts): which pairs of client and
 * broker revisions may work together, and how a context body is cut to a bound.
 */
module Contract {
  import opened Wrappers
  import opened Fnv

  const OVERLAP_REVISIONS := 1
  const MAX_SAFE_INTEGER := 0x1F_FFFF_FFFF_FFFF

  // ---------------------------------------------------------------- compatibility

  datatype Broker = Broker(revision: int, minimumClient: int, surfaceHash: string)

  datatype Client = Client(revision: int, minimumBroker: int, surfaceHash: Option<string>)

  datatype Status = Compatible | ClientBehind | BrokerBehind | HardIncompatible | UnknownClient

  datatype Verdict = Verdict(status: Status, readOnly: bool)

  predicate SafeRevision(n: int) { 0 <= n <= MAX_SAFE_INTEGER }

  function Abs(n: int): int { if n < 0 then -n else n }

  function Evaluate(client: Option<Client>, broker: Broker): Verdict {
    match client
    case None => Verdict(UnknownClient, false)
    case Some(c) =>
      if !(SafeRevision(c.revision) && SafeRevision(c.minimumBroker)
           && SafeRevision(broker.revision) && SafeRevision(broker.minimumClient))
      then Verdict(HardIncompatible, true)
      else if c.minimumBroker > c.revision || broker.minimumClient > broker.revision
      then Verdict(HardIncompatible, true)
      else if c.revision < broker.minimumClient then Verdict(HardIncompatible, true)
      else if broker.revision < c.minimumBroker then Verdict(HardIncompatible, true)
      else if c.revision == broker.revision
              && c.surfaceHash.Some? && c.surfaceHash.value != [] && c.surfaceHash.value != broker.surfaceHash
      then Verdict(HardIncompatible, true)
      else if Abs(c.revision - broker.revision) > OVERLAP_REVISIONS then Verdict(HardIncompatible, true)
      else if c.revision < broker.revision then Verdict(ClientBehind, false)
      else if c.revision > broker.revision then Verdict(BrokerBehind, false)
      else Verdict(Compatible, false)
  }

  /** The client's side of the contract seen as a broker's, and the other way round. */
  function AsBroker(client: Client, surfaceHash: string): Broker {
    Broker(client.revision, client.minimumBroker, surfaceHash)
  }

  function AsClient(broker: Broker): Client {
    Client(broker.revision, broker.minimumClient, Some(broker.surfaceHash))
  }

  function Mirrored(status: Status): Status {
    match status
    case ClientBehind => BrokerBehind
    case BrokerBehind => ClientBehind
    case other => other
  }

  /** The matrix favours neither side: exchanging the two exchanges who is behind and nothing else. */
  lemma MatrixIsMirrored(client: Client, broker: Broker)
    requires client.surfaceHash.Some? && client.surfaceHash.value != [] && broker.surfaceHash != []
    ensures var here := Evaluate(Some(client), broker);
      var there := Evaluate(Some(AsClient(broker)), AsBroker(client, client.surfaceHash.value));
      there.status == Mirrored(here.status) && there.readOnly == here.readOnly
  {
  }

  /** Equal revisions with the same surface or none told, or adjacent ones of which the newer still takes the older. */
  predicate MayWrite(client: Client, broker: Broker) {
    || (client.revision == broker.revision
        && (client.surfaceHash.None? || client.surfaceHash.value == []
            || client.surfaceHash.value == broker.surfaceHash))
    || (client.revision == broker.revision - 1 && client.revision >= broker.minimumClient)
    || (client.revision == broker.revision + 1 && broker.revision >= client.minimumBroker)
  }

  /** A revision and the lowest one it still takes from the other side, up to the largest safe integer, 2^53 - 1. */
  predicate Sound(revision: int, minimum: int) {
    0 <= minimum <= revision <= 9007199254740991
  }

  /** Writing is allowed exactly between sound contracts that make one of these pairs, or when no client is known. */
  lemma ReadOnlyExactly(client: Client, broker: Broker)
    ensures Evaluate(None, broker) == Verdict(UnknownClient, false)
    ensures Evaluate(Some(client), broker).status != UnknownClient
    ensures var verdict := Evaluate(Some(client), broker);
      && (verdict.readOnly <==>
            !(Sound(client.revision, client.minimumBroker) && Sound(broker.revision, broker.minimumClient)
              && MayWrite(client, broker)))
      && (verdict.readOnly <==> verdict.status == HardIncompatible)
      && (!verdict.readOnly ==>
           && (verdict.status == ClientBehind <==> client.revision < broker.revision)
           && (verdict.status == BrokerBehind <==> client.revision > broker.revision)
           && (verdict.status == Compatible <==> client.revision == broker.revision))
  {
  }

  // ---------------------------------------------------------------- bounded text

  predicate IsHigh(unit: unit16) { 0xd800 <= unit <= 0xdbff }

  predicate IsLow(unit: unit16) { 0xdc00 <= unit <= 0xdfff }

  /** The two blocks of 1024 surrogates. */
  lemma SurrogatesAre(unit: unit16)
    ensures (IsHigh(unit) <==> unit as int / 1024 == 54) && (IsLow(unit) <==> unit as int / 1024 == 55)
  {
  }

  /** A surrogate without its other half. */
  predicate LoneAt(text: seq<unit16>, i: nat)
    requires i < |text|
  {
    || (IsHigh(text[i]) && !(i + 1 < |text| && IsLow(text[i + 1])))
    || (IsLow(text[i]) && !(i > 0 && IsHigh(text[i - 1])))
  }

  predicate WellFormed(text: seq<unit16>) {
    forall i :: 0 <= i < |text| ==> !LoneAt(text, i)
  }

  /** The text is a row of whole characters: units that are not surrogates, and pairs of a high one and a low one. */
  predicate Parses(text: seq<unit16>) {
    if text == [] then true
    else if text[0] as int / 1024 == 54 then |text| > 1 && text[1] as int / 1024 == 55 && Parses(text[2..])
    else text[0] as int / 1024 != 55 && Parses(text[1..])
  }

  /** No surrogate stands alone in just the texts that are rows of whole characters. */
  lemma {:induction false} WellFormedExactly(text: seq<unit16>)
    ensures WellFormed(text) <==> Parses(text)
  {
    if text != [] {
      SurrogatesAre(text[0]);
      if IsHigh(text[0]) {
        if |text| > 1 { SurrogatesAre(text[1]); }
        if |text| > 1 && IsLow(text[1]) {
          WholeFirst(text, 2);
          WellFormedExactly(text[2..]);
        } else {
          assert LoneAt(text, 0);
        }
      } else if IsLow(text[0]) {
        assert LoneAt(text, 0);
      } else {
        WholeFirst(text, 1);
        WellFormedExactly(text[1..]);
      }
    }
  }

  /** A whole character in front changes nothing for what follows. */
  lemma WholeFirst(text: seq<unit16>, n: nat)
    requires 0 < n <= |text| && !IsHigh(text[n - 1])
    requires forall i :: 0 <= i < n ==> !LoneAt(text, i)
    ensures WellFormed(text) <==> WellFormed(text[n..])
  {
    assert forall i :: 0 <= i < |text| - n ==> (LoneAt(text[n..], i) <==> LoneAt(text, n + i));
    if WellFormed(text[n..]) {
      forall i | 0 <= i < |text|
        ensures !LoneAt(text, i)
      {
        if i >= n { assert !LoneAt(text[n..], i - n); }
      }
    }
  }

  /** How much of a text is kept under a bound. */
  function Bound(text: seq<unit16>, max: nat): (end: nat)
    ensures end <= |text| && end <= max
  {
    if |text| <= max then |text| else if max > 0 && IsHigh(text[max - 1]) then max - 1 else max
  }

  /** `boundContextBody`, with its variable end. */
  method BoundContextBody(text: seq<unit16>, max: nat) returns (body: seq<unit16>, truncated: bool)
    ensures body == text[..Bound(text, max)] && truncated == (|text| > max)
  {
    if |text| <= max { return text, false; }
    var end := max;
    if end > 0 {
      var lastUnit := text[end - 1];
      if 0xd800 <= lastUnit <= 0xdbff { end := end - 1; }
    }
    return text[..end], true;
  }

  /** The cut is at the bound, one earlier just where the unit before the bound is a high surrogate. */
  lemma CutExactly(text: seq<unit16>, max: nat)
    ensures var end := Bound(text, max);
      && (|text| <= max ==> end == |text|)
      && (|text| > max ==> end == max || end == max - 1)
      && (|text| > max ==> (end == max - 1 <==> max > 0 && text[max - 1] as int / 1024 == 54))
  {
    if |text| > max > 0 { SurrogatesAre(text[max - 1]); }
  }

  /**
   * The cut makes no lone surrogate: the body is well-formed exactly when none of the text's own lone surrogates is in
   * the part kept, so always for a well-formed text.
   */
  lemma CutMakesNoLone(text: seq<unit16>, max: nat)
    ensures var body := text[..Bound(text, max)];
      WellFormed(body) <==> forall i :: 0 <= i < |body| ==> !LoneAt(text, i)
  {
    var body := text[..Bound(text, max)];
    forall i | 0 <= i < |body|
      ensures LoneAt(body, i) <==> LoneAt(text, i)
    {
      assert i > 0 ==> body[i - 1] == text[i - 1];
      if i + 1 < |body| {
        assert body[i + 1] == text[i + 1];
      }
    }
  }

  /** Of a well-formed text, the body is the longest well-formed beginning within the bound. */
  lemma BodyIsLongest(text: seq<unit16>, max: nat, n: nat)
    requires WellFormed(text) && n <= |text| && n <= max && WellFormed(text[..n])
    ensures WellFormed(text[..Bound(text, max)]) && n <= Bound(text, max)
  {
    CutMakesNoLone(text, max);
    if n == max && n > 0 && |text| > max && IsHigh(text[max - 1]) {
      assert LoneAt(text[..n], n - 1);
    }
  }

  /** A text that is not well-formed can stay so: a lone high surrogate before the cut is kept. */
  lemma LoneIsKept()
    ensures !WellFormed([0xd800, 0x61, 0x62][..Bound([0xd800, 0x61, 0x62], 2)])
  {
    var text: seq<unit16> := [0xd800, 0x61, 0x62];
    assert text[..2][0] == 0xd800 && text[..2][1] == 0x61;
    assert LoneAt(text[..2], 0);
  }
}
