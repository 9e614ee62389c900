/**
 * Transform steps (sohara-runtime/src/executor.rs): the retry loop of one
 * record, and the turns of a run, one for each record a transform was run on.
 */
module Turns {
  import opened Json
  import opened Payload
  import opened Flow

  datatype Outcome = Pass(record: Record) | Filtered | Expand(records: seq<Record>) | Failed

  /** What a transform answers on its n-th call: any behaviour, also one that depends on earlier calls. */
  type Behaviour = (string, nat, Record) -> Outcome

  function RetryLimit(policy: Policy): nat { if policy.Retry? then policy.max else 0 }

  /** The outcome a step settles on: the first success, or the failure after the last retry. */
  function Settled(transform: Behaviour, id: string, call: nat, record: Record, retries: nat): Outcome
    decreases retries
  {
    var outcome := transform(id, call, record);
    if outcome.Failed? && retries > 0 then Settled(transform, id, call + 1, record, retries - 1) else outcome
  }

  /** How many calls that takes. */
  function Tries(transform: Behaviour, id: string, call: nat, record: Record, retries: nat): (n: nat)
    ensures 1 <= n <= retries + 1
    decreases retries
  {
    if transform(id, call, record).Failed? && retries > 0
    then 1 + Tries(transform, id, call + 1, record, retries - 1)
    else 1
  }

  /** A step gives up only after using up its retries, and every call before the last failed. */
  lemma {:induction false} TriesFailed(transform: Behaviour, id: string, call: nat, record: Record, retries: nat)
    ensures var n := Tries(transform, id, call, record, retries);
            && Settled(transform, id, call, record, retries) == transform(id, call + n - 1, record)
            && (forall i :: call <= i < call + n - 1 ==> transform(id, i, record).Failed?)
            && (Settled(transform, id, call, record, retries).Failed? ==> n == retries + 1)
    decreases retries
  {
    if transform(id, call, record).Failed? && retries > 0 {
      TriesFailed(transform, id, call + 1, record, retries - 1);
    }
  }

  // ---------- the turns of a run ----------

  /** A record that a transform node was run on until it settled. */
  datatype Turn = Turn(node: Node, record: Record)

  /** The calls that a sequence of turns takes. */
  function CallsOf(transform: Behaviour, turns: seq<Turn>): nat {
    if turns == [] then 0
    else
      var k := |turns| - 1;
      CallsOf(transform, turns[..k]) + TriesOf(transform, CallsOf(transform, turns[..k]), turns[k])
  }

  function TriesOf(transform: Behaviour, call: nat, turn: Turn): nat {
    Tries(transform, turn.node.id, call, turn.record, RetryLimit(turn.node.policy))
  }

  function OutcomeOf(transform: Behaviour, call: nat, turn: Turn): Outcome {
    Settled(transform, turn.node.id, call, turn.record, RetryLimit(turn.node.policy))
  }

  /**
   * A turn ends with the first call that does not fail, or with the last one
   * its policy allows: one, or with retries as many more.
   */
  lemma RetriesAre(transform: Behaviour, call: nat, turn: Turn)
    ensures var n, most := TriesOf(transform, call, turn),
                           if turn.node.policy.Retry? then turn.node.policy.max + 1 else 1;
            && 1 <= n <= most
            && OutcomeOf(transform, call, turn) == transform(turn.node.id, call + n - 1, turn.record)
            && (forall i :: call <= i < call + n - 1 ==> transform(turn.node.id, i, turn.record).Failed?)
            && (OutcomeOf(transform, call, turn).Failed? ==> n == most)
  {
    TriesFailed(transform, turn.node.id, call, turn.record, RetryLimit(turn.node.policy));
  }

  /** What the i-th turn settled on. */
  function SettledAt(transform: Behaviour, turns: seq<Turn>, i: nat): Outcome
    requires i < |turns|
  {
    OutcomeOf(transform, CallsOf(transform, turns[..i]), turns[i])
  }

  /** A failure that is not to be continued after. */
  predicate Stops(node: Node, outcome: Outcome) { outcome.Failed? && !node.policy.Continue? }

  /** The last turn failed, and its policy is not to continue. */
  predicate Halted(transform: Behaviour, turns: seq<Turn>) {
    turns != [] && Stops(turns[|turns| - 1].node, SettledAt(transform, turns, |turns| - 1))
  }

  /** No turn but the last can have stopped the run. */
  ghost predicate OnlyLastStops(transform: Behaviour, turns: seq<Turn>) {
    forall i :: 0 <= i < |turns| - 1 ==> !Stops(turns[i].node, SettledAt(transform, turns, i))
  }

  /** How many turns ended with the record filtered out. */
  function FilteredOf(transform: Behaviour, turns: seq<Turn>): nat {
    if turns == [] then 0
    else
      var k := |turns| - 1;
      FilteredOf(transform, turns[..k]) + if SettledAt(transform, turns, k).Filtered? then 1 else 0
  }

  lemma NextTurn(transform: Behaviour, turns: seq<Turn>, turn: Turn)
    requires OnlyLastStops(transform, turns) && !Halted(transform, turns)
    ensures OnlyLastStops(transform, turns + [turn])
    ensures var call := CallsOf(transform, turns);
            var outcome := OutcomeOf(transform, call, turn);
            && CallsOf(transform, turns + [turn]) == call + TriesOf(transform, call, turn)
            && (Halted(transform, turns + [turn]) <==> Stops(turn.node, outcome))
            && FilteredOf(transform, turns + [turn]) ==
                 FilteredOf(transform, turns) + if outcome.Filtered? then 1 else 0
  {
    var longer := turns + [turn];
    assert longer[..|turns|] == turns;
    forall i | 0 <= i < |turns| ensures !Stops(longer[i].node, SettledAt(transform, longer, i)) {
      assert longer[..i] == turns[..i];
    }
  }
}
