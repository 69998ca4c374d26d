/** Lease tokens: whom a token works for, and that an ended lease never works again. */
module LeaseFencing {
  import opened WorkTypes
  import opened QueueModel
  import opened QueueInvariant
  import Lineages
  import QueueWrites

  /** A worker's call under a token. */
  predicate UsesToken(op: Op, id: nat, token: nat) {
    match op
    case OpHeartbeat(i, t, _, _) => i == id && t == token
    case OpComplete(i, t, _, _, _, _) => i == id && t == token
    case OpBlock(i, t, _, _) => i == id && t == token
    case OpRelease(i, t, _, _) => i == id && t == token
    case _ => false
  }

  lemma OnlyActiveTokensWork(s: State, op: Op, id: nat, token: nat)
    requires UsesToken(op, id, token) && Perform(s, op).Accepted?
    ensures Active(s, id, token)
  {
  }

  /**
   * Once a token that was drawn is not the live lease of an item, no later
   * heartbeat, completion, block, or release of the item with it succeeds.
   */
  lemma EndedLeaseStaysEnded(trace: seq<State>, ops: seq<Op>, i: nat, j: nat, id: nat, token: nat)
    requires Run(trace, ops) && i <= j < |trace|
    requires token < trace[i].tokens && !Active(trace[i], id, token)
    ensures !Active(trace[j], id, token)
    ensures forall op :: UsesToken(op, id, token) ==> Perform(trace[j], op).Refused?
  {
    hide Run;
    RunKeeps(trace, ops, i, j);
    forall op | UsesToken(op, id, token)
      ensures Perform(trace[j], op).Refused?
    {
      if Perform(trace[j], op).Accepted? {
        OnlyActiveTokensWork(trace[j], op, id, token);
      }
    }
  }

  /** An item whose lease this operation ends, if it commits. */
  predicate EndsLeaseOf(op: Op, id: nat) {
    match op
    case OpComplete(i, _, _, _, _, _) => i == id
    case OpBlock(i, _, _, _) => i == id
    case OpRelease(i, _, _, _) => i == id
    case OpReleaseLease(i, _, _, _) => i == id
    case OpClaim(q, choice) => choice == Some(id)
    case _ => false
  }

  lemma CompletionEnds(s: State, op: Op, id: nat, token: nat)
    requires op.OpComplete? && op.id == id && Perform(s, op).Accepted?
    ensures !Active(Perform(s, op).value, id, token)
  {
    hide AddFollowUps;
    Lineages.FollowUpsAreChildren(s, id, s.rows[id], op.followUps, op.worker);
  }

  /** A reclaim leaves the row under the token it draws, which is none drawn before. */
  lemma ReclaimEnds(s: State, op: Op, id: nat, token: nat)
    requires op.OpClaim? && op.choice == Some(id) && Perform(s, op).Accepted? && id < |s.rows| && token < s.tokens
    ensures !Active(Perform(s, op).value, id, token)
  {
    var t := Perform(s, op).value;
    assert t.rows[id].lease.value.token == s.tokens;
  }

  /** Completion, block, release, an operator's lease release, and a reclaim end every token drawn before. */
  lemma EndingsEnd(s: State, op: Op, id: nat, token: nat)
    requires Inv(s) && EndsLeaseOf(op, id) && Perform(s, op).Accepted? && token < s.tokens
    requires op.OpClaim? ==> id < |s.rows|
    ensures !Active(Perform(s, op).value, id, token)
  {
    hide Complete;
    if op.OpComplete? {
      CompletionEnds(s, op, id, token);
    } else if op.OpClaim? {
      ReclaimEnds(s, op, id, token);
    }
  }

  /** Over a whole run, a token is the live lease of one item only. */
  lemma TokenServesOneItem(trace: seq<State>, ops: seq<Op>, i: nat, j: nat, id: nat, other: nat, token: nat)
    requires Run(trace, ops) && i <= j < |trace|
    requires Active(trace[i], id, token) && Active(trace[j], other, token)
    ensures id == other
  {
    hide Run;
    RunKeeps(trace, ops, i, j);
    assert token < trace[i].tokens;
    assert Active(trace[i], other, token);
  }

  /** A claimed item's lease is live or lapsed, never both: what a worker may use, a claim may not take. */
  lemma LiveOrLapsed(trace: seq<State>, ops: seq<Op>, i: nat, id: nat)
    requires Run(trace, ops) && i < |trace| && id < |trace[i].rows| && trace[i].rows[id].stored == Claimed
    ensures trace[i].rows[id].lease.Some?
    ensures var live := Active(trace[i], id, trace[i].rows[id].lease.value.token);
            && (live <==> !Lapsed(trace[i].rows[id], trace[i].clock))
            && (live <==> !Available(trace[i].rows[id], trace[i].clock))
  {
    hide Run;
    RunKeeps(trace, ops, i, i);
    assert QueueWrites.RowShape(trace[i].rows[id]);
  }
}
