/** The claim order, and the winner of the gated and ungated candidates. */
module ClaimOrder {
  import opened WorkTypes
  import opened QueueModel

  /** A finite set of rows has one that no other precedes. */
  lemma {:induction false} SomethingIsFirst(rows: seq<Row>, ids: set<nat>)
    requires ids != {} && forall id :: id in ids ==> id < |rows|
    ensures exists first :: first in ids && forall id :: id in ids ==> !Precedes(rows[id], rows[first])
    decreases |ids|
  {
    var one :| one in ids;
    var rest := ids - {one};
    if rest == {} {
      forall id | id in ids ensures !Precedes(rows[id], rows[one]) {
        assert id !in rest;
      }
    } else {
      SomethingIsFirst(rows, rest);
      var first :| first in rest && forall id :: id in rest ==> !Precedes(rows[id], rows[first]);
      var winner := if Precedes(rows[one], rows[first]) then one else first;
      forall id | id in ids ensures !Precedes(rows[id], rows[winner]) {
      }
    }
  }

  /** The claim-order winner of two candidates, the lower id on a full tie. */
  function BetterCandidate(rows: seq<Row>, left: Option<nat>, right: Option<nat>): (best: Option<nat>)
    requires left.Some? ==> left.value < |rows|
    requires right.Some? ==> right.value < |rows|
    ensures best == left || best == right
    ensures left.Some? || right.Some? ==> best.Some?
    ensures left.Some? ==> !Precedes(rows[left.value], rows[best.value])
    ensures right.Some? ==> !Precedes(rows[right.value], rows[best.value])
  {
    if left.None? then right
    else if right.None? then left
    else
      var a, b := rows[left.value], rows[right.value];
      if b.priority != a.priority then (if b.priority > a.priority then right else left)
      else if a.def.createdAt != b.def.createdAt then (if a.def.createdAt < b.def.createdAt then left else right)
      else if left.value <= right.value then left
      else right
  }
}
