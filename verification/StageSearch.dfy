/** "The first stage with room in this order": what every scheduler's search loop looks for. */
module StageSearch {
  import opened Assignments

  /** The position of the first stage of `order` that has room, or the length of `order`. */
  function FirstRoom(max: seq<nat>, slots: seq<nat>, order: seq<nat>): (k: nat)
    ensures k <= |order|
    ensures k < |order| ==> Room(max, slots, order[k])
    ensures forall j | 0 <= j < k :: !Room(max, slots, order[j])
  {
    if order == [] || Room(max, slots, order[0]) then 0 else 1 + FirstRoom(max, slots, order[1..])
  }

  /** A position is the first with room if it has room and none before it has. */
  lemma FirstRoomUnique(max: seq<nat>, slots: seq<nat>, order: seq<nat>, k: nat)
    requires k < |order| && Room(max, slots, order[k])
    requires forall j | 0 <= j < k :: !Room(max, slots, order[j])
    ensures FirstRoom(max, slots, order) == k
  {
    var f := FirstRoom(max, slots, order);
    assert f >= k;
    assert f <= k;
  }
}
