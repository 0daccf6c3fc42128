/** The ledger of finished work items. */
module Checkpoints {

  /** Items are namespaced by source. */
  datatype ItemKey = ItemKey(sourceRef: string, itemId: string)

  class InMemoryCheckpointer {
    var done: set<ItemKey>

    constructor ()
      ensures done == {}
    {
      done := {};
    }

    method HasSeen(sourceRef: string, itemId: string) returns (seen: bool)
      ensures seen <==> ItemKey(sourceRef, itemId) in done
    {
      seen := ItemKey(sourceRef, itemId) in done;
    }

    method MarkDone(sourceRef: string, itemId: string)
      modifies this
      ensures done == old(done) + {ItemKey(sourceRef, itemId)}
    {
      done := done + {ItemKey(sourceRef, itemId)};
    }
  }
}
