/** The per-subscription dedup cursor over durable row ids. */
module DeliveredCursor {
  import opened BoundedFifo

  /** A durable row id, as hex text. */
  datatype RowId = RowId(hex: string)

  class DeliveredInboundCursor {
    const capacity: nat
    var order: seq<RowId>
    var seen: set<RowId>

    ghost predicate Valid()
      reads this
    {
      && 0 < capacity && |order| <= capacity
      && (forall i, j :: 0 <= i < j < |order| ==> order[i] != order[j])
      && seen == set id | id in order
    }

    /** The ids the cursor remembers, oldest first. */
    ghost function Window(): (w: seq<Slot<RowId, ()>>)
      requires Valid()
      reads this
      ensures Wellformed(w, capacity)
    {
      Contents(order, map id | id in seen :: ())
    }

    constructor (requested: nat)
      ensures Valid() && Window() == []
      ensures capacity == if requested == 0 then 1 else requested
    {
      capacity := if requested == 0 then 1 else requested;
      order := [];
      seen := {};
    }

    predicate Contains(id: RowId)
      requires Valid()
      reads this
      ensures Contains(id) <==> HasKey(Window(), id)
    {
      ContentsKeys(order, map id | id in seen :: (), id);
      id in seen
    }

    /** One record is one step of the bounded FIFO. */
    method Record(id: RowId)
      requires Valid()
      modifies this
      ensures Valid()
      ensures Window() == Put(old(Window()), capacity, Slot(id, ()))
    {
      ghost var m := map k | k in seen :: ();
      ContentsKeys(order, m, id);
      if id in seen {
        return;
      }
      ghost var oldOrder := order;
      if |order| >= capacity && |order| > 0 {
        var evicted := order[0];
        order := order[1..];
        seen := seen - {evicted};
      }
      seen := seen + {id};
      order := order + [id];
      ghost var m' := (if |oldOrder| >= capacity && |oldOrder| > 0 then m - {oldOrder[0]} else m)[id := ()];
      RepresentsPut(oldOrder, m, capacity, id, (), order, m');
      assert m' == map k | k in seen :: ();
    }
  }
}
