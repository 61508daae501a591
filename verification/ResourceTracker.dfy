/** Which templates are interested in which secrets. */
module ResourceTracker {
  import opened Kube
  import opened Sequences

  function SetOf(s: seq<Key>): (r: set<Key>)
    ensures forall x :: x in r <==> x in s
  {
    set x | x in s
  }

  class Tracker {
    var tracker: map<Key, set<Key>>

    constructor ()
      ensures tracker == map[]
    {
      tracker := map[];
    }

    /** Adds to what is tracked already. */
    method Track(tracking: Key, tracked: seq<Key>)
      modifies this
      ensures tracker == old(tracker)[tracking :=
                (if tracking in old(tracker) then old(tracker)[tracking] else {}) + SetOf(tracked)]
    {
      var found := if tracking in tracker then tracker[tracking] else {};
      var all := found;
      for i := 0 to |tracked|
        invariant all == found + SetOf(tracked[..i])
      {
        assert tracked[..i + 1] == tracked[..i] + [tracked[i]];
        all := all + {tracked[i]};
      }
      assert tracked[..|tracked|] == tracked;
      tracker := tracker[tracking := all];
    }

    method UntrackAll(tracking: Key)
      modifies this
      ensures tracker == old(tracker) - {tracking}
    {
      tracker := tracker - {tracking};
    }

    /** Each object that tracks `tracked`, once, in the order the map is walked. */
    method GetTracking(tracked: Key) returns (list: seq<Key>)
      ensures NoDup(list)
      ensures forall t :: t in list <==> t in tracker && tracked in tracker[t]
    {
      list := [];
      var keys := tracker.Keys;
      while keys != {}
        invariant keys <= tracker.Keys && NoDup(list)
        invariant forall t :: t in list <==> t in tracker && t !in keys && tracked in tracker[t]
        decreases |keys|
      {
        var t :| t in keys;
        keys := keys - {t};
        if tracked in tracker[t] {
          list := list + [t];
        }
      }
    }
  }
}
