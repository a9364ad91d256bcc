/** The secondary broadcast after a view update: `Location.find({views: id})`
    and one `view-location:update` per location found. */
module FanOut {
  import opened Collection
  import opened Documents

  /** `Location.find({views: id})`: the locations whose `views` hold `id`,
      in natural order. */
  function Referencing(locs: seq<Location>, id: ViewId): (r: seq<Location>)
    ensures forall l :: l in r <==> l in locs && id in l.views
    ensures |r| <= |locs|
  {
    if |locs| == 0 then []
    else (if id in locs[0].views then [locs[0]] else []) + Referencing(locs[1..], id)
  }

  /** The query keeps each referencing location as often as it is stored and
      drops every other one. */
  lemma {:induction false} ReferencingMultiplicity(locs: seq<Location>, id: ViewId)
    ensures forall l :: multiset(Referencing(locs, id))[l] == if id in l.views then multiset(locs)[l] else 0
  {
    if |locs| > 0 {
      ReferencingMultiplicity(locs[1..], id);
      assert locs == [locs[0]] + locs[1..];
    }
  }

  /** The locations referencing `id`, as a set. */
  ghost function ReferencingSet(locs: seq<Location>, id: ViewId): set<Location>
  {
    set l | l in locs && id in l.views
  }

  /** The events the `forEach` over `found` emits, one per location. */
  function FanOutEvents(found: seq<Location>): (r: seq<Event>)
    ensures |r| == |found|
    ensures forall j :: 0 <= j < |r| ==> r[j].key == ViewLocationUpdate && r[j].payload == LocationDoc(found[j])
  {
    seq(|found|, j requires 0 <= j < |found| => Event(ViewLocationUpdate, LocationDoc(found[j])))
  }

  /** With location names unique, the fan-out emits exactly as many events as
      there are locations referencing the view; each names one of them and
      each of them is named. */
  lemma {:induction false} ReferencingCount(locs: seq<Location>, id: ViewId)
    requires UniqueKeys(locs, LocationName)
    ensures |FanOutEvents(Referencing(locs, id))| == |ReferencingSet(locs, id)|
  {
    if |locs| == 0 {
      assert ReferencingSet(locs, id) == {};
    } else {
      var h, t := locs[0], locs[1..];
      TailUnique(locs);
      ReferencingCount(t, id);
      HeadNotInTail(locs);
      var here: set<Location> := if id in h.views then {h} else {};
      SplitReferencingSet(locs, id);
      assert |here + ReferencingSet(t, id)| == |here| + |ReferencingSet(t, id)|;
      assert Referencing(locs, id) == (if id in h.views then [h] else []) + Referencing(t, id);
    }
  }

  lemma TailUnique(locs: seq<Location>)
    requires |locs| > 0 && UniqueKeys(locs, LocationName)
    ensures UniqueKeys(locs[1..], LocationName)
  {
    var t := locs[1..];
    forall i, j | 0 <= i < |t| && 0 <= j < |t| && i != j
      ensures LocationName(t[i]) != LocationName(t[j])
    {
      assert t[i] == locs[i + 1] && t[j] == locs[j + 1];
    }
  }

  lemma HeadNotInTail(locs: seq<Location>)
    requires |locs| > 0 && UniqueKeys(locs, LocationName)
    ensures locs[0] !in locs[1..]
  {
  }

  lemma SplitReferencingSet(locs: seq<Location>, id: ViewId)
    requires |locs| > 0
    ensures ReferencingSet(locs, id)
         == (if id in locs[0].views then {locs[0]} else {}) + ReferencingSet(locs[1..], id)
  {
    assert locs == [locs[0]] + locs[1..];
  }
}
