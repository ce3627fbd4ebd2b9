/** Long-run behaviour of an area's roster. A history of arrivals and
    departures is replayed through `add`/`remove`. The result is compared
    with an independent description of who is present: the players whose
    arrival is not followed by a departure, in order of arrival. */
module Occupancy {
  import opened Wrappers
  import opened Roster
  import opened PosterSessionArea

  /** One membership change, as the town's movement handling reports it. */
  datatype Visit = Enter(playerID: PlayerID) | Leave(playerID: PlayerID)

  /** Applies one visit to the area. An arriving player comes from no area.
      A leaving player is located in this one. */
  function Apply(a: Area, v: Visit): Area {
    match v
    case Enter(pid) => Add(a, Player(pid, None)).area
    case Leave(pid) => Remove(a, Player(pid, Some(a.id))).area
  }

  /** Applies the visits in order, oldest first. */
  function Replay(a: Area, visits: seq<Visit>): Area
    decreases |visits|
  {
    if |visits| == 0 then a
    else Apply(Replay(a, visits[..|visits| - 1]), visits[|visits| - 1])
  }

  /** The players present after `visits`, listed at each arrival that no
      departure of theirs follows, in order of arrival. */
  function Present(visits: seq<Visit>): seq<PlayerID>
    decreases |visits|
  {
    if |visits| == 0 then []
    else match visits[0]
      case Enter(pid) =>
        (if Leave(pid) in visits[1..] then [] else [pid]) + Present(visits[1..])
      case Leave(_) => Present(visits[1..])
  }

  /** Nobody arrives while already present. */
  predicate ArrivalsAreFresh(visits: seq<Visit>) {
    forall i :: 0 <= i < |visits| && visits[i].Enter? ==>
      visits[i].playerID !in Present(visits[..i])
  }

  /** How many departures the history holds. */
  function Departures(visits: seq<Visit>): nat
    decreases |visits|
  {
    if |visits| == 0 then 0
    else (if visits[|visits| - 1].Leave? then 1 else 0) + Departures(visits[..|visits| - 1])
  }

  /** A later arrival joins the end of the present players. */
  lemma {:induction false} PresentAfterEnter(visits: seq<Visit>, pid: PlayerID)
    ensures Present(visits + [Enter(pid)]) == Present(visits) + [pid]
    decreases |visits|
  {
    if |visits| > 0 {
      var rest := visits[1..];
      assert (visits + [Enter(pid)])[0] == visits[0];
      assert (visits + [Enter(pid)])[1..] == rest + [Enter(pid)];
      PresentAfterEnter(rest, pid);
      if visits[0].Enter? {
        var q := visits[0].playerID;
        assert Leave(q) in rest + [Enter(pid)] <==> Leave(q) in rest;
      }
    }
  }

  /** A later departure drops that player from the present ones. */
  lemma {:induction false} PresentAfterLeave(visits: seq<Visit>, pid: PlayerID)
    ensures Present(visits + [Leave(pid)]) == Without(Present(visits), pid)
    decreases |visits|
  {
    if |visits| > 0 {
      var rest := visits[1..];
      assert (visits + [Leave(pid)])[0] == visits[0];
      assert (visits + [Leave(pid)])[1..] == rest + [Leave(pid)];
      PresentAfterLeave(rest, pid);
      if visits[0].Enter? {
        var q := visits[0].playerID;
        var head := if Leave(q) in rest then [] else [q];
        WithoutConcat(head, Present(rest), pid);
        if q == pid {
          assert Leave(q) in rest + [Leave(pid)];
          assert Without(head, pid) == [];
        } else {
          assert Leave(q) in rest + [Leave(pid)] <==> Leave(q) in rest;
          WithoutAbsent(head, pid);
        }
      }
    }
  }

  /** Starting from an empty area, the replayed roster is exactly the
      players present, in arrival order. */
  lemma {:induction false} ReplayMatchesPresent(a: Area, visits: seq<Visit>)
    requires a.occupantsByID == []
    ensures Replay(a, visits).occupantsByID == Present(visits)
    decreases |visits|
  {
    if |visits| > 0 {
      var prefix := visits[..|visits| - 1];
      var last := visits[|visits| - 1];
      assert visits == prefix + [last];
      ReplayMatchesPresent(a, prefix);
      match last
      case Enter(pid) => PresentAfterEnter(prefix, pid);
      case Leave(pid) => PresentAfterLeave(prefix, pid);
    }
  }

  /** When nobody arrives twice, the replayed roster never holds an id twice. */
  lemma {:induction false} ReplayHasNoDuplicates(a: Area, visits: seq<Visit>)
    requires a.occupantsByID == []
    requires ArrivalsAreFresh(visits)
    ensures NoDuplicates(Replay(a, visits).occupantsByID)
    decreases |visits|
  {
    if |visits| > 0 {
      var prefix := visits[..|visits| - 1];
      var last := visits[|visits| - 1];
      assert ArrivalsAreFresh(prefix) by {
        forall i | 0 <= i < |prefix| && prefix[i].Enter?
          ensures prefix[i].playerID !in Present(prefix[..i])
        {
          assert prefix[..i] == visits[..i];
        }
      }
      ReplayHasNoDuplicates(a, prefix);
      ReplayMatchesPresent(a, prefix);
      var before := Replay(a, prefix);
      assert visits[..|visits| - 1] == prefix;
      match last
      case Enter(pid) =>
        OccupancyKeepsNoDuplicates(before, Player(pid, None), Player(pid, None));
      case Leave(pid) =>
        WithoutKeepsNoDuplicates(before.occupantsByID, pid);
    }
  }

  /** Every departure broadcasts exactly one snapshot; arrivals broadcast none. */
  lemma {:induction false} ReplayUpdateCount(a: Area, visits: seq<Visit>)
    ensures UpdateCount(Replay(a, visits).emitted) == UpdateCount(a.emitted) + Departures(visits)
    decreases |visits|
  {
    if |visits| > 0 {
      ReplayUpdateCount(a, visits[..|visits| - 1]);
    }
  }

  /** When a history's last departure leaves the area empty, no poster
      remains. */
  lemma {:induction false} ReplayEmptyAfterDepartureHasNoPoster(a: Area, visits: seq<Visit>)
    requires |visits| > 0 && visits[|visits| - 1].Leave?
    ensures Replay(a, visits).occupantsByID == [] ==> ToModel(Replay(a, visits)) == NoPoster(a.id)
  {
    var prefix := visits[..|visits| - 1];
    ReplayKeepsId(a, prefix);
  }

  /** No visit changes the area's id or bounding box. */
  lemma {:induction false} ReplayKeepsId(a: Area, visits: seq<Visit>)
    ensures Replay(a, visits).id == a.id && Replay(a, visits).boundingBox == a.boundingBox
    decreases |visits|
  {
    if |visits| > 0 {
      ReplayKeepsId(a, visits[..|visits| - 1]);
    }
  }
}
