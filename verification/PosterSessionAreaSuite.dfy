/** The scenarios of the area's unit suite, stated over the model. The
    random ids and the poster image the suite uses are parameters here. */
module PosterSessionAreaSuite {
  import opened Wrappers
  import opened Roster
  import opened PosterSessionArea

  const SuiteBox := BoundingBox(100, 100, 100, 100)
  const SuiteTitle := "Test Poster"

  /** The area every scenario starts from: the suite's poster with stars 1,
      into which one player has just been added. */
  function Fixture(id: string, image: string, pid: PlayerID): Transition {
    var area := Create(PosterSessionAreaModel(id, 1, Some(SuiteTitle), Some(image)), SuiteBox);
    Add(area, Player(pid, None))
  }

  /** Removing the first of two occupants leaves the other one. The
      broadcast snapshot is the unchanged poster. */
  lemma RemoveWithAnotherOccupant(id: string, image: string, pid: PlayerID, extra: PlayerID)
    requires pid != extra
    ensures var start := Fixture(id, image, pid);
            var withExtra := Add(start.area, Player(extra, None));
            var r := Remove(withExtra.area, start.player);
            && r.area.occupantsByID == [extra]
            && LastUpdate(r.area.emitted)
               == Some(PosterSessionAreaModel(id, 1, Some(SuiteTitle), Some(image)))
  {
    var start := Fixture(id, image, pid);
    var withExtra := Add(start.area, Player(extra, None));
    assert withExtra.area.occupantsByID == [pid, extra];
    assert Without([pid, extra], pid) == [extra];
  }

  /** Removing a player clears its location's area reference, in the
      player and in the broadcast move. */
  lemma RemoveClearsLocation(id: string, image: string, pid: PlayerID)
    ensures var start := Fixture(id, image, pid);
            var r := Remove(start.area, start.player);
            && r.player.interactableID == None
            && LastMovement(r.area.emitted).Some?
            && LastMovement(r.area.emitted).value.interactableID == None
  {
  }

  /** When the only occupant leaves, the poster is cleared and the
      broadcast snapshot says so; the id stays. */
  lemma RemoveLastOccupant(id: string, image: string, pid: PlayerID)
    ensures var start := Fixture(id, image, pid);
            var r := Remove(start.area, start.player);
            && LastUpdate(r.area.emitted) == Some(PosterSessionAreaModel(id, 0, None, None))
            && r.area.title == None && r.area.imageContents == None && r.area.stars == 0
            && r.area.id == id
  {
    var start := Fixture(id, image, pid);
    assert Without([pid], pid) == [];
  }

  /** Adding puts the player on the roster and points its location, and
      the broadcast move, at the area. */
  lemma AddSetsLocation(id: string, image: string, pid: PlayerID)
    ensures var start := Fixture(id, image, pid);
            && start.area.occupantsByID == [pid]
            && start.player.interactableID == Some(id)
            && LastMovement(start.area.emitted).Some?
            && LastMovement(start.area.emitted).value.interactableID == Some(id)
  {
  }

  /** The snapshot of a freshly built area repeats the constructor's poster. */
  lemma ToModelAfterConstruction(id: string, image: string, pid: PlayerID)
    ensures ToModel(Fixture(id, image, pid).area)
            == PosterSessionAreaModel(id, 1, Some(SuiteTitle), Some(image))
  {
  }

  /** `updateModel` takes over stars, title and image but not the id. */
  lemma UpdateModelKeepsOwnId(id: string, image: string, pid: PlayerID)
    requires id != "spam"
    ensures var newModel := PosterSessionAreaModel(
              "spam", 2, Some("New Test Poster Title"), Some("random string not image"));
            var r := UpdateModel(Fixture(id, image, pid).area, newModel);
            && r.stars == 2 && r.id == id
            && r.title == Some("New Test Poster Title")
            && r.imageContents == Some("random string not image")
  {
  }

  /** A map object without width and height is refused. */
  lemma FromMapObjectWithoutSize(name: string)
    ensures FromMapObject(MapObject(1, name, true, 0, 0, None, None)).Failure?
  {
  }

  /** A complete map object yields an empty, poster-less area named after
      the object's `name`. */
  lemma FromMapObjectComplete()
    ensures var r := FromMapObject(MapObject(10, "name", true, 30, 20, Some(10), Some(20)));
            && r.Success?
            && r.value.boundingBox == BoundingBox(30, 20, 10, 20)
            && r.value.id == "name"
            && r.value.title == None && r.value.stars == 0 && r.value.imageContents == None
            && r.value.occupantsByID == []
  {
  }

  /** Two players arrive and leave in turn. While one remains, the poster
      stays and is re-broadcast unchanged. When the last one leaves, the
      cleared poster is broadcast. */
  lemma TwoPlayerSession(id: string, image: string, first: PlayerID, second: PlayerID)
    requires first != second
    ensures var start := Fixture(id, image, first);
            var both := Add(start.area, Player(second, None));
            var one := Remove(both.area, start.player);
            var none := Remove(one.area, both.player);
            && one.area.occupantsByID == [second]
            && LastUpdate(one.area.emitted)
               == Some(PosterSessionAreaModel(id, 1, Some(SuiteTitle), Some(image)))
            && none.area.occupantsByID == []
            && LastUpdate(none.area.emitted) == Some(NoPoster(id))
            && UpdateCount(none.area.emitted) == 2
  {
    var start := Fixture(id, image, first);
    var both := Add(start.area, Player(second, None));
    assert Without([first, second], first) == [second];
    assert Without([second], second) == [];
  }
}
