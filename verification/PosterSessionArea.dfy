/** The poster-session interactable area of a town: a rectangle that keeps
    an ordered roster of the players inside it and a poster (title, image,
    star count) that disappears once the last occupant leaves.

    The area is an immutable value. Each operation returns the new area,
    and, for `add`/`remove`, the player whose location changed. What the
    area broadcasts on the town emitter is appended to the area's `emitted`
    log, so the broadcasts can be stated alongside the state changes. */
module PosterSessionArea {
  import opened Wrappers
  import opened Roster

  /** Position and size of the area in town coordinates; fixed at construction. */
  datatype BoundingBox = BoundingBox(x: int, y: int, width: int, height: int)

  /** The externally visible poster snapshot `{id, stars, title, imageContents}`:
      what `toModel` returns, what `updateModel` takes and what an
      `interactableUpdate` broadcast carries. */
  datatype PosterSessionAreaModel = PosterSessionAreaModel(
    id: string,
    stars: int,
    title: Option<string>,
    imageContents: Option<string>)

  /** The part of a player an area touches: its id and the `interactableID`
      of its location (`None` when the player stands in no area). */
  datatype Player = Player(id: PlayerID, interactableID: Option<string>)

  /** A broadcast on the town emitter. `PlayerMoved` carries the moved
      player's model; `InteractableUpdate` carries the area's snapshot. */
  datatype TownEvent =
    | PlayerMoved(player: Player)
    | InteractableUpdate(model: PosterSessionAreaModel)

  /** A poster-session area. `id` and `boundingBox` never change;
      `occupantsByID` lists the occupants in arrival order; `emitted` is
      everything the area has broadcast, oldest first. */
  datatype Area = Area(
    id: string,
    boundingBox: BoundingBox,
    occupantsByID: seq<PlayerID>,
    title: Option<string>,
    imageContents: Option<string>,
    stars: int,
    emitted: seq<TownEvent>)

  /** What `add` and `remove` produce: the new area and the moved player. */
  datatype Transition = Transition(area: Area, player: Player)

  /** A poster-session object of the town map. `id` is the map's numeric
      object id; `width` and `height` may be missing from the map file. */
  datatype MapObject = MapObject(
    id: int,
    name: string,
    visible: bool,
    x: int,
    y: int,
    width: Option<int>,
    height: Option<int>)

  /** The one error the area reports: a map object it cannot build from. */
  datatype ConstructionError = MalformedArea(name: string)

  /** The snapshot of an area with no poster. */
  function NoPoster(id: string): PosterSessionAreaModel {
    PosterSessionAreaModel(id, 0, None, None)
  }

  // ---------------------------------------------------------------------
  // Reading the emitter log, as the suite's `getLastEmittedEvent` does

  /** The payload of the most recent `interactableUpdate`, if any: no
      update follows the one it returns. */
  function LastUpdate(log: seq<TownEvent>): (r: Option<PosterSessionAreaModel>)
    ensures r.Some? ==> exists i :: 0 <= i < |log| && log[i] == InteractableUpdate(r.value)
                          && forall j :: i < j < |log| ==> !log[j].InteractableUpdate?
    ensures r.None? <==> forall i :: 0 <= i < |log| ==> !log[i].InteractableUpdate?
    decreases |log|
  {
    if |log| == 0 then None
    else match log[|log| - 1]
      case InteractableUpdate(m) => Some(m)
      case PlayerMoved(_) => LastUpdate(log[..|log| - 1])
  }

  /** The player carried by the most recent `playerMoved`, if any: no
      move follows the one it returns. */
  function LastMovement(log: seq<TownEvent>): (r: Option<Player>)
    ensures r.Some? ==> exists i :: 0 <= i < |log| && log[i] == PlayerMoved(r.value)
                          && forall j :: i < j < |log| ==> !log[j].PlayerMoved?
    ensures r.None? <==> forall i :: 0 <= i < |log| ==> !log[i].PlayerMoved?
    decreases |log|
  {
    if |log| == 0 then None
    else match log[|log| - 1]
      case PlayerMoved(p) => Some(p)
      case InteractableUpdate(_) => LastMovement(log[..|log| - 1])
  }

  /** How many `interactableUpdate` broadcasts the log holds. */
  function UpdateCount(log: seq<TownEvent>): (n: nat)
    ensures n <= |log|
    ensures n == 0 <==> LastUpdate(log).None?
    decreases |log|
  {
    if |log| == 0 then 0
    else (if log[|log| - 1].InteractableUpdate? then 1 else 0) + UpdateCount(log[..|log| - 1])
  }

  /** How many `playerMoved` broadcasts the log holds. */
  function MovementCount(log: seq<TownEvent>): (n: nat)
    ensures n + UpdateCount(log) == |log|
    decreases |log|
  {
    if |log| == 0 then 0
    else (if log[|log| - 1].PlayerMoved? then 1 else 0) + MovementCount(log[..|log| - 1])
  }

  // ---------------------------------------------------------------------
  // Construction

  /** `toModel`: the area's poster snapshot. It reads nothing but the
      area, so calling it has no effect on the area. */
  function ToModel(a: Area): PosterSessionAreaModel {
    PosterSessionAreaModel(a.id, a.stars, a.title, a.imageContents)
  }

  /** The constructor: an area showing the given poster inside `box`, with
      nobody in it and nothing broadcast yet. */
  function Create(model: PosterSessionAreaModel, box: BoundingBox): (a: Area)
    ensures ToModel(a) == model
    ensures a.boundingBox == box
    ensures a.occupantsByID == [] && a.emitted == []
  {
    Area(model.id, box, [], model.title, model.imageContents, model.stars, [])
  }

  /** `fromMapObject`: fails when the map object lacks a width or a height;
      otherwise builds an empty area without a poster, named after the
      map object's `name` (its numeric id plays no part). */
  function FromMapObject(obj: MapObject): (r: Result<Area, ConstructionError>)
    ensures r.Failure? <==> obj.width.None? || obj.height.None?
    ensures r.Failure? ==> r.error == MalformedArea(obj.name)
    ensures r.Success? ==>
      && r.value.boundingBox == BoundingBox(obj.x, obj.y, obj.width.value, obj.height.value)
      && ToModel(r.value) == NoPoster(obj.name)
      && r.value.occupantsByID == []
      && r.value.emitted == []
  {
    if obj.width.None? || obj.height.None? then
      Failure(MalformedArea(obj.name))
    else
      var box := BoundingBox(obj.x, obj.y, obj.width.value, obj.height.value);
      Success(Create(NoPoster(obj.name), box))
  }

  // ---------------------------------------------------------------------
  // Occupancy

  /** `add`: the player becomes the newest occupant, its location now names
      this area, and the move is broadcast. The poster is left alone and no
      `interactableUpdate` is sent. */
  function Add(a: Area, p: Player): (r: Transition)
    ensures r.area.occupantsByID == a.occupantsByID + [p.id]
    ensures r.player.id == p.id && r.player.interactableID == Some(a.id)
    ensures ToModel(r.area) == ToModel(a) && r.area.boundingBox == a.boundingBox
    ensures r.area.emitted == a.emitted + [PlayerMoved(r.player)]
    ensures LastMovement(r.area.emitted) == Some(r.player)
    ensures LastUpdate(r.area.emitted) == LastUpdate(a.emitted)
    ensures UpdateCount(r.area.emitted) == UpdateCount(a.emitted)
  {
    var moved := p.(interactableID := Some(a.id));
    var log := a.emitted + [PlayerMoved(moved)];
    assert log[..|log| - 1] == a.emitted;
    Transition(a.(occupantsByID := a.occupantsByID + [p.id], emitted := log), moved)
  }

  /** `remove`: the player's id leaves the roster (everyone else keeps
      their place), its location no longer names an area and the move is
      broadcast. If nobody is left the poster is taken down. Either way the
      area then broadcasts its snapshot exactly once. */
  function Remove(a: Area, p: Player): (r: Transition)
    ensures forall x :: x in r.area.occupantsByID <==> x in a.occupantsByID && x != p.id
    ensures r.area.id == a.id && r.area.boundingBox == a.boundingBox
    ensures r.player.id == p.id && r.player.interactableID == None
    ensures |r.area.occupantsByID| > 0 ==> ToModel(r.area) == ToModel(a)
    ensures |r.area.occupantsByID| == 0 ==> ToModel(r.area) == NoPoster(a.id)
    ensures r.area.emitted == a.emitted + [PlayerMoved(r.player), InteractableUpdate(ToModel(r.area))]
    ensures LastUpdate(r.area.emitted) == Some(ToModel(r.area))
    ensures LastMovement(r.area.emitted) == Some(r.player)
    ensures UpdateCount(r.area.emitted) == UpdateCount(a.emitted) + 1
    ensures MovementCount(r.area.emitted) == MovementCount(a.emitted) + 1
  {
    var moved := p.(interactableID := None);
    var left := a.(occupantsByID := Without(a.occupantsByID, p.id),
                   emitted := a.emitted + [PlayerMoved(moved)]);
    var settled :=
      if |left.occupantsByID| == 0 then left.(title := None, imageContents := None, stars := 0)
      else left;
    var log := settled.emitted + [InteractableUpdate(ToModel(settled))];
    assert log[..|log| - 1] == settled.emitted;
    assert settled.emitted[..|settled.emitted| - 1] == a.emitted;
    Transition(settled.(emitted := log), moved)
  }

  // ---------------------------------------------------------------------
  // Poster updates

  /** `updateModel`: adopts the snapshot's stars, title and image; the
      area's own id, box and roster stay as they are, and nothing is
      broadcast. */
  function UpdateModel(a: Area, m: PosterSessionAreaModel): (r: Area)
    ensures ToModel(r) == m.(id := a.id)
    ensures r.boundingBox == a.boundingBox && r.occupantsByID == a.occupantsByID
    ensures r.emitted == a.emitted
  {
    a.(stars := m.stars, title := m.title, imageContents := m.imageContents)
  }

  // ---------------------------------------------------------------------
  // Relations between the operations

  /** An area is determined by its snapshot plus the parts `updateModel`
      never touches: writing back what `toModel` read is a no-op. */
  lemma UpdateModelWithOwnSnapshot(a: Area)
    ensures UpdateModel(a, ToModel(a)) == a
  {
  }

  /** A second identical `updateModel` changes nothing further. */
  lemma UpdateModelIsIdempotent(a: Area, m: PosterSessionAreaModel)
    ensures UpdateModel(UpdateModel(a, m), m) == UpdateModel(a, m)
  {
  }

  /** In a roster without repeats, `remove` deletes exactly the one entry
      holding the player's id and keeps the others in order. */
  lemma {:induction false} RemoveDeletesExactlyOne(a: Area, p: Player, i: nat)
    requires NoDuplicates(a.occupantsByID)
    requires i < |a.occupantsByID| && a.occupantsByID[i] == p.id
    ensures Remove(a, p).area.occupantsByID == a.occupantsByID[..i] + a.occupantsByID[i + 1..]
  {
    WithoutDeletesAt(a.occupantsByID, i);
  }

  /** `add` followed by `remove` of a newcomer gives back the roster and
      the player's location as they were, and broadcasts the snapshot. */
  lemma {:induction false} AddThenRemove(a: Area, p: Player)
    requires p.id !in a.occupantsByID
    ensures var added := Add(a, p);
            var removed := Remove(added.area, added.player);
            && removed.area.occupantsByID == a.occupantsByID
            && removed.player == p.(interactableID := None)
            && (|a.occupantsByID| > 0 ==> ToModel(removed.area) == ToModel(a))
  {
    var added := Add(a, p);
    WithoutConcat(a.occupantsByID, [p.id], p.id);
    WithoutAbsent(a.occupantsByID, p.id);
    assert Without([p.id], p.id) == [];
  }

  /** Adding a newcomer and removing anyone keep the roster repeat-free. */
  lemma {:induction false} OccupancyKeepsNoDuplicates(a: Area, p: Player, q: Player)
    requires NoDuplicates(a.occupantsByID)
    requires p.id !in a.occupantsByID
    ensures NoDuplicates(Add(a, p).area.occupantsByID)
    ensures NoDuplicates(Remove(a, q).area.occupantsByID)
  {
    AppendKeepsNoDuplicates(a.occupantsByID, p.id);
    WithoutKeepsNoDuplicates(a.occupantsByID, q.id);
  }

  /** Only `remove` takes a poster down when the area empties:
      `updateModel` can put a poster on an area that nobody occupies. */
  lemma UpdateModelIgnoresOccupancy(a: Area, title: string)
    requires a.occupantsByID == []
    ensures var r := UpdateModel(a, PosterSessionAreaModel(a.id, 1, Some(title), None));
            r.occupantsByID == [] && r.title == Some(title) && r.stars == 1
  {
  }
}
