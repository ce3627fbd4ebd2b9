# Poster-session area

This project models the poster-session interactable area of a Covey.Town-style virtual town. The area is a rectangle on the town map. It tracks:

- the players currently inside it, as an ordered roster of player ids;
- a poster: an optional title, optional image contents and a star count.

It also broadcasts changes on the town emitter. The model follows the behaviour that the area's unit suite (`ip1/src/town/PosterSessionArea.test.ts`) asserts. The implementation file `PosterSessionArea.ts` is not part of this model, so every row below cites the assertion it meets.

The area is an immutable Dafny value (`PosterSessionArea.Area`):

- `id` and `boundingBox` are fixed at construction.
- `occupantsByID` lists the occupants in order of arrival.
- `title` and `imageContents` are `Option<string>`.
- `stars` is an `int`.
- `emitted` is an append-only log of everything broadcast on the town emitter. A broadcast is either a `playerMoved` event carrying the moved player or an `interactableUpdate` event carrying the area's snapshot `{id, stars, title, imageContents}`.

A player is reduced to its id and its location's `interactableID`. The operations are pure functions:

- `Add` and `Remove` return the new area together with the updated player.
- `UpdateModel` returns the new area.
- `ToModel` is a projection, so calling it cannot change the area.
- `FromMapObject` returns a `Result` that fails on a missing width or height.

Files:

- `Wrappers.dfy`: `Option` and `Result`.
- `Roster.dfy`: the roster's sequence operations. `Without` drops an id and keeps everyone else in order.
- `PosterSessionArea.dfy`: the data model, the emitter-log queries, the five operations and the lemmas relating them.
- `Occupancy.dfy`: replays arbitrary histories of arrivals and departures through `Add` and `Remove`. It compares the roster with an independent definition of who is present.
- `PosterSessionAreaSuite.dfy`: each scenario of the unit suite, stated over the model. The suite's random ids and its image file are parameters.

The suite reads both `playerMoved` and `interactableUpdate` from the emitter handed to the area (`interactableUpdate` at lines 34 and 45, `playerMoved` at lines 40 and 63). So the model puts both kinds of event in the area's single ordered log, not in a separate per-player log. In the same call, the player's move is broadcast before the area's snapshot.

## Model

| member | source | states |
|---|---|---|
| PosterSessionArea.Create | ip1/src/town/PosterSessionArea.test.ts:21 | A newly constructed area's snapshot is exactly the `{id, stars, title, imageContents}` it was built from. Its box is the given one, its roster is empty and it has broadcast nothing. |
| PosterSessionArea.Add | ip1/src/town/PosterSessionArea.test.ts:57-65 | The player's id becomes the last occupant after the earlier ones. The player keeps its id and its `interactableID` becomes the area's id. Exactly one `playerMoved` carrying that player is broadcast, so it is the last move seen. No `interactableUpdate` is sent and the poster and box are untouched. |
| PosterSessionArea.Remove | ip1/src/town/PosterSessionArea.test.ts:26-55 | Afterwards the roster holds exactly the earlier occupants other than the player. The player's `interactableID` is cleared. If someone remains, the snapshot is unchanged. If nobody remains, the snapshot is `{id, 0, none, none}`. A `playerMoved` and then exactly one `interactableUpdate` carrying the new snapshot are broadcast. The id and box never change. |
| PosterSessionArea.UpdateModel | ip1/src/town/PosterSessionArea.test.ts:76-91 | The new snapshot equals the given one except that the id stays the area's own. The roster, box and emitter log are unchanged. |
| PosterSessionArea.FromMapObject | ip1/src/town/PosterSessionArea.test.ts:92-118 | Fails (with the object's name) if and only if width or height is missing. Otherwise the box is `{x, y, width, height}` and the snapshot is `{name, 0, none, none}`. The roster is empty and nothing has been broadcast. |
| PosterSessionArea.LastUpdate | ip1/src/town/PosterSessionArea.test.ts:34 | The most recent `interactableUpdate` payload, looked up as the suite's `getLastEmittedEvent` does. The payload was broadcast and no later update follows it. It is absent exactly when no update was broadcast. |
| PosterSessionArea.LastMovement | ip1/src/town/PosterSessionArea.test.ts:40 | The most recent `playerMoved` payload. The player was broadcast and no later move follows it. It is absent exactly when no move was broadcast. |
| PosterSessionArea.UpdateModelWithOwnSnapshot | ip1/src/town/PosterSessionArea.test.ts:67-91 | Feeding `toModel`'s result back into `updateModel` gives back the same area, so the snapshot round-trips. |
| PosterSessionArea.UpdateModelIsIdempotent | ip1/src/town/PosterSessionArea.test.ts:81-90 | Applying the same update a second time changes nothing further. |
| PosterSessionArea.RemoveDeletesExactlyOne | ip1/src/town/PosterSessionArea.test.ts:29-33 | In a roster without repeats, removing the id at position i yields the roster with just that entry cut out, everyone else in order. |
| PosterSessionArea.AddThenRemove | ip1/src/town/PosterSessionArea.test.ts:23-41 | `remove` undoes `add` for a newcomer: the roster is restored and the player's location is cleared. While others remain, the snapshot is unchanged. |
| PosterSessionArea.OccupancyKeepsNoDuplicates | ip1/src/town/PosterSessionArea.test.ts:29-33 | Adding a newcomer and removing any player keep the roster free of repeated ids. |
| PosterSessionArea.UpdateModelIgnoresOccupancy | ip1/src/town/PosterSessionArea.test.ts:76-91 | `updateModel` sets a poster even on an empty area. The poster-clearing rule is enforced only by `remove`. |
| Roster.Without | ip1/src/town/PosterSessionArea.test.ts:31-33 | Removal from the roster: an id is in the result exactly when it was in the roster and is not the removed one. The result is strictly shorter when the id was present. |
| Roster.WithoutDeletesAt | ip1/src/town/PosterSessionArea.test.ts:31-33 | In a repeat-free roster, dropping the id at position i equals cutting out that position. |
| Roster.WithoutKeepsNoDuplicates | ip1/src/town/PosterSessionArea.test.ts:31-33 | Dropping an id never creates a repeated id. |
| Occupancy.ReplayMatchesPresent | ip1/src/town/PosterSessionArea.test.ts:23-33 | Over any history of arrivals and departures starting from an empty area, the roster equals the players whose arrival is not followed by their departure, in arrival order. |
| Occupancy.ReplayHasNoDuplicates | ip1/src/town/PosterSessionArea.test.ts:23-33 | If nobody arrives while already present, the replayed roster never holds an id twice. |
| Occupancy.ReplayUpdateCount | ip1/src/town/PosterSessionArea.test.ts:26-55 | Over any history, the number of `interactableUpdate` broadcasts grows by exactly the number of departures. |
| Occupancy.ReplayEmptyAfterDepartureHasNoPoster | ip1/src/town/PosterSessionArea.test.ts:43-54 | A history that ends with a departure leaving the area empty leaves no poster and zero stars. |
| Occupancy.ReplayKeepsId | ip1/src/town/PosterSessionArea.test.ts:45-51 | No sequence of arrivals and departures changes the area's id or bounding box. |
| PosterSessionAreaSuite.RemoveWithAnotherOccupant | ip1/src/town/PosterSessionArea.test.ts:27-36 | With players [p, extra], removing p leaves [extra] and broadcasts the unchanged poster `{id, 1, "Test Poster", image}`. |
| PosterSessionAreaSuite.RemoveClearsLocation | ip1/src/town/PosterSessionArea.test.ts:37-42 | After removal, the player's `interactableID` and that of the last broadcast move are both absent. |
| PosterSessionAreaSuite.RemoveLastOccupant | ip1/src/town/PosterSessionArea.test.ts:43-55 | When the sole occupant leaves, the broadcast snapshot is `{id, 0, none, none}`. The title and image are absent, stars is 0 and the id is kept. |
| PosterSessionAreaSuite.AddSetsLocation | ip1/src/town/PosterSessionArea.test.ts:57-66 | After `add`, the roster is [p], and the player's and the last broadcast move's `interactableID` is the area id. |
| PosterSessionAreaSuite.ToModelAfterConstruction | ip1/src/town/PosterSessionArea.test.ts:67-75 | The snapshot after construction and one arrival is the constructor's `{id, 1, "Test Poster", image}`. |
| PosterSessionAreaSuite.UpdateModelKeepsOwnId | ip1/src/town/PosterSessionArea.test.ts:76-91 | Updating with `{"spam", 2, new title, new image}` sets stars, title and image. The id stays the area's own. |
| PosterSessionAreaSuite.TwoPlayerSession | ip1/src/town/PosterSessionArea.test.ts:19-55 | Players A then B arrive. Removing A leaves [B] and broadcasts the unchanged poster. Removing B empties the roster and broadcasts `{id, 0, none, none}`, two snapshots in all. |
| PosterSessionAreaSuite.FromMapObjectWithoutSize | ip1/src/town/PosterSessionArea.test.ts:93-100 | A map object lacking width and height is refused. |
| PosterSessionAreaSuite.FromMapObjectComplete | ip1/src/town/PosterSessionArea.test.ts:101-117 | The map object `{x 30, y 20, width 10, height 20, name "name", id 10}` yields box `{30, 20, 10, 20}`, id "name", no poster, 0 stars and an empty roster. |

## Left out

- The Socket.IO town emitter and its mocking: broadcasts are entries in the area's `emitted` log, not messages on a transport.
- Clearing the emitter mock between scenarios: each scenario starts from a freshly built area whose log is empty.
- The `Player` class beyond its id and its location's `interactableID`: movement, user name and the other location fields.
- Random id generation and reading the poster image from disk: the ids and the image contents are parameters, and the image is an opaque string.
- Geometry: the bounding box is four integers, with no containment or collision logic. Coordinates and stars are unbounded integers rather than JavaScript numbers, which are floating point.
- Occupant identity: `add` and `remove` receive `Player` objects, and `occupantsByID` lists ids (lines 23-33). The model finds the player to remove by comparing ids by value. That is the model's own choice; the suite shows no comparison.
- Calling `remove` for a player who is not in the roster: no requirement is made of callers. The model drops every matching id (none in that case), clears the player's location, and broadcasts as usual.
- PosterSessionArea.FromMapObject: fails only on a missing width or height. The suite does not say whether a zero width or height is also refused, so the model accepts it.
- Stars defaulting to 0 when the constructor's record omits it: the model's snapshot always carries a star count.
