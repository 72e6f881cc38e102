# Tunnel placement linking (shapez.io `underground_belt.js`)

This project models, in Dafny, the placement-time logic of shapez.io's
"Tunnel" building (the underground belt). A tunnel is a pair of pieces.
The entrance, the *sender*, swallows items. The exit, the *receiver*, emits
them, and items pass underneath whatever lies between the two.

When a piece is placed, the **connection resolver**
(`computeOptimalDirectionAndRotationVariantAtTile`) walks outward from the
tile along the facing direction for at most `undergroundBeltMaxTiles` tiles:

- Empty tiles, ordinary buildings and tunnels facing any other way are
  skipped.
- The first tunnel that faces straight back (rotation `(rotation + 180) % 360`)
  decides the outcome. If it is a sender, the new piece becomes its receiver:
  variant 1, facing the sender, with the sender as the only connected entity.
  If it is a receiver, the search stops.
- A stopped or exhausted search leaves the piece an unlinked sender: the
  original rotation and variant 0.

The **variant applier** (`updateRotationVariant`) then overwrites the
entity's sprite key, its tunnel mode and its acceptor/ejector slot lists.
A sender gets one acceptor slot at (0, 0) accepting from the bottom and no
ejector slot. A receiver gets one ejector slot at (0, 0) emitting to the top
and no acceptor slot. Any variant other than 0 or 1 fails an assertion.

Files:

- `grid.dfy` (module `Grid`): tile vectors and directions. It also holds the
  angles {0, 90, 180, 270} and the angle/direction/vector tables, which are
  taken as a parameter (`Tables`) with no assumed entries. `Probe` gives the
  tile after k steps.
- `underground_belt.dfy` (module `UndergroundBelt`) holds:
  - the mode table, the sprite selectors and the two placement flags
    (`FLIP_ORIENTATION_AFTER_PLACEMENT` and `STAY_IN_PLACEMENT_MODE`, both true);
  - the resolver, both as the recursive specification `Scan`/`Resolve` and
    as the `for`-loop method proved equal to it;
  - the applier, both as the value-level `ApplyVariant` and as the class
    `TunnelEntity`, whose method `UpdateRotationVariant` mutates the fields.
- `underground_belt_proofs.dfy` (module `UndergroundBeltProofs`): the
  properties of the resolver and the applier.
- `wrappers.dfy` (module `Wrappers`): `Option`, `Result`, `Outcome`.

The tile map is a `map<Vec, Occupant>`; a tile that is not a key is empty.
An occupant is a `Building` or a `Tunnel` with its rotation in degrees and
its mode, and each carries its entity uid, so a returned partner can be
identified. The maximum tunnel length is the `nat` parameter `maxTiles`.

## Model

| member | source | states |
|---|---|---|
| `UndergroundBelt.VariantToMode` | src/js/game/buildings/underground_belt.js:13-16 | The variant table is defined exactly on indices 0 and 1; any other index yields no mode. |
| `UndergroundBeltProofs.VariantModeRoundTrip` | src/js/game/buildings/underground_belt.js:13-16 | Index 0 is sender and 1 is receiver, and the table and its inverse undo each other. |
| `UndergroundBelt.SpriteFor` | src/js/game/buildings/underground_belt.js:43-63 | The entry asset is selected exactly for variant 0 and the exit asset exactly for variant 1; every other variant fails. |
| `UndergroundBelt.PreviewSprite` | src/js/game/buildings/underground_belt.js:43-52 | The building entry sprite for the sender mode, the exit sprite for the receiver mode, a fault when the variant has no mode. |
| `UndergroundBelt.BlueprintSprite` | src/js/game/buildings/underground_belt.js:54-63 | The same choice between the blueprint sprites. |
| `UndergroundBelt.TargetRotation` | src/js/game/buildings/underground_belt.js:102 | The partner rotation is the opposite cardinal angle: it differs from the input by exactly 180 degrees. |
| `UndergroundBeltProofs.TargetRotationInvolutive` | src/js/game/buildings/underground_belt.js:102 | Taking the opposite rotation twice gives the original rotation back. |
| `UndergroundBelt.Scan` | src/js/game/buildings/underground_belt.js:104-127 | Every search outcome is variant 0 or 1. Variant 0 is the unlinked result with the original rotation and no partner. Variant 1 faces the target rotation with exactly one connected entity, a sender tunnel of that rotation. |
| `UndergroundBelt.Resolve` | src/js/game/buildings/underground_belt.js:98-133 | The same guarantees for the whole resolver. A reach of 0 always gives the unlinked sender. |
| `UndergroundBelt.ComputeOptimalDirectionAndRotationVariantAtTile` | src/js/game/buildings/underground_belt.js:98-133 | The loop (with its `break` on a facing receiver and `return` on a facing sender) computes exactly `Resolve` on the same inputs and only reads the map. |
| `UndergroundBeltProofs.ResolveByLoop` | src/js/game/buildings/underground_belt.js:98-133 | The loop returns variant 1 exactly when the first tunnel facing back within reach is a sender, and then links to that sender; any other result is the unlinked sender. |
| `Grid.ProbeIsOffset` | src/js/game/buildings/underground_belt.js:104-105 | The tile probed at step k is the origin plus k times the search vector. |
| `Grid.ProbeShift` | src/js/game/buildings/underground_belt.js:105 | Advancing the tile once and then k times more reaches probe k + 1. |
| `Grid.ProbesDistinct` | src/js/game/buildings/underground_belt.js:104-105 | With a non-zero search vector, distinct steps probe distinct tiles. |
| `UndergroundBeltProofs.ScanFirstFacingBack` | src/js/game/buildings/underground_belt.js:108-123 | From any start tile, the first tunnel facing back decides: a sender gives the link to it, a receiver gives the unlinked result. |
| `UndergroundBeltProofs.ScanNoneFacingBack` | src/js/game/buildings/underground_belt.js:104-132 | From any start tile, a search that meets no tunnel facing back ends unlinked. |
| `UndergroundBeltProofs.ScanLinkedWitness` | src/js/game/buildings/underground_belt.js:112-123 | A linked search result always comes from a first tunnel facing back within reach that is a sender. |
| `UndergroundBeltProofs.ScanAgrees` | src/js/game/buildings/underground_belt.js:104-112 | Two maps that agree on the probed tiles, as far as facing tunnels go, give the same result. |
| `UndergroundBeltProofs.ResolveFirstFacingBackDecides` | src/js/game/buildings/underground_belt.js:112-123 | The first tile within reach that holds a tunnel with the target rotation decides. A sender there gives variant 1, the target rotation and that entity as the only connected entity. A receiver there gives the unlinked sender, whatever lies farther out. |
| `UndergroundBeltProofs.ResolveNoneFacingBack` | src/js/game/buildings/underground_belt.js:129-132 | With no tunnel facing back among probes 1 to maxTiles, the result is the input rotation, variant 0 and no connected entities. |
| `UndergroundBeltProofs.ResolveLinkedIff` | src/js/game/buildings/underground_belt.js:104-132 | Variant 1 is returned if and only if, within reach, the first tunnel facing back is a sender. |
| `UndergroundBeltProofs.ResolveReadsOnlyProbedTiles` | src/js/game/buildings/underground_belt.js:104-107 | The result depends only on the map contents at probes 1 to maxTiles; for a non-zero search vector, the origin tile and the tiles beyond the reach are never consulted. |
| `UndergroundBeltProofs.ResolveSkipsOtherOccupants` | src/js/game/buildings/underground_belt.js:108-112 | Clearing a tile, or replacing anything that does not face back with a building or a tunnel facing another way, leaves the result unchanged. |
| `UndergroundBeltProofs.ResolveEmptyMap` | src/js/game/buildings/underground_belt.js:129-132 | On an empty map every placement is an unlinked sender. |
| `UndergroundBeltProofs.LoneSenderFoundIffWithinReach` | src/js/game/buildings/underground_belt.js:104-123 | A lone sender facing back at distance d is linked exactly when d is at most maxTiles; at maxTiles + 1 it is not found. |
| `UndergroundBeltProofs.ReceiverHidesFartherSender` | src/js/game/buildings/underground_belt.js:112-116 | A receiver facing back at distance d1 stops the search, so a sender at d2 > d1 is not linked. |
| `UndergroundBelt.ApplyVariant` | src/js/game/buildings/underground_belt.js:139-168 | Variants 0 and 1 produce a configured piece whose mode is the table's mode for the variant and whose sprite key is the preview sprite. Every other variant fails. |
| `UndergroundBeltProofs.ConfiguredHasOneSlotList` | src/js/game/buildings/underground_belt.js:142-163 | A configured piece has exactly one non-empty slot list, of length one. It is a sender exactly when its ejector list is empty. |
| `UndergroundBeltProofs.ApplyVariantOverwrites` | src/js/game/buildings/underground_belt.js:142-163 | The state after applying a variant does not depend on the state before. |
| `UndergroundBeltProofs.ApplyVariantIdempotent` | src/js/game/buildings/underground_belt.js:142-163 | Applying the same variant twice gives the state of applying it once. |
| `UndergroundBeltProofs.ResolveThenApply` | src/js/game/buildings/underground_belt.js:119-163 | Feeding the resolver's variant to the applier always succeeds. The piece becomes a receiver exactly when a partner was returned, and it shows the entry sprite as a sender and the exit sprite as a receiver. |
| `UndergroundBelt.TunnelEntity.constructor` | src/js/game/buildings/underground_belt.js:76-90 | A new piece starts with both slot lists empty. |
| `UndergroundBelt.TunnelEntity.UpdateRotationVariant` | src/js/game/buildings/underground_belt.js:139-168 | For variants 0 and 1, sprite key, mode and both slot lists are overwritten with `ApplyVariant`'s state. Any other variant fails and leaves the entity unchanged. |

The two placement flags of `getFlipOrientationAfterPlacement` (src/js/game/buildings/underground_belt.js:35-37)
and `getStayInPlacementMode` (src/js/game/buildings/underground_belt.js:39-41) are the constants
`UndergroundBelt.FLIP_ORIENTATION_AFTER_PLACEMENT` and `UndergroundBelt.STAY_IN_PLACEMENT_MODE`, both
`true`. They are constants and not members with contracts, so they have no row above.

## Left out

- `Loader.getSprite` is a foreign asset lookup. The sprite key is modelled as the asset path handed to it.
- `UndergroundBelt.TunnelEntity.UpdateRotationVariant`: stores that asset path as `spriteKey`, where the source stores the `spriteName` of the sprite the loader returns.
- `getIsUnlocked` (the hub-goal reward gate) is external to this building, and so is whatever the placement system does with the two flags.
- `getName`, `getDescription` and `getSilhouetteColor` return constant UI strings.
- `setupEntityComponents` belongs to the entity/component framework. The `TunnelEntity` constructor stands in for it: both slot lists start empty, and the initial mode and sprite key are parameters, because the component defaults are not part of this model.
- The tile-map storage, `Vector` arithmetic and the angle/direction tables of `core/vector` are not shown. They are the map value, `Add` and the `Tables` parameter. The scenario lemmas assume only that the search vector is non-zero.
- The resolver's rotation is typed `Angle` (0, 90, 180 or 270). For any other value the source's table lookups are undefined, and its callers never pass one.
- The source's fatal `assertAlways` is modelled as a `Fault` result, not as an exception. `getPreviewSprite` fails before `updateRotationVariant` writes anything, so the entity is left unchanged. As a consequence, the assertion in the applier's own `default` branch (lines 165-166) is unreachable and is not modelled separately.
- How items travel through a linked tunnel lives in other components and systems not shown.
- Two concrete scenarios are not stated as lemmas of their own. Both use a reach of 4, origin (0, 0) and rotation 0 searching along +x. In the first, a sender with rotation 180 at (3, 0) is found (variant 1, rotation 180, that sender as partner). In the second, a receiver with rotation 180 at (1, 0) blocks that sender (variant 0, rotation 0). Both follow from `LoneSenderFoundIffWithinReach` (d = 3) and `ReceiverHidesFartherSender` (d1 = 1, d2 = 3) once a direction table maps rotation 0 to (1, 0). No lemma instantiates them, because the real table entry for rotation 0 is not part of this model.
