/**
 * The "Tunnel" (underground belt) building: choosing, at placement time,
 * whether a new tunnel piece becomes an unlinked entrance (sender) or the
 * exit (receiver) of a sender it faces, and configuring the piece for the
 * chosen variant.
 */
module UndergroundBelt {
  import opened Wrappers
  import opened Grid

  // ---------------------------------------------------------------------
  // Modes, variants and sprites
  // ---------------------------------------------------------------------

  /** `enumUndergroundBeltMode`: entrance or exit of a tunnel. */
  datatype Mode = Sender | Receiver

  /** Raised when a rotation variant is neither 0 nor 1. */
  datatype Fault = InvalidRotationVariant

  /** The building keeps flipping the cursor after each placement. */
  const FLIP_ORIENTATION_AFTER_PLACEMENT: bool := true

  /** Placement mode stays active after each placement. */
  const STAY_IN_PLACEMENT_MODE: bool := true

  const PREVIEW_ENTRY_SPRITE := "sprites/buildings/underground_belt_entry.png"
  const PREVIEW_EXIT_SPRITE := "sprites/buildings/underground_belt_exit.png"
  const BLUEPRINT_ENTRY_SPRITE := "sprites/blueprints/underground_belt_entry.png"
  const BLUEPRINT_EXIT_SPRITE := "sprites/blueprints/underground_belt_exit.png"

  /**
   * `arrayUndergroundRotationVariantToMode[variant]`: a two-element table;
   * reading any other index yields nothing.
   */
  function VariantToMode(variant: int): (m: Option<Mode>)
    ensures m.Some? <==> variant == 0 || variant == 1
  {
    if variant == 0 then Some(Sender)
    else if variant == 1 then Some(Receiver)
    else None
  }

  /** The position of a mode in the variant table. */
  function ModeToVariant(m: Mode): nat
  {
    match m
    case Sender => 0
    case Receiver => 1
  }

  /** Picks the entry or exit asset by the mode a variant stands for. */
  function SpriteFor(variant: int, entry: string, exit: string): (r: Result<string, Fault>)
    requires entry != exit
    ensures r == Success(entry) <==> variant == 0
    ensures r == Success(exit) <==> variant == 1
    ensures r.Failure? <==> variant != 0 && variant != 1
  {
    match VariantToMode(variant)
    case Some(Sender) => Success(entry)
    case Some(Receiver) => Success(exit)
    case None => Failure(InvalidRotationVariant)
  }

  /** `getPreviewSprite`: the key of the in-world sprite for a variant. */
  function PreviewSprite(variant: int): (r: Result<string, Fault>)
    ensures r == Success(PREVIEW_ENTRY_SPRITE) <==> VariantToMode(variant) == Some(Sender)
    ensures r == Success(PREVIEW_EXIT_SPRITE) <==> VariantToMode(variant) == Some(Receiver)
    ensures r.Failure? <==> VariantToMode(variant).None?
  {
    SpriteFor(variant, PREVIEW_ENTRY_SPRITE, PREVIEW_EXIT_SPRITE)
  }

  /** `getBlueprintSprite`: the key of the blueprint sprite for a variant. */
  function BlueprintSprite(variant: int): (r: Result<string, Fault>)
    ensures r == Success(BLUEPRINT_ENTRY_SPRITE) <==> VariantToMode(variant) == Some(Sender)
    ensures r == Success(BLUEPRINT_EXIT_SPRITE) <==> VariantToMode(variant) == Some(Receiver)
    ensures r.Failure? <==> VariantToMode(variant).None?
  {
    SpriteFor(variant, BLUEPRINT_ENTRY_SPRITE, BLUEPRINT_EXIT_SPRITE)
  }

  // ---------------------------------------------------------------------
  // Connection resolver
  // ---------------------------------------------------------------------

  /** What occupies a tile, as far as the resolver cares. */
  datatype Occupant =
    | Building(uid: nat)
    | Tunnel(uid: nat, rotationDegrees: int, mode: Mode)

  /** The tile map: a tile that is not a key is empty. */
  type TileMap = map<Vec, Occupant>

  /** The result of the resolver; `connectedEntities` is absent when unlinked. */
  datatype Resolution = Resolution(rotation: int, rotationVariant: int, connectedEntities: Option<seq<Occupant>>)

  /** The result when no partner is found: keep the rotation, become a sender. */
  function Unlinked(rotation: int): Resolution
  {
    Resolution(rotation, 0, None)
  }

  /** The result when a partner is found: face it and become its receiver. */
  function Linked(rotation: int, partner: Occupant): Resolution
  {
    Resolution(rotation, 1, Some([partner]))
  }

  /** The rotation a partner must have to face back at the new piece. */
  function TargetRotation(rotation: Angle): (t: Angle)
    ensures t != rotation
    ensures t == rotation + 180 || t == rotation - 180
  {
    (rotation + 180) % 360
  }

  /** The tile at `p` holds a tunnel whose rotation is `target`. */
  predicate FacesBack(tiles: TileMap, p: Vec, target: int)
  {
    p in tiles && tiles[p].Tunnel? && tiles[p].rotationDegrees == target
  }

  /** A sender tunnel with the given rotation. */
  predicate IsSenderFacing(e: Occupant, target: int)
  {
    e.Tunnel? && e.rotationDegrees == target && e.mode == Sender
  }

  /**
   * The search of the resolver with `steps` probes left: each probe first
   * advances `tile` by one step of `v` (the origin itself is never probed).
   */
  function Scan(tiles: TileMap, tile: Vec, v: Vec, rotation: Angle, steps: nat): (r: Resolution)
    ensures r.rotationVariant == 0 || r.rotationVariant == 1
    ensures r.rotationVariant == 0 ==> r == Unlinked(rotation)
    ensures r.rotationVariant == 1 ==>
      && r.rotation == TargetRotation(rotation)
      && r.connectedEntities.Some? && |r.connectedEntities.value| == 1
      && IsSenderFacing(r.connectedEntities.value[0], TargetRotation(rotation))
    decreases steps
  {
    if steps == 0 then Unlinked(rotation)
    else
      var next := Add(tile, v);
      if FacesBack(tiles, next, TargetRotation(rotation)) then
        if tiles[next].mode != Sender then Unlinked(rotation)
        else Linked(TargetRotation(rotation), tiles[next])
      else Scan(tiles, next, v, rotation, steps - 1)
  }

  /**
   * `computeOptimalDirectionAndRotationVariantAtTile` as a function of the
   * map, the origin tile, the rotation, the direction tables and the
   * maximum tunnel length.
   */
  function Resolve(tiles: TileMap, origin: Vec, rotation: Angle, tables: Tables, maxTiles: nat): (r: Resolution)
    ensures maxTiles == 0 ==> r == Unlinked(rotation)
    ensures r.rotationVariant == 0 || r.rotationVariant == 1
    ensures r.rotationVariant == 0 ==> r == Unlinked(rotation)
    ensures r.rotationVariant == 1 ==>
      && r.rotation == TargetRotation(rotation)
      && r.connectedEntities.Some? && |r.connectedEntities.value| == 1
      && IsSenderFacing(r.connectedEntities.value[0], TargetRotation(rotation))
  {
    Scan(tiles, origin, SearchVector(tables, rotation), rotation, maxTiles)
  }

  /**
   * The resolver as the source runs it: a bounded loop that reassigns the
   * probed tile, breaks on a facing receiver and returns on a facing sender.
   * It only reads the map.
   */
  method ComputeOptimalDirectionAndRotationVariantAtTile(
    tiles: TileMap, origin: Vec, rotation: Angle, tables: Tables, maxTiles: nat)
    returns (r: Resolution)
    ensures r == Resolve(tiles, origin, rotation, tables, maxTiles)
  {
    var searchVector := SearchVector(tables, rotation);
    var targetRotation := TargetRotation(rotation);
    var tile := origin;
    for searchOffset := 1 to maxTiles + 1
      invariant tile == Probe(origin, searchVector, searchOffset - 1)
      invariant Scan(tiles, tile, searchVector, rotation, maxTiles + 1 - searchOffset)
             == Resolve(tiles, origin, rotation, tables, maxTiles)
    {
      tile := Add(tile, searchVector);
      if tile in tiles {
        var contents := tiles[tile];
        if contents.Tunnel? {
          if contents.rotationDegrees == targetRotation {
            if contents.mode != Sender {
              break;
            }
            return Resolution(targetRotation, 1, Some([contents]));
          }
        }
      }
    }
    return Resolution(rotation, 0, None);
  }

  // ---------------------------------------------------------------------
  // Variant applier
  // ---------------------------------------------------------------------

  /** An input port: its local position and the directions it accepts from. */
  datatype AcceptorSlot = AcceptorSlot(pos: Vec, directions: seq<Direction>)

  /** An output port: its local position and the direction it emits to. */
  datatype EjectorSlot = EjectorSlot(pos: Vec, direction: Direction)

  /** The one acceptor slot of a sender. */
  function SenderAcceptor(): AcceptorSlot
  {
    AcceptorSlot(Vec(0, 0), [Bottom])
  }

  /** The one ejector slot of a receiver. */
  function ReceiverEjector(): EjectorSlot
  {
    EjectorSlot(Vec(0, 0), Top)
  }

  /** The part of a tunnel entity the applier writes. */
  datatype TunnelState = TunnelState(
    spriteKey: string,
    mode: Mode,
    acceptorSlots: seq<AcceptorSlot>,
    ejectorSlots: seq<EjectorSlot>)

  /**
   * A tunnel piece set up for its mode: a sender accepts from below and
   * emits nothing, a receiver emits upwards and accepts nothing.
   */
  predicate Configured(s: TunnelState)
  {
    match s.mode
    case Sender => s.acceptorSlots == [SenderAcceptor()] && s.ejectorSlots == []
    case Receiver => s.acceptorSlots == [] && s.ejectorSlots == [ReceiverEjector()]
  }

  /**
   * `updateRotationVariant` on values: the state after applying `variant`
   * to `s`, or the fault when the variant is not in the table.
   */
  function ApplyVariant(s: TunnelState, variant: int): (r: Result<TunnelState, Fault>)
    ensures r.Failure? <==> variant != 0 && variant != 1
    ensures r.Success? ==>
      && Configured(r.value)
      && Some(r.value.mode) == VariantToMode(variant)
      && Success(r.value.spriteKey) == PreviewSprite(variant)
  {
    match PreviewSprite(variant)
    case Failure(e) => Failure(e)
    case Success(key) =>
      if variant == 0 then Success(TunnelState(key, Sender, [SenderAcceptor()], []))
      else Success(TunnelState(key, Receiver, [], [ReceiverEjector()]))
  }

  /** A placed tunnel piece, with the fields the applier overwrites. */
  class TunnelEntity {
    var spriteKey: string
    var mode: Mode
    var acceptorSlots: seq<AcceptorSlot>
    var ejectorSlots: seq<EjectorSlot>

    function State(): TunnelState
      reads this
    {
      TunnelState(spriteKey, mode, acceptorSlots, ejectorSlots)
    }

    /** A fresh piece: both slot lists empty, mode and sprite as given. */
    constructor (initialSpriteKey: string, initialMode: Mode)
      ensures State() == TunnelState(initialSpriteKey, initialMode, [], [])
    {
      spriteKey := initialSpriteKey;
      mode := initialMode;
      acceptorSlots := [];
      ejectorSlots := [];
    }

    /**
     * `updateRotationVariant`: overwrite sprite, mode and slots for the
     * variant; an invalid variant fails in the sprite lookup, before any
     * field is written.
     */
    method UpdateRotationVariant(variant: int) returns (outcome: Outcome<Fault>)
      modifies this
      ensures outcome.Pass? <==> variant == 0 || variant == 1
      ensures outcome.Pass? ==> Success(State()) == ApplyVariant(old(State()), variant)
      ensures outcome.Fail? ==> State() == old(State())
    {
      var sprite := PreviewSprite(variant);
      if sprite.Failure? {
        return Fail(sprite.error);
      }
      spriteKey := sprite.value;
      match VariantToMode(variant).value {
        case Sender =>
          mode := Sender;
          ejectorSlots := [];
          acceptorSlots := [SenderAcceptor()];
        case Receiver =>
          mode := Receiver;
          acceptorSlots := [];
          ejectorSlots := [ReceiverEjector()];
      }
      return Pass;
    }
  }
}
