/**
 * Properties of the tunnel connection resolver and the variant applier.
 */
module UndergroundBeltProofs {
  import opened Wrappers
  import opened Grid
  import opened UndergroundBelt

  // ---------------------------------------------------------------------
  // The search, from any start tile
  // ---------------------------------------------------------------------

  /** Probe `d` is the first tile along the ray that holds a tunnel facing back. */
  predicate FirstFacingBack(tiles: TileMap, tile: Vec, v: Vec, target: int, d: int)
  {
    && 1 <= d
    && FacesBack(tiles, Probe(tile, v, d), target)
    && forall k :: 1 <= k < d ==> !FacesBack(tiles, Probe(tile, v, k), target)
  }

  /** Two maps look the same to the search at tile `p`. */
  predicate SameAt(t1: TileMap, t2: TileMap, p: Vec, target: int)
  {
    && (FacesBack(t1, p, target) <==> FacesBack(t2, p, target))
    && (FacesBack(t1, p, target) ==> t1[p] == t2[p])
  }

  /** The first tunnel facing back decides: link to a sender, stop at a receiver. */
  lemma {:induction false} ScanFirstFacingBack(tiles: TileMap, tile: Vec, v: Vec, rotation: Angle, steps: nat, d: nat)
    requires d <= steps
    requires FirstFacingBack(tiles, tile, v, TargetRotation(rotation), d)
    ensures Scan(tiles, tile, v, rotation, steps)
         == if tiles[Probe(tile, v, d)].mode == Sender
            then Linked(TargetRotation(rotation), tiles[Probe(tile, v, d)])
            else Unlinked(rotation)
    decreases steps
  {
    var target := TargetRotation(rotation);
    var next := Add(tile, v);
    assert next == Probe(tile, v, 1);
    if d > 1 {
      assert !FacesBack(tiles, next, target);
      forall k | 1 <= k <= d - 1
        ensures Probe(next, v, k) == Probe(tile, v, k + 1)
      {
        ProbeShift(tile, v, k);
      }
      ScanFirstFacingBack(tiles, next, v, rotation, steps - 1, d - 1);
    }
  }

  /** Without a tunnel facing back within reach, the search finds nothing. */
  lemma {:induction false} ScanNoneFacingBack(tiles: TileMap, tile: Vec, v: Vec, rotation: Angle, steps: nat)
    requires forall k :: 1 <= k <= steps ==> !FacesBack(tiles, Probe(tile, v, k), TargetRotation(rotation))
    ensures Scan(tiles, tile, v, rotation, steps) == Unlinked(rotation)
    decreases steps
  {
    if steps > 0 {
      var next := Add(tile, v);
      assert next == Probe(tile, v, 1);
      forall k | 1 <= k <= steps - 1
        ensures Probe(next, v, k) == Probe(tile, v, k + 1)
      {
        ProbeShift(tile, v, k);
      }
      ScanNoneFacingBack(tiles, next, v, rotation, steps - 1);
    }
  }

  /** A link always comes from the first tunnel facing back, which is a sender. */
  lemma {:induction false} ScanLinkedWitness(tiles: TileMap, tile: Vec, v: Vec, rotation: Angle, steps: nat)
    requires Scan(tiles, tile, v, rotation, steps).rotationVariant == 1
    ensures exists d :: 1 <= d <= steps && FirstFacingBack(tiles, tile, v, TargetRotation(rotation), d)
                        && tiles[Probe(tile, v, d)].mode == Sender
    decreases steps
  {
    var target := TargetRotation(rotation);
    var next := Add(tile, v);
    assert next == Probe(tile, v, 1);
    if FacesBack(tiles, next, target) {
      assert FirstFacingBack(tiles, tile, v, target, 1);
    } else {
      ScanLinkedWitness(tiles, next, v, rotation, steps - 1);
      var d :| 1 <= d <= steps - 1 && FirstFacingBack(tiles, next, v, target, d)
               && tiles[Probe(next, v, d)].mode == Sender;
      forall k | 1 <= k <= d
        ensures Probe(next, v, k) == Probe(tile, v, k + 1)
      {
        ProbeShift(tile, v, k);
      }
      forall k | 1 <= k < d + 1
        ensures !FacesBack(tiles, Probe(tile, v, k), target)
      {
        if k > 1 {
          assert Probe(tile, v, k) == Probe(next, v, k - 1);
        }
      }
      assert FirstFacingBack(tiles, tile, v, target, d + 1);
    }
  }

  /** Maps that look the same on the probed tiles give the same result. */
  lemma {:induction false} ScanAgrees(t1: TileMap, t2: TileMap, tile: Vec, v: Vec, rotation: Angle, steps: nat)
    requires forall k :: 1 <= k <= steps ==> SameAt(t1, t2, Probe(tile, v, k), TargetRotation(rotation))
    ensures Scan(t1, tile, v, rotation, steps) == Scan(t2, tile, v, rotation, steps)
    decreases steps
  {
    if steps > 0 {
      var next := Add(tile, v);
      assert next == Probe(tile, v, 1);
      assert SameAt(t1, t2, next, TargetRotation(rotation));
      forall k | 1 <= k <= steps - 1
        ensures Probe(next, v, k) == Probe(tile, v, k + 1)
      {
        ProbeShift(tile, v, k);
      }
      ScanAgrees(t1, t2, next, v, rotation, steps - 1);
    }
  }

  // ---------------------------------------------------------------------
  // The resolver
  // ---------------------------------------------------------------------

  /** The first tunnel facing back within reach decides the result. */
  lemma ResolveFirstFacingBackDecides(tiles: TileMap, origin: Vec, rotation: Angle, tables: Tables, maxTiles: nat, d: nat)
    requires d <= maxTiles
    requires FirstFacingBack(tiles, origin, SearchVector(tables, rotation), TargetRotation(rotation), d)
    ensures var partner := tiles[Probe(origin, SearchVector(tables, rotation), d)];
            (Resolve(tiles, origin, rotation, tables, maxTiles)
             == if partner.mode == Sender
                then Linked(TargetRotation(rotation), partner)
                else Unlinked(rotation))
  {
    ScanFirstFacingBack(tiles, origin, SearchVector(tables, rotation), rotation, maxTiles, d);
  }

  /** No tunnel facing back within reach: the piece stays an unlinked sender. */
  lemma ResolveNoneFacingBack(tiles: TileMap, origin: Vec, rotation: Angle, tables: Tables, maxTiles: nat)
    requires forall k :: 1 <= k <= maxTiles ==>
      !FacesBack(tiles, Probe(origin, SearchVector(tables, rotation), k), TargetRotation(rotation))
    ensures Resolve(tiles, origin, rotation, tables, maxTiles) == Unlinked(rotation)
  {
    ScanNoneFacingBack(tiles, origin, SearchVector(tables, rotation), rotation, maxTiles);
  }

  /**
   * The piece becomes a receiver exactly when, within reach, the first
   * tunnel facing back is a sender.
   */
  lemma ResolveLinkedIff(tiles: TileMap, origin: Vec, rotation: Angle, tables: Tables, maxTiles: nat)
    ensures var v := SearchVector(tables, rotation);
            (Resolve(tiles, origin, rotation, tables, maxTiles).rotationVariant == 1
             <==> exists d :: 1 <= d <= maxTiles && FirstFacingBack(tiles, origin, v, TargetRotation(rotation), d)
                              && tiles[Probe(origin, v, d)].mode == Sender)
  {
    var v := SearchVector(tables, rotation);
    if Resolve(tiles, origin, rotation, tables, maxTiles).rotationVariant == 1 {
      ScanLinkedWitness(tiles, origin, v, rotation, maxTiles);
    }
    if exists d :: 1 <= d <= maxTiles && FirstFacingBack(tiles, origin, v, TargetRotation(rotation), d)
                   && tiles[Probe(origin, v, d)].mode == Sender {
      var d :| 1 <= d <= maxTiles && FirstFacingBack(tiles, origin, v, TargetRotation(rotation), d)
               && tiles[Probe(origin, v, d)].mode == Sender;
      ScanFirstFacingBack(tiles, origin, v, rotation, maxTiles, d);
    }
  }

  /** Only the probes at offsets 1 to maxTiles are consulted. */
  lemma ResolveReadsOnlyProbedTiles(t1: TileMap, t2: TileMap, origin: Vec, rotation: Angle, tables: Tables, maxTiles: nat)
    requires forall k :: 1 <= k <= maxTiles ==>
      SameAt(t1, t2, Probe(origin, SearchVector(tables, rotation), k), TargetRotation(rotation))
    ensures Resolve(t1, origin, rotation, tables, maxTiles) == Resolve(t2, origin, rotation, tables, maxTiles)
  {
    ScanAgrees(t1, t2, origin, SearchVector(tables, rotation), rotation, maxTiles);
  }

  /**
   * Clearing a tile, or putting a building or a tunnel facing elsewhere
   * there, in place of anything that does not face back, changes nothing.
   */
  lemma ResolveSkipsOtherOccupants(tiles: TileMap, origin: Vec, rotation: Angle, tables: Tables, maxTiles: nat,
                                   p: Vec, o: Occupant)
    requires !FacesBack(tiles, p, TargetRotation(rotation))
    requires !(o.Tunnel? && o.rotationDegrees == TargetRotation(rotation))
    ensures Resolve(tiles[p := o], origin, rotation, tables, maxTiles) == Resolve(tiles, origin, rotation, tables, maxTiles)
    ensures Resolve(tiles - {p}, origin, rotation, tables, maxTiles) == Resolve(tiles, origin, rotation, tables, maxTiles)
  {
    var v := SearchVector(tables, rotation);
    var target := TargetRotation(rotation);
    forall k | 1 <= k <= maxTiles
      ensures SameAt(tiles[p := o], tiles, Probe(origin, v, k), target)
      ensures SameAt(tiles - {p}, tiles, Probe(origin, v, k), target)
    {
    }
    ScanAgrees(tiles[p := o], tiles, origin, v, rotation, maxTiles);
    ScanAgrees(tiles - {p}, tiles, origin, v, rotation, maxTiles);
  }

  /** On an empty map every placement is an unlinked sender. */
  lemma ResolveEmptyMap(origin: Vec, rotation: Angle, tables: Tables, maxTiles: nat)
    ensures Resolve(map[], origin, rotation, tables, maxTiles) == Unlinked(rotation)
  {
    ResolveNoneFacingBack(map[], origin, rotation, tables, maxTiles);
  }

  /**
   * The loop links exactly when the first tunnel facing back within reach
   * is a sender, and then links to that sender; otherwise it leaves the
   * piece an unlinked sender.
   */
  method ResolveByLoop(tiles: TileMap, origin: Vec, rotation: Angle, tables: Tables, maxTiles: nat)
    returns (r: Resolution)
    ensures r.rotationVariant == 1 ==>
      exists d :: 1 <= d <= maxTiles
        && FirstFacingBack(tiles, origin, SearchVector(tables, rotation), TargetRotation(rotation), d)
        && tiles[Probe(origin, SearchVector(tables, rotation), d)].mode == Sender
        && r == Linked(TargetRotation(rotation), tiles[Probe(origin, SearchVector(tables, rotation), d)])
    ensures (exists d :: 1 <= d <= maxTiles
               && FirstFacingBack(tiles, origin, SearchVector(tables, rotation), TargetRotation(rotation), d)
               && tiles[Probe(origin, SearchVector(tables, rotation), d)].mode == Sender)
            ==> r.rotationVariant == 1
    ensures r.rotationVariant != 1 ==> r == Unlinked(rotation)
  {
    r := ComputeOptimalDirectionAndRotationVariantAtTile(tiles, origin, rotation, tables, maxTiles);
    ResolveLinkedIff(tiles, origin, rotation, tables, maxTiles);
    if r.rotationVariant == 1 {
      var v := SearchVector(tables, rotation);
      var d :| 1 <= d <= maxTiles && FirstFacingBack(tiles, origin, v, TargetRotation(rotation), d)
               && tiles[Probe(origin, v, d)].mode == Sender;
      ScanFirstFacingBack(tiles, origin, v, rotation, maxTiles, d);
    }
  }

  // ---------------------------------------------------------------------
  // Single-partner scenarios, for any origin, rotation and non-zero step
  // ---------------------------------------------------------------------

  /** A lone sender facing back at distance d is found exactly when d is within reach. */
  lemma LoneSenderFoundIffWithinReach(tables: Tables, origin: Vec, rotation: Angle, maxTiles: nat, d: nat, uid: nat)
    requires SearchVector(tables, rotation) != Vec(0, 0)
    requires d >= 1
    ensures var sender := Tunnel(uid, TargetRotation(rotation), Sender);
            var tiles := map[Probe(origin, SearchVector(tables, rotation), d) := sender];
            Resolve(tiles, origin, rotation, tables, maxTiles)
              == if d <= maxTiles then Linked(TargetRotation(rotation), sender) else Unlinked(rotation)
  {
    var v := SearchVector(tables, rotation);
    var target := TargetRotation(rotation);
    var tiles := map[Probe(origin, v, d) := Tunnel(uid, target, Sender)];
    forall k: nat | k != d
      ensures !FacesBack(tiles, Probe(origin, v, k), target)
    {
      ProbesDistinct(origin, v, k, d);
    }
    if d <= maxTiles {
      assert FirstFacingBack(tiles, origin, v, target, d);
      ResolveFirstFacingBackDecides(tiles, origin, rotation, tables, maxTiles, d);
    } else {
      ResolveNoneFacingBack(tiles, origin, rotation, tables, maxTiles);
    }
  }

  /** A receiver facing back at distance d1 hides a sender farther out at d2. */
  lemma ReceiverHidesFartherSender(tables: Tables, origin: Vec, rotation: Angle, maxTiles: nat,
                                   d1: nat, d2: nat, uid1: nat, uid2: nat)
    requires SearchVector(tables, rotation) != Vec(0, 0)
    requires 1 <= d1 < d2
    ensures var v := SearchVector(tables, rotation);
            var target := TargetRotation(rotation);
            var tiles := map[Probe(origin, v, d1) := Tunnel(uid1, target, Receiver),
                             Probe(origin, v, d2) := Tunnel(uid2, target, Sender)];
            Resolve(tiles, origin, rotation, tables, maxTiles) == Unlinked(rotation)
  {
    var v := SearchVector(tables, rotation);
    var target := TargetRotation(rotation);
    var tiles := map[Probe(origin, v, d1) := Tunnel(uid1, target, Receiver),
                     Probe(origin, v, d2) := Tunnel(uid2, target, Sender)];
    ProbesDistinct(origin, v, d1, d2);
    forall k: nat | k < d1
      ensures !FacesBack(tiles, Probe(origin, v, k), target)
    {
      ProbesDistinct(origin, v, k, d1);
      ProbesDistinct(origin, v, k, d2);
    }
    if d1 <= maxTiles {
      assert FirstFacingBack(tiles, origin, v, target, d1);
      ResolveFirstFacingBackDecides(tiles, origin, rotation, tables, maxTiles, d1);
    } else {
      forall k | 1 <= k <= maxTiles
        ensures !FacesBack(tiles, Probe(origin, v, k), target)
      {
      }
      ResolveNoneFacingBack(tiles, origin, rotation, tables, maxTiles);
    }
  }

  // ---------------------------------------------------------------------
  // Variant table, sprites and applier
  // ---------------------------------------------------------------------

  /** The variant table and its inverse undo each other. */
  lemma VariantModeRoundTrip(m: Mode, variant: int)
    ensures VariantToMode(ModeToVariant(m)) == Some(m)
    ensures VariantToMode(variant) == Some(m) <==> variant == ModeToVariant(m)
  {
  }

  /** Facing back twice is facing the original way. */
  lemma TargetRotationInvolutive(rotation: Angle)
    ensures TargetRotation(TargetRotation(rotation)) == rotation
  {
  }

  /** A configured piece has exactly one non-empty slot list. */
  lemma ConfiguredHasOneSlotList(s: TunnelState)
    requires Configured(s)
    ensures (|s.acceptorSlots| == 1 && s.ejectorSlots == []) != (s.acceptorSlots == [] && |s.ejectorSlots| == 1)
    ensures s.mode == Sender <==> s.ejectorSlots == []
  {
  }

  /** The result of applying a variant does not depend on the prior state. */
  lemma ApplyVariantOverwrites(s1: TunnelState, s2: TunnelState, variant: int)
    ensures ApplyVariant(s1, variant) == ApplyVariant(s2, variant)
  {
  }

  /** Applying the same variant twice is applying it once. */
  lemma ApplyVariantIdempotent(s: TunnelState, variant: int)
    requires ApplyVariant(s, variant).Success?
    ensures ApplyVariant(ApplyVariant(s, variant).value, variant) == ApplyVariant(s, variant)
  {
  }

  /** The piece the resolver decides on is configured for that decision. */
  lemma ResolveThenApply(tiles: TileMap, origin: Vec, rotation: Angle, tables: Tables, maxTiles: nat, s: TunnelState)
    ensures var r := Resolve(tiles, origin, rotation, tables, maxTiles);
            var applied := ApplyVariant(s, r.rotationVariant);
            && applied.Success?
            && Configured(applied.value)
            && (applied.value.mode == Receiver <==> r.connectedEntities.Some?)
            && (applied.value.mode == Sender ==> applied.value.spriteKey == PREVIEW_ENTRY_SPRITE)
            && (applied.value.mode == Receiver ==> applied.value.spriteKey == PREVIEW_EXIT_SPRITE)
  {
  }
}
