/**
 * The grid vocabulary the tunnel building consumes: tile vectors, the four
 * directions and the four cardinal rotation angles. The tables that map an
 * angle to a direction and a direction to a unit vector live outside this
 * model; they are taken as a parameter (`Tables`) and nothing is assumed
 * about their entries.
 */
module Grid {

  /** A tile coordinate or an offset between tiles. */
  datatype Vec = Vec(x: int, y: int)

  /** `Vector.addScalars`: a new vector, the old one is left as it was. */
  function Add(a: Vec, b: Vec): Vec
  {
    Vec(a.x + b.x, a.y + b.y)
  }

  datatype Direction = Top | Right | Bottom | Left

  /** A rotation in degrees, restricted to the four cardinal values. */
  type Angle = r: int | r == 0 || r == 90 || r == 180 || r == 270

  /** The angle-to-direction and direction-to-vector lookup tables. */
  datatype Tables = Tables(angleToDirection: Angle -> Direction, directionToVector: Direction -> Vec)

  /** The unit step taken when searching in the direction a rotation faces. */
  function SearchVector(tables: Tables, rotation: Angle): Vec
  {
    tables.directionToVector(tables.angleToDirection(rotation))
  }

  /** The tile reached from `origin` by advancing `k` times by `v`. */
  function Probe(origin: Vec, v: Vec, k: nat): Vec
  {
    if k == 0 then origin else Add(Probe(origin, v, k - 1), v)
  }

  /** The k-th probe is the origin plus k times the step. */
  lemma {:induction false} ProbeIsOffset(origin: Vec, v: Vec, k: nat)
    ensures Probe(origin, v, k) == Vec(origin.x + k * v.x, origin.y + k * v.y)
  {
    if k > 0 {
      ProbeIsOffset(origin, v, k - 1);
      assert (k - 1) * v.x + v.x == k * v.x;
      assert (k - 1) * v.y + v.y == k * v.y;
    }
  }

  /** Advancing once and then k more times is advancing k + 1 times. */
  lemma {:induction false} ProbeShift(origin: Vec, v: Vec, k: nat)
    ensures Probe(Add(origin, v), v, k) == Probe(origin, v, k + 1)
  {
    if k > 0 {
      ProbeShift(origin, v, k - 1);
    }
  }

  /** Along a non-zero step, different offsets reach different tiles. */
  lemma ProbesDistinct(origin: Vec, v: Vec, i: nat, j: nat)
    requires v != Vec(0, 0)
    requires i != j
    ensures Probe(origin, v, i) != Probe(origin, v, j)
  {
    ProbeIsOffset(origin, v, i);
    ProbeIsOffset(origin, v, j);
    assert Probe(origin, v, i).x - Probe(origin, v, j).x == (i - j) * v.x;
    assert Probe(origin, v, i).y - Probe(origin, v, j).y == (i - j) * v.y;
  }
}
