/** Points, and the value of a body segment sample that distances and comparisons depend on. */
module Capsules {
  datatype Point = Point(x: real, y: real, z: real) {
    function Plus(q: Point): Point { Point(x + q.x, y + q.y, z + q.z) }
    function Minus(q: Point): Point { Point(x - q.x, y - q.y, z - q.z) }
    function Times(s: real): Point { Point(s * x, s * y, s * z) }
    function Dot(q: Point): real { x * q.x + y * q.y + z * q.z }
  }

  type Distance = d: real | d >= 0.0

  /** A non-empty sample: the points within `error + thickness` of the segment from head to tail.
      These are the fields by which samples are compared for equality. */
  datatype Capsule = Capsule(segment: nat, head: Point, tail: Point, error: real, thickness: real) {
    function Reach(): real { error + thickness }
  }

  /** The two distances a barrier section is built on: how far another human sample may reach out of
      the reference one, and how close a robot sample gets to a human sample. */
  datatype Metric = Metric(humanHuman: (Capsule, Capsule) -> Distance, humanRobot: (Capsule, Capsule) -> Distance) {
    /** The bound that makes reuse sound, for one triple of samples. */
    predicate ReuseSound(reference: Capsule, other: Capsule, robot: Capsule) {
      humanRobot(reference, robot) > humanHuman(reference, other) ==> humanRobot(other, robot) > 0.0
    }
  }

  datatype Option<+T> = None | Some(value: T)
}
