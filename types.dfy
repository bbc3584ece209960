// The values the RANSAC engine works on: points, candidate models and the
// per-worker assignment, plus the floating-point operations of the program,
// which this model keeps uninterpreted.
module Types {

  /** A C `double`, kept as its 64-bit pattern; the model never computes with it. */
  type Double = bv64

  /** One observation of the data set: number of rooms and price. */
  datatype Point = Point(rooms: Double, price: Double)

  /** A candidate line `price = slope * rooms + intercept` and its inlier count. */
  datatype Model = Model(slope: Double, intercept: Double, inliers: int)

  /**
   * The part of a worker's ThreadData that differs between workers: where its
   * slice of the shared models buffer starts and how many models it produces.
   * The point store, its size and epsilon are the same for every worker.
   */
  datatype ThreadData = ThreadData(offset: nat, iterations: nat)

  /**
   * The floating-point steps of candidate generation and scoring:
   *  - slope(p1, p2)              (p2.price - p1.price) / (p2.rooms - p1.rooms)
   *  - intercept(p1, slope)       p1.price - slope * p1.rooms
   *  - near(p, slope, b, eps)     |slope * p.rooms - p.price + b| / sqrt(1 + slope^2) < eps
   * Any functions of these shapes may be supplied; nothing is assumed of them.
   */
  datatype FloatOps = FloatOps(
    slope: (Point, Point) -> Double,
    intercept: (Point, Double) -> Double,
    near: (Point, Double, Double, Double) -> bool
  )
}
