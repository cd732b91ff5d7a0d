/** The business entities shared by both caches, the services and the workers. */
module Domain {
  datatype Option<+T> = None | Some(value: T)

  /** Order and courier ids are signed 64-bit integers. */
  type Id = i: int | -0x8000_0000_0000_0000 <= i < 0x8000_0000_0000_0000

  /** A reading of the service's clock, in whole milliseconds. */
  type Time = int

  /** The zero time: as an expiry it means "never" where the code tests for it. */
  const ZERO_TIME: Time := 0

  /** Coordinates are carried around but never computed with. */
  datatype Coordinates = Coordinates(latitude: real, longitude: real)

  datatype CourierLocation = CourierLocation(
    orderId: Id,
    courierId: Id,
    coordinates: Coordinates,
    updatedAt: Time
  )

  datatype Order = Order(id: Id, courierId: Id)

  /** Something that happened, and when. */
  datatype Dated<+E> = Dated(at: Time, event: E)

  /** Some(x) with its own value kept only while `alive`. */
  function Only<T>(alive: bool, x: T): Option<T> {
    if alive then Some(x) else None
  }

  lemma SubsetSize<T>(a: set<T>, b: set<T>)
    requires a <= b
    ensures |a| <= |b|
  {
    assert b == a + (b - a);
  }
}
