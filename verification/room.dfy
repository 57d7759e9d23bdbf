/** Rooms and their per-category price formulas. */
module Rooms {

  /** The three room classes; the class decides the price formula. */
  datatype Category = Standard | Suite | Premium

  /** A catalogue room. Its fields are fixed at construction: the source
      exposes them through read-only properties and has no setters. */
  datatype Room = Room(id: int, name: string, baseRate: real, category: Category)

  const SuiteMultiplier: real := 1.15
  const PremiumMultiplier: real := 1.30
  const ConciergeFee: real := 50.0

  /** Total price of a stay of `nights` nights in `room`. Non-positive night
      counts cost nothing; otherwise Standard is linear in the nights, Suite
      adds 15%, and Premium adds 30% plus a concierge fee charged once per
      stay. */
  function Price(room: Room, nights: int): (p: real)
    ensures nights <= 0 ==> p == 0.0
    ensures room.baseRate >= 0.0 ==> p >= 0.0
    ensures nights > 0 && room.category == Standard ==> p == room.baseRate * (nights as real)
    ensures nights > 0 && room.category == Suite ==> p == room.baseRate * (nights as real) * 1.15
    ensures nights > 0 && room.category == Premium ==> p == room.baseRate * (nights as real) * 1.30 + 50.0
  {
    if nights <= 0 then 0.0
    else
      var linear := room.baseRate * (nights as real);
      match room.category
      case Standard => linear
      case Suite => linear * SuiteMultiplier
      case Premium => linear * PremiumMultiplier + ConciergeFee
  }

  /** Splitting a stay of `a + b` nights into two stays of `a` and `b` nights
      costs the same for Standard and Suite rooms; for a Premium room the
      split pays the concierge fee twice, so the fee is per stay, not per
      night. */
  lemma PriceSplitStay(room: Room, a: int, b: int)
    requires a > 0 && b > 0
    ensures room.category != Premium ==> Price(room, a + b) == Price(room, a) + Price(room, b)
    ensures room.category == Premium ==> Price(room, a + b) + ConciergeFee == Price(room, a) + Price(room, b)
  {
    var ra, rb := a as real, b as real;
    assert ((a + b) as real) == ra + rb;
    assert room.baseRate * (ra + rb) == room.baseRate * ra + room.baseRate * rb;
  }

  /** With a non-negative base rate, a longer stay never costs less. */
  lemma PriceMonotoneInNights(room: Room, n1: int, n2: int)
    requires room.baseRate >= 0.0
    requires n1 <= n2
    ensures Price(room, n1) <= Price(room, n2)
  {
    if n1 > 0 {
      var d := (n2 - n1) as real;
      assert (n2 as real) == (n1 as real) + d;
      assert room.baseRate * (n2 as real) == room.baseRate * (n1 as real) + room.baseRate * d;
      assert room.baseRate * d >= 0.0;
    }
  }

  /** For equal base rate and night count, the categories are ordered by
      surcharge: Standard costs least, Premium most. */
  lemma CategoryPriceOrder(id: int, name: string, rate: real, nights: int)
    requires rate >= 0.0
    ensures Price(Room(id, name, rate, Standard), nights) <= Price(Room(id, name, rate, Suite), nights)
    ensures Price(Room(id, name, rate, Suite), nights) <= Price(Room(id, name, rate, Premium), nights)
  {
    if nights > 0 {
      assert rate * (nights as real) >= 0.0;
    }
  }

  /** The reference figures for a base rate of 100 and three nights. */
  lemma PriceExamples(id: int, name: string)
    ensures Price(Room(id, name, 100.0, Standard), 3) == 300.0
    ensures Price(Room(id, name, 100.0, Suite), 3) == 345.0
    ensures Price(Room(id, name, 100.0, Premium), 3) == 440.0
  {
  }
}
