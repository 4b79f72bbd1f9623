/** One market price: a current value kept between a floor and a ceiling. */
module Prices {
  import opened Comodities

  function Min(x: int, y: int): int { if x <= y then x else y }
  function Max(x: int, y: int): int { if x <= y then y else x }

  /** `x.max(lo).min(hi)`: raise to the floor, then cut at the ceiling. */
  function Clamp(x: int, lo: int, hi: int): (r: int)
    ensures lo <= hi ==> lo <= r <= hi
    ensures lo <= x <= hi ==> r == x
    ensures r <= hi
  {
    Min(Max(x, lo), hi)
  }

  /** `ComodityPrice`: the band and the current price of one commodity. The
      source's struct is `Copy` and lives inline in the market array, so it is
      a value here; `inflate` and `deflate` give the value that replaces the
      old one in its slot. */
  datatype ComodityPrice = ComodityPrice(min: U32, max: U32, current: U32) {

    /** `ComodityPrice::new`: the price starts on its floor. */
    static function New(min: U32, max: U32): (p: ComodityPrice)
      ensures p.min == min && p.max == max && p.current == min
      ensures min <= max ==> p.InBand()
    {
      ComodityPrice(min, max, min)
    }

    /** `ComodityPrice::default()`: all zero. */
    static function Default(): (p: ComodityPrice)
      ensures p.min == 0 && p.max == 0 && p.current == 0
    {
      ComodityPrice(0, 0, 0)
    }

    predicate InBand()
    {
      min <= current <= max
    }

    /** `inflate`, for an addition that fits in `u32`: the band stays, a
        well-formed band is respected, and the sum is cut at the ceiling. */
    function Inflate(amount: U32): (p: ComodityPrice)
      requires current + amount < U32_BOUND
      ensures p.min == min && p.max == max
      ensures min <= max ==> p.InBand()
      ensures min <= current ==> p.current == Min(current + amount, max)
      ensures InBand() ==> current <= p.current
      ensures current + amount >= max ==> p.current == max
    {
      this.(current := Clamp(current + amount, min, max))
    }

    /** `deflate`, for a subtraction that does not underflow: the band stays, a
        well-formed band is respected, and the difference is raised to the
        floor. */
    function Deflate(amount: U32): (p: ComodityPrice)
      requires amount <= current
      ensures p.min == min && p.max == max
      ensures min <= max ==> p.InBand()
      ensures min <= max && current <= max ==> p.current == Max(current - amount, min)
      ensures InBand() ==> p.current <= current
      ensures min <= max && current - amount <= min ==> p.current == min
    {
      this.(current := Clamp(current - amount, min, max))
    }
  }
}
