/**
 * The escrow amount that the booking page asks the guest to approve before a
 * booking: rent for every requested night plus a percentage security deposit,
 * all in unbounded integers (JavaScript BigInt).
 */
module Escrow {

  function Abs(x: int): (m: nat)
  {
    if x < 0 then -x else x
  }

  /**
   * BigInt division `a / d`: the quotient truncated toward zero, so the
   * remainder takes the sign of the dividend (unlike Dafny's Euclidean `/`).
   */
  function TruncDiv(a: int, d: int): (q: int)
    requires d != 0
    ensures Abs(q) * Abs(d) <= Abs(a) < Abs(q) * Abs(d) + Abs(d)
    ensures q != 0 ==> ((q < 0) <==> ((a < 0) != (d < 0)))
  {
    var x, y := Abs(a), Abs(d);
    var m := x / y;
    DivBounds(x, y);
    if (a < 0) != (d < 0) then -m else m
  }

  lemma DivBounds(x: nat, y: nat)
    requires y > 0
    ensures (x / y) * y <= x < (x / y) * y + y
  {
    assert x == y * (x / y) + x % y;
  }

  /** For a non-negative dividend and a positive divisor, truncation is the floor. */
  lemma TruncDivIsFloor(a: int, d: int)
    requires a >= 0 && d > 0
    ensures TruncDiv(a, d) == a / d
  {
  }

  /** The three amounts the booking page computes. */
  datatype Quote = Quote(totalRent: nat, deposit: nat, totalRequired: nat)

  /** Rent for `nights` nights at `perNight` each. */
  function TotalRent(perNight: nat, nights: nat): (rent: nat)
  {
    perNight * nights
  }

  /**
   * The security deposit: `totalRent * percent / 100` with truncating division.
   * It is the largest amount whose hundredfold does not exceed `totalRent * percent`.
   */
  function Deposit(totalRent: nat, percent: nat): (deposit: nat)
    ensures deposit * 100 <= totalRent * percent < deposit * 100 + 100
  {
    var q := TruncDiv(totalRent * percent, 100);
    if q < 0 then 0 else q
  }

  /**
   * The quote for booking `nights` nights at `perNight`, with a security fee of
   * `percent` percent: rent, deposit, and their sum, which is what must be approved.
   */
  function QuoteFor(perNight: nat, nights: nat, percent: nat): (q: Quote)
    ensures q.totalRent == perNight * nights
    ensures q.deposit * 100 <= q.totalRent * percent < q.deposit * 100 + 100
    ensures q.totalRequired == q.totalRent + q.deposit
    ensures q.totalRequired >= q.totalRent
  {
    var rent := TotalRent(perNight, nights);
    var deposit := Deposit(rent, percent);
    Quote(rent, deposit, rent + deposit)
  }

  /** With a percent of at most 100 the deposit never exceeds the rent. */
  lemma DepositAtMostRent(totalRent: nat, percent: nat)
    requires percent <= 100
    ensures Deposit(totalRent, percent) <= totalRent
  {
    assert totalRent * percent <= totalRent * 100 by {
      MulMonotone(totalRent, totalRent, percent, 100);
    }
  }

  /** Products of naturals grow with both factors. */
  lemma MulMonotone(a: nat, b: nat, c: nat, d: nat)
    requires a <= b && c <= d
    ensures a * c <= b * d
  {
    assert a * c <= b * c;
  }

  /** The deposit is monotone non-decreasing in the rent and in the percent. */
  lemma DepositMonotone(rent1: nat, rent2: nat, percent1: nat, percent2: nat)
    requires rent1 <= rent2 && percent1 <= percent2
    ensures Deposit(rent1, percent1) <= Deposit(rent2, percent2)
  {
    MulMonotone(rent1, rent2, percent1, percent2);
  }

  /**
   * The amount to approve is monotone non-decreasing in the nightly price, the
   * number of nights and the percent.
   */
  lemma RequiredMonotone(perNight1: nat, perNight2: nat, nights1: nat, nights2: nat, percent1: nat, percent2: nat)
    requires perNight1 <= perNight2 && nights1 <= nights2 && percent1 <= percent2
    ensures QuoteFor(perNight1, nights1, percent1).totalRequired <= QuoteFor(perNight2, nights2, percent2).totalRequired
  {
    MulMonotone(perNight1, perNight2, nights1, nights2);
    DepositMonotone(perNight1 * nights1, perNight2 * nights2, percent1, percent2);
  }

  /** A listing at 100 per night, three nights, a 5 percent fee: 300 + 15 = 315. */
  lemma WorkedExample()
    ensures QuoteFor(100, 3, 5) == Quote(300, 15, 315)
  {
  }
}
