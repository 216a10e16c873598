/** What the programs take from outside: random numbers and the time. */
module Environment {

  /** fake.IntBetween, fake.Int64Between and randomRange: any number in the range. */
  method IntBetween(lo: int, hi: int) returns (n: int)
    requires lo <= hi
    ensures lo <= n <= hi
  {
    n :| lo <= n <= hi;
  }

  /** The clock never runs backwards. */
  method Clock(last: int) returns (now: int)
    ensures now >= last
  {
    now :| now >= last;
  }
}
