/** Package helpers: a second copy of the order-number check. It is proved
    against the same specification as `Orders.LuhnCheck`, so the two copies
    give the same verdict on every string. */
module Helpers {
  import opened Base
  import Luhn
  import Orders

  method LuhnCheck(ordernumber: GoString) returns (ok: bool)
    ensures ok == Luhn.Accepts(ordernumber)
  {
    var sum := 0;
    var digit := 0;
    var even := false;
    var i := |ordernumber| - 1;
    assert ordernumber[..i + 1] == ordernumber;
    while i >= 0
      invariant -1 <= i < |ordernumber|
      invariant sum + Luhn.LoopSum(ordernumber[..i + 1], even) == Luhn.LoopSum(ordernumber, false)
    {
      assert ordernumber[..i + 1][..i] == ordernumber[..i];
      digit := (ordernumber[i] as int - '0' as int) % 256;
      if even {
        digit := digit * 2;
        if digit > 9 {
          digit := digit - 9;
        }
      }
      sum := sum + digit;
      even := !even;
      i := i - 1;
    }
    assert ordernumber[..0] == [];
    ok := sum % 10 == 0;
  }

  /** The two copies agree: on every string, this check and
      `Orders.LuhnCheck` return the same verdict. */
  method SameVerdict(s: GoString) returns (helpers: bool, orders: bool)
    ensures helpers == Luhn.Accepts(s) && orders == Luhn.Accepts(s)
    ensures helpers == orders
  {
    helpers := LuhnCheck(s);
    orders := Orders.LuhnCheck(s);
  }
}
