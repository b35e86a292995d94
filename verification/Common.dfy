/** Small shared vocabulary. */
module Common {
  datatype Option<+T> = None | Some(value: T)

  /** Sum of `weight` over a sequence. */
  ghost function Total<T>(weight: T -> nat, xs: seq<T>): nat {
    if xs == [] then 0 else weight(xs[0]) + Total(weight, xs[1..])
  }

  /** Replacing one element changes the total by the difference of the weights. */
  lemma {:induction false} TotalUpdate<T>(weight: T -> nat, xs: seq<T>, i: nat, x: T)
    requires i < |xs|
    ensures Total(weight, xs[i := x]) + weight(xs[i]) == Total(weight, xs) + weight(x)
  {
    if i > 0 {
      TotalUpdate(weight, xs[1..], i - 1, x);
      assert xs[i := x][1..] == xs[1..][i - 1 := x];
    } else {
      assert xs[i := x][1..] == xs[1..];
    }
  }

  /** No element weighs more than the whole. */
  lemma {:induction false} TotalBound<T>(weight: T -> nat, xs: seq<T>, i: nat)
    requires i < |xs|
    ensures weight(xs[i]) <= Total(weight, xs)
  {
    if i > 0 {
      TotalBound(weight, xs[1..], i - 1);
    }
  }

  /** If nothing weighs anything, the total is zero. */
  lemma {:induction false} TotalZero<T>(weight: T -> nat, xs: seq<T>)
    requires forall x :: x in xs ==> weight(x) == 0
    ensures Total(weight, xs) == 0
  {
    if xs != [] {
      TotalZero(weight, xs[1..]);
    }
  }

  /** Decimal notation, as in `str(n)` or `CAST(n AS TEXT)`. */
  function Decimal(n: int): string
    decreases n < 0, if n < 0 then -n else n
  {
    if n < 0 then "-" + Decimal(-n)
    else if n < 10 then [['0', '1', '2', '3', '4', '5', '6', '7', '8', '9'][n]]
    else Decimal(n / 10) + Decimal(n % 10)
  }
}
