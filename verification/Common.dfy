/** Small types and arithmetic shared by the models. */
module Common {
  datatype Option<+T> = None | Some(value: T)

  const U64_RANGE := 0x1_0000_0000_0000_0000

  type byte = b: nat | b < 256

  /** Unsigned subtraction that stops at zero. */
  function SaturatingSub(a: nat, b: nat): nat {
    if a >= b then a - b else 0
  }

  function Min(a: nat, b: nat): nat {
    if a <= b then a else b
  }

  lemma {:induction false} Reassociate<T>(a: seq<T>, b: seq<T>, c: seq<T>)
    ensures a + (b + c) == (a + b) + c
  {
  }
}
