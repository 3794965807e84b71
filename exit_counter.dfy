/** The back-press exit counter of the main screen: a Kotlin `Int` that is set
    to 2 and decremented on every back press. Reaching 1 shows a warning,
    reaching 0 finishes the screen. */
module ExitCounter {
  import opened Events

  const Int32Min: int := -0x8000_0000
  const Int32Max: int := 0x7fff_ffff

  /** A Kotlin `Int`. */
  newtype int32 = x: int | -0x8000_0000 <= x < 0x8000_0000

  /** The value the counter is reset to. */
  const Reset: int32 := 2

  /** `--exitCounter` on a 32-bit two's-complement integer: one less, modulo 2^32. */
  function Decrement(c: int32): (r: int32)
    ensures (r as int - (c as int - 1)) % 0x1_0000_0000 == 0
  {
    if c as int == Int32Min then Int32Max as int32 else c - 1
  }

  /** The effects of the `when` on the decremented counter `c`: a warning
      exactly at 1, a finish request exactly at 0, nothing otherwise. */
  function BackPressEvents(c: int32): (r: seq<Event>)
    ensures ExitWarning in r <==> c == 1
    ensures FinishRequested in r <==> c == 0
    ensures c != 0 && c != 1 ==> r == []
    ensures |r| <= 1
  {
    if c == 1 then [ExitWarning] else if c == 0 then [FinishRequested] else []
  }

  /** The counter after `n` back presses starting from `c`, and the effects
      those presses had, in order. */
  function Presses(c: int32, n: nat): (r: (int32, seq<Event>))
    ensures |r.1| <= n
    ensures forall e :: e in r.1 ==> e == ExitWarning || e == FinishRequested
    decreases n
  {
    if n == 0 then (c, [])
    else
      var next := Decrement(c);
      var rest := Presses(next, n - 1);
      (rest.0, BackPressEvents(next) + rest.1)
  }

  /** One more press extends `n` presses: it decrements the counter they left
      and appends that press's effects to theirs. */
  lemma {:induction false} PressesSnoc(c: int32, n: nat)
    ensures Presses(c, n + 1).0 == Decrement(Presses(c, n).0)
    ensures Presses(c, n + 1).1 == Presses(c, n).1 + BackPressEvents(Decrement(Presses(c, n).0))
    decreases n
  {
    if n > 0 {
      PressesSnoc(Decrement(c), n - 1);
    }
  }

  /** Once the counter is at most 0, presses only count down: until the
      counter would wrap around, they have no effect. */
  lemma {:induction false} QuietAfterFinish(c: int32, n: nat)
    requires c <= 0
    requires c as int - n >= Int32Min
    ensures Presses(c, n).0 as int == c as int - n
    ensures Presses(c, n).1 == []
    decreases n
  {
    if n > 0 {
      assert Decrement(c) == c - 1;
      QuietAfterFinish(c - 1, n - 1);
    }
  }

  /** From a reset counter, the first press warns, the second requests the
      finish, and the later presses have no effect before the counter would
      wrap around. */
  lemma PressesFromReset(n: nat)
    requires n <= 2 - Int32Min
    ensures Presses(Reset, n).0 as int == 2 - n
    ensures Presses(Reset, n).1 == [ExitWarning, FinishRequested][..if n < 2 then n else 2]
  {
    if n >= 2 {
      var tail := Presses(0, n - 2);
      assert Decrement(Reset) == 1 && Decrement(1) == 0;
      assert Presses(1, n - 1) == (tail.0, [FinishRequested] + tail.1);
      assert Presses(Reset, n) == (tail.0, [ExitWarning] + ([FinishRequested] + tail.1));
      assert [ExitWarning] + ([FinishRequested] + tail.1) == [ExitWarning, FinishRequested] + tail.1;
      QuietAfterFinish(0, n - 2);
    }
  }
}
