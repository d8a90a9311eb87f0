/** What the other modules share: failure-carrying results, and the numeric conversions of Rust. */
module Common {

  datatype Option<+T> = None | Some(value: T) {
    function GetOr(default: T): T {
      match this
      case None => default
      case Some(v) => v
    }
  }

  datatype Result<+T, +E> = Success(value: T) | Failure(error: E)

  const U32_LIMIT := 0x1_0000_0000
  const U16_LIMIT := 0x1_0000

  newtype u8 = x: int | 0 <= x < 256
  type u16 = x: int | 0 <= x < U16_LIMIT
  type u32 = x: int | 0 <= x < U32_LIMIT
  type i16 = x: int | -0x8000 <= x < 0x8000

  function Product(x: real, y: real): real {
    x * y
  }

  function Max(x: real, y: real): real {
    if x < y then y else x
  }

  function Min(x: nat, y: nat): nat {
    if x < y then x else y
  }

  /** Rounding toward zero, which is what a Rust `as` cast from a float does. */
  function Truncated(x: real): int {
    if x >= 0.0 then x.Floor else -((-x).Floor)
  }

  /** A Rust float-to-integer cast saturates at the bounds of the target type. */
  function Clamped(x: int, low: int, high: int): int {
    if x < low then low else if high < x then high else x
  }

  /** The concatenation of a sequence of pieces, in order. */
  function Concat<T>(pieces: seq<seq<T>>): seq<T> {
    if pieces == [] then [] else pieces[0] + Concat(pieces[1..])
  }

  lemma {:induction false} ConcatAppend<T>(pieces: seq<seq<T>>, last: seq<T>)
    ensures Concat(pieces + [last]) == Concat(pieces) + last
  {
    if pieces == [] {
      assert pieces + [last] == [last];
      assert Concat([last]) == last + Concat<T>([]);
    } else {
      assert (pieces + [last])[1..] == pieces[1..] + [last];
      ConcatAppend(pieces[1..], last);
    }
  }

  lemma ConcatNext<T>(pieces: seq<seq<T>>, i: nat)
    requires i < |pieces|
    ensures Concat(pieces[..i + 1]) == Concat(pieces[..i]) + pieces[i]
  {
    assert pieces[..i + 1] == pieces[..i] + [pieces[i]];
    ConcatAppend(pieces[..i], pieces[i]);
  }

  lemma {:induction false} ConcatSplit<T>(pieces: seq<seq<T>>, i: nat)
    requires i <= |pieces|
    ensures Concat(pieces) == Concat(pieces[..i]) + Concat(pieces[i..])
  {
    if i > 0 {
      ConcatSplit(pieces[1..], i - 1);
      assert pieces[..i][1..] == pieces[1..][..i - 1];
      assert pieces[i..] == pieces[1..][i - 1..];
    }
  }
}
