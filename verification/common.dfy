/** Small failure-compatible wrappers shared by every module of the model. */
module Common {

  /** Python's `None` / a present value. */
  datatype Option<+T> = None | Some(value: T) {
    predicate IsFailure() { None? }

    function PropagateFailure<U>(): Option<U>
      requires None?
    {
      None
    }

    function Extract(): T
      requires Some?
    {
      value
    }
  }

  /** A value or the exception that a Python call would have raised instead. */
  datatype Result<+T, +E> = Ok(value: T) | Err(error: E) {
    predicate IsFailure() { Err? }

    function PropagateFailure<U>(): Result<U, E>
      requires Err?
    {
      Err(error)
    }

    function Extract(): T
      requires Ok?
    {
      value
    }
  }

  /** Number of elements of `s` that satisfy `p`. */
  function Count<T>(s: seq<T>, p: T -> bool): (n: nat)
    ensures n <= |s|
  {
    if |s| == 0 then 0 else Count(s[..|s| - 1], p) + (if p(s[|s| - 1]) then 1 else 0)
  }

  /** Counting distributes over concatenation. */
  lemma {:induction false} CountAppend<T>(a: seq<T>, b: seq<T>, p: T -> bool)
    ensures Count(a + b, p) == Count(a, p) + Count(b, p)
    decreases |b|
  {
    if |b| == 0 {
      assert a + b == a;
    } else {
      var b' := b[..|b| - 1];
      assert (a + b)[..|a + b| - 1] == a + b';
      assert (a + b)[|a + b| - 1] == b[|b| - 1];
      CountAppend(a, b', p);
    }
  }

  /** `(i + 1) % n` for an index inside a ring of `n` slots: the next slot, wrapping
      from the last back to the first. */
  lemma StepWraps(i: nat, n: nat)
    requires i < n
    ensures (i + 1) % n == if i + 1 == n then 0 else i + 1
  {
  }

  /** The slot `d` steps after slot `i` in a ring of `n` slots, for `d <= n`. */
  function Ahead(i: nat, d: nat, n: nat): (j: nat)
    requires i < n && d <= n
    ensures d < n ==> j < n
    ensures d == n ==> j == i
    ensures j <= i + d
  {
    if i + d < n then i + d else i + d - n
  }

  /** `Ahead` is stepping `d` slots modulo the ring size. */
  lemma AheadIsMod(i: nat, d: nat, n: nat)
    requires i < n && d <= n
    ensures Ahead(i, d, n) == (i + d) % n
  {
    FirstTwoLaps(i + d, n);
  }

  /** A slot in the first two laps of a ring of `n` slots. */
  lemma FirstTwoLaps(x: int, n: int)
    requires 0 <= x < 2 * n
    ensures x % n == if x < n then x else x - n
  {
  }
}
