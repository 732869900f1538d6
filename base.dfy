/**
 * Value types shared by every part of the model: an Option for the nulls
 * and missing extras of the Android APIs, Java's 32-bit `int`, and Java's
 * truncating integer division and remainder.
 */
module Base {

  /** A Java reference that may be null, or an extra that may be absent. */
  datatype Option<+T> = None | Some(value: T)

  /** The outcome of a step that either yields a value or stops with a reason. */
  datatype Result<+T, +E> = Success(value: T) | Failure(error: E)

  const TWO_POW_31: int := 0x8000_0000
  const TWO_POW_32: int := 0x1_0000_0000

  /** Java's `int`. */
  type int32 = x: int | -TWO_POW_31 <= x < TWO_POW_31

  predicate InInt32(x: int) {
    -TWO_POW_31 <= x < TWO_POW_31
  }

  /**
   * The value Java's `int` arithmetic (or an `(int)` cast of a `long`)
   * produces for the mathematical result `x`: the unique `int` congruent
   * to `x` modulo 2^32.
   */
  function Wrap32(x: int): (r: int32)
    ensures (x - r) % TWO_POW_32 == 0
    ensures InInt32(x) ==> r == x
  {
    var m := x % TWO_POW_32;
    if m < TWO_POW_31 then m else m - TWO_POW_32
  }

  /** Java's `/` on integers: the quotient truncated toward zero. */
  function JavaDiv(a: int, b: int): (q: int)
    requires b > 0
    ensures 0 <= a ==> 0 <= a - q * b < b
    ensures a < 0 ==> -b < a - q * b <= 0
  {
    if a >= 0 then a / b else -((-a) / b)
  }

  /** Java's `%` on integers: the remainder takes the sign of the dividend. */
  function JavaRem(a: int, b: int): (r: int)
    requires b > 0
    ensures r == a - JavaDiv(a, b) * b
    ensures 0 <= a ==> 0 <= r < b
    ensures a < 0 ==> -b < r <= 0
  {
    if a >= 0 then a % b else -((-a) % b)
  }

  /** Two request codes differing by a non-zero amount below 2^32 never wrap onto each other. */
  lemma {:induction false} Wrap32Distinct(x: int, d: int)
    requires 0 < d < TWO_POW_32
    ensures Wrap32(x) != Wrap32(x + d)
  {
  }

  /** Values congruent modulo 2^32 wrap to the same `int`. */
  lemma {:induction false} WrapCongruent(x: int, y: int)
    requires (x - y) % TWO_POW_32 == 0
    ensures Wrap32(x) == Wrap32(y)
  {
    var k := (x - y) / TWO_POW_32;
    assert x == y + k * TWO_POW_32;
    assert x % TWO_POW_32 == y % TWO_POW_32;
  }

  // ---------------------------------------------------------------------------
  // A loop that stops at the first element it cannot handle

  /** The length of the longest prefix of `xs` whose every element satisfies `ok`. */
  function PrefixWhile<T>(xs: seq<T>, ok: T -> bool): (k: nat)
    ensures k <= |xs|
    decreases |xs|
  {
    if xs == [] || !ok(xs[0]) then 0 else 1 + PrefixWhile(xs[1..], ok)
  }

  /** Every element inside the prefix satisfies `ok`, and the one just past it does not. */
  lemma {:induction false} PrefixWhileSpec<T>(xs: seq<T>, ok: T -> bool)
    ensures forall i :: 0 <= i < PrefixWhile(xs, ok) ==> ok(xs[i])
    ensures PrefixWhile(xs, ok) < |xs| ==> !ok(xs[PrefixWhile(xs, ok)])
    decreases |xs|
  {
    if xs != [] && ok(xs[0]) {
      PrefixWhileSpec(xs[1..], ok);
      forall i | 0 <= i < PrefixWhile(xs, ok)
        ensures ok(xs[i])
      {
        if i > 0 {
          assert xs[i] == xs[1..][i - 1];
        }
      }
    }
  }

  /** Conversely, the first index that fails (or the length) is the prefix. */
  lemma {:induction false} PrefixWhileAt<T>(xs: seq<T>, ok: T -> bool, k: nat)
    requires k <= |xs|
    requires forall i :: 0 <= i < k ==> ok(xs[i])
    requires k < |xs| ==> !ok(xs[k])
    ensures PrefixWhile(xs, ok) == k
    decreases |xs|
  {
    if k > 0 {
      assert ok(xs[0]);
      forall i | 0 <= i < k - 1
        ensures ok(xs[1..][i])
      {
        assert xs[1..][i] == xs[i + 1];
      }
      if k - 1 < |xs[1..]| {
        assert xs[1..][k - 1] == xs[k];
      }
      PrefixWhileAt(xs[1..], ok, k - 1);
    }
  }

  /** The results of `f` on the elements of `xs` up to the first one where it has none. */
  function ParsedWhile<T, U>(xs: seq<T>, f: T -> Option<U>): (r: seq<U>)
    ensures |r| <= |xs|
    decreases |xs|
  {
    if xs == [] || f(xs[0]).None? then [] else [f(xs[0]).value] + ParsedWhile(xs[1..], f)
  }

  /** When `f` has a result for every element, there is one result per element. */
  lemma {:induction false} ParsedWhileTotal<T, U>(xs: seq<T>, f: T -> Option<U>)
    requires forall i :: 0 <= i < |xs| ==> f(xs[i]).Some?
    ensures |ParsedWhile(xs, f)| == |xs|
    ensures forall i :: 0 <= i < |xs| ==> f(xs[i]) == Some(ParsedWhile(xs, f)[i])
    decreases |xs|
  {
    if xs != [] {
      forall i | 0 <= i < |xs[1..]| ensures f(xs[1..][i]).Some? {
        assert xs[1..][i] == xs[i + 1];
      }
      ParsedWhileTotal(xs[1..], f);
    }
    ParsedWhileSpec(xs, f);
  }

  /** Each result is `f` of the element at its place, and the element just past them has none. */
  lemma {:induction false} ParsedWhileSpec<T, U>(xs: seq<T>, f: T -> Option<U>)
    ensures forall i :: 0 <= i < |ParsedWhile(xs, f)| ==> f(xs[i]) == Some(ParsedWhile(xs, f)[i])
    ensures |ParsedWhile(xs, f)| < |xs| ==> f(xs[|ParsedWhile(xs, f)|]).None?
    decreases |xs|
  {
    if xs != [] && f(xs[0]).Some? {
      ParsedWhileSpec(xs[1..], f);
      forall i | 0 <= i < |ParsedWhile(xs, f)|
        ensures f(xs[i]) == Some(ParsedWhile(xs, f)[i])
      {
        if i > 0 {
          assert xs[i] == xs[1..][i - 1];
        }
      }
    }
  }

  /**
   * A `java.util.ArrayList` that more than one object may hold a reference
   * to: `clear`, `addAll`, `add` and `remove(int)` update it in place.
   */
  class JavaList<T> {
    var items: seq<T>

    constructor ()
      ensures items == []
    {
      items := [];
    }

    method Clear()
      modifies this
      ensures items == []
    {
      items := [];
    }

    /** `addAll` copies `other` first, so adding a list to itself doubles it. */
    method AddAll(other: JavaList<T>)
      modifies this
      ensures items == old(items) + old(other.items)
    {
      items := items + other.items;
    }

    method Add(x: T)
      modifies this
      ensures items == old(items) + [x]
    {
      items := items + [x];
    }

    method RemoveAt(i: int)
      requires 0 <= i < |items|
      modifies this
      ensures items == old(items[..i]) + old(items[i + 1..])
    {
      items := items[..i] + items[i + 1..];
    }
  }
}
