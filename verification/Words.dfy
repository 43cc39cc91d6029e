/** Machine words and the small containers the other modules share. */
module Words {

  const TWO32: nat := 0x1_0000_0000
  const TWO64: nat := 0x1_0000_0000_0000_0000

  type u32 = n: nat | n < 0x1_0000_0000
  type u64 = n: nat | n < 0x1_0000_0000_0000_0000

  /** Conversion to an unsigned word keeps the low bits. */
  function Wrap32(n: int): u32 {
    n % 0x1_0000_0000
  }

  function Wrap64(n: int): u64 {
    n % 0x1_0000_0000_0000_0000
  }

  /** Reducing early does not change a sum of words. */
  lemma WrapAdd(a: int, b: int)
    ensures Wrap64(Wrap64(a) + b) == Wrap64(a + b)
  {
    var m := 0x1_0000_0000_0000_0000;
    var y := Wrap64(a) + b;
    assert a == (a / m) * m + Wrap64(a);
    assert y == (y / m) * m + Wrap64(y);
    assert a + b == (y / m + a / m) * m + Wrap64(y);
  }

  lemma WrapAdd32(a: int, b: int)
    ensures Wrap32(Wrap32(a) + b) == Wrap32(a + b)
  {
    var m := 0x1_0000_0000;
    var y := Wrap32(a) + b;
    assert a == (a / m) * m + Wrap32(a);
    assert y == (y / m) * m + Wrap32(y);
    assert a + b == (y / m + a / m) * m + Wrap32(y);
  }

  /** Signed integer division as C defines it: the quotient is truncated toward zero. */
  function CDiv(a: int, b: int): int
    requires b > 0
  {
    if a >= 0 then a / b else -((-a) / b)
  }

  datatype Option<+T> = None | Some(value: T)

  function Listed<T>(x: Option<T>): seq<T> {
    match x
    case None => []
    case Some(v) => [v]
  }

  /** Positions below `n`, in order. */
  ghost predicate Increasing(ix: seq<nat>, n: nat) {
    (forall i :: 0 <= i < |ix| ==> ix[i] < n) && forall i, j :: 0 <= i < j < |ix| ==> ix[i] < ix[j]
  }

  /** One more position to choose or not. */
  lemma SelectNext(ix: seq<nat>, n: nat, chosen: bool)
    requires Increasing(ix, n)
    ensures var ix' := ix + if chosen then [n] else [];
            Increasing(ix', n + 1) && (n in ix' <==> chosen) && forall i :: 0 <= i < n ==> (i in ix' <==> i in ix)
  {
    var ix' := ix + if chosen then [n] else [];
    assert forall i :: 0 <= i < |ix| ==> ix'[i] == ix[i];
    forall i | 0 <= i < n && i in ix
      ensures i in ix'
    {
      var k :| 0 <= k < |ix| && ix[k] == i;
      assert ix'[k] == i;
    }
  }

  /** Exactly the positions below `n` at which `q` holds, in order. */
  ghost predicate Selects(ix: seq<nat>, n: nat, q: nat -> bool) {
    Increasing(ix, n) && forall i: nat {:trigger q(i)} :: i < n ==> (i in ix <==> q(i))
  }

  lemma SelectsNext(ix: seq<nat>, n: nat, q: nat -> bool)
    requires Selects(ix, n, q)
    ensures Selects(ix + if q(n) then [n] else [], n + 1, q)
  {
    SelectNext(ix, n, q(n));
  }

  /** The number of positions below `n` at which `q` holds. */
  function CountWhere(q: nat -> bool, n: nat): nat {
    if n == 0 then 0 else CountWhere(q, n - 1) + if q(n - 1) then 1 else 0
  }

  lemma {:induction false} SameCount(q: nat -> bool, q': nat -> bool, n: nat)
    requires forall k: nat :: k < n ==> q(k) == q'(k)
    ensures CountWhere(q, n) == CountWhere(q', n)
  {
    if n == 0 {
    } else {
      SameCount(q, q', n - 1);
    }
  }

  lemma {:induction false} StepByStep(q: nat -> bool, n: nat)
    requires q(0) && forall k: nat :: k < n && q(k) ==> q(k + 1)
    ensures q(n)
  {
    if n == 0 {
    } else {
      StepByStep(q, n - 1);
    }
  }

  ghost predicate Without(s: string, c: char) {
    forall i :: 0 <= i < |s| ==> s[i] != c
  }
}
