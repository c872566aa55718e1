/** Facts about sequences and sets that several modules lean on. */
module Collections {
  lemma Assoc<T>(a: seq<T>, b: seq<T>, c: seq<T>)
    ensures (a + b) + c == a + (b + c)
  {
  }

  lemma SubsetCount<T>(a: set<T>, b: set<T>)
    requires a <= b
    ensures |a| <= |b|
  {
    assert b == a + (b - a);
  }

  function Repeat<T>(x: T, n: nat): (r: seq<T>)
    ensures |r| == n && forall y <- r :: y == x
  {
    if n == 0 then [] else Repeat(x, n - 1) + [x]
  }

  lemma RepeatInit<T>(x: T, n: nat)
    requires n > 0
    ensures Repeat(x, n)[..n - 1] == Repeat(x, n - 1) && Repeat(x, n)[n - 1] == x
  {
  }

  lemma {:induction false} RepeatTail<T>(x: T, n: nat)
    requires n > 0
    ensures Repeat(x, n)[1..] == Repeat(x, n - 1) && Repeat(x, n)[0] == x
  {
    if n > 1 {
      RepeatTail(x, n - 1);
      assert Repeat(x, n)[1..] == Repeat(x, n - 1)[1..] + [x];
    }
  }

  /** `f(0) + f(1) + ...`, `n` of them. */
  function Total(f: nat -> real, n: nat): real {
    if n == 0 then 0.0 else Total(f, n - 1) + f(n - 1)
  }

  lemma {:induction false} SameTotal(f: nat -> real, g: nat -> real, n: nat)
    requires forall i: nat :: i < n ==> f(i) == g(i)
    ensures Total(f, n) == Total(g, n)
  {
    if n > 0 {
      SameTotal(f, g, n - 1);
    }
  }

  lemma {:induction false} NothingBeyond(f: nat -> real, m: nat, n: nat)
    requires m <= n && forall i: nat :: m <= i < n ==> f(i) == 0.0
    ensures Total(f, n) == Total(f, m)
  {
    if m < n {
      NothingBeyond(f, m, n - 1);
    }
  }
}
