/** The few facts about products and quotients the layout needs, stated once. */
module Arith {
  lemma MulAdd(a: int, b: int, c: int)
    ensures (a + b) * c == a * c + b * c
  {
  }

  lemma MulMono(a: int, b: int, c: nat)
    requires a <= b
    ensures a * c <= b * c
  {
  }

  /** Steps of at least `size` keep intervals of length `size` apart. */
  lemma StepApart(a: nat, b: nat, size: nat, step: nat)
    requires a < b && size <= step
    ensures a * step + size <= b * step
  {
    MulAdd(a, 1, step);
    MulMono(a + 1, b, step);
  }

  lemma DivMod(n: int, d: nat)
    requires d > 0
    ensures n == (n / d) * d + n % d && 0 <= n % d < d
  {
  }

  lemma DivModUnique(n: nat, d: nat, q: nat, r: nat)
    requires d > 0 && n == q * d + r && r < d
    ensures n / d == q && n % d == r
  {
    DivMod(n, d);
    if n / d < q { StepApart(n / d, q, d, d); }
    if n / d > q { StepApart(q, n / d, d, d); }
  }

  /** a * b <= n is what n / b tells about a. */
  lemma DivBound(a: nat, n: nat, b: nat)
    requires b > 0
    ensures a * b <= n <==> a <= n / b
  {
    DivMod(n, b);
    if a <= n / b { MulMono(a, n / b, b); } else { StepApart(n / b, a, b, b); }
  }

  lemma CeilDiv(n: nat, d: nat)
    requires d > 0
    ensures var c := n / d + (if n % d > 0 then 1 else 0); n <= c * d && (n > 0 ==> c > 0 && (c - 1) * d < n)
  {
  }
}
