// Signs of products, which the solver does not always find by itself.
module Arithmetic {

  lemma MulNonneg(a: int, b: int)
    requires 0 <= a && 0 <= b
    ensures 0 <= a * b
  {
  }

  lemma SignOfProduct(w: int, v: int)
    requires 0 < w
    ensures 0 <= w * v <==> 0 <= v
    ensures 0 < w * v <==> 0 < v
  {
  }
}
