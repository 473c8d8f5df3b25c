/** Regrouping a concatenation of texts, for the readers and renderers that take it apart. */
module Concat {
  /** `(p + q) + r` is `p + (q + r)`, stated once so that proofs can ask for it by name. */
  lemma Regroup(p: string, q: string, r: string)
    ensures (p + q) + r == p + (q + r)
  {
  }

  /** Five texts in a row, regrouped from the right: the shape of a template with two slots. */
  lemma Regroup5(a: string, b: string, c: string, d: string, e: string)
    ensures a + b + c + d + e == a + b + (c + d + e)
    ensures a + b + c + d + e == a + (b + (c + (d + e)))
  {
    Regroup(a + b + c, d, e);
    Regroup(a + b, c, d + e);
    Regroup(c, d, e);
    Regroup(a, b, c + (d + e));
  }
}
