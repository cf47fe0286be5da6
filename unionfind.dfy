/**
 * The `union_find` crate's `QuickUnionUf`, which the board keeps one of per colour.  The
 * crate is not part of this model; it is represented by its contract: a partition of
 * `0..n` in which `find` names the class of an element, `union` merges two classes and
 * nothing else.  The model stores a class representative per element (quick-find); path
 * compression and union by size are invisible through `find` equality and are left out.
 */
module UnionFind {
  datatype QuickUnionUf = QuickUnionUf(rep: seq<nat>)

  function Size(uf: QuickUnionUf): nat {
    |uf.rep|
  }

  /** `find`: the class of element `i`. */
  function Find(uf: QuickUnionUf, i: nat): nat
    requires i < Size(uf)
  {
    uf.rep[i]
  }

  predicate Same(uf: QuickUnionUf, i: nat, j: nat)
    requires i < Size(uf) && j < Size(uf)
  {
    Find(uf, i) == Find(uf, j)
  }

  /** `QuickUnionUf::new(n)`: every element alone in its class. */
  function New(n: nat): (uf: QuickUnionUf)
    ensures Size(uf) == n
    ensures forall i, j :: 0 <= i < n && 0 <= j < n ==> (Same(uf, i, j) <==> i == j)
  {
    QuickUnionUf(seq(n, i => i))
  }

  /** `union(a, b)`: the classes of `a` and `b` become one; no other classes change. */
  function Union(uf: QuickUnionUf, a: nat, b: nat): (r: QuickUnionUf)
    requires a < Size(uf) && b < Size(uf)
    ensures Size(r) == Size(uf)
    ensures Same(r, a, b)
    ensures forall i, j :: 0 <= i < Size(uf) && 0 <= j < Size(uf) ==>
      (Same(r, i, j) <==>
        Same(uf, i, j) || (Same(uf, i, a) && Same(uf, j, b)) || (Same(uf, i, b) && Same(uf, j, a)))
  {
    var ra, rb := uf.rep[a], uf.rep[b];
    QuickUnionUf(seq(|uf.rep|, i requires 0 <= i < |uf.rep| =>
      if uf.rep[i] == ra then rb else uf.rep[i]))
  }
}
