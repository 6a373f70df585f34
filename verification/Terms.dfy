// What a sum adds, and in which order: a tree of additions over its operands.
module Terms {

  datatype Term<A> = Leaf(a: A) | Node(left: Term<A>, right: Term<A>)

  // The operands, from the left.
  function Leaves<A>(t: Term<A>): (xs: seq<A>)
    ensures |xs| > 0
  {
    match t
    case Leaf(a) => [a]
    case Node(left, right) => Leaves(left) + Leaves(right)
  }

  function Eval<A, F>(leaf: A -> F, node: (F, F) -> F, t: Term<A>): F {
    match t
    case Leaf(a) => leaf(a)
    case Node(left, right) => node(Eval(leaf, node, left), Eval(leaf, node, right))
  }

  // ((x0 + x1) + x2) + ...
  ghost predicate LeftNested<A>(t: Term<A>) {
    t.Node? ==> t.right.Leaf? && LeftNested(t.left)
  }

  // ... + (x2 + (x1 + x0))
  ghost predicate RightNested<A>(t: Term<A>) {
    t.Node? ==> t.left.Leaf? && RightNested(t.right)
  }

  // Evaluating where terms stand for themselves gives the term back.
  lemma {:induction false} EvalFree<A(!new)>(t: Term<A>)
    ensures Eval((a: A) => Leaf(a), (x: Term<A>, y: Term<A>) => Node(x, y), t) == t
  {
    if t.Node? {
      EvalFree(t.left);
      EvalFree(t.right);
    }
  }

  // r is the sum of xs taken from the left, each operand once.
  ghost predicate SumsTo<A(!new), F(!new)>(leaf: A -> F, node: (F, F) -> F, xs: seq<A>, r: F) {
    exists t: Term<A> :: LeftNested(t) && Leaves(t) == xs && r == Eval(leaf, node, t)
  }

  // r is the sum of xs taken from the right, each operand once.
  ghost predicate SumsBack<A(!new), F(!new)>(leaf: A -> F, node: (F, F) -> F, xs: seq<A>, r: F) {
    exists t: Term<A> :: RightNested(t) && Leaves(t) == xs && r == Eval(leaf, node, t)
  }

  lemma SumOfOne<A(!new), F(!new)>(leaf: A -> F, node: (F, F) -> F, a: A)
    ensures SumsTo(leaf, node, [a], leaf(a))
    ensures SumsBack(leaf, node, [a], leaf(a))
  {
    var t := Leaf(a);
    assert LeftNested(t) && RightNested(t) && Leaves(t) == [a] && Eval(leaf, node, t) == leaf(a);
  }

  lemma SumOfMore<A(!new), F(!new)>(leaf: A -> F, node: (F, F) -> F, xs: seq<A>, r: F, a: A)
    requires SumsTo(leaf, node, xs, r)
    ensures SumsTo(leaf, node, xs + [a], node(r, leaf(a)))
  {
    var t: Term<A> :| LeftNested(t) && Leaves(t) == xs && r == Eval(leaf, node, t);
    var u := Node(t, Leaf(a));
    assert Leaves(u.right) == [a] && Eval(leaf, node, u.right) == leaf(a);
    assert LeftNested(u) && Leaves(u) == xs + [a] && Eval(leaf, node, u) == node(r, leaf(a));
  }

  lemma SumOfMoreBack<A(!new), F(!new)>(leaf: A -> F, node: (F, F) -> F, xs: seq<A>, r: F, a: A)
    requires SumsBack(leaf, node, xs, r)
    ensures SumsBack(leaf, node, [a] + xs, node(leaf(a), r))
  {
    var t: Term<A> :| RightNested(t) && Leaves(t) == xs && r == Eval(leaf, node, t);
    var u := Node(Leaf(a), t);
    assert Leaves(u.left) == [a] && Eval(leaf, node, u.left) == leaf(a);
    assert RightNested(u) && Leaves(u) == [a] + xs && Eval(leaf, node, u) == node(leaf(a), r);
  }

  lemma {:induction false} OneTerm<A(!new)>(t: Term<A>, u: Term<A>)
    requires LeftNested(t) && LeftNested(u) && Leaves(t) == Leaves(u)
    ensures t == u
    decreases t
  {
    var n := |Leaves(t)|;
    if t.Node? && u.Node? {
      assert Leaves(t)[..n - 1] == Leaves(t.left) && Leaves(u)[..n - 1] == Leaves(u.left);
      assert Leaves(t)[n - 1] == t.right.a && Leaves(u)[n - 1] == u.right.a;
      OneTerm(t.left, u.left);
    }
  }

  // There is one such sum.
  lemma OneSum<A(!new), F(!new)>(leaf: A -> F, node: (F, F) -> F, xs: seq<A>, r: F, s: F)
    requires SumsTo(leaf, node, xs, r) && SumsTo(leaf, node, xs, s)
    ensures r == s
  {
    var t: Term<A> :| LeftNested(t) && Leaves(t) == xs && r == Eval(leaf, node, t);
    var u: Term<A> :| LeftNested(u) && Leaves(u) == xs && s == Eval(leaf, node, u);
    OneTerm(t, u);
  }
}
