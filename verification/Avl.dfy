/**
 The AVL trees of `mm/mmap.c` as values: nodes carry an area's identity and the stored height
 field; a path of frames leads from the root to the place where a node comes or goes.
 */
module Avl {
  import opened Common

  type Id = nat

  datatype Tree = Leaf | Node(left: Tree, id: Id, h: int, right: Tree)

  /** `heightof`: the stored field, 0 for the empty tree. */
  function Height(t: Tree): int
  {
    if t.Leaf? then 0 else t.h
  }

  predicate Near(a: int, b: int)
  {
    -1 <= a - b <= 1
  }

  /** Rules 1 and 2: exact height fields, and balance within one. */
  predicate Balanced(t: Tree)
  {
    t.Leaf? ||
    (Balanced(t.left) && Balanced(t.right) && t.h == 1 + Max(Height(t.left), Height(t.right)) &&
     Near(Height(t.left), Height(t.right)))
  }

  /** The areas from left to right. */
  function Ids(t: Tree): seq<Id>
  {
    if t.Leaf? then [] else Ids(t.left) + [t.id] + Ids(t.right)
  }

  lemma {:induction false} HeightNat(t: Tree)
    requires Balanced(t)
    ensures Height(t) >= 0 && (Height(t) == 0 <==> t.Leaf?)
  {
    if t.Node? {
      HeightNat(t.left);
      HeightNat(t.right);
    }
  }

  function Fib(n: nat): nat
  {
    if n < 2 then n else Fib(n - 1) + Fib(n - 2)
  }

  lemma {:induction false} FibMono(m: nat, n: nat)
    requires m <= n
    ensures Fib(m) <= Fib(n)
    decreases n
  {
    if m < n {
      FibMono(m, n - 1);
    }
  }

  /** A tree of height h has at least Fib(h+2)-1 nodes. */
  lemma {:induction false} Fibonacci(t: Tree)
    requires Balanced(t)
    ensures Height(t) >= 0 && |Ids(t)| + 1 >= Fib(Height(t) + 2)
  {
    if t.Node? {
      Fibonacci(t.left);
      Fibonacci(t.right);
      FibMono(t.h, Height(t.left) + 2);
      FibMono(t.h, Height(t.right) + 2);
    }
  }

  /** Fib(44)-1. */
  const MAX_AREAS := 701408732

  lemma FibOn(n: nat, a: nat, b: nat)
    requires Fib(n) == a && Fib(n + 1) == b
    ensures Fib(n + 4) == 2 * a + 3 * b && Fib(n + 5) == 3 * a + 5 * b
  {
    assert Fib(n + 2) == a + b;
    assert Fib(n + 3) == a + 2 * b;
  }

  lemma FibStart()
    ensures Fib(0) == 0 && Fib(1) == 1
  {
  }

  lemma MaxAreas()
    ensures Fib(44) == MAX_AREAS + 1
  {
    hide Fib;
    FibStart();
    FibOn(0, 0, 1);
    FibOn(4, 3, 5);
    FibOn(8, 21, 34);
    FibOn(12, 144, 233);
    FibOn(16, 987, 1597);
    FibOn(20, 6765, 10946);
    FibOn(24, 46368, 75025);
    FibOn(28, 317811, 514229);
    FibOn(32, 2178309, 3524578);
    FibOn(36, 14930352, 24157817);
    FibOn(40, 102334155, 165580141);
  }

  /** A tree with fewer than Fib(44)-1 nodes is at most 41 high. */
  lemma AtMost41(t: Tree)
    requires Balanced(t) && |Ids(t)| < MAX_AREAS
    ensures Height(t) <= 41
  {
    MaxAreas();
    hide Fib;
    Fibonacci(t);
    if Height(t) > 41 {
      FibMono(44, Height(t) + 2);
    }
  }

  lemma NodeIds(l: Tree, id: Id, h: int, r: Tree)
    ensures Ids(Node(l, id, h, r)) == Ids(l) + [id] + Ids(r)
  {
  }

  lemma NodeBalanced(t: Tree)
    requires t.Node?
    ensures Balanced(t) <==>
      Balanced(t.left) && Balanced(t.right) && t.h == 1 + Max(Height(t.left), Height(t.right)) &&
      Near(Height(t.left), Height(t.right))
  {
  }

  /** One round of `avl_rebalance` at a node: rotate if a side is too high, else renew the height. */
  function Fix(l: Tree, id: Id, r: Tree): Tree
    requires Balanced(l) && Balanced(r)
  {
    HeightNat(l);
    HeightNat(r);
    if Height(r) + 1 < Height(l) then RotateRight(l, id, r)
    else if Height(l) + 1 < Height(r) then RotateLeft(l, id, r)
    else Node(l, id, 1 + Max(Height(l), Height(r)), r)
  }

  function RotateRight(l: Tree, id: Id, r: Tree): Tree
    requires l.Node? && Balanced(l)
  {
    HeightNat(l.left);
    HeightNat(l.right);
    var mid := Height(l.right);
    if Height(l.left) >= mid then
      Node(l.left, l.id, 2 + mid, Node(l.right, id, 1 + mid, r))
    else
      Node(Node(l.left, l.id, mid, l.right.left), l.right.id, l.h, Node(l.right.right, id, mid, r))
  }

  function RotateLeft(l: Tree, id: Id, r: Tree): Tree
    requires r.Node? && Balanced(r)
  {
    HeightNat(r.left);
    HeightNat(r.right);
    var mid := Height(r.left);
    if Height(r.right) >= mid then
      Node(Node(l, id, 1 + mid, r.left), r.id, 2 + mid, r.right)
    else
      Node(Node(l, id, mid, r.left.left), r.left.id, r.h, Node(r.left.right, r.id, mid, r.right))
  }

  lemma RotateRightHeights(l: Tree, id: Id, r: Tree)
    requires l.Node? && Balanced(l) && Balanced(r) && Height(l) == Height(r) + 2
    ensures Balanced(RotateRight(l, id, r)) && l.h <= Height(RotateRight(l, id, r)) <= 1 + l.h
  {
    NodeBalanced(l);
    HeightNat(l.left);
    HeightNat(l.right);
    var t := RotateRight(l, id, r);
    if l.right.Node? {
      NodeBalanced(l.right);
    }
    hide Balanced;
    NodeBalanced(t);
    NodeBalanced(t.right);
    if Height(l.left) < Height(l.right) {
      NodeBalanced(t.left);
    }
  }

  lemma RotateLeftHeights(l: Tree, id: Id, r: Tree)
    requires r.Node? && Balanced(l) && Balanced(r) && Height(r) == Height(l) + 2
    ensures Balanced(RotateLeft(l, id, r)) && r.h <= Height(RotateLeft(l, id, r)) <= 1 + r.h
  {
    NodeBalanced(r);
    HeightNat(r.left);
    HeightNat(r.right);
    var t := RotateLeft(l, id, r);
    if r.left.Node? {
      NodeBalanced(r.left);
    }
    hide Balanced;
    NodeBalanced(t);
    NodeBalanced(t.left);
    if Height(r.right) < Height(r.left) {
      NodeBalanced(t.right);
    }
  }

  lemma RotateRightIds(l: Tree, id: Id, r: Tree)
    requires l.Node? && Balanced(l)
    ensures Ids(RotateRight(l, id, r)) == Ids(l) + [id] + Ids(r)
  {
    hide Ids;
    var t, b := RotateRight(l, id, r), l.right;
    NodeIds(l.left, l.id, l.h, b);
    NodeIds(t.left, t.id, t.h, t.right);
    NodeIds(t.right.left, t.right.id, t.right.h, t.right.right);
    if Height(l.left) < Height(b) {
      HeightNat(l.left);
      HeightNat(b);
      NodeIds(b.left, b.id, b.h, b.right);
      NodeIds(l.left, l.id, t.left.h, b.left);
    }
  }

  lemma RotateLeftIds(l: Tree, id: Id, r: Tree)
    requires r.Node? && Balanced(r)
    ensures Ids(RotateLeft(l, id, r)) == Ids(l) + [id] + Ids(r)
  {
    hide Ids;
    var t, b := RotateLeft(l, id, r), r.left;
    NodeIds(b, r.id, r.h, r.right);
    NodeIds(t.left, t.id, t.h, t.right);
    NodeIds(t.left.left, t.left.id, t.left.h, t.left.right);
    if Height(r.right) < Height(b) {
      HeightNat(r.right);
      HeightNat(b);
      NodeIds(b.left, b.id, b.h, b.right);
      NodeIds(b.right, r.id, t.right.h, r.right);
    }
  }

  /** A rotation mends any imbalance of two, keeps the areas in their order, and gives a tree as
      high as the higher side or one more. */
  lemma FixMends(l: Tree, id: Id, r: Tree)
    requires Balanced(l) && Balanced(r) && -2 <= Height(l) - Height(r) <= 2
    ensures Balanced(Fix(l, id, r)) && Ids(Fix(l, id, r)) == Ids(l) + [id] + Ids(r)
    ensures Max(Height(l), Height(r)) <= Height(Fix(l, id, r)) <= 1 + Max(Height(l), Height(r))
    ensures Near(Height(l), Height(r)) ==> Height(Fix(l, id, r)) == 1 + Max(Height(l), Height(r))
  {
    hide Ids, Balanced, RotateRight, RotateLeft;
    HeightNat(l);
    HeightNat(r);
    if Height(r) + 1 < Height(l) {
      RotateRightHeights(l, id, r);
      RotateRightIds(l, id, r);
    } else if Height(l) + 1 < Height(r) {
      RotateLeftHeights(l, id, r);
      RotateLeftIds(l, id, r);
    } else {
      NodeIds(l, id, 1 + Max(Height(l), Height(r)), r);
      NodeBalanced(Node(l, id, 1 + Max(Height(l), Height(r)), r));
    }
  }

  /** One step down from a node: which way, and what is on the other side. */
  datatype Frame = Frame(goLeft: bool, id: Id, h: int, other: Tree)

  function Plug1(f: Frame, t: Tree): Tree
  {
    if f.goLeft then Node(t, f.id, f.h, f.other) else Node(f.other, f.id, f.h, t)
  }

  function Drop<T>(s: seq<T>): seq<T>
    requires |s| > 0
  {
    s[..|s| - 1]
  }

  function Last<T>(s: seq<T>): T
    requires |s| > 0
  {
    s[|s| - 1]
  }

  /** The whole tree with `t` at the end of the path. */
  function Plug(path: seq<Frame>, t: Tree): Tree
  {
    if |path| == 0 then t else Plug(Drop(path), Plug1(Last(path), t))
  }

  /** The areas left of the end of the path. */
  function Before(path: seq<Frame>): seq<Id>
  {
    if |path| == 0 then []
    else if Last(path).goLeft then Before(Drop(path))
    else Before(Drop(path)) + (Ids(Last(path).other) + [Last(path).id])
  }

  /** The areas right of the end of the path. */
  function After(path: seq<Frame>): seq<Id>
  {
    if |path| == 0 then []
    else if Last(path).goLeft then [Last(path).id] + Ids(Last(path).other) + After(Drop(path))
    else After(Drop(path))
  }

  lemma NoFrames(s: seq<Id>)
    ensures Before([]) + s + After([]) == s
  {
  }

  lemma StepIds(path: seq<Frame>, t: Tree)
    requires |path| > 0
    ensures Before(Drop(path)) + Ids(Plug1(Last(path), t)) + After(Drop(path)) == Before(path) + Ids(t) + After(path)
  {
    var f := Last(path);
    hide Ids;
    NodeIds(t, f.id, f.h, f.other);
    NodeIds(f.other, f.id, f.h, t);
  }

  lemma {:induction false} PlugIds(path: seq<Frame>, t: Tree)
    ensures Ids(Plug(path, t)) == Before(path) + Ids(t) + After(path)
  {
    hide Ids, Before, After;
    if |path| == 0 {
      NoFrames(Ids(t));
    } else {
      StepIds(path, t);
      PlugIds(Drop(path), Plug1(Last(path), t));
    }
  }

  /** The tree around a subtree of height `h` is balanced. */
  predicate Around(path: seq<Frame>, h: int)
  {
    |path| == 0 ||
    (Balanced(Last(path).other) && Near(h, Height(Last(path).other)) &&
     Last(path).h == 1 + Max(h, Height(Last(path).other)) && Around(Drop(path), Last(path).h))
  }

  lemma {:induction false} PlugBalanced(path: seq<Frame>, t: Tree)
    ensures Balanced(Plug(path, t)) <==> Balanced(t) && Around(path, Height(t))
  {
    if |path| > 0 {
      PlugBalanced(Drop(path), Plug1(Last(path), t));
    }
  }

  function Fix1(f: Frame, t: Tree): Tree
    requires Balanced(t) && Balanced(f.other)
  {
    if f.goLeft then Fix(t, f.id, f.other) else Fix(f.other, f.id, t)
  }

  /** A subtree may stand where one of height `h` was. */
  predicate Mendable(path: seq<Frame>, h: int, t: Tree)
  {
    Balanced(t) && Around(path, h) && Near(Height(t), h)
  }

  lemma Fix1Mends(path: seq<Frame>, h: int, t: Tree)
    requires |path| > 0 && Mendable(path, h, t)
    ensures Mendable(Drop(path), Last(path).h, Fix1(Last(path), t))
    ensures Ids(Fix1(Last(path), t)) == Ids(Plug1(Last(path), t))
  {
    hide Fix;
    var f := Last(path);
    if f.goLeft {
      FixMends(t, f.id, f.other);
    } else {
      FixMends(f.other, f.id, t);
    }
  }

  /** `avl_rebalance` without its early exit: from the end of the path up to the root. */
  ghost function Up(path: seq<Frame>, h: int, t: Tree): Tree
    requires Mendable(path, h, t)
    decreases |path|
  {
    if |path| == 0 then t
    else
      Fix1Mends(path, h, t);
      Up(Drop(path), Last(path).h, Fix1(Last(path), t))
  }

  /** Rebalancing gives a balanced tree with the same areas in the same order. */
  lemma {:induction false} UpMends(path: seq<Frame>, h: int, t: Tree)
    requires Mendable(path, h, t)
    ensures Balanced(Up(path, h, t)) && Ids(Up(path, h, t)) == Before(path) + Ids(t) + After(path)
    decreases |path|
  {
    hide Ids, Fix1, Balanced, Before, After;
    if |path| == 0 {
      NoFrames(Ids(t));
    } else {
      Fix1Mends(path, h, t);
      StepIds(path, t);
      UpMends(Drop(path), Last(path).h, Fix1(Last(path), t));
    }
  }

  /** Where a subtree keeps its height, nothing above it changes: the early exit loses nothing. */
  lemma {:induction false} EarlyExit(path: seq<Frame>, t: Tree)
    requires Mendable(path, Height(t), t)
    ensures Up(path, Height(t), t) == Plug(path, t)
    decreases |path|
  {
    if |path| > 0 {
      var f := Last(path);
      Fix1Mends(path, Height(t), t);
      assert Fix1(f, t) == Plug1(f, t);
      EarlyExit(Drop(path), Plug1(f, t));
    }
  }
}
