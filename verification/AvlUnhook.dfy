/**
 Taking a node out of a tree in memory: its place goes to its only subtree, or to the rightmost
 node of its left subtree.
 */
module AvlUnhook {
  import opened Avl
  import opened AvlStore

  lemma {:induction false} PlugAppend(p: seq<Frame>, q: seq<Frame>, t: Tree)
    ensures Plug(p + q, t) == Plug(p, Plug(q, t))
    decreases |q|
  {
    if |q| == 0 {
      assert p + q == p;
    } else {
      assert Drop(p + q) == p + Drop(q) && Last(p + q) == Last(q);
      PlugAppend(p, Drop(q), Plug1(Last(q), t));
    }
  }

  predicate AllRight(r: seq<Frame>)
  {
    forall i :: 0 <= i < |r| ==> !r[i].goLeft
  }

  lemma {:induction false} NothingAfter(r: seq<Frame>)
    requires AllRight(r)
    ensures After(r) == []
  {
    if |r| > 0 {
      NothingAfter(Drop(r));
    }
  }

  /** The left subtree with its rightmost node unlinked. */
  lemma UnlinkRightmost(s: Store, r: seq<Frame>, u: Tree)
    requires Rep(s.links, s.root, Plug(r, u)) && NoDup(Ids(Plug(r, u))) && u.Node? && u.right.Leaf? && AllRight(r)
    ensures u.id in s.links && Ids(Plug(r, u)) == Ids(Plug(r, u.left)) + [u.id]
    ensures var s' := Set(s, PlaceOf(r), s.links[u.id].left);
      Rep(s'.links, s'.root, Plug(r, u.left)) && u.id !in Ids(Plug(r, u.left))
  {
    RepPlug(s, r, u);
    PlugIds(r, u);
    PlugIds(r, u.left);
    NothingAfter(r);
    NodeIds(u.left, u.id, u.h, u.right);
    RepNode(s.links, u);
    var k, rest := Ids(u.left), Before(r);
    assert Ids(u.right) == [];
    assert rest + (k + [u.id] + []) + [] == rest + k + [] + [u.id];
    hide Ids, Rep, NoDup, Before, After, Plug;
    NoDupParts(rest + k + [], [u.id]);
    assert u.id in [u.id];
    Graft(s, r, k, s.links, s.links[u.id].left, u.left);
    RepPlug(Set(s, PlaceOf(r), s.links[u.id].left), r, u.left);
  }

  /** The pointer to the rightmost node below the left son of `node`. */
  function InnerPlace(node: Id, r: seq<Frame>): Place
  {
    if |r| == 0 then LeftOf(node) else PlaceOf(r)
  }

  /** The left subtree as a tree of its own. */
  function LeftStore(s: Store, node: Id): Store
  {
    Store(At(s.links, node).left, s.links)
  }

  lemma InnerWrite(s: Store, node: Id, r: seq<Frame>, x: Id)
    requires node in s.links && (|r| > 0 ==> Last(r).id != node)
    ensures var a, b := Set(s, InnerPlace(node, r), x), Set(LeftStore(s, node), PlaceOf(r), x);
      node in a.links && a.links[node] == s.links[node].(left := b.root) && a.root == s.root &&
      forall y :: y in b.links && y != node ==> y in a.links && a.links[y] == b.links[y]
  {
  }

  /** The writes of `avl_remove` for a node with a left son: `m`, rightmost below it, takes over. */
  function Unhooked(s: Store, place: Place, node: Id, inner: Place, m: Id): Store
  {
    Set(Store(s.root, Moved(s, node, inner, m)), place, m)
  }

  lemma TakeOverIds(t: Tree, r: seq<Frame>, u: Tree)
    requires t.Node? && NoDup(Ids(t)) && u.Node? && t.left == Plug(r, u)
    requires Ids(t.left) == Ids(Plug(r, u.left)) + [u.id] && u.id !in Ids(Plug(r, u.left))
    ensures u.id != t.id && u.id in Ids(t.left) && u.id !in Ids(t.right)
    ensures forall y :: y in Ids(Plug(r, u.left)) ==> y in Ids(t.left) && y != u.id && y != t.id
  {
    NodeApart(t);
    NodeIds(t.left, t.id, t.h, t.right);
    hide Ids, NoDup, Plug;
    var rest := Ids(Plug(r, u.left));
    assert (rest + [u.id])[|rest|] == u.id;
  }

  lemma MakeNode(a: map<Id, Links>, id: Id, l: Tree, h: int, r: Tree)
    requires id != EMPTY && id in a && a[id].height == h && Rep(a, a[id].left, l) && Rep(a, a[id].right, r)
    ensures Rep(a, id, Node(l, id, h, r))
  {
  }

  /** The fields after the writes that precede the one to the node's own place. */
  function Moved(s: Store, node: Id, inner: Place, m: Id): map<Id, Links>
  {
    var a := Set(s, inner, At(s.links, m).left);
    a.links[m := At(a.links, node)]
  }

  lemma TakeOver(s: Store, t: Tree, r: seq<Frame>, u: Tree)
    requires t.Node? && Rep(s.links, t.id, t) && NoDup(Ids(t))
    requires t.left == Plug(r, u) && u.Node? && u.right.Leaf? && AllRight(r)
    ensures var b := Moved(s, t.id, InnerPlace(t.id, r), u.id);
      Rep(b, u.id, Node(Plug(r, u.left), u.id, t.h, t.right)) &&
      (forall x :: x in s.links && x !in Ids(t) ==> x in b && b[x] == s.links[x])
    ensures Set(s, InnerPlace(t.id, r), At(s.links, u.id).left).root == s.root
    ensures Ids(t.left) == Ids(Plug(r, u.left)) + [u.id]
  {
    RepNode(s.links, t);
    NodeApart(t);
    NodeMembers(t);
    hide Ids, NoDup, Plug, Rep, Set, PlaceOf, InnerPlace, Moved;
    var l, rest := LeftStore(s, t.id), Plug(r, u.left);
    UnlinkRightmost(l, r, u);
    TakeOverIds(t, r, u);
    LastBelow(t.left, r, u);
    MovedFields(s, t.id, r, u.id, Ids(t.left));
    var c, b := Set(l, PlaceOf(r), s.links[u.id].left), Moved(s, t.id, InnerPlace(t.id, r), u.id);
    RepSame(c.links, b, c.root, rest);
    RepSame(s.links, b, s.links[t.id].right, t.right);
    RepUsed(s.links, t, u.id);
    MakeNode(b, u.id, rest, t.h, t.right);
  }

  lemma MovedFields(s: Store, node: Id, r: seq<Frame>, m: Id, left: seq<Id>)
    requires node in s.links && m in s.links && node != m && node !in left && m in left
    requires forall i :: 0 <= i < |r| ==> r[i].id in left
    ensures var c, b := Set(LeftStore(s, node), PlaceOf(r), s.links[m].left), Moved(s, node, InnerPlace(node, r), m);
      m in b && b[m] == s.links[node].(left := c.root) &&
      (forall y :: y in c.links && y != node && y != m ==> y in b && b[y] == c.links[y]) &&
      (forall y :: y in s.links && y !in left && y != node ==> y in b && b[y] == s.links[y])
    ensures Set(s, InnerPlace(node, r), At(s.links, m).left).root == s.root
  {
    InnerWrite(s, node, r, s.links[m].left);
    hide Set;
    SetElsewhere(LeftStore(s, node), r, s.links[m].left, left);
  }

  lemma {:induction false} RepUsed(a: map<Id, Links>, t: Tree, x: Id)
    requires t.Node? && Rep(a, t.id, t) && x in Ids(t)
    ensures x != EMPTY && x in a
  {
    RepNode(a, t);
    NodeMembers(t);
    if x in Ids(t.left) {
      RepUsed(a, t.left, x);
    } else if x in Ids(t.right) {
      RepUsed(a, t.right, x);
    }
  }

  lemma LastBelow(l: Tree, r: seq<Frame>, u: Tree)
    requires l == Plug(r, u)
    ensures forall i :: 0 <= i < |r| ==> r[i].id in Ids(l)
  {
    PlugIds(r, u);
    forall i | 0 <= i < |r| ensures r[i].id in Before(r) + After(r) {
      OnPath(r, i);
    }
  }

  lemma {:induction false} OnPath(r: seq<Frame>, i: nat)
    requires i < |r|
    ensures r[i].id in Before(r) + After(r)
    decreases |r|
  {
    OneFrame(r);
    if i == |r| - 1 {
    } else {
      OnPath(Drop(r), i);
    }
  }

  lemma SetElsewhere(l: Store, r: seq<Frame>, x: Id, left: seq<Id>)
    requires forall i :: 0 <= i < |r| ==> r[i].id in left
    ensures forall y :: y in l.links && y !in left ==>
      y in Set(l, PlaceOf(r), x).links && Set(l, PlaceOf(r), x).links[y] == l.links[y]
  {
  }

  /** The path to where the rightmost node was, once that node has taken over. */
  function NewPath(path: seq<Frame>, m: Id, t: Tree, r: seq<Frame>): seq<Frame>
    requires t.Node?
  {
    path + [Frame(true, m, t.h, t.right)] + r
  }

  lemma {:induction false} AroundIds(path: seq<Frame>, m: Id, n: Id, t: Tree, r: seq<Frame>, h: int)
    requires t.Node?
    ensures Around(NewPath(path, m, t, r), h) <==> Around(NewPath(path, n, t, r), h)
    decreases |r|
  {
    var p, q := NewPath(path, m, t, r), NewPath(path, n, t, r);
    if |r| == 0 {
      assert Drop(p) == path && Drop(q) == path;
      assert Last(p) == Frame(true, m, t.h, t.right) && Last(q) == Frame(true, n, t.h, t.right);
    } else {
      assert Drop(p) == NewPath(path, m, t, Drop(r)) && Drop(q) == NewPath(path, n, t, Drop(r));
      assert Last(p) == Last(r) && Last(q) == Last(r);
      AroundIds(path, m, n, t, Drop(r), Last(r).h);
    }
  }

  /** The tree that is left, as seen from the end of the new path and from the old place. */
  lemma NewWhole(path: seq<Frame>, t: Tree, r: seq<Frame>, u: Tree)
    requires t.Node? && u.Node?
    ensures Plug(NewPath(path, u.id, t, r), u.left) == Plug(path, Node(Plug(r, u.left), u.id, t.h, t.right))
  {
    var f := Frame(true, u.id, t.h, t.right);
    PlugAppend(path + [f], r, u.left);
    PlugAppend(path, [f], Plug(r, u.left));
    assert Drop([f]) == [] && Last([f]) == f;
  }

  lemma Regroup(a: seq<Id>, l: seq<Id>, x: Id, r: seq<Id>, b: seq<Id>)
    ensures a + (l + [x] + r) + b == (a + l) + [x] + (r + b)
    ensures a + (l + r) + b == (a + l) + (r + b) && a + l + r + b == (a + l) + (r + b)
  {
  }

  lemma UnhookIds(path: seq<Frame>, t: Tree, rest: Tree, m: Id)
    requires t.Node? && NoDup(Before(path) + Ids(t) + After(path)) && Ids(t.left) == Ids(rest) + [m]
    ensures var now := Node(rest, m, t.h, t.right);
      Before(path) + Ids(now) + After(path) == Before(path) + Ids(t.left) + Ids(t.right) + After(path) &&
      NoDup(Before(path) + Ids(now) + After(path))
  {
    hide Ids, NoDup, Before, After;
    NodeIds(rest, m, t.h, t.right);
    NodeIds(t.left, t.id, t.h, t.right);
    Regroup(Before(path), Ids(t.left), t.id, Ids(t.right), After(path));
    WithoutOne(Before(path) + Ids(t.left), t.id, Ids(t.right) + After(path));
  }

  /** Removing a node with a left son leaves a well-formed tree in memory, without the node. */
  lemma UnhookFits(s: Store, path: seq<Frame>, t: Tree, r: seq<Frame>, u: Tree)
    requires Fits(s, path, t) && t.Node? && t.left == Plug(r, u) && u.Node? && u.right.Leaf? && AllRight(r)
    ensures var p := NewPath(path, u.id, t, r);
      Fits(Unhooked(s, PlaceOf(path), t.id, InnerPlace(t.id, r), u.id), p, u.left) &&
      Before(p) + Ids(u.left) + After(p) == Before(path) + Ids(t.left) + Ids(t.right) + After(path)
  {
    var p, rest := NewPath(path, u.id, t, r), Plug(r, u.left);
    var now := Node(rest, u.id, t.h, t.right);
    PathApart(path, Ids(t));
    AtPlace(s, path, t);
    hide Plug, Rep, Before, After, PathRep, NoDup, Moved, Set, InnerPlace, Ids;
    TakeOver(s, t, r, u);
    UnhookIds(path, t, rest, u.id);
    var b := Moved(s, t.id, InnerPlace(t.id, r), u.id);
    Graft(s, path, Ids(now), b, u.id, now);
    NewWhole(path, t, r, u);
    BothWays(Unhooked(s, PlaceOf(path), t.id, InnerPlace(t.id, r), u.id), path, now, p, u.left);
  }

  lemma AtPlace(s: Store, path: seq<Frame>, t: Tree)
    requires Fits(s, path, t) && t.Node?
    ensures Get(s, PlaceOf(path)) == t.id && Rep(s.links, t.id, t)
  {
  }

  lemma WithoutOne(a: seq<Id>, x: Id, b: seq<Id>)
    requires NoDup(a + [x] + b)
    ensures NoDup(a + b)
  {
    var s, r := a + [x] + b, a + b;
    forall i, j | 0 <= i < j < |r| ensures r[i] != r[j] {
      var i', j' := if i >= |a| then i + 1 else i, if j >= |a| then j + 1 else j;
      assert r[i] == s[i'] && r[j] == s[j'];
    }
  }

  /** The same tree in memory, from two paths. */
  lemma BothWays(s: Store, p: seq<Frame>, t: Tree, q: seq<Frame>, u: Tree)
    requires Plug(p, t) == Plug(q, u) && Fits(s, p, t)
    ensures Fits(s, q, u) && Before(q) + Ids(u) + After(q) == Before(p) + Ids(t) + After(p)
  {
    RepPlug(s, p, t);
    RepPlug(s, q, u);
    PlugIds(p, t);
    PlugIds(q, u);
  }

  /** A node without a left son gives its place to its right subtree. */
  lemma UnhookRight(s: Store, path: seq<Frame>, t: Tree)
    requires Fits(s, path, t) && t.Node? && t.left.Leaf? && Balanced(t) && Around(path, t.h)
    ensures t.id in s.links && Mendable(path, t.h, t.right)
    ensures Fits(Set(s, PlaceOf(path), s.links[t.id].right), path, t.right)
    ensures Ids(t) == [t.id] + Ids(t.right)
  {
    AtPlace(s, path, t);
    RepNode(s.links, t);
    NodeIds(t.left, t.id, t.h, t.right);
    HeightNat(t.right);
    assert Ids(t.left) == [];
    hide Ids, NoDup, Before, After, Rep, PathRep;
    Regroup(Before(path), [], t.id, Ids(t.right), After(path));
    WithoutOne(Before(path) + [], t.id, Ids(t.right) + After(path));
    assert Before(path) + Ids(t.right) + After(path) == (Before(path) + []) + (Ids(t.right) + After(path));
    Graft(s, path, Ids(t.right), s.links, s.links[t.id].right, t.right);
  }
}
