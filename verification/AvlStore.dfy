/**
 How a tree lies in memory: link fields per node, places that hold a pointer, and the frame
 arguments for changing some of them.
 */
module AvlStore {
  import opened Avl

  /** `avl_empty`. */
  const EMPTY: Id := 0

  /** The tree fields of `struct vm_area_struct`. */
  datatype Links = Links(left: Id, right: Id, height: int)

  /** What a `struct vm_area_struct **` can point at. */
  datatype Place = Root | LeftOf(id: Id) | RightOf(id: Id)

  datatype Store = Store(root: Id, links: map<Id, Links>)

  function Get(s: Store, p: Place): Id
  {
    match p
    case Root => s.root
    case LeftOf(id) => if id in s.links then s.links[id].left else EMPTY
    case RightOf(id) => if id in s.links then s.links[id].right else EMPTY
  }

  function Set(s: Store, p: Place, x: Id): Store
  {
    match p
    case Root => s.(root := x)
    case LeftOf(id) => if id in s.links then s.(links := s.links[id := s.links[id].(left := x)]) else s
    case RightOf(id) => if id in s.links then s.(links := s.links[id := s.links[id].(right := x)]) else s
  }

  /** The node `id` and what hangs below it is the tree `t`. */
  predicate Rep(links: map<Id, Links>, id: Id, t: Tree)
    decreases t
  {
    match t
    case Leaf => id == EMPTY
    case Node(l, i, h, r) =>
      id == i != EMPTY && i in links && links[i].height == h && Rep(links, links[i].left, l) && Rep(links, links[i].right, r)
  }

  predicate NoDup(s: seq<Id>)
  {
    forall i, j :: 0 <= i < j < |s| ==> s[i] != s[j]
  }

  /** Two memories have the same link fields for some nodes. */
  predicate Same(a: map<Id, Links>, b: map<Id, Links>, ids: seq<Id>)
  {
    forall x :: x in ids && x in a ==> x in b && b[x] == a[x]
  }

  lemma {:induction false} RepSame(a: map<Id, Links>, b: map<Id, Links>, id: Id, t: Tree)
    requires Rep(a, id, t) && Same(a, b, Ids(t))
    ensures Rep(b, id, t)
    decreases t
  {
    if t.Node? {
      NodeMembers(t);
      RepSame(a, b, a[id].left, t.left);
      RepSame(a, b, a[id].right, t.right);
    }
  }

  lemma NodeMembers(t: Tree)
    requires t.Node?
    ensures forall x :: x in Ids(t) <==> x in Ids(t.left) || x == t.id || x in Ids(t.right)
  {
    assert Ids(t) == Ids(t.left) + [t.id] + Ids(t.right);
  }

  /** The place at the end of a path. */
  function PlaceOf(path: seq<Frame>): Place
  {
    if |path| == 0 then Root else if Last(path).goLeft then LeftOf(Last(path).id) else RightOf(Last(path).id)
  }

  /** The path lies in memory; what its end holds is left open. */
  predicate PathRep(s: Store, path: seq<Frame>)
  {
    |path| == 0 ||
    (var f := Last(path);
     PathRep(s, Drop(path)) && Get(s, PlaceOf(Drop(path))) == f.id != EMPTY && f.id in s.links && s.links[f.id].height == f.h &&
     Rep(s.links, if f.goLeft then s.links[f.id].right else s.links[f.id].left, f.other))
  }

  lemma {:induction false} RepPlug(s: Store, path: seq<Frame>, t: Tree)
    ensures Rep(s.links, s.root, Plug(path, t)) <==> PathRep(s, path) && Rep(s.links, Get(s, PlaceOf(path)), t)
  {
    if |path| > 0 {
      RepPlug(s, Drop(path), Plug1(Last(path), t));
    }
  }

  /** All nodes of a path and its side trees. */
  function PathIds(path: seq<Frame>): seq<Id>
  {
    Before(path) + After(path)
  }

  lemma PathMembers(path: seq<Frame>)
    requires |path| > 0
    ensures forall x :: x in PathIds(path) <==> x in PathIds(Drop(path)) || x == Last(path).id || x in Ids(Last(path).other)
  {
  }

  /** A path does not change when its nodes do not. */
  lemma {:induction false} PathSame(s: Store, r: Store, path: seq<Frame>)
    requires PathRep(s, path) && s.root == r.root && Same(s.links, r.links, PathIds(path))
    ensures PathRep(r, path) && Get(r, PlaceOf(path)) == Get(s, PlaceOf(path))
  {
    if |path| > 0 {
      PathMembers(path);
      hide PathIds;
      PathSame(s, r, Drop(path));
      var f := Last(path);
      assert f.id in PathIds(path);
      RepSame(s.links, r.links, if f.goLeft then s.links[f.id].right else s.links[f.id].left, f.other);
    }
  }

  /** The last node of a path is nowhere else on it. */
  predicate LastApart(path: seq<Frame>)
  {
    |path| > 0 ==> Last(path).id !in PathIds(Drop(path)) && Last(path).id !in Ids(Last(path).other)
  }

  /** Writing a pointer at the end of a path changes nothing but that pointer. */
  lemma SetEnd(s: Store, path: seq<Frame>, x: Id)
    requires PathRep(s, path) && LastApart(path)
    ensures PathRep(Set(s, PlaceOf(path), x), path) && Get(Set(s, PlaceOf(path), x), PlaceOf(path)) == x
  {
    if |path| > 0 {
      var r, f := Set(s, PlaceOf(path), x), Last(path);
      hide PathIds;
      PathSame(s, r, Drop(path));
      RepSame(s.links, r.links, if f.goLeft then s.links[f.id].right else s.links[f.id].left, f.other);
    }
  }

  lemma NoDupParts(a: seq<Id>, b: seq<Id>)
    requires NoDup(a + b)
    ensures NoDup(a) && NoDup(b) && forall x :: x in a ==> x !in b
  {
    assert a == (a + b)[..|a|] && b == (a + b)[|a|..];
    forall i, j | 0 <= i < |a| && 0 <= j < |b| ensures a[i] != b[j] {
      assert (a + b)[i] == a[i] && (a + b)[|a| + j] == b[j];
    }
    forall i, j | 0 <= i < j < |b| ensures b[i] != b[j] {
      assert (a + b)[|a| + i] == b[i] && (a + b)[|a| + j] == b[j];
    }
    forall i, j | 0 <= i < j < |a| ensures a[i] != a[j] {
      assert (a + b)[i] == a[i] && (a + b)[j] == a[j];
    }
  }

  lemma NodeApart(t: Tree)
    requires t.Node? && NoDup(Ids(t))
    ensures NoDup(Ids(t.left)) && NoDup(Ids(t.right)) && t.id !in Ids(t.left) && t.id !in Ids(t.right)
    ensures forall x :: x in Ids(t.left) ==> x !in Ids(t.right)
  {
    hide NoDup;
    NoDupParts(Ids(t.left) + [t.id], Ids(t.right));
    NoDupParts(Ids(t.left), [t.id]);
    assert t.id in [t.id];
  }

  /** The link fields of a node. */
  function At(a: map<Id, Links>, id: Id): Links
  {
    if id in a then a[id] else Links(EMPTY, EMPTY, 0)
  }

  lemma RepNode(a: map<Id, Links>, t: Tree)
    requires t.Node? && Rep(a, t.id, t)
    ensures t.id != EMPTY && t.id in a && a[t.id].height == t.h
    ensures Rep(a, a[t.id].left, t.left) && Rep(a, a[t.id].right, t.right)
    ensures t.left.Node? ==> a[t.id].left == t.left.id
    ensures t.right.Node? ==> a[t.id].right == t.right.id
  {
  }

  /** Single rotation to the right, as link fields. */
  function TurnRight(a: map<Id, Links>, n: Id, m: Id, height: int): map<Id, Links>
  {
    a[n := At(a, n).(left := At(a, m).right, height := height)][m := At(a, m).(right := n, height := 1 + height)]
  }

  lemma TurnRightRep(a: map<Id, Links>, t: Tree, height: int)
    requires t.Node? && t.left.Node? && Rep(a, t.id, t) && NoDup(Ids(t))
    ensures var l := t.left;
      Rep(TurnRight(a, t.id, l.id, height), l.id, Node(l.left, l.id, 1 + height, Node(l.right, t.id, height, t.right)))
  {
    hide Ids, NoDup;
    var l, b := t.left, TurnRight(a, t.id, t.left.id, height);
    RepNode(a, t);
    NodeApart(t);
    RepNode(a, l);
    NodeApart(l);
    NodeMembers(l);
    RepSame(a, b, a[l.id].left, l.left);
    RepSame(a, b, a[l.id].right, l.right);
    RepSame(a, b, a[t.id].right, t.right);
  }

  /** Double rotation to the right. */
  function TurnTwiceRight(a: map<Id, Links>, n: Id, m: Id, k: Id, height: int, top: int): map<Id, Links>
  {
    a[m := At(a, m).(right := At(a, k).left, height := height)][n := At(a, n).(left := At(a, k).right, height := height)][k := Links(m, n, top)]
  }

  lemma TurnTwiceRightRep(a: map<Id, Links>, t: Tree, height: int, top: int)
    requires t.Node? && t.left.Node? && t.left.right.Node? && Rep(a, t.id, t) && NoDup(Ids(t))
    ensures var l := t.left; var k := l.right;
      Rep(TurnTwiceRight(a, t.id, l.id, k.id, height, top), k.id,
          Node(Node(l.left, l.id, height, k.left), k.id, top, Node(k.right, t.id, height, t.right)))
  {
    hide Ids, NoDup;
    var l, k := t.left, t.left.right;
    var b := TurnTwiceRight(a, t.id, l.id, k.id, height, top);
    RepNode(a, t);
    NodeApart(t);
    RepNode(a, l);
    NodeApart(l);
    RepNode(a, k);
    NodeApart(k);
    NodeMembers(l);
    NodeMembers(k);
    RepSame(a, b, a[l.id].left, l.left);
    RepSame(a, b, a[k.id].left, k.left);
    RepSame(a, b, a[k.id].right, k.right);
    RepSame(a, b, a[t.id].right, t.right);
  }

  /** Single rotation to the left. */
  function TurnLeft(a: map<Id, Links>, n: Id, m: Id, height: int): map<Id, Links>
  {
    a[n := At(a, n).(right := At(a, m).left, height := height)][m := At(a, m).(left := n, height := 1 + height)]
  }

  lemma TurnLeftRep(a: map<Id, Links>, t: Tree, height: int)
    requires t.Node? && t.right.Node? && Rep(a, t.id, t) && NoDup(Ids(t))
    ensures var r := t.right;
      Rep(TurnLeft(a, t.id, r.id, height), r.id, Node(Node(t.left, t.id, height, r.left), r.id, 1 + height, r.right))
  {
    hide Ids, NoDup;
    var r, b := t.right, TurnLeft(a, t.id, t.right.id, height);
    RepNode(a, t);
    NodeApart(t);
    RepNode(a, r);
    NodeApart(r);
    NodeMembers(r);
    RepSame(a, b, a[r.id].left, r.left);
    RepSame(a, b, a[r.id].right, r.right);
    RepSame(a, b, a[t.id].left, t.left);
  }

  /** Double rotation to the left. */
  function TurnTwiceLeft(a: map<Id, Links>, n: Id, m: Id, k: Id, height: int, top: int): map<Id, Links>
  {
    a[m := At(a, m).(left := At(a, k).right, height := height)][n := At(a, n).(right := At(a, k).left, height := height)][k := Links(n, m, top)]
  }

  lemma TurnTwiceLeftRep(a: map<Id, Links>, t: Tree, height: int, top: int)
    requires t.Node? && t.right.Node? && t.right.left.Node? && Rep(a, t.id, t) && NoDup(Ids(t))
    ensures var r := t.right; var k := r.left;
      Rep(TurnTwiceLeft(a, t.id, r.id, k.id, height, top), k.id,
          Node(Node(t.left, t.id, height, k.left), k.id, top, Node(k.right, r.id, height, r.right)))
  {
    hide Ids, NoDup;
    var r, k := t.right, t.right.left;
    var b := TurnTwiceLeft(a, t.id, r.id, k.id, height, top);
    RepNode(a, t);
    NodeApart(t);
    RepNode(a, r);
    NodeApart(r);
    RepNode(a, k);
    NodeApart(k);
    NodeMembers(r);
    NodeMembers(k);
    RepSame(a, b, a[r.id].right, r.right);
    RepSame(a, b, a[k.id].left, k.left);
    RepSame(a, b, a[k.id].right, k.right);
    RepSame(a, b, a[t.id].left, t.left);
  }

  /** The tree with `t` at the end of the path lies in memory, with no node twice. */
  predicate Fits(s: Store, path: seq<Frame>, t: Tree)
  {
    PathRep(s, path) && Rep(s.links, Get(s, PlaceOf(path)), t) && NoDup(Before(path) + Ids(t) + After(path))
  }

  lemma PathApart(path: seq<Frame>, m: seq<Id>)
    requires NoDup(Before(path) + m + After(path))
    ensures NoDup(m) && forall x :: x in PathIds(path) ==> x !in m
  {
    hide NoDup, Before, After;
    NoDupParts(Before(path) + m, After(path));
    NoDupParts(Before(path), m);
  }

  lemma OneApart(a: seq<Id>, x: Id, b: seq<Id>)
    requires NoDup(a + [x] + b)
    ensures x !in a && x !in b
  {
    assert (a + [x] + b)[|a|] == x;
    NoDupParts(a + [x], b);
    NoDupParts(a, [x]);
    assert x in [x] && x in a + [x];
  }

  lemma OneFrame(path: seq<Frame>)
    requires |path| > 0
    ensures var f, q := Last(path), Drop(path);
      if f.goLeft then Before(path) == Before(q) && After(path) == [f.id] + Ids(f.other) + After(q)
      else Before(path) == Before(q) + (Ids(f.other) + [f.id]) && After(path) == After(q)
  {
  }

  lemma LastIsApart(path: seq<Frame>, m: seq<Id>)
    requires NoDup(Before(path) + m + After(path))
    ensures LastApart(path)
  {
    hide NoDup, Ids, Before, After;
    if |path| > 0 {
      OneFrame(path);
      var f, q := Last(path), Drop(path);
      if f.goLeft {
        assert Before(path) + m + After(path) == (Before(q) + m) + [f.id] + (Ids(f.other) + After(q));
        OneApart(Before(q) + m, f.id, Ids(f.other) + After(q));
      } else {
        assert Before(path) + m + After(path) == (Before(q) + Ids(f.other)) + [f.id] + (m + After(q));
        OneApart(Before(q) + Ids(f.other), f.id, m + After(q));
      }
    }
  }

  /** Another tree of the same nodes put at the end of a path. */
  lemma Graft(s: Store, path: seq<Frame>, m: seq<Id>, b: map<Id, Links>, x: Id, t: Tree)
    requires PathRep(s, path) && NoDup(Before(path) + m + After(path)) && Same(s.links, b, PathIds(path))
    requires Rep(b, x, t) && Ids(t) == m
    ensures Fits(Set(Store(s.root, b), PlaceOf(path), x), path, t)
  {
    hide NoDup, PathIds, Ids, Before, After;
    var r := Store(s.root, b);
    PathSame(s, r, path);
    LastIsApart(path, m);
    SetEnd(r, path, x);
    PathApart(path, m);
    if |path| > 0 {
      PathMembers(path);
    }
    RepSame(b, Set(r, PlaceOf(path), x).links, x, t);
  }

  /** One frame of the path turned back into a node. */
  lemma FitsUp(s: Store, path: seq<Frame>, t: Tree)
    requires |path| > 0
    ensures Fits(s, path, t) <==> Fits(s, Drop(path), Plug1(Last(path), t))
  {
    StepIds(path, t);
    hide NoDup, Ids;
  }
}
