/**
 `avl_rebalance`, `avl_insert`, `avl_insert_neighbours`, `avl_remove` and `avl_neighbours` of
 `mm/mmap.c` and `find_vma` of `linux/mm.h`: iterative, in place, with a stack of 41 places.
 */
module AreaTrees {
  import opened Avl
  import opened AvlStore
  import opened AvlUnhook

  /** `avl_maxheight`. */
  const MAX_HEIGHT := 41

  /** Rule 3: the keys increase from left to right. */
  predicate Sorted(key: map<Id, int>, ids: seq<Id>)
  {
    (forall i :: 0 <= i < |ids| ==> ids[i] in key) &&
    (forall i, j :: 0 <= i < j < |ids| ==> key[ids[i]] < key[ids[j]])
  }

  /** Small enough for the stack. */
  ghost predicate Roomy(t: Tree)
  {
    |Ids(t)| < MAX_AREAS
  }

  lemma {:induction false} PathHeight(path: seq<Frame>, t: Tree)
    requires Balanced(t) && Around(path, Height(t))
    ensures Height(Plug(path, t)) >= |path| + Height(t)
    decreases |path|
  {
    if |path| > 0 {
      PlugBalanced(Drop(path), Plug1(Last(path), t));
      PathHeight(Drop(path), Plug1(Last(path), t));
    }
  }

  /** The stack holds the places along a path. */
  ghost predicate Stacked(stack: array<Place>, path: seq<Frame>)
    reads stack
  {
    |path| <= stack.Length && forall i :: 0 <= i < |path| ==> stack[i] == PlaceOf(path[..i])
  }

  function HeightIn(a: map<Id, Links>, id: Id): int
  {
    if id == EMPTY then 0 else At(a, id).height
  }

  /** What the code reads before a rotation to the right. */
  lemma LeftView(s: Store, path: seq<Frame>, t: Tree)
    requires Fits(s, path, t) && t.Node? && t.left.Node? && Balanced(t.left)
    ensures Get(s, PlaceOf(path)) == t.id && t.id in s.links && s.links[t.id].left == t.left.id
    ensures t.left.id in s.links && t.id != t.left.id && t.id != EMPTY && t.left.id != EMPTY && s.links[t.left.id].height == t.left.h
    ensures var m := s.links[t.left.id]; Height(t.left.left) == HeightIn(s.links, m.left) && Height(t.left.right) == HeightIn(s.links, m.right)
    ensures Height(t.left.left) < Height(t.left.right) ==> t.left.right.Node? && var k := t.left.right.id;
      s.links[t.left.id].right == k && k in s.links && k != EMPTY && k != t.id && k != t.left.id
  {
    Local(s, path, t);
    NodeApart(t);
    NodeApart(t.left);
    RepNode(s.links, t.left);
    NodeMembers(t.left);
    HeightRep(s.links, s.links[t.left.id].left, t.left.left);
    HeightRep(s.links, s.links[t.left.id].right, t.left.right);
    HeightNat(t.left.left);
    if t.left.right.Node? {
      NodeMembers(t.left.right);
    }
  }

  lemma TurnRightFits(s: Store, path: seq<Frame>, t: Tree)
    requires Fits(s, path, t) && t.Node? && t.left.Node? && Balanced(t.left) && Height(t.left.left) >= Height(t.left.right)
    ensures var b := TurnRight(s.links, t.id, t.left.id, 1 + Height(t.left.right));
      Fits(Set(Store(s.root, b), PlaceOf(path), t.left.id), path, RotateRight(t.left, t.id, t.right))
  {
    var b := TurnRight(s.links, t.id, t.left.id, 1 + Height(t.left.right));
    Local(s, path, t);
    NodeMembers(t);
    NodeMembers(t.left);
    NodeIds(t.left, t.id, t.h, t.right);
    hide Ids, NoDup, Rep, PathRep;
    TurnedElsewhere(s.links, b, path, t);
    TurnRightRep(s.links, t, 1 + Height(t.left.right));
    RotateRightIds(t.left, t.id, t.right);
    Graft(s, path, Ids(t), b, t.left.id, RotateRight(t.left, t.id, t.right));
  }

  lemma TurnTwiceRightFits(s: Store, path: seq<Frame>, t: Tree)
    requires Fits(s, path, t) && t.Node? && t.left.Node? && Balanced(t.left) && Height(t.left.left) < Height(t.left.right)
    requires t.left.right.Node?
    ensures var b := TurnTwiceRight(s.links, t.id, t.left.id, t.left.right.id, Height(t.left.right), t.left.h);
      Fits(Set(Store(s.root, b), PlaceOf(path), t.left.right.id), path, RotateRight(t.left, t.id, t.right))
  {
    var b := TurnTwiceRight(s.links, t.id, t.left.id, t.left.right.id, Height(t.left.right), t.left.h);
    Local(s, path, t);
    NodeMembers(t);
    NodeMembers(t.left);
    NodeMembers(t.left.right);
    NodeIds(t.left, t.id, t.h, t.right);
    hide Ids, NoDup, Rep, PathRep;
    TurnedElsewhere(s.links, b, path, t);
    TurnTwiceRightRep(s.links, t, Height(t.left.right), t.left.h);
    RotateRightIds(t.left, t.id, t.right);
    Graft(s, path, Ids(t), b, t.left.right.id, RotateRight(t.left, t.id, t.right));
  }

  lemma RightView(s: Store, path: seq<Frame>, t: Tree)
    requires Fits(s, path, t) && t.Node? && t.right.Node? && Balanced(t.right)
    ensures Get(s, PlaceOf(path)) == t.id && t.id in s.links && s.links[t.id].right == t.right.id
    ensures t.right.id in s.links && t.id != t.right.id && t.id != EMPTY && t.right.id != EMPTY && s.links[t.right.id].height == t.right.h
    ensures var m := s.links[t.right.id]; Height(t.right.left) == HeightIn(s.links, m.left) && Height(t.right.right) == HeightIn(s.links, m.right)
    ensures Height(t.right.right) < Height(t.right.left) ==> t.right.left.Node? && var k := t.right.left.id;
      s.links[t.right.id].left == k && k in s.links && k != EMPTY && k != t.id && k != t.right.id
  {
    Local(s, path, t);
    NodeApart(t);
    NodeApart(t.right);
    RepNode(s.links, t.right);
    NodeMembers(t.right);
    HeightRep(s.links, s.links[t.right.id].left, t.right.left);
    HeightRep(s.links, s.links[t.right.id].right, t.right.right);
    HeightNat(t.right.right);
    if t.right.left.Node? {
      NodeMembers(t.right.left);
    }
  }

  lemma TurnLeftFits(s: Store, path: seq<Frame>, t: Tree)
    requires Fits(s, path, t) && t.Node? && t.right.Node? && Balanced(t.right) && Height(t.right.right) >= Height(t.right.left)
    ensures var b := TurnLeft(s.links, t.id, t.right.id, 1 + Height(t.right.left));
      Fits(Set(Store(s.root, b), PlaceOf(path), t.right.id), path, RotateLeft(t.left, t.id, t.right))
  {
    var b := TurnLeft(s.links, t.id, t.right.id, 1 + Height(t.right.left));
    Local(s, path, t);
    NodeMembers(t);
    NodeMembers(t.right);
    NodeIds(t.left, t.id, t.h, t.right);
    hide Ids, NoDup, Rep, PathRep;
    TurnedElsewhere(s.links, b, path, t);
    TurnLeftRep(s.links, t, 1 + Height(t.right.left));
    RotateLeftIds(t.left, t.id, t.right);
    Graft(s, path, Ids(t), b, t.right.id, RotateLeft(t.left, t.id, t.right));
  }

  lemma TurnTwiceLeftFits(s: Store, path: seq<Frame>, t: Tree)
    requires Fits(s, path, t) && t.Node? && t.right.Node? && Balanced(t.right) && Height(t.right.right) < Height(t.right.left)
    requires t.right.left.Node?
    ensures var b := TurnTwiceLeft(s.links, t.id, t.right.id, t.right.left.id, Height(t.right.left), t.right.h);
      Fits(Set(Store(s.root, b), PlaceOf(path), t.right.left.id), path, RotateLeft(t.left, t.id, t.right))
  {
    var b := TurnTwiceLeft(s.links, t.id, t.right.id, t.right.left.id, Height(t.right.left), t.right.h);
    Local(s, path, t);
    NodeMembers(t);
    NodeMembers(t.right);
    NodeMembers(t.right.left);
    NodeIds(t.left, t.id, t.h, t.right);
    hide Ids, NoDup, Rep, PathRep;
    TurnedElsewhere(s.links, b, path, t);
    TurnTwiceLeftRep(s.links, t, Height(t.right.left), t.right.h);
    RotateLeftIds(t.left, t.id, t.right);
    Graft(s, path, Ids(t), b, t.right.left.id, RotateLeft(t.left, t.id, t.right));
  }

  lemma NewHeightFits(s: Store, path: seq<Frame>, t: Tree, h: int)
    requires Fits(s, path, t) && t.Node?
    ensures t.id in s.links && Fits(s.(links := s.links[t.id := s.links[t.id].(height := h)]), path, t.(h := h))
  {
    var b, u := s.links[t.id := s.links[t.id].(height := h)], t.(h := h);
    Local(s, path, t);
    NodeMembers(t);
    NodeApart(t);
    NodeIds(t.left, t.id, t.h, t.right);
    NodeIds(t.left, t.id, h, t.right);
    RepSame(s.links, b, s.links[t.id].left, t.left);
    RepSame(s.links, b, s.links[t.id].right, t.right);
    assert Rep(b, t.id, u);
    hide Ids, NoDup, Rep;
    TurnedElsewhere(s.links, b, path, t);
    PathSame(s, s.(links := b), path);
  }

  lemma HeightRep(a: map<Id, Links>, id: Id, t: Tree)
    requires Rep(a, id, t)
    ensures Height(t) == HeightIn(a, id) && (t.Node? ==> id == t.id)
  {
  }

  /** What `Fits` says about the subtree at the end of a path. */
  lemma Local(s: Store, path: seq<Frame>, t: Tree)
    requires Fits(s, path, t) && t.Node?
    ensures Get(s, PlaceOf(path)) == t.id && Rep(s.links, t.id, t) && NoDup(Ids(t))
    ensures t.id != EMPTY && t.id in s.links && s.links[t.id].height == t.h
    ensures Rep(s.links, s.links[t.id].left, t.left) && Rep(s.links, s.links[t.id].right, t.right)
  {
    PathApart(path, Ids(t));
  }

  /** Changes within a subtree leave the path to it alone. */
  lemma TurnedElsewhere(a: map<Id, Links>, b: map<Id, Links>, path: seq<Frame>, t: Tree)
    requires NoDup(Before(path) + Ids(t) + After(path))
    requires forall x :: x in a && x !in Ids(t) ==> x in b && b[x] == a[x]
    ensures Same(a, b, PathIds(path))
  {
    PathApart(path, Ids(t));
  }

  class AreaTree {
    var root: Id
    var links: map<Id, Links>
    ghost var shape: Tree

    ghost predicate Valid()
      reads this
    {
      Rep(links, root, shape) && NoDup(Ids(shape)) && Balanced(shape)
    }

    constructor ()
      ensures Valid() && shape == Leaf
    {
      root, links, shape := EMPTY, map[], Leaf;
    }

    function Mem(): Store
      reads this
    {
      Store(root, links)
    }

    method Write(p: Place, x: Id)
      modifies this`root, this`links
      ensures Mem() == Set(old(Mem()), p, x)
    {
      match p
      case Root => root := x;
      case LeftOf(id) => if id in links { links := links[id := links[id].(left := x)]; }
      case RightOf(id) => if id in links { links := links[id := links[id].(right := x)]; }
    }

    function HeightOf(id: Id): int
      reads this
    {
      HeightIn(links, id)
    }

    method LinkTwiceRight(node: Id, nodeleft: Id, nodeleftright: Id, heightleft: int, heightleftright: int)
      requires node in links && nodeleft in links && nodeleftright in links
      requires node != nodeleft && nodeleft != nodeleftright && nodeleftright != node
      modifies this`links
      ensures links == TurnTwiceRight(old(links), node, nodeleft, nodeleftright, heightleftright, heightleft)
    {
      links := links[nodeleft := links[nodeleft].(right := links[nodeleftright].left)];
      links := links[node := links[node].(left := links[nodeleftright].right)];
      links := links[nodeleftright := links[nodeleftright].(left := nodeleft, right := node)];
      links := links[node := links[node].(height := heightleftright)];
      links := links[nodeleft := links[nodeleft].(height := heightleftright)];
      links := links[nodeleftright := links[nodeleftright].(height := heightleft)];
    }

    method LinkTwiceLeft(node: Id, noderight: Id, noderightleft: Id, heightright: int, heightrightleft: int)
      requires node in links && noderight in links && noderightleft in links
      requires node != noderight && noderight != noderightleft && noderightleft != node
      modifies this`links
      ensures links == TurnTwiceLeft(old(links), node, noderight, noderightleft, heightrightleft, heightright)
    {
      links := links[noderight := links[noderight].(left := links[noderightleft].right)];
      links := links[node := links[node].(right := links[noderightleft].left)];
      links := links[noderightleft := links[noderightleft].(right := noderight, left := node)];
      links := links[node := links[node].(height := heightrightleft)];
      links := links[noderight := links[noderight].(height := heightrightleft)];
      links := links[noderightleft := links[noderightleft].(height := heightright)];
    }

    /** The left side of the node at a place is too high. */
    method LeftTooHigh(place: Place, ghost path: seq<Frame>, ghost t: Tree)
      requires place == PlaceOf(path) && Fits(Mem(), path, t) && t.Node? && t.left.Node? && Balanced(t.left)
      modifies this`root, this`links
      ensures Fits(Mem(), path, RotateRight(t.left, t.id, t.right))
    {
      hide Fits, Get, Set, RotateRight, Balanced, Height, TurnTwiceRight;
      ghost var was := Mem();
      LeftView(was, path, t);
      var node := Get(Mem(), place);
      var nodeleft := links[node].left;
      var nodeleftleft, nodeleftright := links[nodeleft].left, links[nodeleft].right;
      var heightleft, heightleftright := HeightOf(nodeleft), HeightOf(nodeleftright);
      if HeightOf(nodeleftleft) >= heightleftright {
        links := links[node := links[node].(left := nodeleftright, height := 1 + heightleftright)];
        links := links[nodeleft := links[nodeleft].(right := node, height := 2 + heightleftright)];
        assert links == TurnRight(was.links, node, nodeleft, 1 + heightleftright);
        Write(place, nodeleft);
        TurnRightFits(was, path, t);
      } else {
        LinkTwiceRight(node, nodeleft, nodeleftright, heightleft, heightleftright);
        Write(place, nodeleftright);
        TurnTwiceRightFits(was, path, t);
      }
    }

    /** The right side is too high. */
    method RightTooHigh(place: Place, ghost path: seq<Frame>, ghost t: Tree)
      requires place == PlaceOf(path) && Fits(Mem(), path, t) && t.Node? && t.right.Node? && Balanced(t.right)
      modifies this`root, this`links
      ensures Fits(Mem(), path, RotateLeft(t.left, t.id, t.right))
    {
      hide Fits, Get, Set, RotateLeft, Balanced, Height, TurnTwiceLeft;
      ghost var was := Mem();
      RightView(was, path, t);
      var node := Get(Mem(), place);
      var noderight := links[node].right;
      var noderightright, noderightleft := links[noderight].right, links[noderight].left;
      var heightright, heightrightleft := HeightOf(noderight), HeightOf(noderightleft);
      if HeightOf(noderightright) >= heightrightleft {
        links := links[node := links[node].(right := noderightleft, height := 1 + heightrightleft)];
        links := links[noderight := links[noderight].(left := node, height := 2 + heightrightleft)];
        assert links == TurnLeft(was.links, node, noderight, 1 + heightrightleft);
        Write(place, noderight);
        TurnLeftFits(was, path, t);
      } else {
        LinkTwiceLeft(node, noderight, noderightleft, heightright, heightrightleft);
        Write(place, noderightleft);
        TurnTwiceLeftFits(was, path, t);
      }
    }

    /** A round of the loop in `avl_rebalance`, for the node at a place; `stop` is its early exit. */
    method FixAt(place: Place, ghost path: seq<Frame>, ghost t: Tree) returns (stop: bool)
      requires place == PlaceOf(path) && Fits(Mem(), path, t) && t.Node? && Balanced(t.left) && Balanced(t.right)
      modifies this`root, this`links
      ensures stop ==> Mem() == old(Mem()) && Fix(t.left, t.id, t.right) == t
      ensures !stop ==> Fits(Mem(), path, Fix(t.left, t.id, t.right))
    {
      Local(Mem(), path, t);
      HeightNat(t.left);
      HeightNat(t.right);
      HeightRep(links, links[t.id].left, t.left);
      HeightRep(links, links[t.id].right, t.right);
      hide Fits, Rep, NoDup, Balanced, RotateLeft, RotateRight;
      var node := Get(Mem(), place);
      var heightleft, heightright := HeightOf(links[node].left), HeightOf(links[node].right);
      stop := false;
      if heightright + 1 < heightleft {
        LeftTooHigh(place, path, t);
      } else if heightleft + 1 < heightright {
        RightTooHigh(place, path, t);
      } else {
        var height := (if heightleft < heightright then heightright else heightleft) + 1;
        if height == links[node].height {
          return true;
        }
        NewHeightFits(Mem(), path, t, height);
        links := links[node := links[node].(height := height)];
      }
    }

    /** `avl_rebalance`: from the end of a path to the root, the tree is mended as `Up` says. */
    method Rebalance(stack: array<Place>, count: nat, ghost path: seq<Frame>, ghost h: int, ghost t: Tree)
      requires count == |path| && Stacked(stack, path) && Fits(Mem(), path, t) && Mendable(path, h, t)
      modifies this
      ensures Valid() && shape == Up(path, h, t) && Ids(shape) == Before(path) + Ids(t) + After(path)
    {
      ghost var goal := Up(path, h, t);
      UpMends(path, h, t);
      hide Fits, Up, Balanced, Around, Ids, Before, After, Fix1, Rep, NoDup;
      var n := count;
      ghost var p, cur, ch := path, t, h;
      while n > 0
        invariant n == |p| <= count && p == path[..n] && Fits(Mem(), p, cur) && Mendable(p, ch, cur) && Up(p, ch, cur) == goal
      {
        ghost var f, q := Last(p), Drop(p);
        ghost var sub := Plug1(f, cur);
        UpStep(p, ch, cur);
        FitsUp(Mem(), p, cur);
        assert q == path[..n - 1];
        var stop := FixAt(stack[n - 1], q, sub);
        if stop {
          EarlyExit(q, sub);
          FitsWhole(Mem(), q, sub);
          shape := goal;
          return;
        }
        n := n - 1;
        p, cur, ch := q, Fix1(f, cur), f.h;
      }
      UpEnd(ch, cur);
      FitsWhole(Mem(), [], cur);
      shape := goal;
    }

    /** A place goes onto the stack. */
    method Push(stack: array<Place>, place: Place, ghost path: seq<Frame>, ghost f: Frame, count: nat)
      requires Stacked(stack, path) && count == |path| < stack.Length && place == PlaceOf(path)
      modifies stack
      ensures Stacked(stack, path + [f])
    {
      stack[count] := place;
      forall i | 0 <= i <= |path| ensures (path + [f])[..i] == path[..i] {
      }
    }

    /** The way down to where a key belongs, with the neighbours it will have there. */
    method Descend(key: map<Id, int>, k: int, stack: array<Place>)
      returns (place: Place, count: nat, left: Id, right: Id, ghost path: seq<Frame>)
      requires Valid() && Sorted(key, Ids(shape)) && Roomy(shape) && stack.Length == MAX_HEIGHT
      modifies stack
      ensures On(shape, Mem(), path, Leaf) && Stacked(stack, path) && count == |path| && place == PlaceOf(path)
      ensures Cut(key, k, path) && left == LastOr(Before(path)) && right == FirstOr(After(path))
    {
      place, count, left, right := Root, 0, EMPTY, EMPTY;
      ghost var t := shape;
      path := [];
      OnTop(Mem(), t);
      assert Stacked(stack, path);
      hide On, Sorted, Cut, Before, After, FirstOr, LastOr, Get, Ids, Roomy, Stacked, Rep, NoDup;
      while true
        invariant On(shape, Mem(), path, t)
        invariant Stacked(stack, path) && count == |path| && place == PlaceOf(path)
        invariant Sorted(key, Ids(t)) && Cut(key, k, path)
        invariant left == LastOr(Before(path)) && right == FirstOr(After(path))
        decreases t
      {
        var node := Get(Mem(), place);
        AtEnd(shape, Mem(), path, t);
        if node == EMPTY {
          break;
        }
        SortedNode(key, t);
        RoomAbove(shape, Mem(), path, t);
        ghost var f := Down(t, k < key[node]);
        Push(stack, place, path, f, count);
        StepDown(shape, Mem(), path, t, k < key[node]);
        CutDown(key, k, path, t);
        count := count + 1;
        if k < key[node] {
          right, place := node, LeftOf(node);
          path, t := path + [f], t.left;
        } else {
          left, place := node, RightOf(node);
          path, t := path + [f], t.right;
        }
      }
    }

    /** A new leaf at the end of a path, and the tree mended. */
    method AddLeaf(newNode: Id, place: Place, stack: array<Place>, count: nat, ghost path: seq<Frame>)
      requires Valid() && On(shape, Mem(), path, Leaf) && newNode != EMPTY && newNode !in Ids(shape)
      requires Stacked(stack, path) && count == |path| && place == PlaceOf(path)
      modifies this
      ensures Valid() && Ids(shape) == Before(path) + [newNode] + After(path)
    {
      ghost var leaf := Node(Leaf, newNode, 1, Leaf);
      LeafFits(shape, Mem(), path, newNode);
      hide Fits, On, Set, Before, After, Ids, Rep, Balanced, Around, Stacked, PlaceOf;
      links := links[newNode := Links(EMPTY, EMPTY, 1)];
      Write(place, newNode);
      Rebalance(stack, count, path, 0, leaf);
    }

    /** `avl_insert_neighbours`: the tree gains the one node, between the keys up to its own and the keys
        above, and the nodes on either side of it are returned. */
    method InsertNeighbours(newNode: Id, key: map<Id, int>) returns (toTheLeft: Id, toTheRight: Id, ghost i: nat)
      requires Valid() && Sorted(key, Ids(shape)) && Roomy(shape) && newNode != EMPTY && newNode !in Ids(shape) && newNode in key
      modifies this
      ensures Valid() && i <= |Ids(old(shape))| && Ids(shape) == Ids(old(shape))[..i] + [newNode] + Ids(old(shape))[i..]
      ensures forall j :: 0 <= j < |Ids(old(shape))| ==>
        if j < i then key[Ids(old(shape))[j]] <= key[newNode] else key[Ids(old(shape))[j]] > key[newNode]
      ensures toTheLeft == LastOr(Ids(old(shape))[..i]) && toTheRight == FirstOr(Ids(old(shape))[i..])
    {
      var stack := new Place[MAX_HEIGHT];
      var place, count;
      ghost var path;
      place, count, toTheLeft, toTheRight, path := Descend(key, key[newNode], stack);
      i := |Before(path)|;
      Split(key, key[newNode], shape, Mem(), path);
      hide On, Before, After, Cut, Ids, Sorted, Rep, Balanced, Stacked, LastOr, FirstOr;
      AddLeaf(newNode, place, stack, count, path);
    }

    /** `avl_insert`. */
    method Insert(newNode: Id, key: map<Id, int>) returns (ghost i: nat)
      requires Valid() && Sorted(key, Ids(shape)) && Roomy(shape) && newNode != EMPTY && newNode !in Ids(shape) && newNode in key
      modifies this
      ensures Valid() && i <= |Ids(old(shape))| && Ids(shape) == Ids(old(shape))[..i] + [newNode] + Ids(old(shape))[i..]
      ensures forall j :: 0 <= j < |Ids(old(shape))| ==>
        if j < i then key[Ids(old(shape))[j]] <= key[newNode] else key[Ids(old(shape))[j]] > key[newNode]
    {
      var left, right;
      left, right, i := InsertNeighbours(newNode, key);
    }

    /** The way down to a node that is in the tree; its own place is stacked too. */
    method Search(node: Id, key: map<Id, int>, stack: array<Place>)
      returns (place: Place, count: nat, ghost path: seq<Frame>, ghost t: Tree)
      requires Valid() && Sorted(key, Ids(shape)) && Roomy(shape) && stack.Length == MAX_HEIGHT && node in Ids(shape)
      modifies stack
      ensures On(shape, Mem(), path, t) && t.Node? && t.id == node && count == |path| + 1 && place == PlaceOf(path)
      ensures forall f: Frame :: Stacked(stack, path + [f])
    {
      place, count := Root, 0;
      t, path := shape, [];
      OnTop(Mem(), t);
      assert Stacked(stack, path);
      hide On, Sorted, Get, Ids, Roomy, Stacked, Rep, NoDup;
      while true
        invariant On(shape, Mem(), path, t) && Stacked(stack, path) && count == |path| && place == PlaceOf(path)
        invariant Sorted(key, Ids(t)) && node in Ids(t)
        decreases t
      {
        var n := Get(Mem(), place);
        AtEnd(shape, Mem(), path, t);
        NodeIn(t, node);
        SortedNode(key, t);
        RoomAbove(shape, Mem(), path, t);
        ghost var f := Down(t, key[node] < key[n]);
        Push(stack, place, path, f, count);
        count := count + 1;
        if key[node] == key[n] {
          AnyTop(stack, path, f);
          return;
        }
        StepDown(shape, Mem(), path, t, key[node] < key[n]);
        if key[node] < key[n] {
          place := LeftOf(n);
          path, t := path + [f], t.left;
        } else {
          place := RightOf(n);
          path, t := path + [f], t.right;
        }
      }
    }

    /** The way to the rightmost node below the left son of the node at the end of `path`. */
    method Rightmost(node: Id, stack: array<Place>, first: nat, ghost path: seq<Frame>, ghost t: Tree)
      returns (place: Place, m: Id, count: nat, ghost r: seq<Frame>, ghost u: Tree)
      requires Valid() && Roomy(shape) && stack.Length == MAX_HEIGHT && On(shape, Mem(), path, t)
      requires t.Node? && t.left.Node? && t.id == node && first == |path| + 1 && Stacked(stack, path + [Down(t, true)])
      modifies stack
      ensures t.left == Plug(r, u) && u.Node? && u.right.Leaf? && AllRight(r) && m == u.id && place == InnerPlace(node, r)
      ensures var p := NewPath(path, node, t, r); On(shape, Mem(), p, u) && count == |p| && Stacked(stack, p)
    {
      r, u := [], t.left;
      ghost var p := path + [Down(t, true)];
      AtEnd(shape, Mem(), path, t);
      InTree(shape, Mem(), path, t);
      StepDown(shape, Mem(), path, t, true);
      AtEnd(shape, Mem(), p, u);
      assert NewPath(path, node, t, r) == p;
      hide On, Get, Roomy, Stacked, Rep, NoDup, Ids, Balanced, PlaceOf;
      place, m, count := LeftOf(node), links[node].left, first;
      InTree(shape, Mem(), p, u);
      while links[m].right != EMPTY
        invariant p == NewPath(path, node, t, r) && On(shape, Mem(), p, u) && u.Node? && t.left == Plug(r, u) && AllRight(r)
        invariant m == u.id && m in links && count == |p| && Stacked(stack, p) && place == PlaceOf(p) == InnerPlace(node, r)
        decreases u
      {
        InTree(shape, Mem(), p, u);
        RoomAbove(shape, Mem(), p, u);
        ghost var f := Down(u, false);
        Push(stack, place, p, f, count);
        StepDown(shape, Mem(), p, u, false);
        DownRight(path, t, r, u);
        p, r, u := p + [f], r + [f], u.right;
        count, place, m := count + 1, RightOf(m), links[m].right;
        InTree(shape, Mem(), p, u);
      }
      InTree(shape, Mem(), p, u);
    }

    method MoveLinks(node: Id, place: Place, inner: Place, m: Id)
      requires node in links && m in links && inner != Root
      modifies this`root, this`links
      ensures Mem() == Unhooked(old(Mem()), place, node, inner, m)
    {
      Write(inner, links[m].left);
      links := links[m := links[node]];
      Write(place, m);
    }

    method Restack(stack: array<Place>, first: nat, node: Id, m: Id, ghost path: seq<Frame>, ghost t: Tree, ghost r: seq<Frame>)
      requires t.Node? && Stacked(stack, NewPath(path, node, t, r)) && first == |path| + 1 < stack.Length
      modifies stack
      ensures Stacked(stack, NewPath(path, m, t, r))
    {
      ghost var p, q := NewPath(path, node, t, r), NewPath(path, m, t, r);
      stack[first] := LeftOf(m);
      forall i | 0 <= i < |q| ensures stack[i] == PlaceOf(q[..i]) {
        if i <= |path| {
          assert q[..i] == p[..i];
        } else if i > first {
          assert Last(q[..i]) == Last(p[..i]);
        } else {
          assert Last(q[..i]) == Frame(true, m, t.h, t.right);
        }
      }
    }

    /** The rightmost node below the left son takes the node's place. */
    method Replace(node: Id, place: Place, stack: array<Place>, first: nat, ghost path: seq<Frame>, ghost t: Tree)
      requires Valid() && Roomy(shape) && stack.Length == MAX_HEIGHT && On(shape, Mem(), path, t)
      requires t.Node? && t.left.Node? && t.id == node && first == |path| + 1 && Stacked(stack, path + [Down(t, true)])
      requires place == PlaceOf(path)
      modifies this, stack
      ensures Valid() && Ids(shape) == Before(path) + Ids(t.left) + Ids(t.right) + After(path)
    {
      var inner, m, count;
      ghost var r, u;
      inner, m, count, r, u := Rightmost(node, stack, first, path, t);
      InTree(shape, Mem(), path, t);
      InTree(shape, Mem(), NewPath(path, node, t, r), u);
      RoomAbove(shape, Mem(), path, t);
      TwoHigh(shape, Mem(), path, t);
      Mended(shape, Mem(), path, t, r, u);
      assert inner != Root;
      hide On, Roomy, Valid, Rep, NoDup, Balanced, PlaceOf, Before, After, Ids, Get, Stacked, Fits, Around, Unhooked, InnerPlace;
      MoveLinks(node, place, inner, m);
      Restack(stack, first, node, m, path, t, r);
      Rebalance(stack, count, NewPath(path, m, t, r), u.h, u.left);
    }

    /** `avl_remove`: the tree loses the one node and nothing else. */
    method Remove(node: Id, key: map<Id, int>) returns (ghost i: nat)
      requires Valid() && Sorted(key, Ids(shape)) && Roomy(shape) && node in Ids(shape)
      modifies this
      ensures Valid() && i < |Ids(old(shape))| && Ids(old(shape))[i] == node
      ensures Ids(shape) == Ids(old(shape))[..i] + Ids(old(shape))[i + 1..]
    {
      hide Roomy, Valid, Rep, NoDup, Before, After, Ids, Get, Set, Stacked, Sorted, On, Fits, Balanced, Around, PlaceOf;
      var stack := new Place[MAX_HEIGHT];
      var place, count;
      ghost var path, t;
      place, count, path, t := Search(node, key, stack);
      i := |Before(path)| + |Ids(t.left)|;
      WhereIs(shape, Mem(), path, t);
      InTree(shape, Mem(), path, t);
      if links[node].left == EMPTY {
        Unhook(shape, Mem(), path, t);
        Write(place, links[node].right);
        Popped(stack, path, Down(t, true));
        Rebalance(stack, count - 1, path, t.h, t.right);
      } else {
        Replace(node, place, stack, count, path, t);
      }
    }

    /** The last node of a subtree: to the right as far as it goes. */
    method LastNode(id: Id, ghost t: Tree) returns (node: Id)
      requires t.Node? && Rep(links, id, t)
      ensures node == LastOr(Ids(t))
    {
      node := id;
      ghost var u := t;
      RepNode(links, u);
      while links[node].right != EMPTY
        invariant u.Node? && node == u.id && node in links && Rep(links, node, u) && LastOr(Ids(u)) == LastOr(Ids(t))
        decreases u
      {
        RepNode(links, u);
        LastIn(u);
        node, u := links[node].right, u.right;
        RepNode(links, u);
      }
      RepNode(links, u);
      LastIn(u);
    }

    /** The first node of a subtree: to the left as far as it goes. */
    method FirstNode(id: Id, ghost t: Tree) returns (node: Id)
      requires t.Node? && Rep(links, id, t)
      ensures node == FirstOr(Ids(t))
    {
      node := id;
      ghost var u := t;
      RepNode(links, u);
      while links[node].left != EMPTY
        invariant u.Node? && node == u.id && node in links && Rep(links, node, u) && FirstOr(Ids(u)) == FirstOr(Ids(t))
        decreases u
      {
        RepNode(links, u);
        FirstIn(u);
        node, u := links[node].left, u.left;
        RepNode(links, u);
      }
      RepNode(links, u);
      FirstIn(u);
    }

    /** The way down to a node, with the last turns taken on either side. */
    method Locate(node: Id, key: map<Id, int>) returns (toTheLeft: Id, toTheRight: Id, ghost path: seq<Frame>, ghost t: Tree)
      requires Valid() && Sorted(key, Ids(shape)) && node in Ids(shape)
      ensures On(shape, Mem(), path, t) && t.Node? && t.id == node
      ensures toTheLeft == LastOr(Before(path)) && toTheRight == FirstOr(After(path))
    {
      toTheLeft, toTheRight := EMPTY, EMPTY;
      var tree := root;
      path, t := [], shape;
      OnTop(Mem(), t);
      hide On, Get, Ids, Rep, NoDup, Sorted, Before, After, FirstOr, LastOr, Valid, PlaceOf, Balanced;
      NoNeighbours();
      while true
        invariant On(shape, Mem(), path, t) && (t.Node? ==> tree == t.id)
        invariant Sorted(key, Ids(t)) && node in Ids(t)
        invariant toTheLeft == LastOr(Before(path)) && toTheRight == FirstOr(After(path))
        decreases t
      {
        NodeIn(t, node);
        SortedNode(key, t);
        InTree(shape, Mem(), path, t);
        if key[node] == key[tree] {
          return;
        }
        StepDown(shape, Mem(), path, t, key[node] < key[tree]);
        BesideDown(path, t, key[node] < key[tree]);
        ghost var f := Down(t, key[node] < key[tree]);
        if key[node] < key[tree] {
          toTheRight, tree := tree, links[tree].left;
          path, t := path + [f], t.left;
        } else {
          toTheLeft, tree := tree, links[tree].right;
          path, t := path + [f], t.right;
        }
      }
    }

    /** `avl_neighbours`: the nodes before and after a node of the tree. */
    method Neighbours(node: Id, key: map<Id, int>) returns (toTheLeft: Id, toTheRight: Id, ghost i: nat)
      requires Valid() && Sorted(key, Ids(shape)) && node in Ids(shape)
      ensures i < |Ids(shape)| && Ids(shape)[i] == node
      ensures toTheLeft == LastOr(Ids(shape)[..i]) && toTheRight == FirstOr(Ids(shape)[i + 1..])
    {
      hide On, Ids, Rep, NoDup, Sorted, Before, After, FirstOr, LastOr, Valid, Balanced;
      ghost var path, t;
      toTheLeft, toTheRight, path, t := Locate(node, key);
      i := |Before(path)| + |Ids(t.left)|;
      WhereIs(shape, Mem(), path, t);
      SonsRep(shape, Mem(), path, t);
      InTree(shape, Mem(), path, t);
      Beside(Before(path), Ids(t.left), Ids(t.right), After(path));
      LeafIds(t.left);
      LeafIds(t.right);
      if links[node].left != EMPTY {
        toTheLeft := LastNode(links[node].left, t.left);
      }
      if links[node].right != EMPTY {
        toTheRight := FirstNode(links[node].right, t.right);
      }
    }

    /** `find_vma`: the first area that ends above an address, if any; the search may stop at an area
        that contains the address because areas do not overlap. */
    method FindVma(addr: int, start: map<Id, int>, end: map<Id, int>) returns (result: Id, ghost i: nat)
      requires Valid() && Sorted(end, Ids(shape)) && Disjoint(start, end, Ids(shape))
      ensures FirstAbove(end, addr, Ids(shape), i) && result == if i < |Ids(shape)| then Ids(shape)[i] else EMPTY
      ensures result == EMPTY <==> i == |Ids(shape)|
    {
      result := EMPTY;
      var tree := root;
      ghost var path, t := [], shape;
      OnTop(Mem(), t);
      AtEnd(shape, Mem(), path, t);
      hide On, Get, Ids, Rep, NoDup, Sorted, Before, After, FirstOr, LastOr, Valid, Disjoint, FirstAbove, Cut, Balanced;
      NoNeighbours();
      NothingCut(end, addr);
      while tree != EMPTY
        invariant On(shape, Mem(), path, t) && tree == if t.Leaf? then EMPTY else t.id
        invariant Sorted(end, Ids(t)) && Cut(end, addr, path) && result == FirstOr(After(path))
        decreases t
      {
        InTree(shape, Mem(), path, t);
        SortedNode(end, t);
        OnStart(shape, Mem(), path, t, start, end);
        if end[tree] > addr {
          result := tree;
          if start[tree] <= addr {
            i := |Before(path)| + |Ids(t.left)|;
            FoundHere(shape, Mem(), path, t, start, end, addr);
            return;
          }
        }
        StepDown(shape, Mem(), path, t, addr < end[tree]);
        CutDown(end, addr, path, t);
        ghost var f := Down(t, addr < end[tree]);
        if end[tree] > addr {
          tree := links[tree].left;
          path, t := path + [f], t.left;
        } else {
          tree := links[tree].right;
          path, t := path + [f], t.right;
        }
      }
      i := |Before(path)|;
      NoEmptyId(links, shape);
      FoundBetween(shape, Mem(), path, end, addr);
    }
  }

  lemma UpEnd(h: int, t: Tree)
    requires Mendable([], h, t)
    ensures Up([], h, t) == t
  {
  }

  lemma UpStep(path: seq<Frame>, h: int, t: Tree)
    requires |path| > 0 && Mendable(path, h, t)
    ensures Balanced(Last(path).other) && Mendable(Drop(path), Last(path).h, Fix1(Last(path), t))
    ensures Up(path, h, t) == Up(Drop(path), Last(path).h, Fix1(Last(path), t))
    ensures var sub := Plug1(Last(path), t); Fix1(Last(path), t) == Fix(sub.left, sub.id, sub.right) && sub.h == Last(path).h
  {
    Fix1Mends(path, h, t);
  }

  lemma FitsWhole(s: Store, path: seq<Frame>, t: Tree)
    ensures Fits(s, path, t) <==> Rep(s.links, s.root, Plug(path, t)) && NoDup(Ids(Plug(path, t)))
  {
    RepPlug(s, path, t);
    PlugIds(path, t);
  }

  /** The frame that a step down from the root of `t` leaves behind. */
  function Down(t: Tree, goLeft: bool): Frame
    requires t.Node?
  {
    if goLeft then Frame(true, t.id, t.h, t.right) else Frame(false, t.id, t.h, t.left)
  }

  function LastOr(s: seq<Id>): Id
  {
    if |s| == 0 then EMPTY else s[|s| - 1]
  }

  function FirstOr(s: seq<Id>): Id
  {
    if |s| == 0 then EMPTY else s[0]
  }

  /** A path ends between the keys up to `k` and the keys above. */
  ghost predicate Cut(key: map<Id, int>, k: int, path: seq<Frame>)
  {
    (forall x :: x in Before(path) ==> x in key && key[x] <= k) && (forall x :: x in After(path) ==> x in key && key[x] > k)
  }

  /** The subtree `t` of `whole` lies at the end of a path. */
  ghost predicate On(whole: Tree, s: Store, path: seq<Frame>, t: Tree)
  {
    Plug(path, t) == whole && Fits(s, path, t) && Balanced(t) && Around(path, Height(t))
  }

  lemma OnTop(s: Store, whole: Tree)
    requires Rep(s.links, s.root, whole) && NoDup(Ids(whole)) && Balanced(whole)
    ensures On(whole, s, [], whole)
  {
    FitsWhole(s, [], whole);
  }

  lemma AtEnd(whole: Tree, s: Store, path: seq<Frame>, t: Tree)
    requires On(whole, s, path, t)
    ensures Get(s, PlaceOf(path)) == if t.Leaf? then EMPTY else t.id
    ensures t.Node? ==> t.id != EMPTY
  {
  }

  lemma RoomAbove(whole: Tree, s: Store, path: seq<Frame>, t: Tree)
    requires On(whole, s, path, t) && Roomy(whole)
    ensures |path| + Height(t) <= MAX_HEIGHT && (t.Node? ==> Height(t) > 0)
  {
    hide Fib, Fits;
    PlugBalanced(path, t);
    PathHeight(path, t);
    AtMost41(whole);
    HeightNat(t);
  }

  lemma SortedParts(key: map<Id, int>, a: seq<Id>, b: seq<Id>)
    requires Sorted(key, a + b)
    ensures Sorted(key, a) && Sorted(key, b)
    ensures forall i, j :: 0 <= i < |a| && 0 <= j < |b| ==> key[a[i]] < key[b[j]]
  {
    var s := a + b;
    forall i | 0 <= i < |a| ensures a[i] in key {
      assert s[i] == a[i];
    }
    forall j | 0 <= j < |b| ensures b[j] in key {
      assert s[|a| + j] == b[j];
    }
    forall i, j | 0 <= i < j < |a| ensures key[a[i]] < key[a[j]] {
      assert s[i] == a[i] && s[j] == a[j];
    }
    forall i, j | 0 <= i < j < |b| ensures key[b[i]] < key[b[j]] {
      assert s[|a| + i] == b[i] && s[|a| + j] == b[j];
    }
    forall i, j | 0 <= i < |a| && 0 <= j < |b| ensures key[a[i]] < key[b[j]] {
      assert s[i] == a[i] && s[|a| + j] == b[j];
    }
  }

  lemma SortedNode(key: map<Id, int>, t: Tree)
    requires t.Node? && Sorted(key, Ids(t))
    ensures t.id in key && Sorted(key, Ids(t.left)) && Sorted(key, Ids(t.right))
    ensures forall x :: x in Ids(t.left) ==> x in key && key[x] < key[t.id]
    ensures forall x :: x in Ids(t.right) ==> x in key && key[t.id] < key[x]
  {
    var a, b := Ids(t.left), Ids(t.right);
    assert Ids(t) == a + ([t.id] + b);
    hide Ids;
    SortedParts(key, a, [t.id] + b);
    SortedParts(key, [t.id], b);
    assert ([t.id] + b)[0] == t.id;
  }

  lemma StepDown(whole: Tree, s: Store, path: seq<Frame>, t: Tree, goLeft: bool)
    requires t.Node? && On(whole, s, path, t)
    ensures var q := path + [Down(t, goLeft)];
      On(whole, s, q, if goLeft then t.left else t.right) && PlaceOf(q) == if goLeft then LeftOf(t.id) else RightOf(t.id)
  {
    var q, u := path + [Down(t, goLeft)], if goLeft then t.left else t.right;
    assert Drop(q) == path && Last(q) == Down(t, goLeft) && Plug1(Last(q), u) == t;
    hide Fits;
    FitsUp(s, q, u);
  }

  lemma CutDown(key: map<Id, int>, k: int, path: seq<Frame>, t: Tree)
    requires t.Node? && Sorted(key, Ids(t)) && Cut(key, k, path) && t.id in key
    ensures var q := path + [Down(t, k < key[t.id])];
      Cut(key, k, q) &&
      (if k < key[t.id] then Before(q) == Before(path) && FirstOr(After(q)) == t.id
       else After(q) == After(path) && LastOr(Before(q)) == t.id)
  {
    var q := path + [Down(t, k < key[t.id])];
    assert Drop(q) == path;
    OneFrame(q);
    SortedNode(key, t);
    hide Sorted, Ids, Before, After;
  }

  lemma LeafFits(whole: Tree, s: Store, path: seq<Frame>, x: Id)
    requires On(whole, s, path, Leaf) && x != EMPTY && x !in Ids(whole)
    ensures Mendable(path, 0, Node(Leaf, x, 1, Leaf)) && Ids(Node(Leaf, x, 1, Leaf)) == [x]
    ensures Fits(Set(Store(s.root, s.links[x := Links(EMPTY, EMPTY, 1)]), PlaceOf(path), x), path, Node(Leaf, x, 1, Leaf))
  {
    PlugIds(path, Leaf);
    var b := s.links[x := Links(EMPTY, EMPTY, 1)];
    assert Before(path) + [] + After(path) == Before(path) + After(path) == Ids(whole);
    NoDupWith(Before(path), x, After(path));
    Graft(s, path, [x], b, x, Node(Leaf, x, 1, Leaf));
  }

  lemma NoDupWith(a: seq<Id>, x: Id, b: seq<Id>)
    requires NoDup(a + b) && x !in a + b
    ensures NoDup(a + [x] + b)
  {
    var s, r := a + b, a + [x] + b;
    forall i, j | 0 <= i < j < |r| ensures r[i] != r[j] {
      var i', j' := if i > |a| then i - 1 else i, if j > |a| then j - 1 else j;
      assert i != |a| ==> r[i] == s[i'];
      assert j != |a| ==> r[j] == s[j'];
    }
  }

  /** Where a path ends among the nodes. */
  lemma Split(key: map<Id, int>, k: int, whole: Tree, s: Store, path: seq<Frame>)
    requires On(whole, s, path, Leaf) && Cut(key, k, path)
    ensures var i := |Before(path)|;
      i <= |Ids(whole)| && Ids(whole)[..i] == Before(path) && Ids(whole)[i..] == After(path) &&
      forall j :: 0 <= j < |Ids(whole)| ==>
        Ids(whole)[j] in key && if j < i then key[Ids(whole)[j]] <= k else key[Ids(whole)[j]] > k
  {
    PlugIds(path, Leaf);
    var ids, i := Ids(whole), |Before(path)|;
    assert ids == Before(path) + After(path);
    hide Ids, Fits, Before, After;
    forall j | 0 <= j < |ids| ensures ids[j] in key && if j < i then key[ids[j]] <= k else key[ids[j]] > k {
      if j < i {
        assert ids[j] == Before(path)[j];
      } else {
        assert ids[j] == After(path)[j - i];
      }
    }
  }

  lemma NodeIn(t: Tree, x: Id)
    requires x in Ids(t)
    ensures t.Node? && (x == t.id || x in Ids(t.left) || x in Ids(t.right))
  {
  }

  /** The stack says nothing about the last frame of the path. */
  lemma AnyTop(stack: array<Place>, path: seq<Frame>, f: Frame)
    requires Stacked(stack, path + [f])
    ensures forall g: Frame :: Stacked(stack, path + [g])
  {
    forall g: Frame ensures Stacked(stack, path + [g]) {
      forall i | 0 <= i < |path + [g]| ensures stack[i] == PlaceOf((path + [g])[..i]) {
        assert (path + [g])[..i] == (path + [f])[..i];
      }
    }
  }

  /** A node of the tree and its sons, as its fields show them. */
  lemma InTree(whole: Tree, s: Store, path: seq<Frame>, t: Tree)
    requires On(whole, s, path, t) && t.Node?
    ensures t.id != EMPTY && t.id in s.links
    ensures s.links[t.id].left == if t.left.Leaf? then EMPTY else t.left.id
    ensures s.links[t.id].right == if t.right.Leaf? then EMPTY else t.right.id
    ensures (t.left.Node? ==> t.left.id != EMPTY) && (t.right.Node? ==> t.right.id != EMPTY)
  {
    AtPlace(s, path, t);
    RepNode(s.links, t);
  }

  lemma DownRight(path: seq<Frame>, t: Tree, r: seq<Frame>, u: Tree)
    requires t.Node? && u.Node? && AllRight(r)
    ensures var f := Down(u, false);
      AllRight(r + [f]) && Plug(r + [f], u.right) == Plug(r, u) && InnerPlace(t.id, r + [f]) == RightOf(u.id) &&
      NewPath(path, t.id, t, r + [f]) == NewPath(path, t.id, t, r) + [f] && PlaceOf(NewPath(path, t.id, t, r) + [f]) == RightOf(u.id)
  {
    var f := Down(u, false);
    assert Drop(r + [f]) == r && Last(r + [f]) == f;
    assert NewPath(path, t.id, t, r + [f]) == NewPath(path, t.id, t, r) + [f];
  }

  lemma Popped(stack: array<Place>, path: seq<Frame>, f: Frame)
    requires Stacked(stack, path + [f])
    ensures Stacked(stack, path)
  {
    forall i | 0 <= i < |path| ensures stack[i] == PlaceOf(path[..i]) {
      assert (path + [f])[..i] == path[..i];
    }
  }

  lemma TwoHigh(whole: Tree, s: Store, path: seq<Frame>, t: Tree)
    requires On(whole, s, path, t) && t.Node? && t.left.Node?
    ensures Height(t) >= 2
  {
    HeightNat(t.left);
    HeightNat(t.right);
  }

  lemma Mended(whole: Tree, s: Store, path: seq<Frame>, t: Tree, r: seq<Frame>, u: Tree)
    requires On(whole, s, path, t) && t.Node? && t.left == Plug(r, u) && u.Node? && u.right.Leaf? && AllRight(r)
    requires On(whole, s, NewPath(path, t.id, t, r), u)
    ensures var q := NewPath(path, u.id, t, r);
      Mendable(q, u.h, u.left) && Fits(Unhooked(s, PlaceOf(path), t.id, InnerPlace(t.id, r), u.id), q, u.left) &&
      Before(q) + Ids(u.left) + After(q) == Before(path) + Ids(t.left) + Ids(t.right) + After(path)
  {
    AroundIds(path, t.id, u.id, t, r, u.h);
    HeightNat(u.left);
    hide Fits, Around, Before, After, Ids;
    UnhookFits(s, path, t, r, u);
  }

  lemma Unhook(whole: Tree, s: Store, path: seq<Frame>, t: Tree)
    requires On(whole, s, path, t) && t.Node? && t.left.Leaf?
    ensures t.id in s.links && Mendable(path, t.h, t.right)
    ensures Fits(Set(s, PlaceOf(path), s.links[t.id].right), path, t.right) && Ids(t.left) == []
  {
    UnhookRight(s, path, t);
  }

  /** The place of a node among all nodes. */
  lemma WhereIs(whole: Tree, s: Store, path: seq<Frame>, t: Tree)
    requires On(whole, s, path, t) && t.Node?
    ensures var i := |Before(path)| + |Ids(t.left)|;
      i < |Ids(whole)| && Ids(whole)[i] == t.id &&
      Ids(whole)[..i] == Before(path) + Ids(t.left) && Ids(whole)[i + 1..] == Ids(t.right) + After(path) &&
      Ids(whole)[..i] + Ids(whole)[i + 1..] == Before(path) + Ids(t.left) + Ids(t.right) + After(path)
  {
    PlugIds(path, t);
    NodeIds(t.left, t.id, t.h, t.right);
    hide Ids, Fits, Before, After;
    var a, l, r, b := Before(path), Ids(t.left), Ids(t.right), After(path);
    Regroup(a, l, t.id, r, b);
    assert Ids(whole) == (a + l) + [t.id] + (r + b);
    assert a + l + r + b == (a + l) + (r + b);
  }

  /** Areas are not empty, and each ends before the next begins. */
  predicate Disjoint(start: map<Id, int>, end: map<Id, int>, ids: seq<Id>)
  {
    (forall i :: 0 <= i < |ids| ==> ids[i] in start && ids[i] in end && start[ids[i]] < end[ids[i]]) &&
    (forall i, j :: 0 <= i < j < |ids| ==> end[ids[i]] <= start[ids[j]])
  }

  lemma LastIn(t: Tree)
    requires t.Node?
    ensures LastOr(Ids(t)) == if t.right.Leaf? then t.id else LastOr(Ids(t.right))
  {
    if t.right.Node? {
      NodeIds(t.right.left, t.right.id, t.right.h, t.right.right);
    }
  }

  lemma FirstIn(t: Tree)
    requires t.Node?
    ensures FirstOr(Ids(t)) == if t.left.Leaf? then t.id else FirstOr(Ids(t.left))
  {
    if t.left.Node? {
      NodeIds(t.left.left, t.left.id, t.left.h, t.left.right);
    }
  }

  lemma NoNeighbours()
    ensures LastOr(Before([])) == EMPTY && FirstOr(After([])) == EMPTY
    ensures Before([]) == [] && After([]) == []
  {
  }

  lemma LeafIds(t: Tree)
    ensures |Ids(t)| == 0 <==> t.Leaf?
  {
  }

  lemma BesideDown(path: seq<Frame>, t: Tree, goLeft: bool)
    requires t.Node?
    ensures var q := path + [Down(t, goLeft)];
      if goLeft then Before(q) == Before(path) && FirstOr(After(q)) == t.id
      else After(q) == After(path) && LastOr(Before(q)) == t.id
  {
    var q := path + [Down(t, goLeft)];
    assert Drop(q) == path;
    OneFrame(q);
  }

  lemma Beside(a: seq<Id>, l: seq<Id>, r: seq<Id>, b: seq<Id>)
    ensures LastOr(a + l) == if |l| == 0 then LastOr(a) else LastOr(l)
    ensures FirstOr(r + b) == if |r| == 0 then FirstOr(b) else FirstOr(r)
  {
  }

  lemma SonsRep(whole: Tree, s: Store, path: seq<Frame>, t: Tree)
    requires On(whole, s, path, t) && t.Node?
    ensures t.id in s.links && Rep(s.links, s.links[t.id].left, t.left) && Rep(s.links, s.links[t.id].right, t.right)
  {
    AtPlace(s, path, t);
    RepNode(s.links, t);
  }

  /** `ids[i]` is the first node whose key is above `k`. */
  predicate FirstAbove(key: map<Id, int>, k: int, ids: seq<Id>, i: nat)
  {
    i <= |ids| && (forall j :: 0 <= j < |ids| ==> ids[j] in key) &&
    forall j :: 0 <= j < |ids| ==> if j < i then key[ids[j]] <= k else key[ids[j]] > k
  }

  lemma NothingCut(key: map<Id, int>, k: int)
    ensures Cut(key, k, [])
  {
  }

  lemma OnStart(whole: Tree, s: Store, path: seq<Frame>, t: Tree, start: map<Id, int>, end: map<Id, int>)
    requires On(whole, s, path, t) && t.Node? && Disjoint(start, end, Ids(whole))
    ensures t.id in start && t.id in end
  {
    WhereIs(whole, s, path, t);
  }

  lemma FoundHere(whole: Tree, s: Store, path: seq<Frame>, t: Tree, start: map<Id, int>, end: map<Id, int>, addr: int)
    requires On(whole, s, path, t) && t.Node? && Disjoint(start, end, Ids(whole)) && t.id in start && t.id in end
    requires start[t.id] <= addr < end[t.id] && Sorted(end, Ids(whole)) && t.id != EMPTY
    ensures var i := |Before(path)| + |Ids(t.left)|;
      FirstAbove(end, addr, Ids(whole), i) && i < |Ids(whole)| && Ids(whole)[i] == t.id
  {
    WhereIs(whole, s, path, t);
    hide Ids, On, Before;
    var i, ids := |Before(path)| + |Ids(t.left)|, Ids(whole);
    forall j | 0 <= j < |ids| ensures if j < i then end[ids[j]] <= addr else end[ids[j]] > addr {
      if j < i {
        assert end[ids[j]] <= start[ids[i]];
      }
    }
  }

  lemma FoundBetween(whole: Tree, s: Store, path: seq<Frame>, end: map<Id, int>, addr: int)
    requires On(whole, s, path, Leaf) && Cut(end, addr, path) && 0 !in Ids(whole)
    ensures var i, ids := |Before(path)|, Ids(whole);
      FirstAbove(end, addr, ids, i) && FirstOr(After(path)) == (if i < |ids| then ids[i] else EMPTY) &&
      (i < |ids| ==> ids[i] != EMPTY)
  {
    Split(end, addr, whole, s, path);
  }

  lemma {:induction false} NoEmptyId(a: map<Id, Links>, t: Tree)
    requires t.Node? ==> Rep(a, t.id, t)
    ensures EMPTY !in Ids(t)
  {
    if t.Node? {
      RepNode(a, t);
      NodeMembers(t);
      NoEmptyId(a, t.left);
      NoEmptyId(a, t.right);
    }
  }
}
