/**
 `struct mm_struct`: the areas of a process, kept both in a list and in an AVL tree keyed by the
 end address, and the operations of `mm/mmap.c`, `mm/mprotect.c` and `mm/mlock.c` on them.
 */
module VmMap {
  import opened Common
  import opened VmAreas
  import opened VmUnmap
  import opened VmMerge
  import opened VmFlags
  import Avl
  import AvlStore
  import AreaTrees

  type Id = Avl.Id

  /** Addresses are 32 bits wide. */
  const WORD := 0x1_0000_0000
  const EINVAL := -22
  const EFAULT := -14
  const EACCES := -13
  const ENOMEM := -12
  const EPERM := -1

  function PageAlign(len: int): int
  {
    (len + PAGE_SIZE - 1) / PAGE_SIZE * PAGE_SIZE
  }

  const NULL: Id := AvlStore.EMPTY

  /** No memory behind this identity. */
  const NOTHING := Area(0, 0, 0, 0, 0, 0, 0)

  function AreaOf(areas: map<Id, Area>, id: Id): Area
  {
    if id in areas then areas[id] else NOTHING
  }

  /** The areas that a list of identities stands for. */
  function Areas(list: seq<Id>, areas: map<Id, Area>): (L: seq<Area>)
    ensures |L| == |list| && forall i :: 0 <= i < |list| ==> L[i] == AreaOf(areas, list[i])
  {
    seq(|list|, i requires 0 <= i < |list| => AreaOf(areas, list[i]))
  }

  function Starts(areas: map<Id, Area>): map<Id, int>
  {
    map id | id in areas :: areas[id].start
  }

  function Ends(areas: map<Id, Area>): map<Id, int>
  {
    map id | id in areas :: areas[id].end
  }

  /** Areas in address order make a tree in key order, whatever has been done to their ends. */
  lemma KeysSorted(list: seq<Id>, areas: map<Id, Area>)
    requires Ordered(Areas(list, areas))
    ensures AreaTrees.Sorted(Ends(areas), list) && AreaTrees.Disjoint(Starts(areas), Ends(areas), list)
    ensures forall i :: 0 <= i < |list| ==> list[i] in areas
  {
    var L := Areas(list, areas);
    forall i | 0 <= i < |list| ensures list[i] in areas && areas[list[i]].start < areas[list[i]].end {
      assert Fine(L[i]);
    }
    forall i, j | 0 <= i < j < |list| ensures areas[list[i]].end <= areas[list[j]].start {
      assert L[i].end <= L[j].start;
    }
  }

  function IndexOf(list: seq<Id>, id: Id): (i: nat)
    requires id in list
    ensures i < |list| && list[i] == id
  {
    if list[0] == id then 0 else 1 + IndexOf(list[1..], id)
  }

  /** Where the "equivalent, but slow" loop of `insert_vm_struct` stops. */
  function SlowPlace(L: seq<Area>, start: int): (p: nat)
    ensures p <= |L|
  {
    if |L| == 0 || L[0].start > start then 0 else 1 + SlowPlace(L[1..], start)
  }

  lemma {:induction false} SlowPlaceIs(L: seq<Area>, p: nat, start: int)
    requires p <= |L| && (forall i :: 0 <= i < p ==> L[i].start <= start) && (forall i :: p <= i < |L| ==> L[i].start > start)
    ensures SlowPlace(L, start) == p
    decreases p
  {
    if p > 0 {
      SlowPlaceIs(L[1..], p - 1, start);
    }
  }

  function InsertAt<T>(s: seq<T>, p: nat, x: T): seq<T>
    requires p <= |s|
  {
    s[..p] + [x] + s[p..]
  }

  function RemoveAt<T>(s: seq<T>, p: nat): seq<T>
    requires p < |s|
  {
    s[..p] + s[p + 1..]
  }

  lemma RoomOrdered(L: seq<Area>, p: nat, a: Area)
    requires Ordered(L) && Room(L, p, a)
    ensures Ordered(InsertAt(L, p, a)) && SlowPlace(L, a.start) == p
  {
    assert L == L[..p] + L[p..];
    OrderedParts(L[..p], L[p..]);
    OrderedParts([a], L[p..]);
    OrderedParts(L[..p], [a] + L[p..]);
    assert InsertAt(L, p, a) == L[..p] + ([a] + L[p..]);
    forall i | 0 <= i < p ensures L[i].start <= a.start {
      assert Fine(L[i]);
    }
    SlowPlaceIs(L, p, a.start);
  }

  lemma AreasInsert(list: seq<Id>, areas: map<Id, Area>, p: nat, id: Id)
    requires p <= |list|
    ensures Areas(InsertAt(list, p, id), areas) == InsertAt(Areas(list, areas), p, AreaOf(areas, id))
  {
  }

  lemma AreasRemove(list: seq<Id>, areas: map<Id, Area>, p: nat)
    requires p < |list|
    ensures Areas(RemoveAt(list, p), areas) == RemoveAt(Areas(list, areas), p)
  {
  }

  lemma RemoveOrdered(L: seq<Area>, p: nat)
    requires Ordered(L) && p < |L|
    ensures Ordered(RemoveAt(L, p))
  {
  }

  lemma AfterPrev(list: seq<Id>, p: nat, prev: Id)
    requires AvlStore.NoDup(list) && NULL !in list && p <= |list| && prev == AreaTrees.LastOr(list[..p])
    ensures prev != NULL ==> prev in list
    ensures p == if prev == NULL then 0 else IndexOf(list, prev) + 1
    ensures AreaTrees.FirstOr(list[p..]) == if p < |list| then list[p] else NULL
  {
    if p > 0 {
      assert prev == list[p - 1];
    }
  }

  /** The tree's place for a new area is the only one with room. */
  lemma OnePlace(list: seq<Id>, areas: map<Id, Area>, p: nat, i: nat, vmp: Id)
    requires vmp in areas && Ordered(Areas(list, areas)) && Room(Areas(list, areas), p, areas[vmp]) && i <= |list|
    requires forall j :: 0 <= j < |list| ==> list[j] in areas
    requires forall j :: 0 <= j < |list| ==>
      if j < i then Ends(areas)[list[j]] <= Ends(areas)[vmp] else Ends(areas)[list[j]] > Ends(areas)[vmp]
    ensures i == p
  {
    var L := Areas(list, areas);
    forall j | 0 <= j < |list| ensures j < p <==> Ends(areas)[list[j]] <= Ends(areas)[vmp] {
      assert Fine(L[j]);
    }
    assert i < |list| ==> (i < p <==> Ends(areas)[list[i]] <= Ends(areas)[vmp]);
    assert p < |list| ==> (p < i <==> Ends(areas)[list[p]] <= Ends(areas)[vmp]);
  }

  lemma InsertFacts(list: seq<Id>, areas: map<Id, Area>, p: nat, vmp: Id)
    requires vmp in areas && Ordered(Areas(list, areas)) && Room(Areas(list, areas), p, areas[vmp])
    ensures AreaTrees.Sorted(Ends(areas), list) && |list| < Avl.MAX_AREAS && forall i :: 0 <= i < |list| ==> list[i] in areas
    ensures vmp in Ends(areas) && p == SlowPlace(Areas(list, areas), areas[vmp].start)
    ensures Areas(InsertAt(list, p, vmp), areas) == InsertAt(Areas(list, areas), p, areas[vmp])
    ensures Ordered(Areas(InsertAt(list, p, vmp), areas))
  {
    KeysSorted(list, areas);
    RoomOrdered(Areas(list, areas), p, areas[vmp]);
    AreasInsert(list, areas, p, vmp);
    FewAreas(Areas(list, areas));
  }

  lemma AreasOther(list: seq<Id>, areas: map<Id, Area>, id: Id, a: Area)
    requires id !in list
    ensures Areas(list, areas[id := a]) == Areas(list, areas)
  {
  }

  class Mm {
    var list: seq<Id>
    var areas: map<Id, Area>
    const tree: AreaTrees.AreaTree
    var nextId: Id
    var totalVm: int
    var lockedVm: int

    /** The areas in list order. */
    ghost function Layout(): seq<Area>
      reads this
    {
      Areas(list, areas)
    }

    /** List and tree agree, and the areas are in order. */
    ghost predicate Linked()
      reads this, tree
    {
      tree.Valid() && Avl.Ids(tree.shape) == list && Ordered(Layout()) && nextId > 0 &&
      (forall id :: id in areas ==> 0 < id < nextId)
    }

    ghost predicate Valid()
      reads this, tree
    {
      Linked() && totalVm == Total(Layout()) && lockedVm == Locked(Layout())
    }

    /** What the tree operations ask for. */
    lemma TreeReady()
      requires Linked()
      ensures tree.Valid() && Avl.Ids(tree.shape) == list && AvlStore.NoDup(list) && NULL !in list
      ensures AreaTrees.Sorted(Ends(areas), list) && AreaTrees.Disjoint(Starts(areas), Ends(areas), list)
      ensures AreaTrees.Roomy(tree.shape) && forall i :: 0 <= i < |list| ==> list[i] in areas
    {
      KeysSorted(list, areas);
      FewAreas(Layout());
      AreaTrees.NoEmptyId(tree.links, tree.shape);
    }

    lemma InOrder()
      requires Linked()
      ensures Ordered(Layout()) && |Layout()| == |list|
    {
    }

    constructor ()
      ensures Valid() && Layout() == [] && fresh(tree)
    {
      list, areas, nextId, totalVm, lockedVm := [], map[], 1, 0, 0;
      tree := new AreaTrees.AreaTree();
      new;
      assert Layout() == [];
    }

    /** `insert_vm_struct`: the tree says where the area goes, and that is where the slow loop over
        the list would put it; list and tree agree on its neighbours. */
    method InsertVmStruct(vmp: Id, ghost p: nat) returns (consistent: bool)
      requires Linked() && vmp in areas && vmp !in list && Room(Layout(), p, areas[vmp])
      modifies this`list, tree
      ensures Linked() && consistent && p == SlowPlace(old(Layout()), areas[vmp].start)
      ensures list == InsertAt(old(list), p, vmp) && Layout() == InsertAt(old(Layout()), p, areas[vmp])
    {
      hide Ordered, AvlStore.NoDup, AvlStore.Rep, Avl.Balanced, Avl.Ids, Areas, Ends, Starts, AreaTrees.Sorted,
        AreaTrees.Disjoint, AreaTrees.LastOr, AreaTrees.FirstOr, Room, SlowPlace, AreaTrees.Roomy;
      TreeReady();
      InsertFacts(list, areas, p, vmp);
      var prev, next;
      ghost var i;
      prev, next, i := tree.InsertNeighbours(vmp, Ends(areas));
      OnePlace(list, areas, p, i, vmp);
      AfterPrev(list, p, prev);
      var at := if prev == NULL then 0 else IndexOf(list, prev) + 1;
      consistent := (if at < |list| then list[at] else NULL) == next;
      list := InsertAt(list, at, vmp);
    }

    /** `kmalloc` and the assignment of a whole area; it never fails here. */
    method Alloc(a: Area) returns (id: Id)
      requires Linked()
      modifies this`areas, this`nextId
      ensures Linked() && id !in old(areas) && id !in list && areas == old(areas)[id := a] && Layout() == old(Layout())
      ensures areas[id] == a
    {
      KeysSorted(list, areas);
      id := nextId;
      areas, nextId := areas[id := a], nextId + 1;
      assert Layout() == old(Layout());
    }

    /** Off the list and out of the tree. */
    method Unlink(p: nat)
      requires Linked() && p < |list|
      modifies this`list, tree
      ensures Linked() && list == RemoveAt(old(list), p) && Layout() == RemoveAt(old(Layout()), p)
    {
      hide Ordered, AvlStore.NoDup, AvlStore.Rep, Avl.Balanced, Avl.Ids, Areas, Ends, Starts, AreaTrees.Sorted, AreaTrees.Disjoint,
        AreaTrees.Roomy;
      TreeReady();
      RemoveOrdered(Layout(), p);
      AreasRemove(list, areas, p);
      ghost var i := tree.Remove(list[p], Ends(areas));
      SamePlace(list, i, p);
      list := list[..p] + list[p + 1..];
    }

    /** `find_vma`. */
    method FindVma(addr: int) returns (vma: Id, ghost i: nat)
      requires Linked()
      ensures i <= |list| && vma == (if i < |list| then list[i] else NULL) && (vma == NULL <==> i == |list|)
      ensures EndsFrom(Areas(list, areas), addr, i)
    {
      KeysSorted(list, areas);
      vma, i := tree.FindVma(addr, Starts(areas), Ends(areas));
      forall j | 0 <= j < |list| ensures if j < i then Layout()[j].end <= addr else Layout()[j].end > addr {
        assert Layout()[j] == areas[list[j]];
      }
    }

    /** The place of an area in the list, from its neighbour in the tree. */
    method PlaceOf(vma: Id) returns (p: nat, consistent: bool)
      requires Linked() && vma in list
      ensures p < |list| && list[p] == vma && consistent
    {
      KeysSorted(list, areas);
      AreaTrees.NoEmptyId(tree.links, tree.shape);
      var prev, next;
      ghost var i;
      prev, next, i := tree.Neighbours(vma, Ends(areas));
      AfterPrev(list, i, prev);
      AfterPrev(list, i + 1, vma);
      p := if prev == NULL then 0 else IndexOf(list, prev) + 1;
      consistent := list[p] == vma && (if p + 1 < |list| then list[p + 1] else NULL) == next;
    }

    /** A copy of an area goes into list and tree. */
    method InsertCopy(a: Area, ghost p: nat) returns (id: Id)
      requires Linked() && Room(Layout(), p, a)
      modifies this`list, this`areas, this`nextId, tree
      ensures Linked() && Layout() == InsertAt(old(Layout()), p, a) && list == InsertAt(old(list), p, id)
      ensures id !in old(areas) && areas == old(areas)[id := a]
    {
      id := Alloc(a);
      var consistent := InsertVmStruct(id, p);
    }

    /** New fields for an area that is not on the list. */
    method Edit(area: Id, a: Area)
      requires Linked() && area in areas && area !in list
      modifies this`areas
      ensures Linked() && areas == old(areas)[area := a] && Layout() == old(Layout())
    {
      AreasOther(list, areas, area, a);
      areas := areas[area := a];
    }

    /** An unlinked area is given new bounds, and a copy of it is inserted. */
    method Reinsert(area: Id, a: Area, ghost p: nat)
      requires Linked() && area in areas && area !in list && Room(Layout(), p, a)
      modifies this`list, this`areas, this`nextId, tree
      ensures Linked() && Layout() == InsertAt(old(Layout()), p, a) && Only(area, old(areas), old(list), areas, list)
    {
      assert p <= |list|;
      hide Ordered, Areas, Room, InsertAt, Fine, Linked, Only;
      ghost var was, on := areas, list;
      Edit(area, a);
      ghost var id := InsertCopy(areas[area], p);
      OnlyOne(area, a, was, on, p, id);
    }

    /** The areas that an unmapped one leaves behind: none, one or two. */
    method KeepRest(area: Id, addr: int, end: int, ghost p: nat)
      requires Linked() && area in areas && area !in list && Room(Layout(), p, areas[area])
      requires addr % PAGE_SIZE == 0 && end % PAGE_SIZE == 0
      requires areas[area].start <= addr <= end <= areas[area].end && addr < areas[area].end && areas[area].start < end
      requires addr != areas[area].start || end != areas[area].end
      modifies this`list, this`areas, this`nextId, tree
      ensures Linked() && Layout() == InsertSeq(old(Layout()), p, Rest(old(areas)[area], addr, end))
      ensures Only(area, old(areas), old(list), areas, list)
    {
      ghost var L, a := Layout(), areas[area];
      RestRoom(L, p, a, addr, end);
      InsertRest(L, p, a, addr, end);
      hide Ordered, Areas, Room, InsertAt, Fine, Linked, InsertSeq, Rest, Only;
      if end == areas[area].end {
        Reinsert(area, areas[area].(end := addr), p);
      } else if addr == areas[area].start {
        Reinsert(area, Right(areas[area], end), p);
      } else {
        ghost var was, on := areas, list;
        ghost var id := InsertCopy(Right(areas[area], end), p);
        NewIsOther(area, was, on, p, id);
        Reinsert(area, areas[area].(end := addr), p);
        OnlyTwo(area, Right(a, end), was, on, p, id, areas, list);
      }
    }

    /** `unmap_fixup`: an area already off the list leaves behind what lies outside `addr..end`. */
    method UnmapFixup(area: Id, addr: int, end: int, ghost p: nat) returns (ok: bool)
      requires Linked() && area in areas && area !in list && Room(Layout(), p, areas[area])
      requires addr % PAGE_SIZE == 0 && end % PAGE_SIZE == 0
      modifies this, tree
      ensures Linked() && (ok <==> old(areas)[area].start <= addr <= end <= old(areas)[area].end &&
                                   addr < old(areas)[area].end && old(areas)[area].start < end)
      ensures ok ==> var a, L := old(areas)[area], old(Layout());
        Layout() == InsertSeq(L, p, Rest(a, addr, end)) &&
        totalVm == old(totalVm) - (end - addr) / PAGE_SIZE &&
        lockedVm == old(lockedVm) - Marked(a.flags, (end - addr) / PAGE_SIZE)
      ensures ok ==> Only(area, old(areas), old(list), areas, list)
    {
      ghost var L := Layout();
      if addr < areas[area].start || addr >= areas[area].end || end <= areas[area].start || end > areas[area].end || end < addr {
        return false;
      }
      totalVm := totalVm - (end - addr) / PAGE_SIZE;
      if areas[area].flags & VM_LOCKED != 0 {
        lockedVm := lockedVm - (end - addr) / PAGE_SIZE;
      }
      ok := true;
      InsertRest(L, p, areas[area], addr, end);
      hide Ordered, Areas, Room, Fine, InsertSeq, Rest, InsertAt;
      if addr != areas[area].start || end != areas[area].end {
        KeepRest(area, addr, end, p);
      }
    }

    /** `kfree` of an area that is not on the list. */
    method Free(id: Id)
      requires Linked() && id !in list
      modifies this`areas
      ensures Linked() && areas == old(areas) - {id} && Layout() == old(Layout())
    {
      areas := areas - {id};
      assert Layout() == old(Layout());
    }

    /** The first loop of `do_munmap`: the areas from place `p` that begin below `hi` come off list and tree,
        the last one first on the free list. */
    method TakeOut(p: nat, hi: int) returns (free: seq<Id>)
      requires Linked() && p <= |list|
      modifies this`list, tree
      ensures Linked() && Taken(old(list), p, list, free)
      ensures forall j :: p <= j < p + |free| ==> old(Layout())[j].start < hi
      ensures p + |free| < |old(list)| ==> old(Layout())[p + |free|].start >= hi
    {
      free := [];
      ghost var all, L := list, Layout();
      hide Ordered, Areas, Linked, Taken, RemoveAt, AreaOf;
      NoneTaken(all, p);
      while p < |list| && AreaOf(areas, list[p]).start < hi
        invariant Linked() && areas == old(areas) && Taken(all, p, list, free)
        invariant p + |free| <= |all| && |list| == |all| - |free| && forall j :: p <= j < p + |free| ==> L[j].start < hi
        decreases |list|
      {
        var mpnt := list[p];
        TakeOne(all, p, list, free);
        Unlink(p);
        free := [mpnt] + free;
      }
      if p < |list| {
        TakeOne(all, p, list, free);
      }
    }

    /** One round of the second loop of `do_munmap`. */
    method ReleaseOne(free: seq<Id>, addr: int, hi: int, ghost A: seq<Area>, ghost M: seq<Area>, ghost C: seq<Area>)
      requires Linked() && Around(A, M, C, addr, hi) && |free| > 0 && Waiting(free, areas, list, M)
      requires Layout() == A + Cuts(M[|free|..], addr, hi) + C
      requires totalVm == Total(Layout()) + Total(M[..|free|]) && lockedVm == Locked(Layout()) + Locked(M[..|free|])
      modifies this, tree
      ensures Linked() && Waiting(free[1..], areas, list, M)
      ensures Layout() == A + Cuts(M[|free| - 1..], addr, hi) + C
      ensures totalVm == Total(Layout()) + Total(M[..|free| - 1]) && lockedVm == Locked(Layout()) + Locked(M[..|free| - 1])
    {
      hide Ordered, Areas, Around, Waiting, Cuts, Cut, Linked, Room, InsertSeq, Rest, Total, Locked, Fine, Pages, LockedPages, Only;
      FirstWaiting(free, areas, list, M);
      ReleaseFacts(A, M, C, addr, hi, |free|);
      var mpnt := free[0];
      ghost var was, on := areas, list;
      var st := if addr < areas[mpnt].start then areas[mpnt].start else addr;
      var end := if hi > areas[mpnt].end then areas[mpnt].end else hi;
      var ok := UnmapFixup(mpnt, st, end, |A|);
      StillWaiting(free, was, on, areas, list, M);
      Free(mpnt);
    }

    /** The second loop of `do_munmap`: each area off the list is fixed up and freed. */
    method Release(free: seq<Id>, addr: int, hi: int, ghost A: seq<Area>, ghost M: seq<Area>, ghost C: seq<Area>)
      requires Linked() && Around(A, M, C, addr, hi) && Layout() == A + C && |free| == |M| && Waiting(free, areas, list, M)
      requires totalVm == Total(A + C) + Total(M) && lockedVm == Locked(A + C) + Locked(M)
      modifies this, tree
      ensures Valid() && Layout() == A + Cuts(M, addr, hi) + C
    {
      var rest := free;
      hide Ordered, Areas, Around, Waiting, Cuts, Linked, Total, Locked, AvlStore.NoDup;
      NoCuts(A, M, C, addr, hi);
      while |rest| > 0
        invariant |rest| <= |M| && Linked() && Waiting(rest, areas, list, M)
        invariant Layout() == A + Cuts(M[|rest|..], addr, hi) + C
        invariant totalVm == Total(Layout()) + Total(M[..|rest|]) && lockedVm == Locked(Layout()) + Locked(M[..|rest|])
      {
        ReleaseOne(rest, addr, hi, A, M, C);
        rest := rest[1..];
      }
    }

    /** Past the argument tests of `do_munmap`: the areas that touch `addr..hi` are taken out, and what is left
        of them is put back. */
    method UnmapRange(addr: int, hi: int)
      requires Valid() && addr < hi && addr % PAGE_SIZE == 0 && hi % PAGE_SIZE == 0
      modifies this, tree
      ensures Valid() && Layout() == Cuts(old(Layout()), addr, hi)
    {
      ghost var L, all := Layout(), list;
      hide Ordered, Areas, Taken, EndsFrom, Around, Cuts, Total, Locked, Waiting, AvlStore.NoDup, AvlStore.Rep, Avl.Balanced;
      var mpnt;
      ghost var i;
      mpnt, i := FindVma(addr);
      if mpnt == NULL {
        AllBelow(L, addr, hi);
        return;
      }
      var p, consistent := PlaceOf(mpnt);
      NoDupPlace(tree, list, p, i);
      var free := TakeOut(p, hi);
      ghost var q := p + |free|;
      AllWaiting(all, p, list, free, areas, L);
      InRange(L, p, q, addr, hi);
      PartSums(L, p, q);
      AroundCuts(L[..p], L[p..q], L[q..], addr, hi);
      Release(free, addr, hi, L[..p], L[p..q], L[q..]);
    }

    /** `do_munmap`: exactly the pages of the rounded range go, from the view and from the counters. */
    method DoMunmap(addr: int, len: int) returns (error: int)
      requires Valid() && 0 <= addr < WORD && 0 <= len < WORD
      modifies this, tree
      ensures Valid() && (error == 0 || error == EINVAL)
      ensures error == EINVAL <==> addr % PAGE_SIZE != 0 || addr > TASK_SIZE || len > TASK_SIZE - addr
      ensures error == EINVAL ==> Layout() == old(Layout())
      ensures error == 0 ==> forall x ::
        View(Layout(), x) == if Touches(addr, len, x) then None else View(old(Layout()), x)
    {
      if addr % PAGE_SIZE != 0 || addr > TASK_SIZE || len > TASK_SIZE - addr {
        return EINVAL;
      }
      error := 0;
      var aligned := PageAlign(len);
      if aligned == 0 {
        return;
      }
      ghost var L := Layout();
      UnmapRange(addr, addr + aligned);
      hide View, Cuts, Ordered, Areas, Touches, PageAlign;
      forall x ensures View(Layout(), x) == if Touches(addr, len, x) then None else View(L, x) {
        ViewCuts(L, addr, addr + aligned, x);
        AlignCovers(addr, len, x);
      }
    }

    /** New fields for an area on the list that keep the areas in order: the tree need not be told. */
    method EditListed(vma: Id, a: Area, ghost p: nat)
      requires Linked() && p < |list| && list[p] == vma && Ordered(Layout()[p := a])
      modifies this`areas
      ensures Linked() && areas == old(areas)[vma := a] && Layout() == old(Layout())[p := a]
    {
      KeysSorted(list, areas);
      AreasEdit(list, areas, p, a);
      areas := areas[vma := a];
    }

    /** Two neighbours become one area. */
    method Join(p: nat)
      requires Linked() && p + 1 < |list| && Mergeable(Layout()[p], Layout()[p + 1])
      modifies this`list, this`areas, tree
      ensures Linked() && Layout() == Joined(old(Layout()), p)
    {
      ghost var L := Layout();
      JoinFits(L, p);
      var prev, mpnt := list[p], list[p + 1];
      var a := AreaOf(areas, prev).(end := AreaOf(areas, mpnt).end);
      NoDupFrom(tree, list, p + 1);
      hide Ordered, Areas, Mergeable, Linked, AvlStore.NoDup;
      Unlink(p + 1);
      EditListed(prev, a, p);
      Free(mpnt);
    }

    /** `merge_segments`: no page changes, the page sums stay, and no two areas that meet in the range could still
        be joined. */
    method MergeSegments(startAddr: int, endAddr: int)
      requires Linked()
      modifies this`list, this`areas, tree
      ensures Linked() && SameView(Layout(), old(Layout())) && Merged(Layout(), startAddr, endAddr)
      ensures Total(Layout()) == Total(old(Layout())) && Locked(Layout()) == Locked(old(Layout()))
    {
      ghost var L := Layout();
      hide Ordered, Areas, EndsFrom, MergedUpTo, Merged, View, Total, Locked, AvlStore.NoDup, AvlStore.Rep, Avl.Balanced, Mergeable;
      var mpnt;
      ghost var i;
      mpnt, i := FindVma(startAddr);
      MergeStart(L, startAddr, i);
      if mpnt == NULL {
        MergeEnd(L, startAddr, endAddr, if i == 0 then 0 else i - 1);
        return;
      }
      var p, consistent := PlaceOf(mpnt);
      NoDupPlace(tree, list, p, i);
      p := if p == 0 then 0 else p - 1;
      while p + 1 < |list| && AreaOf(areas, list[p]).start < endAddr
        invariant 0 <= p < |list| && Linked() && SameView(Layout(), L) && MergedUpTo(Layout(), startAddr, p)
        invariant Total(Layout()) == Total(L) && Locked(Layout()) == Locked(L)
        decreases |list| - p
      {
        ghost var now := Layout();
        if Mergeable(AreaOf(areas, list[p]), AreaOf(areas, list[p + 1])) {
          JoinKeeps(L, now, startAddr, p);
          Join(p);
        } else {
          MergedOne(now, startAddr, p);
          p := p + 1;
        }
      }
      MergeEnd(Layout(), startAddr, endAddr, p);
    }

    /** `mprotect_fixup_all` and `mlock_fixup_all`. */
    method FixupAll(vma: Id, flags: bv16, ghost p: nat)
      requires Linked() && p < |list| && list[p] == vma
      modifies this`areas
      ensures Linked() && var a := old(Layout())[p]; Layout() == Repaint(old(Layout()), p, a.start, a.end, flags)
    {
      ghost var L := Layout();
      FineAt(L, p);
      Shrunk(L, p, L[p].(flags := flags));
      PaintAll(L, p, flags);
      hide Ordered, Areas, Repaint;
      EditListed(vma, AreaOf(areas, vma).(flags := flags), p);
    }

    /** An area on the list changes in place and another one is put in beside it. */
    method Divide(vma: Id, a: Area, n: Area, ghost p: nat, ghost q: nat)
      requires Linked() && p < |list| && list[p] == vma && Ordered(Layout()[p := a]) && Room(Layout()[p := a], q, n)
      requires q == p || q == p + 1
      modifies this`list, this`areas, this`nextId, tree
      ensures Linked() && Layout() == InsertAt(old(Layout())[p := a], q, n)
      ensures |list| == |old(list)| + 1 && SameTail(old(list), p, list)
    {
      hide Ordered, Areas, Room, Linked, InsertAt, SameTail;
      EditListed(vma, a, p);
      var id := InsertCopy(n, q);
      TailAfter(old(list), p, q, id);
    }

    /** `mprotect_fixup_start` and `mlock_fixup_start`: a new area for the changed head. */
    method FixupStart(vma: Id, end: int, flags: bv16, ghost p: nat)
      requires Linked() && p < |list| && list[p] == vma && end % PAGE_SIZE == 0 && Layout()[p].start < end < Layout()[p].end
      modifies this`list, this`areas, this`nextId, tree
      ensures Linked() && Layout() == Repaint(old(Layout()), p, old(Layout())[p].start, end, flags)
      ensures SameTail(old(list), p, list)
    {
      ghost var L := Layout();
      assert Ordered(L);
      hide Ordered, Areas, Repaint, Room, Linked, InsertAt, SameTail;
      SplitStart(L, p, end, flags);
      var a := AreaOf(areas, vma);
      var n := a.(end := end, flags := flags);
      Divide(vma, a.(start := end, offset := a.offset + (end - n.start)), n, p, p);
    }

    /** `mprotect_fixup_end` and `mlock_fixup_end`: a new area for the changed tail. */
    method FixupEnd(vma: Id, start: int, flags: bv16, ghost p: nat)
      requires Linked() && p < |list| && list[p] == vma && start % PAGE_SIZE == 0 && Layout()[p].start < start < Layout()[p].end
      modifies this`list, this`areas, this`nextId, tree
      ensures Linked() && Layout() == Repaint(old(Layout()), p, start, old(Layout())[p].end, flags)
      ensures SameTail(old(list), p, list)
    {
      ghost var L := Layout();
      assert Ordered(L);
      hide Ordered, Areas, Repaint, Room, Linked, InsertAt, SameTail;
      SplitEnd(L, p, start, flags);
      var a := AreaOf(areas, vma);
      var n := a.(start := start, offset := a.offset + (start - a.start), flags := flags);
      Divide(vma, a.(end := start), n, p, p + 1);
    }

    /** `mprotect_fixup_middle` and `mlock_fixup_middle`: new areas on both sides. */
    method FixupMiddle(vma: Id, start: int, end: int, flags: bv16, ghost p: nat)
      requires Linked() && p < |list| && list[p] == vma && start % PAGE_SIZE == 0 && end % PAGE_SIZE == 0
      requires Layout()[p].start < start < end < Layout()[p].end
      modifies this`list, this`areas, this`nextId, tree
      ensures Linked() && Layout() == Repaint(old(Layout()), p, start, end, flags)
      ensures SameTail(old(list), p, list)
    {
      ghost var L, was := Layout(), list;
      assert Ordered(L);
      hide Ordered, Areas, Repaint, Room, Linked, InsertAt, SameTail;
      SplitMiddle(L, p, start, end, flags);
      var a := AreaOf(areas, vma);
      var left, right := a.(end := start), Right(a, end);
      Divide(vma, Mid(a, start, end, flags), left, p, p);
      ghost var now := list;
      var id := InsertCopy(right, p + 2);
      TailAfter(now, p + 1, p + 2, id);
      TailTwice(was, p, now, list);
    }

    /** The choice between the four ways to split an area. */
    method Recolour(vma: Id, start: int, end: int, flags: bv16, ghost p: nat)
      requires Linked() && p < |list| && list[p] == vma && start % PAGE_SIZE == 0 && end % PAGE_SIZE == 0
      requires Layout()[p].start <= start < end <= Layout()[p].end
      modifies this`list, this`areas, this`nextId, tree
      ensures Linked() && Layout() == Repaint(old(Layout()), p, start, end, flags) && SameTail(old(list), p, list)
    {
      assert SameTail(list, p, list);
      hide Ordered, Areas, Repaint, Linked, SameTail;
      var a := AreaOf(areas, vma);
      if start == a.start {
        if end == a.end {
          FixupAll(vma, flags, p);
        } else {
          FixupStart(vma, end, flags, p);
        }
      } else {
        if end == a.end {
          FixupEnd(vma, start, flags, p);
        } else {
          FixupMiddle(vma, start, end, flags, p);
        }
      }
    }

    /** `mprotect_fixup` and `mlock_fixup`: part of one area gets new flags, and `locked_vm` follows. */
    method Fixup(vma: Id, start: int, end: int, c: Change, ghost p: nat)
      requires Valid() && Proper(c) && p < |list| && list[p] == vma && start % PAGE_SIZE == 0 && end % PAGE_SIZE == 0
      requires Layout()[p].start <= start < end <= Layout()[p].end
      modifies this, tree
      ensures Valid() && SameTail(old(list), p, list)
      ensures var N, flags := old(Layout()), NewFlags(c, old(Layout())[p].flags);
        Layout() == if flags == N[p].flags then N else Repaint(N, p, start, end, flags)
    {
      ghost var N := Layout();
      ChangeSums(N, p, start, end, c);
      FlagBits(c, N[p].flags);
      hide Ordered, Areas, Repaint, Linked, Total, Locked, NewFlags;
      var a := AreaOf(areas, vma);
      var newflags := NewFlags(c, a.flags);
      if newflags == a.flags {
        return;
      }
      hide SameTail;
      Recolour(vma, start, end, newflags, p);
      if c.SetLocked? {
        var pages := (end - start) / PAGE_SIZE;
        if newflags & VM_LOCKED == 0 {
          pages := -pages;
        }
        lockedVm := lockedVm + pages;
      }
    }

    /** `vma->vm_next`. */
    method NextOf(vma: Id, ghost p: nat) returns (next: Id)
      requires Linked() && p < |list| && list[p] == vma
      ensures next == (if p + 1 < |list| then list[p + 1] else NULL) && (next == NULL <==> p + 1 == |list|)
    {
      var k := IndexOf(list, vma);
      NoDupPlace(tree, list, k, p);
      AreaTrees.NoEmptyId(tree.links, tree.shape);
      next := if k + 1 < |list| then list[k + 1] else NULL;
    }

    /** One round for an area that ends inside the range: its rest changes, and the next one is looked up. */
    method ChangeArea(vma: Id, nstart: int, c: Change, ghost p: nat, ghost L: seq<Area>, ghost start: int)
      returns (next: Id, tmp: int, gap: bool, ghost q: nat)
      requires Valid() && Proper(c) && p < |list| && list[p] == vma && nstart % PAGE_SIZE == 0
      requires Layout()[p].start <= nstart < Layout()[p].end && start <= nstart && Permitted(c, Layout()[p].flags)
      requires Changed(L, Layout(), c, start, nstart) && Changeable(L, c, start, nstart)
      modifies this, tree
      ensures Valid() && tmp == old(Layout())[p].end && tmp % PAGE_SIZE == 0
      ensures Changed(L, Layout(), c, start, tmp) && Changeable(L, c, start, tmp)
      ensures gap ==> View(L, tmp) == None
      ensures !gap ==> q < |list| && list[q] == next && Layout()[q].start == tmp < Layout()[q].end
    {
      ghost var N, was := Layout(), list;
      hide Ordered, Areas, Linked, SameTail, Changed, Changeable, Total, Locked, NewFlags, Permitted, Repaint, View;
      InOrder();
      FineAt(N, p);
      tmp := AreaOf(areas, vma).end;
      next := NextOf(vma, p);
      ChangedOn(L, N, p, c, start, nstart, tmp);
      RepaintTail(N, p, nstart, tmp, NewFlags(c, N[p].flags));
      Fixup(vma, nstart, tmp, c, p);
      TailAreas(was, p, N, list, Layout());
      q := |list| - (|was| - p - 1);
      gap := next == NULL || AreaOf(areas, next).start != tmp;
      if gap {
        GapSeen(L, N, p, c, start, nstart);
      } else {
        InOrder();
        FineAt(Layout(), q);
      }
    }

    /** The last area of the range. */
    method ChangeLast(vma: Id, nstart: int, end: int, c: Change, ghost p: nat, ghost L: seq<Area>, ghost start: int)
      requires Valid() && Proper(c) && p < |list| && list[p] == vma && nstart % PAGE_SIZE == 0 && end % PAGE_SIZE == 0
      requires Layout()[p].start <= nstart < end <= Layout()[p].end && start <= nstart && Permitted(c, Layout()[p].flags)
      requires Changed(L, Layout(), c, start, nstart) && Changeable(L, c, start, nstart)
      modifies this, tree
      ensures Valid() && Changed(L, Layout(), c, start, end) && Changeable(L, c, start, end)
    {
      hide Ordered, Areas, Linked, SameTail, Changed, Changeable, Total, Locked, NewFlags, Permitted, Repaint;
      InOrder();
      ChangedOn(L, Layout(), p, c, start, nstart, end);
      Fixup(vma, nstart, end, c, p);
    }

    /** The loop of `sys_mprotect` and `do_mlock`, from an area that contains `start`: it stops at the end of the range,
        at the first address that is not mapped, or at the first where the change is refused. */
    method ChangeAreas(first: Id, start: int, end: int, c: Change, hole: int, ghost i: nat) returns (error: int, ghost k: int)
      requires Valid() && Proper(c) && i < |list| && list[i] == first && start % PAGE_SIZE == 0 && end % PAGE_SIZE == 0
      requires Layout()[i].start <= start < Layout()[i].end && start < end && hole != 0
      modifies this, tree
      ensures Valid() && Outcome(old(Layout()), Layout(), c, start, end, hole, error, k)
    {
      ghost var L := Layout();
      hide Ordered, Areas, Linked, SameTail, Changed, Changeable, Total, Locked, NewFlags, Permitted, View;
      var nstart, vma := start, first;
      ghost var p := i;
      NothingChanged(L, c, start);
      while true
        invariant Valid() && start <= nstart < end && nstart % PAGE_SIZE == 0 && 0 <= p < |list| && list[p] == vma
        invariant Layout()[p].start <= nstart < Layout()[p].end
        invariant Changed(L, Layout(), c, start, nstart) && Changeable(L, c, start, nstart)
        decreases end - nstart
      {
        if !Permitted(c, AreaOf(areas, vma).flags) {
          k := nstart;
          InOrder();
          Refused(L, Layout(), p, c, start, nstart);
          return EACCES, k;
        }
        if AreaOf(areas, vma).end >= end {
          ChangeLast(vma, nstart, end, c, p, L, start);
          k := end;
          return 0, k;
        }
        var next, tmp, gap;
        ghost var q;
        next, tmp, gap, q := ChangeArea(vma, nstart, c, p, L, start);
        if gap {
          k := tmp;
          return hole, k;
        }
        nstart, vma, p := tmp, next, q;
      }
    }

    /** From `find_vma` to `merge_segments`. */
    method ChangeRange(start: int, end: int, c: Change, hole: int) returns (error: int, ghost k: int)
      requires Valid() && Proper(c) && start % PAGE_SIZE == 0 && end % PAGE_SIZE == 0 && start < end && hole != 0
      modifies this, tree
      ensures Valid() && Outcome(old(Layout()), Layout(), c, start, end, hole, error, k)
    {
      ghost var L := Layout();
      hide Ordered, Areas, Changed, Changeable, Total, Locked, NewFlags, Permitted, View, EndsFrom, Merged;
      InOrder();
      var vma;
      ghost var i;
      vma, i := FindVma(start);
      if vma == NULL || AreaOf(areas, vma).start > start {
        k := start;
        NothingChanged(L, c, start);
        GapBefore(L, start, i);
        return hole, k;
      }
      EndsThere(L, start, i);
      error, k := ChangeAreas(vma, start, end, c, hole, i);
      ghost var N := Layout();
      hide Linked;
      MergeSegments(start, end);
      ChangedSame(L, N, Layout(), c, start, k);
    }

    /** `sys_mprotect`. */
    method SysMprotect(start: int, len: int, prot: nat) returns (error: int, ghost k: int)
      requires Valid() && 0 <= start < WORD && 0 <= len < WORD
      modifies this, tree
      ensures Valid()
      ensures start % PAGE_SIZE != 0 || EndWraps(start, len) || prot > 7 ==> error == EINVAL && Layout() == old(Layout())
      ensures start % PAGE_SIZE == 0 && TakenEmpty(len) && prot <= 7 ==> error == 0 && Layout() == old(Layout())
      ensures start % PAGE_SIZE == 0 && !EndWraps(start, len) && !TakenEmpty(len) && prot <= 7 ==>
        && Outcome(old(Layout()), Layout(), Protect(Rights(prot)), start, RangeEnd(start, len), EFAULT, error, k)
        && ProtectedTo(old(Layout()), Layout(), start, len, prot, error, k)
    {
      k := start;
      RangeSorts(start, len);
      if start % PAGE_SIZE != 0 {
        return EINVAL, k;
      }
      var end := RangeEnd(start, len);
      if end < start {
        return EINVAL, k;
      }
      if prot > 7 {
        return EINVAL, k;
      }
      if end == start {
        return 0, k;
      }
      hide Outcome, Linked, ProtectedTo;
      error, k := ChangeRange(start, end, Protect(Rights(prot)), EFAULT);
      ProtectOutcome(old(Layout()), Layout(), start, len, prot, error, k);
    }

    /** `do_mlock`; its callers pass a page boundary. */
    method DoMlock(start: int, len: int, on: bool, suser: bool) returns (error: int, ghost k: int)
      requires Valid() && 0 <= start < WORD && 0 <= len < WORD && start % PAGE_SIZE == 0
      modifies this, tree
      ensures Valid()
      ensures !suser ==> error == EPERM && Layout() == old(Layout())
      ensures suser && EndWraps(start, len) ==> error == EINVAL && Layout() == old(Layout())
      ensures suser && TakenEmpty(len) ==> error == 0 && Layout() == old(Layout())
      ensures suser && !EndWraps(start, len) && !TakenEmpty(len) ==>
        && Outcome(old(Layout()), Layout(), SetLocked(on), start, RangeEnd(start, len), ENOMEM, error, k)
        && LockedTo(old(Layout()), Layout(), start, len, on, error, k)
    {
      k := start;
      RangeSorts(start, len);
      if !suser {
        return EPERM, k;
      }
      var end := RangeEnd(start, len);
      if end < start {
        return EINVAL, k;
      }
      if end == start {
        return 0, k;
      }
      hide Outcome, Linked, LockedTo;
      error, k := ChangeRange(start, end, SetLocked(on), ENOMEM);
      LockOutcome(old(Layout()), Layout(), start, len, on, error, k);
    }

    /** `sys_mlock`: whole pages, within the limits on locked memory. */
    method SysMlock(start: int, len: int, lockLimit: nat, physPages: nat, suser: bool) returns (error: int, ghost k: int)
      requires Valid() && 0 <= start < WORD && 0 <= len < WORD
      modifies this, tree
      ensures Valid()
      ensures var a, n := PageStart(start), PageSpan(start, len);
        var locked := n / PAGE_SIZE + old(lockedVm);
        if locked > lockLimit / PAGE_SIZE || locked > physPages / 2 then error == ENOMEM && Layout() == old(Layout())
        else if !suser then error == EPERM && Layout() == old(Layout())
        else if (a + n) % WORD < a then error == EINVAL && Layout() == old(Layout())
        else if n == 0 then error == 0 && Layout() == old(Layout())
        else Outcome(old(Layout()), Layout(), SetLocked(true), a, a + n, ENOMEM, error, k)
      ensures 0 < len && start + len <= WORD - PAGE_SIZE && suser ==>
        var locked := PagesTouched(start, len) + old(lockedVm);
        if locked > lockLimit / PAGE_SIZE || locked > physPages / 2 then error == ENOMEM && Layout() == old(Layout())
        else LockedTo(old(Layout()), Layout(), start, len, true, error, k)
    {
      hide Outcome, Linked, LockedTo, PageSpan, PageStart;
      var a, n := PageStart(start), PageSpan(start, len);
      SpanRounded(start, len);
      SpanTouches(start, len, old(Layout()), true);
      var locked := n / PAGE_SIZE + lockedVm;
      if locked > lockLimit / PAGE_SIZE || locked > physPages / 2 {
        return ENOMEM, a;
      }
      error, k := DoMlock(a, n, true, suser);
    }

    /** `sys_munlock`. */
    method SysMunlock(start: int, len: int, suser: bool) returns (error: int, ghost k: int)
      requires Valid() && 0 <= start < WORD && 0 <= len < WORD
      modifies this, tree
      ensures Valid()
      ensures var a, n := PageStart(start), PageSpan(start, len);
        if !suser then error == EPERM && Layout() == old(Layout())
        else if (a + n) % WORD < a then error == EINVAL && Layout() == old(Layout())
        else if n == 0 then error == 0 && Layout() == old(Layout())
        else Outcome(old(Layout()), Layout(), SetLocked(false), a, a + n, ENOMEM, error, k)
      ensures 0 < len && start + len <= WORD - PAGE_SIZE && suser ==> LockedTo(old(Layout()), Layout(), start, len, false, error, k)
    {
      hide Outcome, Linked, LockedTo, PageSpan, PageStart;
      SpanRounded(start, len);
      SpanTouches(start, len, old(Layout()), false);
      error, k := DoMlock(PageStart(start), PageSpan(start, len), false, suser);
    }

    /** The end of `do_mmap`: a new area is inserted, merged and counted. */
    method MapArea(a: Area, ghost p: nat)
      requires Valid() && Room(Layout(), p, a)
      modifies this, tree
      ensures Valid() && forall x :: View(Layout(), x) == if Covers(a, x) then Some(PageAt(a, x)) else View(old(Layout()), x)
    {
      ghost var L := Layout();
      hide Ordered, Areas, View, Total, Locked, Merged, Room, Covers, PageAt, InsertAt, AvlStore.Rep, AvlStore.NoDup, Avl.Balanced,
        Avl.Ids;
      InOrder();
      MappedView(L, p, a);
      var id := InsertCopy(a, p);
      MergeSegments(a.start, a.end);
      totalVm := totalVm + (a.end - a.start) / PAGE_SIZE;
      if a.flags & VM_LOCKED != 0 {
        lockedVm := lockedVm + (a.end - a.start) / PAGE_SIZE;
      }
    }

    /** `build_mmap_avl`: a tree for the list, from nothing. */
    method BuildMmapAvl() returns (t: AreaTrees.AreaTree)
      requires Linked()
      ensures fresh(t) && t.Valid() && Avl.Ids(t.shape) == list
    {
      t := new AreaTrees.AreaTree();
      KeysSorted(list, areas);
      FewAreas(Layout());
      AreaTrees.NoEmptyId(tree.links, tree.shape);
      NothingListed(list);
      hide Ordered, Areas, AvlStore.Rep, Avl.Balanced, Avl.Ids, AvlStore.NoDup, AreaTrees.Sorted, Ends, AreaTrees.Disjoint, Starts;
      var n := 0;
      while n < |list|
        invariant n <= |list| && fresh(t) && t.Valid() && Avl.Ids(t.shape) == list[..n]
        modifies t
      {
        SortedPrefix(list, Ends(areas), n);
        ghost var i := t.Insert(list[n], Ends(areas));
        AppendPlace(list, Ends(areas), n, i);
        n := n + 1;
      }
      assert list[..n] == list;
    }

    /** `get_unmapped_area`: the lowest free stretch at or above the hint, or 0. A hint in the last page of
        the address range wraps to 0; then 0 may also be the address found. */
    method GetUnmappedArea(addr: int, len: int) returns (r: int)
      requires Valid() && 0 <= addr < WORD && 0 <= len < WORD
      ensures len > TASK_SIZE ==> r == 0
      ensures len <= TASK_SIZE ==> forall s :: Hint(addr) <= s < r ==> !FreeAt(Layout(), s, len)
      ensures len <= TASK_SIZE ==>
        if exists s :: Hint(addr) <= s && FreeAt(Layout(), s, len) then Hint(addr) <= r && FreeAt(Layout(), r, len) else r == 0
    {
      if len > TASK_SIZE {
        return 0;
      }
      ghost var L := Layout();
      InOrder();
      var at := Hint(addr);
      hide Linked, Ordered, Areas, EndsFrom, FreeAt;
      var vmm;
      ghost var p;
      vmm, p := FindVma(at);
      while true
        invariant Hint(addr) <= at && EndsFrom(L, at, p) && (forall s :: Hint(addr) <= s < at ==> !FreeAt(L, s, len))
        invariant p <= |list| && vmm == (if p < |list| then list[p] else NULL) && (vmm == NULL <==> p == |list|)
        decreases |list| - p
      {
        if TASK_SIZE - len < at {
          TooHigh(L, at, len);
          return 0;
        }
        if vmm == NULL || at + len <= AreaOf(areas, vmm).start {
          FitsHere(L, at, len, p);
          return at;
        }
        FitsNotHere(L, at, len, p);
        at := AreaOf(areas, vmm).end;
        vmm := NextOf(vmm, p);
        p := p + 1;
      }
    }
  }

  lemma SamePlace(list: seq<Id>, i: nat, p: nat)
    requires AvlStore.NoDup(list) && i < |list| && p < |list| && list[i] == list[p]
    ensures i == p
  {
  }

  lemma NoDupPlace(tree: AreaTrees.AreaTree, list: seq<Id>, p: nat, i: nat)
    requires tree.Valid() && Avl.Ids(tree.shape) == list && p < |list| && i < |list| && list[p] == list[i]
    ensures p == i && AvlStore.NoDup(list)
  {
  }

  lemma AllWaiting(all: seq<Id>, p: nat, list: seq<Id>, free: seq<Id>, areas: map<Id, Area>, L: seq<Area>)
    requires Taken(all, p, list, free) && AvlStore.NoDup(all) && L == Areas(all, areas) && Ordered(L)
    ensures p + |free| <= |L| && Waiting(free, areas, list, L[p..p + |free|])
    ensures Areas(list, areas) == L[..p] + L[p + |free|..]
  {
    KeysSorted(all, areas);
    var M := L[p..p + |free|];
    forall k | 0 <= k < |free| ensures free[k] in areas && areas[free[k]] == M[|free| - 1 - k] && free[k] !in list {
      assert free[k] == all[p + |free| - 1 - k];
    }
  }

  /** Some members of a list, from place `p` on, have been moved to another in reverse order. */
  ghost predicate Taken(all: seq<Id>, p: nat, list: seq<Id>, free: seq<Id>)
  {
    p + |free| <= |all| && list == all[..p] + all[p + |free|..] &&
    forall k :: 0 <= k < |free| ==> free[k] == all[p + |free| - 1 - k]
  }

  lemma NoneTaken(all: seq<Id>, p: nat)
    requires p <= |all|
    ensures Taken(all, p, all, [])
  {
    assert all == all[..p] + all[p + 0..];
  }

  lemma TakeOne(all: seq<Id>, p: nat, list: seq<Id>, free: seq<Id>)
    requires Taken(all, p, list, free) && p < |list|
    ensures p + |free| < |all| && list[p] == all[p + |free|]
    ensures Taken(all, p, RemoveAt(list, p), [list[p]] + free)
  {
    assert RemoveAt(list, p) == all[..p] + all[p + |free| + 1..];
  }

  /** Of the areas there were, only one has changed, and none has come onto the list. */
  ghost predicate Only(area: Id, was: map<Id, Area>, on: seq<Id>, areas: map<Id, Area>, list: seq<Id>)
  {
    (forall id :: id in was && id != area ==> id in areas && areas[id] == was[id]) &&
    (forall id :: id in list ==> id in on || id !in was)
  }

  lemma OnlyOne(area: Id, a: Area, was: map<Id, Area>, on: seq<Id>, p: nat, id: Id)
    requires p <= |on| && area in was && id !in was
    ensures Only(area, was, on, was[area := a][id := a], InsertAt(on, p, id))
  {
  }

  lemma NewIsOther(area: Id, was: map<Id, Area>, on: seq<Id>, p: nat, id: Id)
    requires p <= |on| && area in was && id !in was && area !in on
    ensures area !in InsertAt(on, p, id)
  {
  }

  lemma OnlyTwo(area: Id, a: Area, was: map<Id, Area>, on: seq<Id>, p: nat, id: Id, areas: map<Id, Area>, list: seq<Id>)
    requires p <= |on| && id !in was && Only(area, was[id := a], InsertAt(on, p, id), areas, list)
    ensures Only(area, was, on, areas, list)
  {
  }

  lemma RestRoom(L: seq<Area>, p: nat, a: Area, addr: int, end: int)
    requires Room(L, p, a) && addr % PAGE_SIZE == 0 && end % PAGE_SIZE == 0 && a.start <= addr <= end <= a.end
    ensures a.start < addr ==> Room(L, p, a.(end := addr))
    ensures end < a.end ==> Room(L, p, Right(a, end)) && (a.start < addr ==> Room(InsertAt(L, p, Right(a, end)), p, a.(end := addr)))
  {
    if end < a.end && a.start < addr {
      RoomBefore(L, p, Right(a, end), a.(end := addr));
    }
  }

  lemma RoomBefore(L: seq<Area>, p: nat, a: Area, b: Area)
    requires Room(L, p, a) && Room(L, p, b) && b.end <= a.start
    ensures Room(InsertAt(L, p, a), p, b)
  {
  }

  lemma InsertRest(L: seq<Area>, p: nat, a: Area, addr: int, end: int)
    requires p <= |L|
    ensures InsertSeq(L, p, Rest(a, addr, end)) ==
      if a.start < addr then
        if end < a.end then InsertAt(InsertAt(L, p, Right(a, end)), p, a.(end := addr)) else InsertAt(L, p, a.(end := addr))
      else if end < a.end then InsertAt(L, p, Right(a, end)) else L
  {
    if a.start < addr && end < a.end {
      assert InsertAt(InsertAt(L, p, Right(a, end)), p, a.(end := addr)) == L[..p] + ([a.(end := addr)] + [Right(a, end)]) + L[p..];
    }
  }

  /** The areas still off the list, last one first. */
  ghost predicate Waiting(free: seq<Id>, areas: map<Id, Area>, list: seq<Id>, M: seq<Area>)
  {
    |free| <= |M| && AvlStore.NoDup(free) &&
    forall k :: 0 <= k < |free| ==> free[k] in areas && areas[free[k]] == M[|free| - 1 - k] && free[k] !in list
  }

  lemma NoCuts(A: seq<Area>, M: seq<Area>, C: seq<Area>, lo: int, hi: int)
    ensures A + Cuts(M[|M|..], lo, hi) + C == A + C && M[..|M|] == M && M[0..] == M
    ensures Total(M[..0]) == 0 && Locked(M[..0]) == 0
  {
  }

  lemma FirstWaiting(free: seq<Id>, areas: map<Id, Area>, list: seq<Id>, M: seq<Area>)
    requires Waiting(free, areas, list, M) && |free| > 0
    ensures |free| <= |M| && free[0] in areas && areas[free[0]] == M[|free| - 1] && free[0] !in list
  {
  }

  lemma StillWaiting(free: seq<Id>, was: map<Id, Area>, on: seq<Id>, areas: map<Id, Area>, list: seq<Id>, M: seq<Area>)
    requires Waiting(free, was, on, M) && |free| > 0
    requires Only(free[0], was, on, areas, list)
    ensures Waiting(free[1..], areas - {free[0]}, list, M) && free[0] !in list
  {
    var rest := free[1..];
    forall k | 0 <= k < |rest| ensures rest[k] in areas - {free[0]} && areas[rest[k]] == M[|rest| - 1 - k] && rest[k] !in list {
      assert rest[k] == free[k + 1] && free[0] != free[k + 1];
    }
  }

  lemma AreasEdit(list: seq<Id>, areas: map<Id, Area>, p: nat, a: Area)
    requires p < |list| && AvlStore.NoDup(list)
    ensures Areas(list, areas[list[p] := a]) == Areas(list, areas)[p := a]
  {
  }

  lemma JoinFits(L: seq<Area>, p: nat)
    requires Ordered(L) && p + 1 < |L| && Mergeable(L[p], L[p + 1])
    ensures var a := L[p].(end := L[p + 1].end);
      Ordered(RemoveAt(L, p + 1)[p := a]) && RemoveAt(L, p + 1)[p := a] == Joined(L, p)
  {
    assert Fine(L[p + 1]);
    JoinedOrdered(L, p, TASK_SIZE);
    assert RemoveAt(L, p + 1)[p := L[p].(end := L[p + 1].end)] == Joined(L, p);
  }

  lemma NoDupFrom(tree: AreaTrees.AreaTree, list: seq<Id>, p: nat)
    requires tree.Valid() && Avl.Ids(tree.shape) == list && p < |list|
    ensures list[p] !in RemoveAt(list, p)
  {
  }

  ghost predicate SameView(L: seq<Area>, M: seq<Area>)
  {
    forall x :: View(L, x) == View(M, x)
  }

  lemma JoinKeeps(L: seq<Area>, now: seq<Area>, s: int, p: nat)
    requires Ordered(now) && p + 1 < |now| && Mergeable(now[p], now[p + 1]) && SameView(now, L) && MergedUpTo(now, s, p)
    ensures SameView(Joined(now, p), L) && MergedUpTo(Joined(now, p), s, p)
    ensures Total(Joined(now, p)) == Total(now) && Locked(Joined(now, p)) == Locked(now)
  {
    assert Fine(now[p]) && Fine(now[p + 1]);
    hide View;
    forall x ensures View(Joined(now, p), x) == View(L, x) {
      JoinedView(now, p, x);
      assert View(now, x) == View(L, x);
    }
    JoinedOrdered(now, p, s);
    JoinedSums(now, p);
  }

  lemma MergedOne(L: seq<Area>, s: int, p: nat)
    requires MergedUpTo(L, s, p) && p + 1 < |L| && !Mergeable(L[p], L[p + 1])
    ensures MergedUpTo(L, s, p + 1)
  {
  }

  /** What followed area `p` in one list is the end of the other. */
  ghost predicate SameTail(was: seq<Id>, p: nat, list: seq<Id>)
  {
    p < |was| <= |list| && list[|list| - (|was| - p - 1)..] == was[p + 1..]
  }

  lemma TailAfter(list: seq<Id>, p: nat, q: nat, id: Id)
    requires p < |list| && (q == p || q == p + 1)
    ensures SameTail(list, p, InsertAt(list, q, id)) && |InsertAt(list, q, id)| == |list| + 1
  {
  }

  lemma TailTwice(was: seq<Id>, p: nat, now: seq<Id>, list: seq<Id>)
    requires SameTail(was, p, now) && |now| == |was| + 1 && SameTail(now, p + 1, list)
    ensures SameTail(was, p, list)
  {
  }

  lemma PaintAll(L: seq<Area>, p: nat, flags: bv16)
    requires p < |L|
    ensures L[p := L[p].(flags := flags)] == Repaint(L, p, L[p].start, L[p].end, flags)
  {
  }

  lemma SplitStart(L: seq<Area>, p: nat, e: int, flags: bv16)
    requires Ordered(L) && p < |L| && L[p].start < e < L[p].end && e % PAGE_SIZE == 0
    ensures var b, n := Right(L[p], e), L[p].(end := e, flags := flags);
      Ordered(L[p := b]) && Room(L[p := b], p, n) && InsertAt(L[p := b], p, n) == Repaint(L, p, L[p].start, e, flags)
  {
    FineAt(L, p);
    Shrunk(L, p, Right(L[p], e));
    RoomBeside(L, p, Right(L[p], e), L[p].(end := e, flags := flags));
  }

  lemma SplitEnd(L: seq<Area>, p: nat, s: int, flags: bv16)
    requires Ordered(L) && p < |L| && L[p].start < s < L[p].end && s % PAGE_SIZE == 0
    ensures var b, n := Left(L[p], s), Mid(L[p], s, L[p].end, flags);
      Ordered(L[p := b]) && Room(L[p := b], p + 1, n) && InsertAt(L[p := b], p + 1, n) == Repaint(L, p, s, L[p].end, flags)
  {
    FineAt(L, p);
    Shrunk(L, p, Left(L[p], s));
    RoomBeside(L, p, Left(L[p], s), Mid(L[p], s, L[p].end, flags));
  }

  lemma SplitMiddle(L: seq<Area>, p: nat, s: int, e: int, flags: bv16)
    requires Ordered(L) && p < |L| && L[p].start < s < e < L[p].end && s % PAGE_SIZE == 0 && e % PAGE_SIZE == 0
    ensures var l, b, r := Left(L[p], s), Mid(L[p], s, e, flags), Right(L[p], e);
      Ordered(L[p := b]) && Room(L[p := b], p, l) && Room(InsertAt(L[p := b], p, l), p + 2, r) &&
      InsertAt(InsertAt(L[p := b], p, l), p + 2, r) == Repaint(L, p, s, e, flags)
  {
    FineAt(L, p);
    var l, b, r := Left(L[p], s), Mid(L[p], s, e, flags), Right(L[p], e);
    Shrunk(L, p, b);
    RoomBeside(L, p, b, l);
    RoomBeside(L, p, b, r);
    RoomShifted(L[p := b], p, l, r);
    MiddleShape(L, p, s, e, flags);
  }

  lemma RoomShifted(L: seq<Area>, p: nat, l: Area, r: Area)
    requires Room(L, p, l) && Room(L, p + 1, r) && l.end <= r.start
    ensures Room(InsertAt(L, p, l), p + 2, r)
  {
  }

  lemma MiddleShape(L: seq<Area>, p: nat, s: int, e: int, flags: bv16)
    requires p < |L| && L[p].start < s < e < L[p].end
    ensures var l, b, r := Left(L[p], s), Mid(L[p], s, e, flags), Right(L[p], e);
      InsertAt(InsertAt(L[p := b], p, l), p + 2, r) == Repaint(L, p, s, e, flags)
  {
    var l, b, r := Left(L[p], s), Mid(L[p], s, e, flags), Right(L[p], e);
    assert Paint(L[p], s, e, flags) == [l, b, r];
    assert InsertAt(L[p := b], p, l) == L[..p] + [l, b] + L[p + 1..];
    assert InsertAt(InsertAt(L[p := b], p, l), p + 2, r) == L[..p] + [l, b, r] + L[p + 1..];
  }

  /** The areas that follow are the ones that followed before. */
  lemma TailAreas(was: seq<Id>, p: nat, N: seq<Area>, list: seq<Id>, M: seq<Area>)
    requires SameTail(was, p, list) && |N| == |was| && |M| == |list|
    requires M == N || (|M| >= |N| - p && M[|M| - (|N| - p - 1)..] == N[p + 1..])
    ensures p + 1 < |was| ==> var q := |list| - (|was| - p - 1); q < |list| && list[q] == was[p + 1] && M[q] == N[p + 1]
  {
    if p + 1 < |was| {
      var q := |list| - (|was| - p - 1);
      assert list[q..][0] == was[p + 1..][0];
      assert M[q..] == N[p + 1..];
      assert M[q..][0] == N[p + 1..][0];
    }
  }

  lemma GapSeen(L: seq<Area>, N: seq<Area>, p: nat, c: Change, start: int, n: int)
    requires Ordered(N) && p < |N| && Changed(L, N, c, start, n) && n <= N[p].end
    requires p + 1 < |N| ==> N[p + 1].start != N[p].end
    ensures View(L, N[p].end) == None
  {
    GapBehind(N, p);
    hide View;
    assert View(N, N[p].end) == View(L, N[p].end);
  }

  /** How a change of a range ends: at `k`, before which everything is changed and nothing else is. */
  ghost predicate Outcome(L: seq<Area>, N: seq<Area>, c: Change, start: int, end: int, hole: int, error: int, k: int)
  {
    start <= k <= end && Changed(L, N, c, start, k) && Changeable(L, c, start, k) &&
    (error == 0 <==> k == end) &&
    (k < end ==> if View(L, k).None? then error == hole else error == EACCES && !Permitted(c, View(L, k).value.flags))
  }

  lemma Refused(L: seq<Area>, N: seq<Area>, p: nat, c: Change, start: int, n: int)
    requires Ordered(N) && p < |N| && Changed(L, N, c, start, n) && N[p].start <= n < N[p].end && !Permitted(c, N[p].flags)
    ensures View(L, n).Some? && !Permitted(c, View(L, n).value.flags)
  {
    ViewThere(N, p, n);
    hide View;
    assert View(N, n) == View(L, n);
  }

  lemma EndsThere(L: seq<Area>, x: int, i: nat)
    requires EndsFrom(L, x, i) && i < |L|
    ensures x < L[i].end
  {
  }

  lemma ChangedSame(L: seq<Area>, N: seq<Area>, M: seq<Area>, c: Change, lo: int, hi: int)
    requires Changed(L, N, c, lo, hi) && SameView(M, N)
    ensures Changed(L, M, c, lo, hi)
  {
  }

  function PageStart(start: int): int
  {
    start / PAGE_SIZE * PAGE_SIZE
  }

  /** How far the pages of `start..start+len` reach, in 32 bits. */
  function PageSpan(start: int, len: int): int
  {
    (len + start % PAGE_SIZE + PAGE_SIZE - 1) % WORD / PAGE_SIZE * PAGE_SIZE
  }

  lemma SpanRounded(start: int, len: int)
    requires 0 <= start < WORD && 0 <= len < WORD
    ensures 0 <= PageStart(start) < WORD && PageStart(start) % PAGE_SIZE == 0
    ensures 0 <= PageSpan(start, len) < WORD && PageSpan(start, len) % PAGE_SIZE == 0
    ensures var a, n := PageStart(start), PageSpan(start, len);
      RangeEnd(a, n) == (a + n) % WORD && ((a + n) % WORD >= a ==> (a + n) % WORD == a + n)
  {
    PagesRound(PageStart(start), PageSpan(start, len));
    hide RangeEnd;
  }

  /** Rounding a multiple of the page size up changes nothing. */
  lemma PagesRound(a: int, n: int)
    requires 0 <= a < WORD && 0 <= n < WORD && n % PAGE_SIZE == 0
    ensures RangeEnd(a, n) == (a + n) % WORD
  {
    assert n + PAGE_SIZE - 1 < WORD;
    assert (n + PAGE_SIZE - 1) / PAGE_SIZE * PAGE_SIZE == n;
  }

  /** Unless the length wraps around, the pages that change are those that the range touches. */
  lemma SpanCovers(start: int, len: int, x: int)
    requires 0 <= start < WORD && 0 < len && len + start % PAGE_SIZE + PAGE_SIZE - 1 < WORD
    ensures var a, n := PageStart(start), PageSpan(start, len);
      a <= x < a + n <==> start / PAGE_SIZE <= x / PAGE_SIZE <= (start + len - 1) / PAGE_SIZE
  {
  }

  /** The rounded end of a range, in 32 bits. */
  function RangeEnd(start: int, len: int): int
  {
    (start + (len + PAGE_SIZE - 1) % WORD / PAGE_SIZE * PAGE_SIZE) % WORD
  }

  /** A range is taken for an empty one exactly if it is empty or within a page of 4 GB long. */
  lemma EmptyIff(start: int, len: int)
    requires 0 <= start < WORD && 0 <= len < WORD
    ensures RangeEnd(start, len) == start <==> len == 0 || len > WORD - PAGE_SIZE
  {
    var n := (len + PAGE_SIZE - 1) % WORD / PAGE_SIZE * PAGE_SIZE;
    assert 0 <= n < WORD;
    assert n == 0 <==> len == 0 || len > WORD - PAGE_SIZE;
  }

  /** The page of `x` is one that the range `start..start+len` touches. */
  predicate Touches(start: int, len: int, x: int)
  {
    len > 0 && start / PAGE_SIZE <= x / PAGE_SIZE <= (start + len - 1) / PAGE_SIZE
  }

  /** Rounding up: from a page boundary on, the pages that a range touches. */
  lemma AlignCovers(addr: int, len: int, x: int)
    requires addr % PAGE_SIZE == 0 && len >= 0
    ensures addr <= x < addr + PageAlign(len) <==> Touches(addr, len, x)
  {
  }

  /** From a page boundary on, unless the length or the end wraps around, the rounded range is made of the pages that
      it touches. */
  lemma RangeCovers(start: int, len: int)
    requires 0 <= start < WORD && 0 <= len < WORD && start % PAGE_SIZE == 0
    ensures RangeEnd(start, len) < start <==> 0 < len <= WORD - PAGE_SIZE && start + len > WORD - PAGE_SIZE
    ensures RangeEnd(start, len) > start ==> forall x :: start <= x < RangeEnd(start, len) <==> Touches(start, len, x)
  {
    var n := (len + PAGE_SIZE - 1) % WORD / PAGE_SIZE * PAGE_SIZE;
    EmptyIff(start, len);
    if 0 < len <= WORD - PAGE_SIZE {
      assert n == PageAlign(len) && len <= n < len + PAGE_SIZE;
      forall x ensures start <= x < start + n <==> Touches(start, len, x) {
        AlignCovers(start, len, x);
      }
    }
  }

  /** The end of the range does not fit in 32 bits. */
  predicate EndWraps(start: int, len: int)
  {
    0 < len <= WORD - PAGE_SIZE && start + len > WORD - PAGE_SIZE
  }

  /** The range is empty, or its rounded length does not fit in 32 bits. */
  predicate TakenEmpty(len: int)
  {
    len == 0 || len > WORD - PAGE_SIZE
  }

  lemma RangeSorts(start: int, len: int)
    requires 0 <= start < WORD && 0 <= len < WORD
    ensures RangeEnd(start, len) == start <==> TakenEmpty(len)
    ensures start % PAGE_SIZE == 0 ==> (RangeEnd(start, len) < start <==> EndWraps(start, len))
  {
    hide RangeEnd;
    EmptyIff(start, len);
    if start % PAGE_SIZE == 0 {
      RangeCovers(start, len);
    }
  }

  /** What `mprotect` comes to: the pages up to `k` that the range touches have exactly the rights asked for, no other
      page has changed; all of them have, exactly if all are mapped and may have these rights. */
  ghost predicate ProtectedTo(L: seq<Area>, N: seq<Area>, start: int, len: int, prot: nat, error: int, k: int)
  {
    && (forall x :: if Touches(start, len, x) && x < k
          then View(L, x).Some? && View(N, x).Some? && Reprotected(View(L, x).value, View(N, x).value, prot)
          else View(N, x) == View(L, x))
    && (error == 0 <==> forall x :: Touches(start, len, x) ==> View(L, x).Some? && Grants(View(L, x).value.flags, prot))
    && (error == 0 ==> forall x :: Touches(start, len, x) ==> x < k)
    && (error != 0 ==> Touches(start, len, k))
    && (error != 0 ==> if View(L, k).None? then error == EFAULT else error == EACCES && !Grants(View(L, k).value.flags, prot))
  }

  lemma ProtectOutcome(L: seq<Area>, N: seq<Area>, start: int, len: int, prot: nat, error: int, k: int)
    requires 0 <= start < WORD && 0 <= len < WORD && start % PAGE_SIZE == 0 && RangeEnd(start, len) > start && prot <= 7
    requires Outcome(L, N, Protect(Rights(prot)), start, RangeEnd(start, len), EFAULT, error, k)
    ensures ProtectedTo(L, N, start, len, prot, error, k)
  {
    hide View, NewFlags, Permitted, Rights, Reprotected, Grants, RangeEnd, Touches;
    RangeCovers(start, len);
    SucceedsIff(L, N, Protect(Rights(prot)), start, RangeEnd(start, len), EFAULT, error, k);
    forall x | View(L, x).Some?
      ensures Reprotected(View(L, x).value, NewPage(Protect(Rights(prot)), View(L, x)).value, prot)
      ensures Permitted(Protect(Rights(prot)), View(L, x).value.flags) <==> Grants(View(L, x).value.flags, prot)
    {
      ProtectMeans(View(L, x).value, prot);
    }
  }

  /** What `mlock` and `munlock` come to: the pages up to `k` that the range touches are locked or not, and no other
      page has changed; all of them are, exactly if all are mapped. */
  ghost predicate LockedTo(L: seq<Area>, N: seq<Area>, start: int, len: int, on: bool, error: int, k: int)
  {
    && (forall x :: if Touches(start, len, x) && x < k
          then View(L, x).Some? && View(N, x).Some? && Relocked(View(L, x).value, View(N, x).value, on)
          else View(N, x) == View(L, x))
    && (error == 0 <==> forall x :: Touches(start, len, x) ==> View(L, x).Some?)
    && (error == 0 ==> forall x :: Touches(start, len, x) ==> x < k)
    && (error != 0 ==> error == ENOMEM && Touches(start, len, k) && View(L, k).None?)
  }

  lemma LockOutcome(L: seq<Area>, N: seq<Area>, start: int, len: int, on: bool, error: int, k: int)
    requires 0 <= start < WORD && 0 <= len < WORD && start % PAGE_SIZE == 0 && RangeEnd(start, len) > start
    requires Outcome(L, N, SetLocked(on), start, RangeEnd(start, len), ENOMEM, error, k)
    ensures LockedTo(L, N, start, len, on, error, k)
  {
    hide View, NewFlags, Permitted, Relocked, RangeEnd, Touches;
    RangeCovers(start, len);
    SucceedsIff(L, N, SetLocked(on), start, RangeEnd(start, len), ENOMEM, error, k);
    forall x | View(L, x).Some?
      ensures Relocked(View(L, x).value, NewPage(SetLocked(on), View(L, x)).value, on)
      ensures Permitted(SetLocked(on), View(L, x).value.flags)
    {
      LockMeans(View(L, x).value, on);
    }
  }

  /** How many pages a range touches. */
  function PagesTouched(start: int, len: int): int
  {
    (start + len - 1) / PAGE_SIZE - start / PAGE_SIZE + 1
  }

  /** Unless it wraps around, the range of whole pages that `mlock` works on touches the pages that the given one does. */
  lemma SpanTouches(start: int, len: int, L: seq<Area>, on: bool)
    requires 0 <= start < WORD && 0 <= len < WORD
    ensures 0 < len && start + len <= WORD - PAGE_SIZE ==>
      var a, n := PageStart(start), PageSpan(start, len);
      && n / PAGE_SIZE == PagesTouched(start, len) && !EndWraps(a, n) && !TakenEmpty(n)
      && forall N, error, k :: LockedTo(L, N, a, n, on, error, k) ==> LockedTo(L, N, start, len, on, error, k)
  {
    if 0 < len && start + len <= WORD - PAGE_SIZE {
      var a, n := PageStart(start), PageSpan(start, len);
      SpanSizes(start, len);
      forall x ensures Touches(a, n, x) <==> Touches(start, len, x) {
        SpanCovers(start, len, x);
        AlignCovers(a, n, x);
      }
      hide Touches, View;
      forall N, error, k | LockedTo(L, N, a, n, on, error, k) ensures LockedTo(L, N, start, len, on, error, k) {
      }
    }
  }

  lemma SpanSizes(start: int, len: int)
    requires 0 <= start < WORD && 0 < len && start + len <= WORD - PAGE_SIZE
    ensures var a, n := PageStart(start), PageSpan(start, len);
      && a % PAGE_SIZE == 0 && n % PAGE_SIZE == 0 && PageAlign(n) == n && 0 < n <= WORD - PAGE_SIZE && a + n <= WORD - PAGE_SIZE
      && n / PAGE_SIZE == PagesTouched(start, len)
  {
  }

  /** A change of a range succeeds exactly if every address of it is mapped and permits the change. */
  lemma SucceedsIff(L: seq<Area>, N: seq<Area>, c: Change, start: int, end: int, hole: int, error: int, k: int)
    requires Outcome(L, N, c, start, end, hole, error, k) && start < end
    ensures error == 0 <==> Changeable(L, c, start, end)
  {
    if k < end {
      NotChangeable(L, c, start, end, k);
    }
  }

  /** `k` is the first address of the range that is unmapped or refuses the change, or its end. */
  ghost predicate StopsAt(L: seq<Area>, c: Change, start: int, end: int, k: int)
  {
    start <= k <= end && Changeable(L, c, start, k) &&
    (k < end ==> View(L, k).None? || !Permitted(c, View(L, k).value.flags))
  }

  /** The pages of `lo..hi` have their new flags before the call. */
  ghost predicate Already(L: seq<Area>, c: Change, lo: int, hi: int)
  {
    forall x :: lo <= x < hi ==> NewPage(c, View(L, x)) == View(L, x)
  }

  lemma OneStop(L: seq<Area>, c: Change, start: int, end: int, k: int, k': int)
    requires StopsAt(L, c, start, end, k) && StopsAt(L, c, start, end, k')
    ensures k == k'
  {
    hide View, Permitted;
  }

  /** A call does all or nothing exactly if the range stops nowhere, or all pages before the stop have
      their new flags already. */
  lemma AtomicIff(L: seq<Area>, N: seq<Area>, c: Change, start: int, end: int, hole: int, error: int, k: int)
    requires Outcome(L, N, c, start, end, hole, error, k) && start < end
    ensures StopsAt(L, c, start, end, k) && (error == 0 <==> k == end)
    ensures error == 0 || SameView(N, L) <==> k == end || Already(L, c, start, k)
  {
    hide View, NewPage, Permitted;
    if k < end && !Already(L, c, start, k) {
      var x :| start <= x < k && NewPage(c, View(L, x)) != View(L, x);
      assert View(N, x) != View(L, x);
    }
  }

  /** One page is mapped, two are asked for: the call fails and the first page has changed, for rights
      as for locking. */
  lemma HalfDone(N: seq<Area>, c: Change, hole: int, error: int, k: int)
    requires c == Protect(3) || c == SetLocked(true)
    requires Outcome([Area(0, 4096, 0x71, 0, 0, 0, 0)], N, c, 0, 8192, hole, error, k)
    ensures error != 0 && error == hole && k == 4096 && !SameView(N, [Area(0, 4096, 0x71, 0, 0, 0, 0)])
  {
    var L := [Area(0, 4096, 0x71, 0, 0, 0, 0)];
    assert forall x :: View(L, x).Some? <==> 0 <= x < 4096;
    assert View(L, 0) == Some(PageAt(L[0], 0)) && View(L, 0).value.flags == 0x71;
    assert forall x :: 0 <= x < 4096 ==> View(L, x).value.flags == 0x71;
    assert Permitted(c, 0x71) && NewFlags(c, 0x71) != 0x71;
    assert View(L, 4096).None?;
    assert k == 4096;
    assert View(N, 0) == NewPage(c, View(L, 0));
  }

  lemma NotChangeable(L: seq<Area>, c: Change, lo: int, hi: int, k: int)
    requires lo <= k < hi && (View(L, k).Some? ==> !Permitted(c, View(L, k).value.flags))
    ensures !Changeable(L, c, lo, hi)
  {
  }

  lemma MappedView(L: seq<Area>, p: nat, a: Area)
    requires Ordered(L) && Room(L, p, a)
    ensures forall x :: View(InsertAt(L, p, a), x) == if Covers(a, x) then Some(PageAt(a, x)) else View(L, x)
    ensures Total(InsertAt(L, p, a)) == Total(L) + Pages(a) && Locked(InsertAt(L, p, a)) == Locked(L) + LockedPages(a)
  {
    var A, C := L[..p], L[p..];
    assert L == A + [] + C;
    forall x ensures View(InsertAt(L, p, a), x) == if Covers(a, x) then Some(PageAt(a, x)) else View(L, x) {
      One(a, x);
      if Covers(a, x) {
        RoomOrdered(L, p, a);
        ViewThere(InsertAt(L, p, a), p, x);
      } else {
        ViewChange(A, [], [a], C, x);
      }
    }
    One(a, 0);
    NoSums();
    SumsChange(A, [], [a], C);
  }

  lemma SortedPrefix(list: seq<Id>, key: map<Id, int>, n: nat)
    requires AreaTrees.Sorted(key, list) && AvlStore.NoDup(list) && n < |list|
    ensures AreaTrees.Sorted(key, list[..n]) && list[n] !in list[..n] && list[n] in key
  {
  }

  lemma NothingListed(list: seq<Id>)
    ensures Avl.Ids(Avl.Leaf) == list[..0]
  {
  }

  lemma Smaller(list: seq<Id>, key: map<Id, int>, n: nat, i: nat)
    requires AreaTrees.Sorted(key, list) && i < n < |list|
    ensures list[..n][i] in key && key[list[..n][i]] < key[list[n]]
  {
  }

  lemma AppendPlace(list: seq<Id>, key: map<Id, int>, n: nat, i: nat)
    requires AreaTrees.Sorted(key, list) && n < |list| && i <= n
    requires forall j :: 0 <= j < |list[..n]| ==> if j < i then key[list[..n][j]] <= key[list[n]] else key[list[..n][j]] > key[list[n]]
    ensures i == n && list[..n][..i] + [list[n]] + list[..n][i..] == list[..n + 1]
  {
    if i < n {
      Smaller(list, key, n, i);
    }
  }

  /** Where the search for free space begins: at the first page boundary from the address on, or, if no address is
      given, at a third of the user space. In the last page of the address range there is no such boundary. */
  function Hint(addr: int): (r: int)
    ensures addr == 0 ==> r == 0x4000_0000
    ensures 0 < addr <= WORD - PAGE_SIZE ==> r % PAGE_SIZE == 0 && addr <= r < addr + PAGE_SIZE
    ensures WORD - PAGE_SIZE < addr < WORD ==> r == 0
  {
    ((if addr == 0 then TASK_SIZE / 3 else addr) + PAGE_SIZE - 1) % WORD / PAGE_SIZE * PAGE_SIZE
  }

  /** `s..s+len` is in user space and touches no area. */
  predicate FreeAt(L: seq<Area>, s: int, len: int)
  {
    s <= TASK_SIZE - len && forall i :: 0 <= i < |L| ==> s + len <= L[i].start || L[i].end <= s
  }

  /** The process has no page in `s..e`. */
  ghost predicate Bare(L: seq<Area>, s: int, e: int)
  {
    forall x :: s <= x < e ==> View(L, x).None?
  }

  /** Free space is what has no page of the process in it. */
  lemma FreeIff(L: seq<Area>, s: int, len: int)
    requires Ordered(L) && len > 0
    ensures FreeAt(L, s, len) <==> s + len <= TASK_SIZE && Bare(L, s, s + len)
  {
    hide Ordered, View;
    if FreeAt(L, s, len) {
      forall x | s <= x < s + len ensures View(L, x).None? {
        NothingAt(L, x);
      }
    } else if s + len <= TASK_SIZE {
      var i :| 0 <= i < |L| && s + len > L[i].start && L[i].end > s;
      IsFine(L, i);
      var x := if s >= L[i].start then s else L[i].start;
      NothingAt(L, x);
      assert Covers(L[i], x);
    }
  }

  lemma IsFine(L: seq<Area>, i: nat)
    requires Ordered(L) && i < |L|
    ensures Fine(L[i])
  {
  }

  lemma {:induction false} NothingAt(L: seq<Area>, x: int)
    ensures View(L, x).None? <==> forall i :: 0 <= i < |L| ==> !Covers(L[i], x)
  {
    if |L| > 0 {
      NothingAt(L[1..], x);
      assert forall i :: 0 < i < |L| ==> L[i] == L[1..][i - 1];
    }
  }

  lemma TooHigh(L: seq<Area>, at: int, len: int)
    requires TASK_SIZE - len < at
    ensures forall s :: at <= s ==> !FreeAt(L, s, len)
  {
  }

  lemma FitsHere(L: seq<Area>, at: int, len: int, p: nat)
    requires Ordered(L) && EndsFrom(L, at, p) && at <= TASK_SIZE - len && (p < |L| ==> at + len <= L[p].start)
    ensures FreeAt(L, at, len)
  {
    forall i | 0 <= i < |L| ensures at + len <= L[i].start || L[i].end <= at {
      if i > p {
        assert L[p].end <= L[i].start && Fine(L[p]);
      }
    }
  }

  lemma FitsNotHere(L: seq<Area>, at: int, len: int, p: nat)
    requires Ordered(L) && EndsFrom(L, at, p) && p < |L| && at + len > L[p].start
    ensures forall s :: at <= s < L[p].end ==> !FreeAt(L, s, len)
    ensures at < L[p].end && EndsFrom(L, L[p].end, p + 1)
  {
    forall j | 0 <= j < |L| ensures if j < p + 1 then L[j].end <= L[p].end else L[j].end > L[p].end {
      assert Fine(L[j]) && Fine(L[p]);
      if j < p {
        assert L[j].end <= L[p].start;
      } else if p < j {
        assert L[p].end <= L[j].start;
      }
    }
  }

}
