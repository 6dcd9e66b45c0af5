// The linked list and the globals of SP_HW4/12_2.c, changed in place by insert,
// dfs_show and free_set.
module ProcessList {
  import opened ProcessForest
  import opened ProcessTree

  class Node {
    const rec: Rec
    var next: Node?

    constructor (rec: Rec)
      ensures this.rec == rec && next == null
    {
      this.rec, next := rec, null;
    }
  }

  // The node at position i, or NULL behind the last one.
  function At(nodes: seq<Node>, i: nat): Node? {
    if i < |nodes| then nodes[i] else null
  }

  class PsTree {
    var root: Node?
    var f: int
    var l: nat
    var out: seq<Event>
    ghost var nodes: seq<Node>   // the list, head first
    ghost var live: set<Node>    // allocated and not freed

    ghost predicate Valid()
      reads this, nodes
    {
      && (root == null <==> nodes == [])
      && (root != null ==> root == nodes[0])
      && (forall i :: 0 <= i < |nodes| ==> nodes[i].next == At(nodes, i + 1))
      && (forall i, j :: 0 <= i < j < |nodes| ==> nodes[i] != nodes[j])
      && (forall i :: 0 <= i < |nodes| ==> nodes[i] in live)
    }

    ghost function Recs(): seq<Rec>
      reads this
    {
      var ns := nodes;
      seq(|ns|, i requires 0 <= i < |ns| => ns[i].rec)
    }

    ghost function View(): Screen
      reads this
    {
      Screen(f, l, out)
    }

    constructor ()
      ensures Valid() && nodes == [] && View() == Screen(0, 0, [])
    {
      root, f, l, out := null, 0, 0, [];
      nodes, live := [], {};
    }

    // 12_2.c:20-38: a new node at the end of the list.
    method Insert(rec: Rec)
      requires Valid()
      modifies this`root, this`nodes, this`live, nodes
      ensures Valid() && Recs() == old(Recs()) + [rec] && old(nodes) <= nodes
    {
      var node := new Node(rec);
      assert node !in nodes;
      if root == null {
        root := node;
      } else {
        var temp := root;
        ghost var at := 0;
        while temp.next != null
          invariant at < |nodes| && temp == nodes[at]
          decreases |nodes| - at
        {
          temp := temp.next;
          at := at + 1;
        }
        assert at == |nodes| - 1;
        temp.next := node;
      }
      nodes := nodes + [node];
      live := live + {node};
    }

    // 12_2.c:47-60
    method PrintProcess(rec: Rec, d: int)
      modifies this`f, this`l, this`out
      ensures View() == Screen(0, |rec.name|, old(out) + [Process(rec, d, old(f) == 0)])
    {
      out := out + [Process(rec, d, f == 0)];
      f := 0;
      l := |rec.name|;
    }

    // 12_2.c:43-70.  p is ppi and d is cur_dep.
    method DfsShow(p: int, d: int)
      requires Valid() && Terminates(Recs(), p)
      modifies this`f, this`l, this`out
      ensures View() == Show(Recs(), 0, p, d, old(View()))
      decreases Room(Recs(), p)
    {
      hide Descendant, Room, Show, Terminates;
      ghost var recs := Recs();
      var temp := root;
      ghost var i := 0;
      while temp != null
        invariant 0 <= i <= |nodes| && temp == At(nodes, i)
        invariant Recs() == recs && Valid()
        invariant Show(recs, i, p, d, View()) == Show(recs, 0, p, d, old(View()))
        decreases |nodes| - i
      {
        ShowStep(recs, i, p, d, View());
        if temp.rec.ppid == p {
          RoomShrinks(recs, i);
          PrintProcess(temp.rec, d);
          DfsShow(temp.rec.pid, d + 1);
        }
        temp := temp.next;
        i := i + 1;
      }
      ShowEnds(recs, p, d, View());
      if l == 0 {
        return;
      }
      f := 1;
      out := out + [Newline];
      l := 0;
    }

    // 12_2.c:72-80: every node freed once, and none used after it is freed.
    method FreeSet()
      requires Valid()
      modifies this`root, this`live
      ensures root == null && live == old(live) - set n | n in nodes
    {
      var temp := root;
      ghost var i := 0;
      while root != null
        invariant 0 <= i <= |nodes| && temp == root == At(nodes, i)
        invariant live == old(live) - set n | n in nodes[..i]
        decreases |nodes| - i
      {
        assert root in live;
        root := root.next;
        assert temp in live;
        live := live - {temp};
        temp := root;
        i := i + 1;
      }
      assert nodes[..i] == nodes;
    }
  }
}
