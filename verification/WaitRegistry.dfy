/** The wait registry as an object over slabs and links. */
module WaitRegistry {
  import opened Wrappers
  import opened WaitLists
  import opened WaitSpec

  datatype Handle = Handle(arm: Arm, node: nat)

  datatype Reg = Reg(fiber: nat, arms: seq<Handle>)

  type Regs = map<nat, Reg>

  // ---------- Which nodes wait for a key ----------

  function NodesFor(arms: seq<Handle>, k: Key): seq<nat> {
    if arms == [] then [] else (if arms[0].arm.key == k then [arms[0].node] else []) + NodesFor(arms[1..], k)
  }

  predicate Known(order: seq<nat>, regs: Regs) {
    forall i | 0 <= i < |order| :: order[i] in regs
  }

  /** The nodes of all registrations in order. */
  function Flat(order: seq<nat>, regs: Regs, k: Key): seq<nat>
    requires Known(order, regs)
  {
    if order == [] then [] else NodesFor(regs[order[0]].arms, k) + Flat(order[1..], regs, k)
  }

  lemma {:induction false} FlatConcat(a: seq<nat>, b: seq<nat>, regs: Regs, k: Key)
    requires Known(a, regs) && Known(b, regs)
    ensures Known(a + b, regs) && Flat(a + b, regs, k) == Flat(a, regs, k) + Flat(b, regs, k)
  {
    hide NodesFor;
    if a == [] {
      assert a + b == b;
    } else {
      FlatConcat(a[1..], b, regs, k);
      assert (a + b)[1..] == a[1..] + b && (a + b)[0] == a[0];
      Associate(NodesFor(regs[a[0]].arms, k), Flat(a[1..], regs, k), Flat(b, regs, k));
    }
  }

  lemma {:induction false} FlatSame(order: seq<nat>, regs: Regs, regs': Regs, k: Key)
    requires Known(order, regs)
    requires forall i | 0 <= i < |order| :: order[i] in regs' && regs'[order[i]] == regs[order[i]]
    ensures Flat(order, regs', k) == Flat(order, regs, k)
  {
    hide NodesFor;
    if order != [] { FlatSame(order[1..], regs, regs', k); }
  }

  predicate Distinct(order: seq<nat>) {
    forall i, j | 0 <= i < j < |order| :: order[i] != order[j]
  }

  /** The lists around registration `order[p]`. */
  lemma FlatAround(order: seq<nat>, regs: Regs, k: Key, p: nat)
    requires Known(order, regs) && p < |order|
    ensures Flat(order, regs, k)
         == Flat(order[..p], regs, k) + (NodesFor(regs[order[p]].arms, k) + Flat(order[p + 1..], regs, k))
  {
    hide NodesFor;
    FlatConcat(order[..p], order[p..], regs, k);
    assert order == order[..p] + order[p..] && order[p..][1..] == order[p + 1..];
  }

  lemma {:induction false} NodesForMore(arms: seq<Handle>, h: Handle, k: Key)
    ensures NodesFor(arms + [h], k) == NodesFor(arms, k) + if h.arm.key == k then [h.node] else []
  {
    if arms == [] {
      assert [h][1..] == [];
    } else {
      NodesForMore(arms[1..], h, k);
      assert (arms + [h])[1..] == arms[1..] + [h] && (arms + [h])[0] == arms[0];
      Associate(if arms[0].arm.key == k then [arms[0].node] else [], NodesFor(arms[1..], k), if h.arm.key == k then [h.node] else []);
    }
  }

  // ---------- The invariant ----------

  /** Every arm of a registration has a node that points back to it. */
  ghost predicate Owned(regs: Regs, nodes: Nodes) {
    forall g, j | g in regs && 0 <= j < |regs[g].arms| ::
      var n := regs[g].arms[j].node; n in nodes && nodes[n].reg == g && nodes[n].fiber == regs[g].fiber
  }

  ghost predicate Consistent(order: seq<nat>, regs: Regs, heads: Heads, nodes: Nodes, lists: Lists) {
    && Distinct(order) && Known(order, regs) && (forall g | g in regs :: g in order)
    && Represents(heads, nodes, lists) && (forall k :: At(lists, k) == Flat(order, regs, k))
    && Owned(regs, nodes)
  }

  /** A new arm of the youngest registration goes to the end of its key's list. */
  lemma ArmAdded(order: seq<nat>, regs: Regs, g: nat, h: Handle, k: Key)
    requires order != [] && order[|order| - 1] == g && Distinct(order) && Known(order, regs)
    ensures var regs' := regs[g := regs[g].(arms := regs[g].arms + [h])];
            Known(order, regs') && Flat(order, regs', k) == Flat(order, regs, k) + if h.arm.key == k then [h.node] else []
  {
    hide NodesFor;
    var p, regs' := |order| - 1, regs[g := regs[g].(arms := regs[g].arms + [h])];
    FlatAround(order, regs, k, p);
    FlatAround(order, regs', k, p);
    FlatSame(order[..p], regs, regs', k);
    NodesForMore(regs[g].arms, h, k);
    var a, b, c := Flat(order[..p], regs, k), NodesFor(regs[g].arms, k), if h.arm.key == k then [h.node] else [];
    assert order[p + 1..] == [];
    assert a + (b + c + []) == a + (b + []) + c;
  }

  /** Taking the first arm off a registration takes one node out of one list. */
  lemma ArmGone(order: seq<nat>, regs: Regs, p: nat, k: Key)
    requires p < |order| && Distinct(order) && Known(order, regs) && regs[order[p]].arms != []
    ensures var g := order[p];
            var h, regs' := regs[g].arms[0], regs[g := regs[g].(arms := regs[g].arms[1..])];
            var i := |Flat(order[..p], regs, k)|;
            && Known(order, regs')
            && (k != h.arm.key ==> Flat(order, regs', k) == Flat(order, regs, k))
            && (k == h.arm.key ==> i < |Flat(order, regs, k)| && Flat(order, regs, k)[i] == h.node
                                   && Flat(order, regs', k) == Without(Flat(order, regs, k), i))
  {
    var g := order[p];
    var h, regs' := regs[g].arms[0], regs[g := regs[g].(arms := regs[g].arms[1..])];
    FlatAround(order, regs, k, p);
    FlatAround(order, regs', k, p);
    FlatSame(order[..p], regs, regs', k);
    FlatSame(order[p + 1..], regs, regs', k);
    var a, b, c := Flat(order[..p], regs, k), NodesFor(regs'[g].arms, k), Flat(order[p + 1..], regs, k);
    FirstNode(regs[g].arms, k);
    hide NodesFor, Flat, Known, Distinct;
    if k == h.arm.key { TakeOut(a, h.node, b, c); }
  }

  lemma FirstNode(arms: seq<Handle>, k: Key)
    requires arms != []
    ensures NodesFor(arms, k) == if arms[0].arm.key == k then [arms[0].node] + NodesFor(arms[1..], k) else NodesFor(arms[1..], k)
  {}

  lemma TakeOut(a: seq<nat>, n: nat, b: seq<nat>, c: seq<nat>)
    ensures (a + ([n] + b + c))[|a|] == n && Without(a + ([n] + b + c), |a|) == a + (b + c)
  {
    var s := a + ([n] + b + c);
    assert s[|a| + 1..] == b + c && s[..|a|] == a;
  }

  /** A registration without arms can go. */
  lemma EmptyGone(order: seq<nat>, regs: Regs, p: nat, k: Key)
    requires p < |order| && Distinct(order) && Known(order, regs) && regs[order[p]].arms == []
    ensures Known(Removed(order, p), regs - {order[p]}) && Flat(Removed(order, p), regs - {order[p]}, k) == Flat(order, regs, k)
  {
    var regs' := regs - {order[p]};
    FlatAround(order, regs, k, p);
    FlatSame(order[..p], regs, regs', k);
    FlatSame(order[p + 1..], regs, regs', k);
    FlatConcat(order[..p], order[p + 1..], regs', k);
  }

  /** The first node of a list belongs to the first registration in order that has an arm on the key. */
  lemma {:induction false} FrontNode(order: seq<nat>, regs: Regs, k: Key) returns (p: nat)
    requires Known(order, regs) && Flat(order, regs, k) != []
    ensures p < |order| && NodesFor(regs[order[p]].arms, k) != []
    ensures NodesFor(regs[order[p]].arms, k)[0] == Flat(order, regs, k)[0]
    ensures forall i | 0 <= i < p :: NodesFor(regs[order[i]].arms, k) == []
  {
    hide NodesFor;
    if NodesFor(regs[order[0]].arms, k) != [] {
      p := 0;
    } else {
      var q := FrontNode(order[1..], regs, k);
      p := q + 1;
    }
  }

  // ---------- Steps that keep it ----------

  /** Nodes keep the registration and the fiber they stand for. */
  ghost predicate SameOwners(nodes: Nodes, nodes': Nodes) {
    forall n | n in nodes && n in nodes' :: nodes'[n].reg == nodes[n].reg && nodes'[n].fiber == nodes[n].fiber
  }

  lemma NotListed(nodes: Nodes, lists: Lists, heads: Heads, n: nat)
    requires Represents(heads, nodes, lists) && n !in nodes
    ensures forall k :: n !in At(lists, k)
  {
    forall k ensures n !in At(lists, k) { assert Linked(nodes, At(lists, k)); }
  }

  lemma NodeAdded(nodes: Nodes, lists: Lists, heads: Heads, n: nat, node: Node)
    requires Represents(heads, nodes, lists) && n !in nodes
    ensures Represents(heads, nodes[n := node], lists)
  {
    hide Apart, Ends;
    NotListed(nodes, lists, heads, n);
    forall k ensures Linked(nodes[n := node], At(lists, k)) {
      assert Linked(nodes, At(lists, k)) && n !in At(lists, k);
    }
    assert forall k :: Linked(nodes, At(lists, k)) ==> Ends(heads, k, At(lists, k));
  }

  lemma RegistrationAdded(order: seq<nat>, regs: Regs, heads: Heads, nodes: Nodes, lists: Lists, g: nat, fiber: nat)
    requires Consistent(order, regs, heads, nodes, lists) && g !in regs
    ensures Consistent(order + [g], regs[g := Reg(fiber, [])], heads, nodes, lists)
  {
    hide Represents;
    var order', regs' := order + [g], regs[g := Reg(fiber, [])];
    forall k ensures At(lists, k) == Flat(order', regs', k) {
      FlatSame(order, regs, regs', k);
      FlatConcat(order, [g], regs', k);
      assert [g][1..] == [];
      assert Flat([g], regs', k) == [] + Flat([], regs', k);
    }
  }

  lemma ArmRegistered(order: seq<nat>, regs: Regs, heads: Heads, nodes: Nodes, lists: Lists, g: nat, h: Handle,
                      heads': Heads, nodes': Nodes, lists': Lists)
    requires Consistent(order, regs, heads, nodes, lists) && order != [] && order[|order| - 1] == g
    requires h.node !in nodes && Represents(heads', nodes', lists')
    requires lists' == lists[h.arm.key := At(lists, h.arm.key) + [h.node]]
    requires nodes'.Keys == nodes.Keys + {h.node} && SameOwners(nodes, nodes')
    requires nodes'[h.node].reg == g && nodes'[h.node].fiber == regs[g].fiber
    ensures Consistent(order, regs[g := regs[g].(arms := regs[g].arms + [h])], heads', nodes', lists')
  {
    hide Represents, Flat;
    var regs' := regs[g := regs[g].(arms := regs[g].arms + [h])];
    forall k ensures At(lists', k) == Flat(order, regs', k) {
      ArmAdded(order, regs, g, h, k);
      assert At(lists, k) == Flat(order, regs, k);
    }
  }

  lemma ArmUnlinked(order: seq<nat>, regs: Regs, heads: Heads, nodes: Nodes, lists: Lists, p: nat, i: nat,
                    heads': Heads, nodes': Nodes, lists': Lists)
    requires Consistent(order, regs, heads, nodes, lists) && p < |order| && regs[order[p]].arms != []
    requires var h := regs[order[p]].arms[0];
             && i == |Flat(order[..p], regs, h.arm.key)| && i < |At(lists, h.arm.key)|
             && lists' == lists[h.arm.key := Without(At(lists, h.arm.key), i)]
             && nodes'.Keys == nodes.Keys - {h.node}
    requires Represents(heads', nodes', lists') && SameOwners(nodes, nodes')
    ensures Consistent(order, regs[order[p] := regs[order[p]].(arms := regs[order[p]].arms[1..])], heads', nodes', lists')
  {
    hide Flat, Represents, Owned;
    var g := order[p];
    var h, regs' := regs[g].arms[0], regs[g := regs[g].(arms := regs[g].arms[1..])];
    forall k ensures At(lists', k) == Flat(order, regs', k) {
      ArmGone(order, regs, p, k);
      assert At(lists, k) == Flat(order, regs, k);
    }
    UnlinkedOwned(order, regs, heads, nodes, lists, g, nodes');
  }

  lemma UnlinkedOwned(order: seq<nat>, regs: Regs, heads: Heads, nodes: Nodes, lists: Lists, g: nat, nodes': Nodes)
    requires Consistent(order, regs, heads, nodes, lists) && g in regs && regs[g].arms != []
    requires nodes'.Keys == nodes.Keys - {regs[g].arms[0].node} && SameOwners(nodes, nodes')
    ensures Owned(regs[g := regs[g].(arms := regs[g].arms[1..])], nodes')
  {
    hide Consistent;
    var regs' := regs[g := regs[g].(arms := regs[g].arms[1..])];
    forall g', j | g' in regs' && 0 <= j < |regs'[g'].arms|
      ensures var n := regs'[g'].arms[j].node; n in nodes' && nodes'[n].reg == g' && nodes'[n].fiber == regs'[g'].fiber
    {
      OtherArm(order, regs, heads, nodes, lists, g, g', if g' == g then j + 1 else j);
    }
  }

  /** The first arm of a registration shares its node with no other arm. */
  lemma OtherArm(order: seq<nat>, regs: Regs, heads: Heads, nodes: Nodes, lists: Lists, g: nat, g': nat, j: nat)
    requires Consistent(order, regs, heads, nodes, lists) && g in regs && regs[g].arms != []
    requires g' in regs && j < |regs[g'].arms| && !(g == g' && j == 0)
    ensures regs[g'].arms[j].node != regs[g].arms[0].node
    ensures var n := regs[g'].arms[j].node; n in nodes && nodes[n].reg == g' && nodes[n].fiber == regs[g'].fiber
  {
    hide Represents, Flat;
    assert regs[g].arms[0].node in nodes && nodes[regs[g].arms[0].node].reg == g;
    if g == g' { SameRegistration(order, regs, heads, nodes, lists, g, 0, j); }
  }

  lemma SameRegistration(order: seq<nat>, regs: Regs, heads: Heads, nodes: Nodes, lists: Lists, g: nat, a: nat, b: nat)
    requires Consistent(order, regs, heads, nodes, lists) && g in regs && a < b < |regs[g].arms|
    ensures regs[g].arms[a].node != regs[g].arms[b].node
  {
    hide NodesFor;
    var p :| 0 <= p < |order| && order[p] == g;
    var arms := regs[g].arms;
    var k, k' := arms[a].arm.key, arms[b].arm.key;
    var i := PlaceOf(order, regs, p, a);
    var i' := PlaceOf(order, regs, p, b);
    if k == k' { FirstBefore(arms, a, b); }
    assert At(lists, k) == Flat(order, regs, k) && At(lists, k') == Flat(order, regs, k');
    hide Flat, Linked, Ends;
    assert Apart(lists);
    assert At(lists, k)[i] == At(lists, k')[i'] ==> k == k' && i == i';
  }

  /** Where an arm's node is in the list of its key. */
  lemma PlaceOf(order: seq<nat>, regs: Regs, p: nat, j: nat) returns (i: nat)
    requires Known(order, regs) && p < |order| && j < |regs[order[p]].arms|
    ensures var arms := regs[order[p]].arms;
            var k := arms[j].arm.key;
            && i == |Flat(order[..p], regs, k)| + |NodesFor(arms[..j], k)|
            && i < |Flat(order, regs, k)| && Flat(order, regs, k)[i] == arms[j].node
  {
    var arms := regs[order[p]].arms;
    var k := arms[j].arm.key;
    FlatAround(order, regs, k, p);
    var i' := NodeIndex(arms, j);
    i := |Flat(order[..p], regs, k)| + i';
  }

  /** Where an arm's node is among those of its key. */
  lemma {:induction false} NodeIndex(arms: seq<Handle>, j: nat) returns (i: nat)
    requires j < |arms|
    ensures i < |NodesFor(arms, arms[j].arm.key)| && NodesFor(arms, arms[j].arm.key)[i] == arms[j].node
    ensures i == |NodesFor(arms[..j], arms[j].arm.key)|
  {
    var k := arms[j].arm.key;
    if j == 0 {
      i := 0;
    } else {
      var i' := NodeIndex(arms[1..], j - 1);
      assert arms[..j][1..] == arms[1..][..j - 1];
      i := i' + if arms[0].arm.key == k then 1 else 0;
    }
  }

  lemma {:induction false} FirstBefore(arms: seq<Handle>, a: nat, b: nat)
    requires a < b < |arms| && arms[a].arm.key == arms[b].arm.key
    ensures |NodesFor(arms[..a], arms[a].arm.key)| < |NodesFor(arms[..b], arms[b].arm.key)|
  {
    if a > 0 {
      FirstBefore(arms[1..], a - 1, b - 1);
      assert arms[..a][1..] == arms[1..][..a - 1] && arms[..b][1..] == arms[1..][..b - 1];
    }
  }

  // ---------- The registry ----------

  function ArmsOf(arms: seq<Handle>): seq<Arm> {
    seq(|arms|, j requires 0 <= j < |arms| => arms[j].arm)
  }

  function Waiters(order: seq<nat>, regs: Regs): seq<Waiter>
    requires Known(order, regs)
  {
    seq(|order|, i requires 0 <= i < |order| => Waiter(order[i], regs[order[i]].fiber, ArmsOf(regs[order[i]].arms)))
  }

  class Registry {
    var heads: Heads
    var nodes: Nodes
    var regs: Regs

    /** The live registrations, oldest first, and the lists that the links spell out. */
    ghost var order: seq<nat>
    ghost var lists: Lists

    ghost predicate Valid()
      reads this
    {
      Consistent(order, regs, heads, nodes, lists)
    }

    ghost function View(): (ws: seq<Waiter>)
      reads this
      requires Valid()
      ensures DistinctIds(ws)
    {
      Waiters(order, regs)
    }

    constructor ()
      ensures Valid() && View() == []
    {
      heads, nodes, regs := map[], map[], map[];
      order, lists := [], map[];
    }

    /** Some vacant slab index. */
    static method Vacant<T>(slab: map<nat, T>) returns (id: nat)
      ensures id !in slab
    {
      id := 0;
      ghost var seen: set<nat> := {};
      while id in slab
        invariant seen <= slab.Keys && forall i :: i in seen <==> 0 <= i < id
        decreases slab.Keys - seen
      {
        seen := seen + {id};
        id := id + 1;
      }
    }

    /** Appends a node to the list of a key. */
    method ListPushBack(key: Key, node: nat)
      requires Represents(heads, nodes, lists) && node in nodes && nodes[node].prev == None && nodes[node].next == None
      requires forall k :: node !in At(lists, k)
      modifies `heads, `nodes, `lists
      ensures Represents(heads, nodes, lists) && lists == old(lists)[key := At(old(lists), key) + [node]]
      ensures nodes.Keys == old(nodes).Keys && SameOwners(old(nodes), nodes)
    {
      hide Represents;
      PushRepresents(heads, nodes, lists, key, node);
      lists := lists[key := At(lists, key) + [node]];
      var list := if key in heads then heads[key] else List(None, None);
      match list.tail {
        case None => list := List(Some(node), Some(node));
        case Some(tail) =>
          if tail in nodes {
            nodes := nodes[tail := nodes[tail].(next := Some(node))];
          }
          if node in nodes {
            nodes := nodes[node := nodes[node].(prev := Some(tail))];
          }
          list := list.(tail := Some(node));
      }
      heads := heads[key := list];
      assert [] + [node] == [node];
    }

    /** Takes a node out of the slab and out of the list of its key; a node that is not in the slab is ignored. */
    method ListUnlink(key: Key, node: nat, ghost i: nat)
      requires Represents(heads, nodes, lists) && (node in nodes ==> i < |At(lists, key)| && At(lists, key)[i] == node)
      modifies `heads, `nodes, `lists
      ensures Represents(heads, nodes, lists)
      ensures node !in old(nodes) ==> heads == old(heads) && nodes == old(nodes) && lists == old(lists)
      ensures node in old(nodes) ==> lists == old(lists)[key := Without(At(old(lists), key), i)]
      ensures nodes.Keys == old(nodes).Keys - {node} && SameOwners(old(nodes), nodes)
    {
      hide Represents;
      if node !in nodes {
        return;
      }
      UnlinkRepresents(heads, nodes, lists, key, i);
      UnlinkedKeys(nodes, node);
      lists := lists[key := Without(At(lists, key), i)];
      var prev, next := nodes[node].prev, nodes[node].next;
      nodes := nodes - {node};
      if prev.Some? && prev.value in nodes {
        nodes := nodes[prev.value := nodes[prev.value].(next := next)];
      }
      if next.Some? && next.value in nodes {
        nodes := nodes[next.value := nodes[next.value].(prev := prev)];
      }
      UnlinkHead(key, node, prev, next);
    }

    /** Moves the ends of a list past a node, and drops a list that became empty. */
    method UnlinkHead(key: Key, node: nat, prev: Option<nat>, next: Option<nat>)
      modifies `heads
      ensures heads == UnlinkedHeads(old(heads), key, node, prev, next)
    {
      if key in heads {
        var list := heads[key];
        if list.head == Some(node) {
          list := list.(head := next);
        }
        if list.tail == Some(node) {
          list := list.(tail := prev);
        }
        ghost var before := heads;
        heads := heads[key := list];
        if list.head.None? && list.tail.None? {
          heads := heads - {key};
          assert heads == before - {key};
        }
      }
    }

    /** Registers a fiber on all its arms at once. The registration gets an id that no live one has. */
    method RegisterSelect(fiber: nat, arms: seq<Arm>) returns (id: nat)
      requires Valid()
      modifies this
      ensures Valid() && View() == old(View()) + [Waiter(id, fiber, arms)]
      ensures forall i | 0 <= i < |old(View())| :: old(View())[i].id != id
    {
      Links(order, regs, heads, nodes, lists);
      assert Known(order, regs);
      id := Vacant(regs);
      RegistrationAdded(order, regs, heads, nodes, lists, id, fiber);
      regs := regs[id := Reg(fiber, [])];
      order := order + [id];
      ghost var regs0 := regs;
      var handles: seq<Handle> := [];
      assert regs[id := Reg(fiber, handles)] == regs;
      hide Consistent;
      for j := 0 to |arms|
        invariant regs == regs0 && order == old(order) + [id] && ArmsOf(handles) == arms[..j]
        invariant Consistent(order, regs[id := Reg(fiber, handles)], heads, nodes, lists)
      {
        ghost var current := regs[id := Reg(fiber, handles)];
        var node := AddArm(id, fiber, arms[j], current);
        ghost var reg := Reg(fiber, handles + [Handle(arms[j], node)]);
        assert current[id := reg] == regs[id := reg];
        handles := handles + [Handle(arms[j], node)];
      }
      ghost var filled := regs[id := Reg(fiber, handles)];
      Links(order, filled, heads, nodes, lists);
      if id in regs {
        regs := regs[id := regs[id].(arms := handles)];
      }
      assert regs == filled && filled == old(regs)[id := Reg(fiber, handles)];
      assert arms[..|arms|] == arms;
      WaitersMore(old(order), old(regs), id, Reg(fiber, handles));
    }

    /** Puts one more arm of the youngest registration into the list of its key. */
    method AddArm(id: nat, fiber: nat, arm: Arm, ghost current: Regs) returns (node: nat)
      requires Consistent(order, current, heads, nodes, lists) && order != [] && order[|order| - 1] == id
      requires id in current && current[id].fiber == fiber
      modifies `heads, `nodes, `lists
      ensures Consistent(order, current[id := current[id].(arms := current[id].arms + [Handle(arm, node)])], heads, nodes, lists)
    {
      hide Consistent, Represents;
      ghost var nodes0 := nodes;
      Links(order, current, heads, nodes, lists);
      node := Vacant(nodes);
      NodeAdded(nodes, lists, heads, node, Node(None, None, id, fiber));
      NotListed(nodes, lists, heads, node);
      nodes := nodes[node := Node(None, None, id, fiber)];
      ListPushBack(arm.key, node);
      ArmRegistered(order, current, old(heads), nodes0, old(lists), id, Handle(arm, node), heads, nodes, lists);
    }

    /** Unlinks the first arm of a registration that is on its way out. */
    method UnlinkArm(h: Handle, ghost current: Regs, ghost p: nat)
      requires Consistent(order, current, heads, nodes, lists) && p < |order| && order[p] in current
      requires current[order[p]].arms != [] && current[order[p]].arms[0] == h
      modifies `heads, `nodes, `lists
      ensures Consistent(order, current[order[p] := current[order[p]].(arms := current[order[p]].arms[1..])], heads, nodes, lists)
    {
      hide Consistent, Represents, Flat;
      Links(order, current, heads, nodes, lists);
      ArmGone(order, current, p, h.arm.key);
      assert Known(order[..p], current);
      ghost var i := |Flat(order[..p], current, h.arm.key)|;
      assert At(lists, h.arm.key) == Flat(order, current, h.arm.key);
      assert h.node in nodes by { UnlinkRepresents(heads, nodes, lists, h.arm.key, i); }
      ListUnlink(h.arm.key, h.node, i);
      ArmUnlinked(order, current, old(heads), old(nodes), old(lists), p, i, heads, nodes, lists);
    }

    /**
     * Wakes the oldest registration that waits for the key, by its first arm on it. The registration goes with all its
     * arms; the others stay as they are.
     */
    method WakeOne(key: Key) returns (r: Option<Outcome>)
      requires Valid()
      modifies this
      ensures Valid()
      ensures match Oldest(old(View()), key)
              case None => r == None && View() == old(View())
              case Some(p) => r == Some(Woken(old(View())[p], key)) && View() == Removed(old(View()), p)
    {
      NothingWaits(order, regs, heads, nodes, lists, key);
      if key !in heads || heads[key].head.None? {
        return None;
      }
      var head := heads[key].head.value;
      ghost var p, winner := FrontWaiter(order, regs, heads, nodes, lists, key);
      var g, fiber := nodes[head].reg, nodes[head].fiber;
      var resume, _ := Unregister(g, Some(head), p);
      assert resume == Some(old(View())[p].arms[winner]);
      r := Some(Outcome(fiber, resume.value.bind, resume.value.next));
    }

    /** Removes a registration and unlinks its arms one by one; `resume` is the arm whose node is `head`. */
    method Unregister(g: nat, head: Option<nat>, ghost p: nat) returns (resume: Option<Arm>, removed: nat)
      requires Valid() && g in regs && p < |order| && order[p] == g
      modifies this
      ensures Valid() && View() == Removed(old(View()), p) && removed == |old(regs)[g].arms|
      ensures forall j | 0 <= j < |old(regs)[g].arms| ::
                head == Some(old(regs)[g].arms[j].node) ==> resume == Some(old(regs)[g].arms[j].arm)
    {
      var arms, fiber := regs[g].arms, regs[g].fiber;
      ghost var regs0 := regs;
      ArmsApart(order, regs, heads, nodes, lists, g);
      Links(order, regs, heads, nodes, lists);
      assert Distinct(order) && Known(order, regs);
      regs := regs - {g};
      resume, removed := None, 0;
      assert regs0[g := Reg(fiber, arms[0..])] == regs0;
      hide Consistent, ArmsOf;
      for j := 0 to |arms|
        invariant regs == regs0 - {g} && order == old(order) && removed == j
        invariant Consistent(order, regs0[g := Reg(fiber, arms[j..])], heads, nodes, lists)
        invariant forall i | 0 <= i < j :: head == Some(arms[i].node) ==> resume == Some(arms[i].arm)
      {
        StepDown(regs0, g, fiber, arms, j);
        UnlinkArm(arms[j], regs0[g := Reg(fiber, arms[j..])], p);
        if head == Some(arms[j].node) {
          resume := Some(arms[j].arm);
        }
        removed := removed + 1;
      }
      GoneFrom(order, regs0, heads, nodes, lists, p, fiber, arms);
      order := Removed(order, p);
      assert Known(order, regs) by { Links(order, regs, heads, nodes, lists); }
      WaitersLess(old(order), regs0, p);
    }

    /** Cancels a live registration; returns how many arms it had. An id that is not live changes nothing. */
    method Cancel(id: nat) returns (removed: nat)
      requires Valid()
      modifies this
      ensures Valid()
      ensures id !in old(regs) ==> removed == 0 && View() == old(View())
      ensures id in old(regs) ==>
                exists p :: 0 <= p < |old(View())| && old(View())[p].id == id
                            && removed == |old(View())[p].arms| && View() == Removed(old(View()), p)
    {
      removed := 0;
      if id in regs {
        ghost var p :| 0 <= p < |order| && order[p] == id;
        var _, n := Unregister(id, None, p);
        removed := n;
        assert old(View())[p].id == id;
      }
    }
  }

  lemma StepDown(regs: Regs, g: nat, fiber: nat, arms: seq<Handle>, j: nat)
    requires j < |arms|
    ensures arms[j..] != [] && arms[j..][0] == arms[j] && arms[j..][1..] == arms[j + 1..]
    ensures regs[g := Reg(fiber, arms[j..])][g := Reg(fiber, arms[j + 1..])] == regs[g := Reg(fiber, arms[j + 1..])]
  {}

  lemma GoneFrom(order: seq<nat>, regs: Regs, heads: Heads, nodes: Nodes, lists: Lists, p: nat, fiber: nat, arms: seq<Handle>)
    requires p < |order| && Consistent(order, regs[order[p] := Reg(fiber, arms[|arms|..])], heads, nodes, lists)
    ensures Consistent(Removed(order, p), regs - {order[p]}, heads, nodes, lists)
  {
    hide Consistent;
    var regs' := regs[order[p] := Reg(fiber, arms[|arms|..])];
    RegistrationGone(order, regs', heads, nodes, lists, p);
    assert regs' - {order[p]} == regs - {order[p]};
  }

  lemma Links(order: seq<nat>, regs: Regs, heads: Heads, nodes: Nodes, lists: Lists)
    requires Consistent(order, regs, heads, nodes, lists)
    ensures Represents(heads, nodes, lists) && Known(order, regs) && Distinct(order)
    ensures forall k :: At(lists, k) == Flat(order, regs, k)
  {}

  lemma WaitersMore(order: seq<nat>, regs: Regs, g: nat, reg: Reg)
    requires Known(order, regs) && g !in regs
    ensures Waiters(order + [g], regs[g := reg]) == Waiters(order, regs) + [Waiter(g, reg.fiber, ArmsOf(reg.arms))]
  {
    hide ArmsOf;
  }

  lemma WaitersLess(order: seq<nat>, regs: Regs, p: nat)
    requires Known(order, regs) && Distinct(order) && p < |order|
    ensures Known(Removed(order, p), regs - {order[p]})
    ensures Waiters(Removed(order, p), regs - {order[p]}) == Removed(Waiters(order, regs), p)
  {
    hide ArmsOf;
  }

  lemma RegistrationGone(order: seq<nat>, regs: Regs, heads: Heads, nodes: Nodes, lists: Lists, p: nat)
    requires Consistent(order, regs, heads, nodes, lists) && p < |order| && regs[order[p]].arms == []
    ensures Consistent(Removed(order, p), regs - {order[p]}, heads, nodes, lists)
  {
    hide Represents, Flat;
    var order', regs' := Removed(order, p), regs - {order[p]};
    forall k ensures Known(order', regs') && At(lists, k) == Flat(order', regs', k) {
      EmptyGone(order, regs, p, k);
      assert At(lists, k) == Flat(order, regs, k);
    }
    forall g | g in regs' ensures g in order' {
      var i :| 0 <= i < |order| && order[i] == g;
      assert order'[if i < p then i else i - 1] == g;
    }
  }

  /** No list, no waiter. */
  lemma NothingWaits(order: seq<nat>, regs: Regs, heads: Heads, nodes: Nodes, lists: Lists, k: Key)
    requires Consistent(order, regs, heads, nodes, lists)
    ensures k !in heads <==> Flat(order, regs, k) == []
    ensures k in heads ==> heads[k].head == Some(Flat(order, regs, k)[0])
    ensures k !in heads <==> Oldest(Waiters(order, regs), k).None?
  {
    hide Linked, Apart, Owned, Flat;
    assert Ends(heads, k, At(lists, k)) && At(lists, k) == Flat(order, regs, k);
    FlatEmpty(order, regs, k);
  }

  lemma {:induction false} FlatEmpty(order: seq<nat>, regs: Regs, k: Key)
    requires Known(order, regs)
    ensures Flat(order, regs, k) == [] <==> Oldest(Waiters(order, regs), k).None?
  {
    hide NodesFor;
    if order != [] {
      FlatEmpty(order[1..], regs, k);
      assert Waiters(order, regs)[1..] == Waiters(order[1..], regs);
      NodesForEmpty(regs[order[0]].arms, k);
    }
  }

  /** The first arm on a key has the first node. */
  lemma {:induction false} NodesForEmpty(arms: seq<Handle>, k: Key)
    ensures NodesFor(arms, k) == [] <==> FirstArm(ArmsOf(arms), k).None?
    ensures NodesFor(arms, k) != [] ==> arms[FirstArm(ArmsOf(arms), k).value].node == NodesFor(arms, k)[0]
  {
    if arms != [] {
      NodesForEmpty(arms[1..], k);
      assert ArmsOf(arms)[1..] == ArmsOf(arms[1..]);
    }
  }

  lemma OldestIs(ws: seq<Waiter>, k: Key, p: nat)
    requires p < |ws| && FirstArm(ws[p].arms, k).Some? && forall i | 0 <= i < p :: FirstArm(ws[i].arms, k).None?
    ensures Oldest(ws, k) == Some(p)
  {
    hide Oldest, FirstArm;
  }

  /** The node at the head of a list leads to the oldest registration and its first arm on the key. */
  lemma FrontWaiter(order: seq<nat>, regs: Regs, heads: Heads, nodes: Nodes, lists: Lists, k: Key)
    returns (p: nat, winner: nat)
    requires Consistent(order, regs, heads, nodes, lists) && k in heads
    ensures heads[k].head.Some? && heads[k].head.value in nodes
    ensures var ws, head := Waiters(order, regs), heads[k].head.value;
            && Oldest(ws, k) == Some(p) && nodes[head].reg == order[p] && nodes[head].fiber == ws[p].fiber
            && FirstArm(ws[p].arms, k) == Some(winner) && regs[order[p]].arms[winner].node == head
  {
    hide Represents, Flat, NodesFor, Oldest;
    NothingWaits(order, regs, heads, nodes, lists, k);
    p := FrontNode(order, regs, k);
    var ws := Waiters(order, regs);
    forall i | 0 <= i <= p
      ensures FirstArm(ws[i].arms, k).None? <==> NodesFor(regs[order[i]].arms, k) == []
    {
      NodesForEmpty(regs[order[i]].arms, k);
    }
    OldestIs(ws, k, p);
    NodesForEmpty(regs[order[p]].arms, k);
    winner := FirstArm(ws[p].arms, k).value;
  }

  lemma ArmsApart(order: seq<nat>, regs: Regs, heads: Heads, nodes: Nodes, lists: Lists, g: nat)
    requires Consistent(order, regs, heads, nodes, lists) && g in regs
    ensures forall a, b | 0 <= a < b < |regs[g].arms| :: regs[g].arms[a].node != regs[g].arms[b].node
  {
    hide Consistent;
    forall a, b | 0 <= a < b < |regs[g].arms| ensures regs[g].arms[a].node != regs[g].arms[b].node {
      SameRegistration(order, regs, heads, nodes, lists, g, a, b);
    }
  }
}
