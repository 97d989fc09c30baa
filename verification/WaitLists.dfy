/**
 * The intrusive lists of the wait registry: nodes in a slab, linked both ways, with a head and a tail per key. They
 * behave like plain sequences.
 */
module WaitLists {
  import opened Wrappers

  type Name(==, !new)
  type State(==, !new)

  datatype Key = Queue(name: Name) | Future(id: nat)

  datatype Node = Node(prev: Option<nat>, next: Option<nat>, reg: nat, fiber: nat)

  datatype List = List(head: Option<nat>, tail: Option<nat>)

  type Nodes = map<nat, Node>
  type Heads = map<Key, List>

  /** The node ids that wait for each key, oldest first; a key that is not in the map has none. */
  type Lists = map<Key, seq<nat>>

  function At(lists: Lists, k: Key): seq<nat> {
    if k in lists then lists[k] else []
  }

  function Before(s: seq<nat>, i: nat): Option<nat>
    requires i < |s|
  {
    if i == 0 then None else Some(s[i - 1])
  }

  function After(s: seq<nat>, i: nat): Option<nat>
    requires i < |s|
  {
    if i == |s| - 1 then None else Some(s[i + 1])
  }

  predicate Linked(nodes: Nodes, s: seq<nat>) {
    forall i | 0 <= i < |s| :: s[i] in nodes && nodes[s[i]].prev == Before(s, i) && nodes[s[i]].next == After(s, i)
  }

  predicate Ends(heads: Heads, k: Key, s: seq<nat>) {
    if s == [] then k !in heads else k in heads && heads[k] == List(Some(s[0]), Some(s[|s| - 1]))
  }

  /** No node is in two places. */
  ghost predicate Apart(lists: Lists) {
    forall k, i, k', i' | 0 <= i < |At(lists, k)| && 0 <= i' < |At(lists, k')| && At(lists, k)[i] == At(lists, k')[i'] ::
      k == k' && i == i'
  }

  /** The links spell out the lists. */
  ghost predicate Represents(heads: Heads, nodes: Nodes, lists: Lists) {
    && (forall k :: Linked(nodes, At(lists, k)) && Ends(heads, k, At(lists, k)))
    && Apart(lists)
  }

  function Without(s: seq<nat>, i: nat): seq<nat>
    requires i < |s|
  {
    s[..i] + s[i + 1..]
  }

  // ---------- Appending ----------

  function WithNext(nodes: Nodes, n: nat, next: Option<nat>): Nodes {
    if n in nodes then nodes[n := nodes[n].(next := next)] else nodes
  }

  function WithPrev(nodes: Nodes, n: nat, prev: Option<nat>): Nodes {
    if n in nodes then nodes[n := nodes[n].(prev := prev)] else nodes
  }

  lemma PushLinked(nodes: Nodes, s: seq<nat>, n: nat)
    requires Linked(nodes, s) && s != [] && n !in s && n in nodes && nodes[n].next == None
    requires forall i, j | 0 <= i < j < |s| :: s[i] != s[j]
    ensures Linked(WithPrev(WithNext(nodes, s[|s| - 1], Some(n)), n, Some(s[|s| - 1])), s + [n])
  {
    var s', tail := s + [n], s[|s| - 1];
    var nodes' := WithPrev(WithNext(nodes, tail, Some(n)), n, Some(tail));
    hide WithPrev, WithNext, Linked;
    forall i | 0 <= i < |s'| ensures s'[i] in nodes' && nodes'[s'[i]].prev == Before(s', i) && nodes'[s'[i]].next == After(s', i) {
      if i < |s| - 1 { assert s[i] != tail; }
      if i < |s| { assert s[i] in s; }
      assert tail in s;
      PushOne(nodes, s, n, i);
    }
    assert Linked(nodes', s') by { LinkedIf(nodes', s'); }
  }

  lemma LinkedIf(nodes: Nodes, s: seq<nat>)
    requires forall i | 0 <= i < |s| :: s[i] in nodes && nodes[s[i]].prev == Before(s, i) && nodes[s[i]].next == After(s, i)
    ensures Linked(nodes, s)
  {}

  lemma PushOne(nodes: Nodes, s: seq<nat>, n: nat, i: nat)
    requires Linked(nodes, s) && s != [] && n in nodes && nodes[n].next == None && i <= |s| && s[|s| - 1] != n
    requires i < |s| ==> s[i] != n && (i < |s| - 1 ==> s[i] != s[|s| - 1])
    ensures var s', tail := s + [n], s[|s| - 1];
            var nodes' := WithPrev(WithNext(nodes, tail, Some(n)), n, Some(tail));
            s'[i] in nodes' && nodes'[s'[i]].prev == Before(s', i) && nodes'[s'[i]].next == After(s', i)
  {
    var last := |s| - 1;
    InNodes(nodes, s, last);
    if i < last { InNodes(nodes, s, i); }
    hide Linked;
    PushedNodes(nodes, s[last], n);
    hide WithPrev, WithNext;
    var s' := s + [n];
    if i == |s| {
      assert s'[i] == n && Before(s', i) == Some(s[last]) && After(s', i) == None;
    } else {
      assert s'[i] == s[i] && Before(s', i) == Before(s, i);
      assert After(s', i) == if i == last then Some(n) else After(s, i);
    }
  }

  /** Only the old tail and the new node change. */
  lemma PushedNodes(nodes: Nodes, tail: nat, n: nat)
    requires tail in nodes && n in nodes && tail != n && nodes[n].next == None
    ensures var nodes' := WithPrev(WithNext(nodes, tail, Some(n)), n, Some(tail));
            && nodes'.Keys == nodes.Keys
            && nodes'[tail].next == Some(n) && nodes'[tail].prev == nodes[tail].prev
            && nodes'[n].prev == Some(tail) && nodes'[n].next == None
            && forall m | m in nodes && m != tail && m != n :: nodes'[m] == nodes[m]
  {}

  /** Lists that hold neither node keep their links. */
  lemma LinkedElsewhere(nodes: Nodes, nodes': Nodes, s: seq<nat>)
    requires Linked(nodes, s)
    requires forall i | 0 <= i < |s| :: s[i] in nodes' && nodes'[s[i]] == nodes[s[i]]
    ensures Linked(nodes', s)
  {}

  lemma PushApart(lists: Lists, k: Key, n: nat)
    requires Apart(lists) && forall k' :: n !in At(lists, k')
    ensures Apart(lists[k := At(lists, k) + [n]])
  {
    var lists' := lists[k := At(lists, k) + [n]];
    forall a, i, b, j | 0 <= i < |At(lists', a)| && 0 <= j < |At(lists', b)| && At(lists', a)[i] == At(lists', b)[j]
      ensures a == b && i == j
    {
      PushAt(lists, k, n, a, i);
      PushAt(lists, k, n, b, j);
    }
  }

  /** The new node is at the end of its list; all others are where they were. */
  lemma PushAt(lists: Lists, k: Key, n: nat, a: Key, i: nat)
    requires (forall k' :: n !in At(lists, k')) && i < |At(lists[k := At(lists, k) + [n]], a)|
    ensures var lists' := lists[k := At(lists, k) + [n]];
            if a == k && i == |At(lists, k)| then At(lists', a)[i] == n
            else i < |At(lists, a)| && At(lists', a)[i] == At(lists, a)[i] != n
  {
    if !(a == k && i == |At(lists, k)|) { assert At(lists, a)[i] in At(lists, a); }
  }

  lemma PushRepresents(heads: Heads, nodes: Nodes, lists: Lists, k: Key, n: nat)
    requires Represents(heads, nodes, lists) && n in nodes && nodes[n].prev == None && nodes[n].next == None
    requires forall k' :: n !in At(lists, k')
    ensures var s := At(lists, k);
            if s == [] then k !in heads && Represents(heads[k := List(Some(n), Some(n))], nodes, lists[k := [n]])
            else
              var tail := s[|s| - 1];
              && k in heads && heads[k].tail == Some(tail) && tail in nodes && heads[k].head == Some(s[0])
              && Represents(heads[k := heads[k].(tail := Some(n))], WithPrev(WithNext(nodes, tail, Some(n)), n, Some(tail)),
                            lists[k := s + [n]])
  {
    hide Linked, Apart;
    var s := At(lists, k);
    PushApart(lists, k, n);
    assert Ends(heads, k, s);
    if s == [] {
      assert s + [n] == [n];
      assert Linked(nodes, [n]) by { LinkedOne(nodes, n); }
      var heads', lists' := heads[k := List(Some(n), Some(n))], lists[k := [n]];
      forall k' ensures Linked(nodes, At(lists', k')) && Ends(heads', k', At(lists', k')) {
        assert Linked(nodes, At(lists, k')) && Ends(heads, k', At(lists, k'));
      }
    } else {
      var tail := s[|s| - 1];
      assert Linked(nodes, s) && tail in nodes by { InNodes(nodes, s, |s| - 1); }
      var nodes' := WithPrev(WithNext(nodes, tail, Some(n)), n, Some(tail));
      NoRepeats(lists, k);
      PushLinked(nodes, s, n);
      forall k' | k' != k ensures Linked(nodes', At(lists, k')) {
        Elsewhere(nodes, lists, k, |s| - 1, k');
        assert n !in At(lists, k');
        assert Linked(nodes, At(lists, k'));
        forall i | 0 <= i < |At(lists, k')| ensures At(lists, k')[i] in nodes' && nodes'[At(lists, k')[i]] == nodes[At(lists, k')[i]] {
          InNodes(nodes, At(lists, k'), i);
          assert At(lists, k')[i] in At(lists, k');
        }
        LinkedElsewhere(nodes, nodes', At(lists, k'));
      }
      var heads', lists' := heads[k := heads[k].(tail := Some(n))], lists[k := s + [n]];
      forall k' ensures Linked(nodes', At(lists', k')) && Ends(heads', k', At(lists', k')) {
        assert Ends(heads, k', At(lists, k'));
      }
    }
  }

  lemma LinkedOne(nodes: Nodes, n: nat)
    requires n in nodes && nodes[n].prev == None && nodes[n].next == None
    ensures Linked(nodes, [n])
  {}

  lemma InNodes(nodes: Nodes, s: seq<nat>, i: nat)
    requires Linked(nodes, s) && i < |s|
    ensures s[i] in nodes && nodes[s[i]].prev == Before(s, i) && nodes[s[i]].next == After(s, i)
  {}

  lemma NoRepeats(lists: Lists, k: Key)
    requires Apart(lists)
    ensures forall i, j | 0 <= i < j < |At(lists, k)| :: At(lists, k)[i] != At(lists, k)[j]
  {}

  lemma Elsewhere(nodes: Nodes, lists: Lists, k: Key, i: nat, k': Key)
    requires Apart(lists) && i < |At(lists, k)| && k != k'
    ensures At(lists, k)[i] !in At(lists, k')
  {}

  // ---------- Unlinking ----------

  /** Takes a node out of the slab and joins its neighbours. */
  function Unlinked(nodes: Nodes, n: nat): Nodes
    requires n in nodes
  {
    var prev, next, rest := nodes[n].prev, nodes[n].next, nodes - {n};
    var joined := if prev.Some? then WithNext(rest, prev.value, next) else rest;
    if next.Some? then WithPrev(joined, next.value, prev) else joined
  }

  function UnlinkedHeads(heads: Heads, k: Key, n: nat, prev: Option<nat>, next: Option<nat>): Heads {
    if k !in heads then heads else
      var list := List(if heads[k].head == Some(n) then next else heads[k].head,
                       if heads[k].tail == Some(n) then prev else heads[k].tail);
      if list.head.None? && list.tail.None? then heads - {k} else heads[k := list]
  }

  /** Only the neighbours of a node change when it goes. */
  lemma UnlinkedAt(nodes: Nodes, n: nat, m: nat)
    requires n in nodes && m in nodes && m != n
    ensures m in Unlinked(nodes, n)
    ensures Unlinked(nodes, n)[m].next == if nodes[n].prev == Some(m) then nodes[n].next else nodes[m].next
    ensures Unlinked(nodes, n)[m].prev == if nodes[n].next == Some(m) then nodes[n].prev else nodes[m].prev
    ensures Unlinked(nodes, n)[m].reg == nodes[m].reg && Unlinked(nodes, n)[m].fiber == nodes[m].fiber
  {}

  lemma UnlinkedKeys(nodes: Nodes, n: nat)
    requires n in nodes
    ensures Unlinked(nodes, n).Keys == nodes.Keys - {n}
  {}

  lemma UnlinkLinked(nodes: Nodes, s: seq<nat>, i: nat)
    requires Linked(nodes, s) && i < |s| && forall a, b | 0 <= a < b < |s| :: s[a] != s[b]
    requires s[i] in nodes
    ensures Linked(Unlinked(nodes, s[i]), Without(s, i))
  {
    var t, nodes' := Without(s, i), Unlinked(nodes, s[i]);
    forall j | 0 <= j < |t| ensures t[j] in nodes' && nodes'[t[j]].prev == Before(t, j) && nodes'[t[j]].next == After(t, j) {
      UnlinkOne(nodes, s, i, j);
    }
  }

  lemma UnlinkOne(nodes: Nodes, s: seq<nat>, i: nat, j: nat)
    requires Linked(nodes, s) && i < |s| && (forall a, b | 0 <= a < b < |s| :: s[a] != s[b]) && s[i] in nodes
    requires j < |s| - 1
    ensures var t, nodes' := Without(s, i), Unlinked(nodes, s[i]);
            t[j] in nodes' && nodes'[t[j]].prev == Before(t, j) && nodes'[t[j]].next == After(t, j)
  {
    hide Unlinked, Linked;
    var m := if j < i then j else j + 1;
    var t := Without(s, i);
    assert t[j] == s[m] && s[m] != s[i];
    InNodes(nodes, s, i);
    InNodes(nodes, s, m);
    UnlinkedAt(nodes, s[i], s[m]);
    NextWithout(s, i, j);
    PrevWithout(s, i, j);
  }

  /** The neighbours in the shortened list, seen from the full one. */
  lemma NextWithout(s: seq<nat>, i: nat, j: nat)
    requires i < |s| && j < |s| - 1 && forall a, b | 0 <= a < b < |s| :: s[a] != s[b]
    ensures var m := if j < i then j else j + 1;
            After(Without(s, i), j) == if Before(s, i) == Some(s[m]) then After(s, i) else After(s, m)
  {
    var t := Without(s, i);
    if j < i { assert i > 0 && (s[i - 1] == s[j] <==> j == i - 1); } else { assert i > 0 ==> s[i - 1] != s[j + 1]; }
    assert j + 1 < |t| ==> t[j + 1] == if j + 1 < i then s[j + 1] else s[j + 2];
  }

  lemma PrevWithout(s: seq<nat>, i: nat, j: nat)
    requires i < |s| && j < |s| - 1 && forall a, b | 0 <= a < b < |s| :: s[a] != s[b]
    ensures var m := if j < i then j else j + 1;
            Before(Without(s, i), j) == if After(s, i) == Some(s[m]) then Before(s, i) else Before(s, m)
  {
    var t := Without(s, i);
    if j < i { assert i + 1 < |s| ==> s[j] != s[i + 1]; } else { assert s[j + 1] == s[i + 1] <==> j == i; }
    assert j > 0 ==> t[j - 1] == if j - 1 < i then s[j - 1] else s[j];
  }

  lemma UnlinkEnds(heads: Heads, k: Key, s: seq<nat>, i: nat)
    requires Ends(heads, k, s) && i < |s| && forall a, b | 0 <= a < b < |s| :: s[a] != s[b]
    ensures Ends(UnlinkedHeads(heads, k, s[i], Before(s, i), After(s, i)), k, Without(s, i))
    ensures forall k' | k' != k :: k' in UnlinkedHeads(heads, k, s[i], Before(s, i), After(s, i)) <==> k' in heads
    ensures forall k' | k' != k && k' in heads :: UnlinkedHeads(heads, k, s[i], Before(s, i), After(s, i))[k'] == heads[k']
  {
    var last := |s| - 1;
    assert i > 0 ==> s[0] != s[i];
    assert i < last ==> s[i] != s[last];
  }

  lemma UnlinkApart(lists: Lists, k: Key, i: nat)
    requires Apart(lists) && i < |At(lists, k)|
    ensures Apart(lists[k := Without(At(lists, k), i)])
  {
    var lists' := lists[k := Without(At(lists, k), i)];
    forall a, x | 0 <= x < |At(lists', a)|
      ensures var x' := if a == k && x >= i then x + 1 else x;
              x' < |At(lists, a)| && At(lists', a)[x] == At(lists, a)[x'] && !(a == k && x' == i)
    {}
    forall a, x, b, y | 0 <= x < |At(lists', a)| && 0 <= y < |At(lists', b)| && At(lists', a)[x] == At(lists', b)[y]
      ensures a == b && x == y
    {
      var x', y' := if a == k && x >= i then x + 1 else x, if b == k && y >= i then y + 1 else y;
      assert At(lists, a)[x'] == At(lists, b)[y'];
    }
  }

  lemma UnlinkRepresents(heads: Heads, nodes: Nodes, lists: Lists, k: Key, i: nat)
    requires Represents(heads, nodes, lists) && i < |At(lists, k)|
    ensures At(lists, k)[i] in nodes
    ensures var n := At(lists, k)[i];
            Represents(UnlinkedHeads(heads, k, n, nodes[n].prev, nodes[n].next), Unlinked(nodes, n),
                       lists[k := Without(At(lists, k), i)])
  {
    hide Linked, Apart, Ends, Unlinked, UnlinkedHeads;
    var s, n := At(lists, k), At(lists, k)[i];
    assert Linked(nodes, s) && Ends(heads, k, s);
    InNodes(nodes, s, i);
    NoRepeats(lists, k);
    UnlinkLinked(nodes, s, i);
    UnlinkEnds(heads, k, s, i);
    UnlinkApart(lists, k, i);
    var heads', nodes', lists' := UnlinkedHeads(heads, k, n, nodes[n].prev, nodes[n].next), Unlinked(nodes, n),
                                  lists[k := Without(s, i)];
    forall k' ensures Linked(nodes', At(lists', k')) && Ends(heads', k', At(lists', k')) {
      if k' != k {
        var t := At(lists, k');
        assert Linked(nodes, t) && Ends(heads, k', t);
        assert Ends(heads', k', t) by { SameEnds(heads, heads', k', t); }
        forall j | 0 <= j < |t| ensures t[j] in nodes && t[j] in nodes' && nodes'[t[j]].prev == nodes[t[j]].prev && nodes'[t[j]].next == nodes[t[j]].next {
          InNodes(nodes, t, j);
          Strangers(nodes, lists, k, i, k', j);
          UnlinkedAt(nodes, n, t[j]);
        }
        SameLinks(nodes, nodes', t);
      }
    }
  }

  lemma SameEnds(heads: Heads, heads': Heads, k: Key, s: seq<nat>)
    requires Ends(heads, k, s) && (k in heads' <==> k in heads) && (k in heads ==> heads'[k] == heads[k])
    ensures Ends(heads', k, s)
  {}

  lemma SameLinks(nodes: Nodes, nodes': Nodes, s: seq<nat>)
    requires Linked(nodes, s)
    requires forall j | 0 <= j < |s| ::
               s[j] in nodes && s[j] in nodes' && nodes'[s[j]].prev == nodes[s[j]].prev && nodes'[s[j]].next == nodes[s[j]].next
    ensures Linked(nodes', s)
  {}

  /** Nodes of different lists are not neighbours. */
  lemma Strangers(nodes: Nodes, lists: Lists, k: Key, i: nat, k': Key, j: nat)
    requires Apart(lists) && k != k' && i < |At(lists, k)| && j < |At(lists, k')| && Linked(nodes, At(lists, k))
    ensures At(lists, k)[i] in nodes && At(lists, k')[j] != At(lists, k)[i]
    ensures nodes[At(lists, k)[i]].prev != Some(At(lists, k')[j]) && nodes[At(lists, k)[i]].next != Some(At(lists, k')[j])
  {
    var s, m := At(lists, k), At(lists, k')[j];
    assert i > 0 ==> s[i - 1] != m;
    assert i + 1 < |s| ==> s[i + 1] != m;
  }
}
