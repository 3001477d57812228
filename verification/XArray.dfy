/** The sparse array: a radix tree of 64-way nodes that grows upward, fills downward and prunes, proved
    against a plain map. */
module XArray {
  import opened Common

  const XA_MASK := 63

  /** What a slot holds.  A value is a pointer other than NULL, tagged in its lowest bit. */
  datatype Entry = Empty | Value(v: nat) | Child(id: nat)

  /** A node whose slots each stand for 64^level indices: its shift is 6 * level. */
  datatype Node = Node(level: nat, bitmap: set<nat>, parent: int, entries: seq<Entry>)

  // `index >> (6 * level)`.
  function Shifted(index: nat, level: nat): nat
    decreases level
  {
    if level == 0 then index else Shifted(index / 64, level - 1)
  }

  lemma {:induction false} ShiftedStep(index: nat, level: nat)
    ensures Shifted(index, level + 1) == Shifted(index, level) / 64
    decreases level
  {
    if level > 0 { ShiftedStep(index / 64, level - 1); }
  }

  function Slot(index: nat, level: nat): (o: nat)
    ensures o < 64
  {
    Shifted(index, level) % 64
  }

  /** Children lie on lower levels. */
  ghost predicate Layered(nodes: seq<Node>) {
    forall i :: 0 <= i < |nodes| ==> |nodes[i].entries| == 64 && Below(nodes, nodes[i].level, nodes[i].entries)
  }

  ghost predicate Below(nodes: seq<Node>, level: nat, entries: seq<Entry>) {
    forall o :: 0 <= o < |entries| && entries[o].Child? ==>
      entries[o].id < |nodes| && nodes[entries[o].id].level < level
  }

  /** What the tree below a node holds at an index; 0 is NULL. */
  ghost function Walk(nodes: seq<Node>, id: nat, index: nat): nat
    requires Layered(nodes) && id < |nodes|
    decreases nodes[id].level
  {
    var e := nodes[id].entries[Slot(index, nodes[id].level)];
    match e
    case Empty => 0
    case Value(v) => v
    case Child(c) => Walk(nodes, c, index)
  }

  ghost function Lookup(nodes: seq<Node>, head: int, index: nat): nat
    requires Layered(nodes) && (head == NULL || 0 <= head < |nodes|)
  {
    if head == NULL || Shifted(index, nodes[head].level) > XA_MASK then 0 else Walk(nodes, head, index)
  }

  // ---------- the tree and the map it stands for ----------

  /** A place in the tree: the indices whose part above the level is `prefix`. */
  datatype Pos = Pos(level: nat, prefix: nat)

  function PosOf(index: nat, level: nat): Pos { Pos(level, Shifted(index, level + 1)) }

  ghost function EntryAt(at: map<Pos, nat>, m: map<nat, nat>, p: Pos, o: nat): Entry {
    var k := 64 * p.prefix + o;
    if p.level == 0 then (if k in m then Value(m[k]) else Empty)
    else if Pos(p.level - 1, k) in at then Child(at[Pos(p.level - 1, k)]) else Empty
  }

  /** A node holds what belongs at its place, and its bitmap marks the slots in use. */
  ghost predicate NodeOk(nodes: seq<Node>, at: map<Pos, nat>, m: map<nat, nat>, p: Pos)
    requires p in at
  {
    var id := at[p];
    && id < |nodes| && nodes[id].level == p.level && |nodes[id].entries| == 64
    && (forall o :: 0 <= o < 64 ==> nodes[id].entries[o] == EntryAt(at, m, p, o))
    && (forall o :: o in nodes[id].bitmap <==> 0 <= o < 64 && nodes[id].entries[o] != Empty)
  }

  /** Every node but the root is a child of the node above it. */
  ghost predicate ParentOk(nodes: seq<Node>, at: map<Pos, nat>, top: nat, p: Pos)
    requires p in at
  {
    && p.level <= top && at[p] < |nodes|
    && if p.level == top then p.prefix == 0 && nodes[at[p]].parent == NULL
       else Pos(p.level + 1, p.prefix / 64) in at && nodes[at[p]].parent == at[Pos(p.level + 1, p.prefix / 64)]
  }

  ghost predicate Injective(at: map<Pos, nat>) {
    forall p, p' :: p in at && p' in at && at[p] == at[p'] ==> p == p'
  }

  /** The tree stands for the map, and no node but the one called `hole` is empty. */
  ghost predicate Tree(nodes: seq<Node>, head: int, at: map<Pos, nat>, m: map<nat, nat>, top: nat, hole: int) {
    && Pos(top, 0) in at && head == at[Pos(top, 0)]
    && (forall p {:trigger NodeOk(nodes, at, m, p)} :: p in at ==> NodeOk(nodes, at, m, p))
    && (forall p {:trigger ParentOk(nodes, at, top, p)} :: p in at ==> ParentOk(nodes, at, top, p))
    && (forall p :: p in at && at[p] != hole ==> at[p] < |nodes| && nodes[at[p]].bitmap != {})
    && Injective(at)
    && (forall k :: k in m ==> Pos(0, k / 64) in at && m[k] != 0)
  }

  function Get(m: map<nat, nat>, k: nat): nat { if k in m then m[k] else 0 }

  /** Storing 0 removes. */
  function Put(m: map<nat, nat>, k: nat, v: nat): map<nat, nat> { if v == 0 then m - {k} else m[k := v] }

  lemma {:induction false} SlotOf(nodes: seq<Node>, head: int, at: map<Pos, nat>, m: map<nat, nat>, top: nat,
                                  hole: int, p: Pos, o: nat)
    requires Tree(nodes, head, at, m, top, hole) && p in at && o < 64
    ensures at[p] < |nodes| && nodes[at[p]].level == p.level <= top && |nodes[at[p]].entries| == 64
    ensures nodes[at[p]].entries[o] == EntryAt(at, m, p, o)
  {
    hide ParentOk;
    assert NodeOk(nodes, at, m, p);
    LevelOf(nodes, at, top, p);
  }

  lemma {:induction false} LevelOf(nodes: seq<Node>, at: map<Pos, nat>, top: nat, p: Pos)
    requires p in at && ParentOk(nodes, at, top, p)
    ensures p.level <= top && (p.level == top ==> p.prefix == 0)
  {
  }

  /** What the path of an index looks like in a node's slots. */
  lemma {:induction false} SlotOnPath(at: map<Pos, nat>, m: map<nat, nat>, index: nat, level: nat)
    ensures 64 * PosOf(index, level).prefix + Slot(index, level) == Shifted(index, level)
    ensures EntryAt(at, m, PosOf(index, level), Slot(index, level)) ==
            if level == 0 then (if index in m then Value(m[index]) else Empty)
            else if PosOf(index, level - 1) in at then Child(at[PosOf(index, level - 1)]) else Empty
  {
    ShiftedStep(index, level);
  }

  /** A place in the tree has all the places above it. */
  lemma {:induction false} Ancestor(nodes: seq<Node>, head: int, at: map<Pos, nat>, m: map<nat, nat>, top: nat,
                                    hole: int, index: nat, l: nat, level: nat)
    requires Tree(nodes, head, at, m, top, hole) && l <= level <= top && PosOf(index, l) in at
    ensures PosOf(index, level) in at
    decreases level - l
  {
    hide Tree;
    if l < level {
      Above(nodes, head, at, m, top, hole, PosOf(index, l));
      ShiftedStep(index, l + 1);
      Ancestor(nodes, head, at, m, top, hole, index, l + 1, level);
    }
  }

  lemma {:induction false} Above(nodes: seq<Node>, head: int, at: map<Pos, nat>, m: map<nat, nat>, top: nat,
                                 hole: int, p: Pos)
    requires Tree(nodes, head, at, m, top, hole) && p in at
    ensures p.level <= top && (p.level == top ==> p.prefix == 0)
    ensures p.level < top ==> Pos(p.level + 1, p.prefix / 64) in at
  {
    hide NodeOk, ParentOk;
    assert ParentOk(nodes, at, top, p);
    AboveOf(nodes, at, top, p);
  }

  lemma {:induction false} AboveOf(nodes: seq<Node>, at: map<Pos, nat>, top: nat, p: Pos)
    requires p in at && ParentOk(nodes, at, top, p)
    ensures p.level <= top && (p.level == top ==> p.prefix == 0)
    ensures p.level < top ==> Pos(p.level + 1, p.prefix / 64) in at
  {
  }

  lemma {:induction false} KeyHasLeaf(nodes: seq<Node>, head: int, at: map<Pos, nat>, m: map<nat, nat>, top: nat,
                                      hole: int, index: nat)
    requires Tree(nodes, head, at, m, top, hole) && index in m
    ensures PosOf(index, 0) in at && Pos(0, index / 64) in at && m[index] != 0
  {
    hide NodeOk, ParentOk;
    assert Shifted(index, 1) == index / 64;
  }

  /** Walking down from a place on an index's path finds what the map holds there. */
  lemma {:induction false} WalkIsMap(nodes: seq<Node>, head: int, at: map<Pos, nat>, m: map<nat, nat>, top: nat,
                                     hole: int, index: nat, level: nat)
    requires Layered(nodes) && Tree(nodes, head, at, m, top, hole) && level <= top && PosOf(index, level) in at
    ensures at[PosOf(index, level)] < |nodes| && Walk(nodes, at[PosOf(index, level)], index) == Get(m, index)
    decreases level
  {
    hide Tree, EntryAt, PosOf;
    SlotOf(nodes, head, at, m, top, hole, PosOf(index, level), Slot(index, level));
    SlotOnPath(at, m, index, level);
    PosLevel(index, level);
    if level > 0 {
      if PosOf(index, level - 1) in at {
        WalkIsMap(nodes, head, at, m, top, hole, index, level - 1);
      } else if index in m {
        KeyHasLeaf(nodes, head, at, m, top, hole, index);
        Ancestor(nodes, head, at, m, top, hole, index, 0, level - 1);
      }
    }
  }

  lemma {:induction false} PosLevel(index: nat, level: nat)
    ensures PosOf(index, level).level == level && PosOf(index, level).prefix == Shifted(index, level + 1)
  {
  }

  lemma {:induction false} RootOf(nodes: seq<Node>, head: int, at: map<Pos, nat>, m: map<nat, nat>, top: nat, hole: int)
    requires Tree(nodes, head, at, m, top, hole)
    ensures Pos(top, 0) in at && head == at[Pos(top, 0)] && 0 <= head < |nodes| && nodes[head].level == top
  {
    hide ParentOk;
    assert NodeOk(nodes, at, m, Pos(top, 0));
  }

  /** Loading from the tree is looking up in the map. */
  lemma {:induction false} LookupIsMap(nodes: seq<Node>, head: int, at: map<Pos, nat>, m: map<nat, nat>, top: nat,
                                       hole: int, index: nat)
    requires Layered(nodes) && Tree(nodes, head, at, m, top, hole)
    ensures 0 <= head < |nodes| && Lookup(nodes, head, index) == Get(m, index)
  {
    hide Tree, Walk;
    RootOf(nodes, head, at, m, top, hole);
    ShiftedStep(index, top);
    if Shifted(index, top) <= XA_MASK {
      WalkIsMap(nodes, head, at, m, top, hole, index, top);
    } else if index in m {
      KeyHasLeaf(nodes, head, at, m, top, hole, index);
      Ancestor(nodes, head, at, m, top, hole, index, 0, top);
      Above(nodes, head, at, m, top, hole, PosOf(index, top));
    }
  }

  /** In a tree without empty nodes there is a key below every node. */
  lemma {:induction false} HasKey(nodes: seq<Node>, head: int, at: map<Pos, nat>, m: map<nat, nat>, top: nat, p: Pos)
    returns (k: nat)
    requires Tree(nodes, head, at, m, top, NULL) && p in at
    ensures k in m
    decreases p.level
  {
    hide ParentOk;
    assert NodeOk(nodes, at, m, p);
    var o :| o in nodes[at[p]].bitmap;
    k := 64 * p.prefix + o;
    if p.level > 0 {
      assert EntryAt(at, m, p, o) != Empty;
      k := HasKey(nodes, head, at, m, top, Pos(p.level - 1, k));
    }
  }

  // ---------- what the steps of a store do to the tree ----------

  // A node whose slots and place are untouched.
  lemma {:induction false} NodeKept(nodes: seq<Node>, at: map<Pos, nat>, m: map<nat, nat>,
                                    nodes': seq<Node>, at': map<Pos, nat>, m': map<nat, nat>, p: Pos)
    requires p in at && p in at' && NodeOk(nodes, at, m, p) && at'[p] == at[p] && |nodes| <= |nodes'|
    requires nodes'[at[p]].level == nodes[at[p]].level && nodes'[at[p]].entries == nodes[at[p]].entries
    requires nodes'[at[p]].bitmap == nodes[at[p]].bitmap
    requires forall o :: 0 <= o < 64 ==> EntryAt(at', m', p, o) == EntryAt(at, m, p, o)
    ensures NodeOk(nodes', at', m', p)
  {
  }

  function NoEntries(): seq<Entry> { seq(64, _ => Empty) }

  /** The tree grows by a root above the old one. */
  function GrownNodes(nodes: seq<Node>, head: nat): seq<Node>
    requires head < |nodes|
  {
    nodes[head := nodes[head].(parent := |nodes|)] +
    [Node(nodes[head].level + 1, {0}, NULL, NoEntries()[0 := Child(head)])]
  }

  lemma {:induction false} GrowTree(nodes: seq<Node>, head: nat, at: map<Pos, nat>, m: map<nat, nat>, top: nat)
    requires Tree(nodes, head, at, m, top, NULL)
    ensures head < |nodes|
    ensures Tree(GrownNodes(nodes, head), |nodes|, at[Pos(top + 1, 0) := |nodes|], m, top + 1, NULL)
  {
    hide NodeOk, ParentOk, EntryAt;
    RootOf(nodes, head, at, m, top, NULL);
    var n, nodes', at' := |nodes|, GrownNodes(nodes, head), at[Pos(top + 1, 0) := |nodes|];
    forall p | p in at
      ensures p.level <= top && at[p] < |nodes| && NodeOk(nodes', at', m, p) && ParentOk(nodes', at', top + 1, p)
    {
      Above(nodes, head, at, m, top, NULL, p);
      NodeIs(nodes, head, at, m, top, NULL, p);
      GrowKeeps(nodes, head, at, m, top, p);
    }
    GrowRoot(nodes, head, at, m, top);
    forall p, p' | p in at' && p' in at' && at'[p] == at'[p'] ensures p == p' {
      assert p in at || p == Pos(top + 1, 0);
      assert p' in at || p' == Pos(top + 1, 0);
    }
  }

  lemma {:induction false} GrowKeeps(nodes: seq<Node>, head: nat, at: map<Pos, nat>, m: map<nat, nat>, top: nat, p: Pos)
    requires p in at && NodeOk(nodes, at, m, p) && ParentOk(nodes, at, top, p)
    requires head < |nodes| && nodes[head].level == top && (at[p] == head <==> p == Pos(top, 0))
    ensures var nodes', at' := GrownNodes(nodes, head), at[Pos(top + 1, 0) := |nodes|];
            at[p] < |nodes| && NodeOk(nodes', at', m, p) && ParentOk(nodes', at', top + 1, p)
  {
    var nodes', at' := GrownNodes(nodes, head), at[Pos(top + 1, 0) := |nodes|];
    forall o | 0 <= o < 64 ensures EntryAt(at', m, p, o) == EntryAt(at, m, p, o) {}
    hide EntryAt;
    NodeKept(nodes, at, m, nodes', at', m, p);
  }

  lemma {:induction false} NodeIs(nodes: seq<Node>, head: int, at: map<Pos, nat>, m: map<nat, nat>, top: nat,
                                  hole: int, p: Pos)
    requires Tree(nodes, head, at, m, top, hole) && p in at
    ensures NodeOk(nodes, at, m, p) && ParentOk(nodes, at, top, p)
    ensures at[p] == head <==> p == Pos(top, 0)
  {
    hide NodeOk, ParentOk;
  }

  lemma {:induction false} GrowRoot(nodes: seq<Node>, head: nat, at: map<Pos, nat>, m: map<nat, nat>, top: nat)
    requires Tree(nodes, head, at, m, top, NULL) && head < |nodes| && nodes[head].level == top
    ensures var nodes', at', p := GrownNodes(nodes, head), at[Pos(top + 1, 0) := |nodes|], Pos(top + 1, 0);
            NodeOk(nodes', at', m, p) && ParentOk(nodes', at', top + 1, p)
  {
    hide Tree;
    RootOf(nodes, head, at, m, top, NULL);
    var nodes', at', p := GrownNodes(nodes, head), at[Pos(top + 1, 0) := |nodes|], Pos(top + 1, 0);
    forall o | 0 <= o < 64 ensures nodes'[|nodes|].entries[o] == EntryAt(at', m, p, o) {
      if Pos(top, o) in at { Above(nodes, head, at, m, top, NULL, Pos(top, o)); }
    }
  }

  lemma {:induction false} SlotsApart(a: nat, o: nat, b: nat, o': nat)
    requires o < 64 && o' < 64
    ensures 64 * a + o == 64 * b + o' <==> a == b && o == o'
    ensures (64 * a + o) / 64 == a && (64 * a + o) % 64 == o
  {
  }

  // The place below slot `o` of a place.
  function Under(p: Pos, o: nat): Pos
    requires p.level > 0
  {
    Pos(p.level - 1, 64 * p.prefix + o)
  }

  /** An empty node is added in a free slot. */
  function AddedNodes(nodes: seq<Node>, id: nat, o: nat): seq<Node>
    requires id < |nodes| && nodes[id].level > 0 && o < |nodes[id].entries|
  {
    nodes[id := nodes[id].(entries := nodes[id].entries[o := Child(|nodes|)], bitmap := nodes[id].bitmap + {o})] +
    [Node(nodes[id].level - 1, {}, id, NoEntries())]
  }

  lemma {:induction false} AddKeeps(nodes: seq<Node>, at: map<Pos, nat>, m: map<nat, nat>, top: nat, p: Pos, o: nat,
                                    p': Pos)
    requires p in at && NodeOk(nodes, at, m, p) && p.level > 0 && o < 64 && Under(p, o) !in at
    requires p' in at && NodeOk(nodes, at, m, p') && ParentOk(nodes, at, top, p') && (at[p] == at[p'] ==> p == p')
    ensures var nodes', at' := AddedNodes(nodes, at[p], o), at[Under(p, o) := |nodes|];
            NodeOk(nodes', at', m, p') && ParentOk(nodes', at', top, p')
  {
    var nodes', at' := AddedNodes(nodes, at[p], o), at[Under(p, o) := |nodes|];
    forall o' | 0 <= o' < 64
      ensures EntryAt(at', m, p', o') == if p' == p && o' == o then Child(|nodes|) else EntryAt(at, m, p', o')
    {
      SlotsApart(p.prefix, o, p'.prefix, o');
    }
    hide EntryAt;
    if p' != p { NodeKept(nodes, at, m, nodes', at', m, p'); }
  }

  /** Nothing lies below a place that is not in the tree. */
  lemma {:induction false} NothingBelow(nodes: seq<Node>, head: int, at: map<Pos, nat>, m: map<nat, nat>, top: nat,
                                        hole: int, p: Pos, o: nat)
    requires Tree(nodes, head, at, m, top, hole) && p !in at && p.level < top && o < 64
    ensures EntryAt(at, m, p, o) == Empty
  {
    hide Tree;
    SlotsApart(p.prefix, o, p.prefix, o);
    var k := 64 * p.prefix + o;
    if p.level == 0 {
      if k in m { KeyHasLeaf(nodes, head, at, m, top, hole, k); }
    } else if Under(p, o) in at {
      Above(nodes, head, at, m, top, hole, Under(p, o));
    }
  }

  lemma {:induction false} AddTree(nodes: seq<Node>, head: int, at: map<Pos, nat>, m: map<nat, nat>, top: nat,
                                   hole: int, p: Pos, o: nat)
    requires Tree(nodes, head, at, m, top, hole) && p in at && p.level > 0 && o < 64 && Under(p, o) !in at
    requires hole == NULL || hole == at[p]
    ensures at[p] < |nodes| && nodes[at[p]].level > 0 && |nodes[at[p]].entries| == 64
    ensures Tree(AddedNodes(nodes, at[p], o), head, at[Under(p, o) := |nodes|], m, top, |nodes|)
  {
    hide NodeOk, ParentOk, EntryAt;
    SlotOf(nodes, head, at, m, top, hole, p, o);
    var c, nodes', at' := |nodes|, AddedNodes(nodes, at[p], o), at[Under(p, o) := |nodes|];
    forall p' | p' in at
      ensures at[p'] < |nodes| && NodeOk(nodes', at', m, p') && ParentOk(nodes', at', top, p')
    {
      SlotOf(nodes, head, at, m, top, hole, p', 0);
      AddKeeps(nodes, at, m, top, p, o, p');
    }
    forall o' | 0 <= o' < 64 ensures EntryAt(at, m, Under(p, o), o') == Empty {
      NothingBelow(nodes, head, at, m, top, hole, Under(p, o), o');
    }
    AddedOk(nodes, at, m, top, p, o);
    Unshared(at, Under(p, o), c);
    forall p' | p' in at' && at'[p'] != c ensures nodes'[at'[p']].bitmap != {} {
      assert p' in at;
      assert at[p'] == at[p] ==> o in nodes'[at'[p']].bitmap;
    }
  }

  lemma {:induction false} Unshared(at: map<Pos, nat>, p: Pos, c: nat)
    requires p !in at && forall p' :: p' in at ==> at[p'] < c
    requires Injective(at)
    ensures Injective(at[p := c])
  {
  }

  lemma {:induction false} AddedOk(nodes: seq<Node>, at: map<Pos, nat>, m: map<nat, nat>, top: nat, p: Pos, o: nat)
    requires p in at && at[p] < |nodes| && 0 < p.level <= top && nodes[at[p]].level == p.level
    requires |nodes[at[p]].entries| == 64
    requires o < 64 && Under(p, o) !in at && forall o' :: 0 <= o' < 64 ==> EntryAt(at, m, Under(p, o), o') == Empty
    ensures var nodes', at' := AddedNodes(nodes, at[p], o), at[Under(p, o) := |nodes|];
            NodeOk(nodes', at', m, Under(p, o)) && ParentOk(nodes', at', top, Under(p, o))
  {
    SlotsApart(p.prefix, o, p.prefix, o);
    var at' := at[Under(p, o) := |nodes|];
    forall o' | 0 <= o' < 64 ensures EntryAt(at', m, Under(p, o), o') == Empty {
      assert EntryAt(at, m, Under(p, o), o') == Empty;
    }
  }

  lemma {:induction false} NotAHole(nodes: seq<Node>, head: int, at: map<Pos, nat>, m: map<nat, nat>, top: nat,
                                    hole: int, p: Pos, o: nat)
    requires Tree(nodes, head, at, m, top, hole) && p in at && (hole == NULL || hole == at[p]) && o < 64
    requires at[p] < |nodes| && |nodes[at[p]].entries| == 64 && nodes[at[p]].entries[o] != Empty
    ensures Tree(nodes, head, at, m, top, NULL)
  {
    hide ParentOk;
    assert NodeOk(nodes, at, m, p);
    assert o in nodes[at[p]].bitmap;
  }

  // ---------- storing in a leaf ----------

  function PutNode(n: Node, o: nat, v: nat): Node
    requires o < |n.entries|
  {
    n.(entries := n.entries[o := if v == 0 then Empty else Value(v)],
       bitmap := if v == 0 then n.bitmap - {o} else n.bitmap + {o})
  }

  lemma {:induction false} PutKeeps(nodes: seq<Node>, at: map<Pos, nat>, m: map<nat, nat>, top: nat, index: nat,
                                    v: nat, p: Pos)
    requires Pos(0, index / 64) in at && NodeOk(nodes, at, m, Pos(0, index / 64))
    requires p in at && NodeOk(nodes, at, m, p) && ParentOk(nodes, at, top, p)
    requires at[p] == at[Pos(0, index / 64)] ==> p == Pos(0, index / 64)
    ensures var id := at[Pos(0, index / 64)];
            var nodes' := nodes[id := PutNode(nodes[id], index % 64, v)];
            NodeOk(nodes', at, Put(m, index, v), p) && ParentOk(nodes', at, top, p)
  {
    var leaf, o, m' := Pos(0, index / 64), index % 64, Put(m, index, v);
    var nodes' := nodes[at[leaf] := PutNode(nodes[at[leaf]], o, v)];
    forall o' | 0 <= o' < 64
      ensures EntryAt(at, m', p, o') ==
              if p == leaf && o' == o then (if v == 0 then Empty else Value(v)) else EntryAt(at, m, p, o')
    {
      SlotsApart(p.prefix, o', index / 64, o);
    }
    hide EntryAt;
    if p != leaf { NodeKept(nodes, at, m, nodes', at, m', p); }
  }

  lemma {:induction false} PutTree(nodes: seq<Node>, head: int, at: map<Pos, nat>, m: map<nat, nat>, top: nat,
                                   hole: int, index: nat, v: nat)
    requires Tree(nodes, head, at, m, top, hole) && Pos(0, index / 64) in at
    requires hole == NULL || hole == at[Pos(0, index / 64)]
    ensures var id := at[Pos(0, index / 64)];
            && id < |nodes| && |nodes[id].entries| == 64
            && var n := PutNode(nodes[id], index % 64, v);
               Tree(nodes[id := n], head, at, Put(m, index, v), top, if n.bitmap == {} then id else NULL)
  {
    hide NodeOk, ParentOk, EntryAt;
    var leaf := Pos(0, index / 64);
    SlotOf(nodes, head, at, m, top, hole, leaf, index % 64);
    var n := PutNode(nodes[at[leaf]], index % 64, v);
    var nodes' := nodes[at[leaf] := n];
    forall p | p in at
      ensures at[p] < |nodes| && NodeOk(nodes', at, Put(m, index, v), p) && ParentOk(nodes', at, top, p)
    {
      SlotOf(nodes, head, at, m, top, hole, p, 0);
      PutKeeps(nodes, at, m, top, index, v, p);
    }
  }

  // ---------- pruning ----------

  function CutNode(n: Node, o: nat): Node
    requires o < |n.entries|
  {
    n.(entries := n.entries[o := Empty], bitmap := n.bitmap - {o})
  }

  function ParentPos(p: Pos): Pos { Pos(p.level + 1, p.prefix / 64) }

  lemma {:induction false} CutKeeps(nodes: seq<Node>, at: map<Pos, nat>, m: map<nat, nat>, top: nat, p: Pos, p': Pos)
    requires p in at && ParentPos(p) in at && NodeOk(nodes, at, m, ParentPos(p))
    requires p' in at && p' != p && NodeOk(nodes, at, m, p') && ParentOk(nodes, at, top, p')
    requires (at[p'] == at[ParentPos(p)] ==> p' == ParentPos(p)) && (p'.level < top ==> ParentPos(p') != p)
    ensures var id := at[ParentPos(p)];
            var nodes', at' := nodes[id := CutNode(nodes[id], p.prefix % 64)], at - {p};
            NodeOk(nodes', at', m, p') && ParentOk(nodes', at', top, p')
  {
    var up := ParentPos(p);
    var nodes', at' := nodes[at[up] := CutNode(nodes[at[up]], p.prefix % 64)], at - {p};
    forall o | 0 <= o < 64
      ensures EntryAt(at', m, p', o) == if p' == up && o == p.prefix % 64 then Empty else EntryAt(at, m, p', o)
    {
      SlotsApart(p'.prefix, o, p.prefix / 64, p.prefix % 64);
    }
    hide EntryAt;
    if p' != up { NodeKept(nodes, at, m, nodes', at', m, p'); }
  }

  /** A node's bitmap marks the slot of every node below it. */
  lemma {:induction false} ChildMarked(nodes: seq<Node>, at: map<Pos, nat>, m: map<nat, nat>, p: Pos)
    requires p in at && ParentPos(p) in at && NodeOk(nodes, at, m, ParentPos(p))
    ensures p.prefix % 64 in nodes[at[ParentPos(p)]].bitmap
  {
    SlotsApart(p.prefix / 64, p.prefix % 64, p.prefix / 64, p.prefix % 64);
    assert EntryAt(at, m, ParentPos(p), p.prefix % 64) == Child(at[p]);
  }

  /** A leaf's bitmap marks the slot of every key in it. */
  lemma {:induction false} KeyMarked(nodes: seq<Node>, at: map<Pos, nat>, m: map<nat, nat>, k: nat)
    requires Pos(0, k / 64) in at && NodeOk(nodes, at, m, Pos(0, k / 64)) && k in m
    ensures k % 64 in nodes[at[Pos(0, k / 64)]].bitmap
  {
    assert EntryAt(at, m, Pos(0, k / 64), k % 64) == Value(m[k]);
  }

  /** Below an empty node there is nothing. */
  lemma {:induction false} EmptyHasNone(nodes: seq<Node>, at: map<Pos, nat>, m: map<nat, nat>, p: Pos, p': Pos)
    requires p in at && NodeOk(nodes, at, m, p) && nodes[at[p]].bitmap == {}
    ensures p' in at ==> ParentPos(p') != p
    ensures p.level == 0 ==> forall k :: k in m ==> k / 64 != p.prefix
  {
    if p' in at && ParentPos(p') == p { ChildMarked(nodes, at, m, p'); }
    if p.level == 0 {
      forall k | k in m ensures k / 64 != p.prefix {
        if k / 64 == p.prefix { KeyMarked(nodes, at, m, k); }
      }
    }
  }

  lemma {:induction false} CutTree(nodes: seq<Node>, head: int, at: map<Pos, nat>, m: map<nat, nat>, top: nat, p: Pos)
    requires p in at && Tree(nodes, head, at, m, top, at[p]) && p.level < top
    requires at[p] < |nodes| && nodes[at[p]].bitmap == {}
    ensures ParentPos(p) in at && nodes[at[p]].parent == at[ParentPos(p)] < |nodes|
    ensures var id := at[ParentPos(p)];
            && |nodes[id].entries| == 64
            && var n := CutNode(nodes[id], p.prefix % 64);
               Tree(nodes[id := n], head, at - {p}, m, top, if n.bitmap == {} then id else NULL)
  {
    hide NodeOk, ParentOk, EntryAt;
    ParentIs(nodes, at, top, p);
    var up := ParentPos(p);
    SlotOf(nodes, head, at, m, top, at[p], up, p.prefix % 64);
    var nodes', at' := nodes[at[up] := CutNode(nodes[at[up]], p.prefix % 64)], at - {p};
    forall p' | p' in at' ensures at[p'] < |nodes| && NodeOk(nodes', at', m, p') && ParentOk(nodes', at', top, p') {
      SlotOf(nodes, head, at, m, top, at[p], p', 0);
      EmptyHasNone(nodes, at, m, p, p');
      CutKeeps(nodes, at, m, top, p, p');
    }
    EmptyHasNone(nodes, at, m, p, p);
  }

  lemma {:induction false} ParentIs(nodes: seq<Node>, at: map<Pos, nat>, top: nat, p: Pos)
    requires p in at && ParentOk(nodes, at, top, p)
    ensures p.level < top ==> ParentPos(p) in at && nodes[at[p]].parent == at[ParentPos(p)]
    ensures p.level == top ==> nodes[at[p]].parent == NULL
  {
  }

  /** A key lies below some slot of the root. */
  lemma {:induction false} KeyUnderRoot(nodes: seq<Node>, head: int, at: map<Pos, nat>, m: map<nat, nat>, top: nat,
                                        hole: int, k: nat)
    requires Tree(nodes, head, at, m, top, hole) && k in m
    ensures 0 <= head < |nodes| && nodes[head].bitmap != {}
  {
    hide Tree, NodeOk, ParentOk;
    RootOf(nodes, head, at, m, top, hole);
    NodeIs(nodes, head, at, m, top, hole, Pos(top, 0));
    KeyHasLeaf(nodes, head, at, m, top, hole, k);
    Ancestor(nodes, head, at, m, top, hole, k, 0, top);
    Above(nodes, head, at, m, top, hole, PosOf(k, top));
    if top == 0 {
      Above(nodes, head, at, m, top, hole, Pos(0, k / 64));
      KeyMarked(nodes, at, m, k);
    } else {
      Ancestor(nodes, head, at, m, top, hole, k, 0, top - 1);
      ShiftedStep(k, top);
      ChildMarked(nodes, at, m, PosOf(k, top - 1));
    }
  }

  lemma {:induction false} NoKeys(nodes: seq<Node>, head: int, at: map<Pos, nat>, m: map<nat, nat>, top: nat)
    requires Tree(nodes, head, at, m, top, head) && 0 <= head < |nodes| && nodes[head].bitmap == {}
    ensures m == map[]
  {
    hide Tree;
    if m != map[] {
      var k :| k in m;
      KeyUnderRoot(nodes, head, at, m, top, head, k);
    }
  }

  lemma {:induction false} MarkedOf(nodes: seq<Node>, head: int, at: map<Pos, nat>, m: map<nat, nat>, top: nat,
                                    hole: int, p: Pos, o: nat)
    requires Tree(nodes, head, at, m, top, hole) && p in at && o < 64
    ensures at[p] < |nodes| && |nodes[at[p]].entries| == 64
    ensures o in nodes[at[p]].bitmap <==> nodes[at[p]].entries[o] != Empty
  {
    hide ParentOk;
    assert NodeOk(nodes, at, m, p);
  }

  /** The parent pointer of a node leads to the place above it. */
  lemma {:induction false} UpOf(nodes: seq<Node>, head: int, at: map<Pos, nat>, m: map<nat, nat>, top: nat, hole: int,
                                p: Pos)
    requires Tree(nodes, head, at, m, top, hole) && p in at
    ensures at[p] < |nodes| && p.level <= top
    ensures p.level == top ==> nodes[at[p]].parent == NULL && at[p] == head
    ensures p.level < top ==> && ParentPos(p) in at && nodes[at[p]].parent == at[ParentPos(p)] < |nodes|
                              && nodes[at[ParentPos(p)]].level == p.level + 1
  {
    hide NodeOk, ParentOk;
    SlotOf(nodes, head, at, m, top, hole, p, 0);
    AboveOf(nodes, at, top, p);
    ParentIs(nodes, at, top, p);
    if p.level < top { SlotOf(nodes, head, at, m, top, hole, ParentPos(p), 0); }
  }

  // ---------- levels ----------

  lemma {:induction false} LayeredGrown(nodes: seq<Node>, head: nat)
    requires Layered(nodes) && head < |nodes|
    ensures Layered(GrownNodes(nodes, head))
  {
    var nodes' := GrownNodes(nodes, head);
    forall i | 0 <= i < |nodes'|
      ensures |nodes'[i].entries| == 64 && Below(nodes', nodes'[i].level, nodes'[i].entries)
    {
      assert i < |nodes| ==> Below(nodes, nodes[i].level, nodes[i].entries);
    }
  }

  lemma {:induction false} LayeredAdded(nodes: seq<Node>, id: nat, o: nat)
    requires Layered(nodes) && id < |nodes| && nodes[id].level > 0 && o < 64
    ensures Layered(AddedNodes(nodes, id, o))
  {
    var nodes' := AddedNodes(nodes, id, o);
    forall i | 0 <= i < |nodes'|
      ensures |nodes'[i].entries| == 64 && Below(nodes', nodes'[i].level, nodes'[i].entries)
    {
      assert i < |nodes| ==> Below(nodes, nodes[i].level, nodes[i].entries);
    }
  }

  // Changing one slot to something other than a child.
  lemma {:induction false} LayeredSlot(nodes: seq<Node>, id: nat, n: Node, o: nat, e: Entry)
    requires Layered(nodes) && id < |nodes| && o < 64 && !e.Child?
    requires n.level == nodes[id].level && n.entries == nodes[id].entries[o := e]
    ensures Layered(nodes[id := n])
  {
    var nodes' := nodes[id := n];
    forall i | 0 <= i < |nodes'|
      ensures |nodes'[i].entries| == 64 && Below(nodes', nodes'[i].level, nodes'[i].entries)
    {
      assert Below(nodes, nodes[i].level, nodes[i].entries);
    }
  }

  // The number of significant bits.
  function Bits(x: nat): nat { if x == 0 then 0 else 1 + Bits(x / 2) }

  /** The level the first store into an empty array chooses for its node. */
  function FirstLevel(index: nat): nat { if index > XA_MASK then (Bits(index) - 1) / 6 else 0 }

  lemma {:induction false} BitsOf64(y: nat)
    requires y > XA_MASK
    ensures Bits(y) == 6 + Bits(y / 64)
  {
    assert Bits(y) == 2 + Bits(y / 2 / 2);
    assert Bits(y / 2 / 2) == 2 + Bits(y / 2 / 2 / 2 / 2);
    assert Bits(y / 2 / 2 / 2 / 2) == 2 + Bits(y / 2 / 2 / 2 / 2 / 2 / 2);
    assert y / 2 / 2 / 2 / 2 / 2 / 2 == y / 64;
  }

  /** It is the lowest level at which the index fits a node. */
  lemma {:induction false} FirstLevelFits(index: nat)
    ensures Shifted(index, FirstLevel(index)) <= XA_MASK
    ensures FirstLevel(index) > 0 <==> index > XA_MASK
  {
    if index > XA_MASK {
      BitsOf64(index);
      if index / 64 <= XA_MASK { SmallBits(index / 64); }
      FirstLevelFits(index / 64);
      assert FirstLevel(index) == 1 + FirstLevel(index / 64);
    }
  }

  lemma {:induction false} SmallBits(x: nat)
    requires 0 < x <= XA_MASK
    ensures 1 <= Bits(x) <= 6
  {
    assert x / 2 / 2 / 2 / 2 / 2 / 2 == 0;
    assert Bits(x) <= 1 + Bits(x / 2) && Bits(x / 2) <= 1 + Bits(x / 2 / 2);
    assert Bits(x / 2 / 2) <= 1 + Bits(x / 2 / 2 / 2);
    assert Bits(x / 2 / 2 / 2) <= 1 + Bits(x / 2 / 2 / 2 / 2);
    assert Bits(x / 2 / 2 / 2 / 2) <= 1 + Bits(x / 2 / 2 / 2 / 2 / 2);
  }

  /** Storing at index 64 of an empty array makes the value show at index 65 too. */
  lemma {:induction false} Store64ShowsAt65(v: nat)
    ensures Layered([FirstNode(64, v)]) && Lookup([FirstNode(64, v)], 0, 65) == v
  {
    LayeredFirst([], 64, v);
    ShowsAtSibling([], 64, v);
    assert [] + [FirstNode(64, v)] == [FirstNode(64, v)];
  }

  // ---------- the array ----------

  /** What a fresh root with one value in it looks like. */
  function FirstNode(index: nat, v: nat): Node {
    var level := FirstLevel(index);
    Node(level, {Slot(index, level)}, NULL, NoEntries()[Slot(index, level) := Value(v)])
  }

  lemma {:induction false} FirstTree(nodes: seq<Node>, index: nat, v: nat)
    requires v != 0 && index <= XA_MASK
    ensures Tree(nodes + [FirstNode(index, v)], |nodes|, map[Pos(0, 0) := |nodes|], map[index := v], 0, NULL)
  {
    var at, m := map[Pos(0, 0) := |nodes|], map[index := v];
    assert forall o :: 0 <= o < 64 ==> EntryAt(at, m, Pos(0, 0), o) == if o == index then Value(v) else Empty;
    assert NodeOk(nodes + [FirstNode(index, v)], at, m, Pos(0, 0));
  }

  lemma {:induction false} LayeredFirst(nodes: seq<Node>, index: nat, v: nat)
    requires Layered(nodes)
    ensures Layered(nodes + [FirstNode(index, v)])
  {
    var nodes' := nodes + [FirstNode(index, v)];
    forall i | 0 <= i < |nodes'|
      ensures |nodes'[i].entries| == 64 && Below(nodes', nodes'[i].level, nodes'[i].entries)
    {
      assert i < |nodes| ==> Below(nodes, nodes[i].level, nodes[i].entries);
    }
  }

  // Another index that shares everything above the lowest level.
  function Sibling(index: nat): nat { if index % 64 == 0 then index + 1 else index - 1 }

  lemma {:induction false} SiblingShifted(index: nat, level: nat)
    requires level > 0
    ensures Shifted(Sibling(index), level) == Shifted(index, level)
  {
    assert Sibling(index) / 64 == index / 64;
  }

  /** The first store into an empty array makes it hold that one value at that one index if and only if
      the index fits a leaf; otherwise the value also shows at other indices. */
  lemma {:induction false} FirstStoreIff(nodes: seq<Node>, index: nat, v: nat)
    requires Layered(nodes) && v != 0
    ensures Layered(nodes + [FirstNode(index, v)])
    ensures (forall k: nat :: Lookup(nodes + [FirstNode(index, v)], |nodes|, k) == Get(map[index := v], k)) <==>
              index <= XA_MASK
  {
    hide Walk, Lookup, Tree, Layered;
    LayeredFirst(nodes, index, v);
    var nodes', n := nodes + [FirstNode(index, v)], |nodes|;
    if index <= XA_MASK {
      FirstTree(nodes, index, v);
      forall k: nat ensures Lookup(nodes', n, k) == Get(map[index := v], k) {
        LookupIsMap(nodes', n, map[Pos(0, 0) := n], map[index := v], 0, NULL, k);
      }
    } else {
      ShowsAtSibling(nodes, index, v);
    }
  }

  lemma {:induction false} ShowsAtSibling(nodes: seq<Node>, index: nat, v: nat)
    requires Layered(nodes + [FirstNode(index, v)]) && index > XA_MASK
    ensures Sibling(index) != index && Lookup(nodes + [FirstNode(index, v)], |nodes|, Sibling(index)) == v
  {
    FirstLevelFits(index);
    SiblingShifted(index, FirstLevel(index));
    assert (nodes + [FirstNode(index, v)])[|nodes|] == FirstNode(index, v);
  }

  // ---------- the assertion in xa_store ----------

  /** Whether the descending loop of a store meets a value above the leaves, on which it asserts.  Where it
      finds nothing it goes on in fresh empty nodes. */
  ghost predicate Meets(nodes: seq<Node>, id: nat, index: nat)
    requires Layered(nodes) && id < |nodes|
    decreases nodes[id].level
  {
    nodes[id].level > 0 &&
    match nodes[id].entries[Slot(index, nodes[id].level)]
    case Empty => false
    case Value(_) => true
    case Child(c) => Meets(nodes, c, index)
  }

  /** The same for a whole store, which first grows the tree until the index fits. */
  ghost predicate StoreAsserts(nodes: seq<Node>, head: nat, index: nat)
    requires Layered(nodes) && head < |nodes|
    decreases Shifted(index, nodes[head].level)
  {
    if Shifted(index, nodes[head].level) > XA_MASK then
      ShiftedStep(index, nodes[head].level);
      LayeredGrown(nodes, head);
      StoreAsserts(GrownNodes(nodes, head), |nodes|, index)
    else Meets(nodes, head, index)
  }

  /** A store that has to grow the tree never asserts: its path leaves the old root aside. */
  lemma {:induction false} GrownNeverAsserts(nodes: seq<Node>, head: nat, index: nat)
    requires Layered(nodes) && head < |nodes| && Shifted(index, nodes[head].level) > XA_MASK
    ensures !StoreAsserts(nodes, head, index)
    decreases Shifted(index, nodes[head].level)
  {
    hide Layered;
    var level, nodes' := nodes[head].level, GrownNodes(nodes, head);
    ShiftedStep(index, level);
    LayeredGrown(nodes, head);
    assert nodes'[|nodes|] == Node(level + 1, {0}, NULL, NoEntries()[0 := Child(head)]);
    if Shifted(index, level + 1) > XA_MASK {
      GrownNeverAsserts(nodes', |nodes|, index);
    } else {
      assert Slot(index, level + 1) > 0;
    }
  }

  /** After a first store, the next store asserts if and only if the first index did not fit a leaf and the
      next one lies in the same slot of the root; so it does for the very same index. */
  lemma {:induction false} NextStoreAssertsIff(nodes: seq<Node>, index: nat, v: nat, k: nat)
    requires Layered(nodes + [FirstNode(index, v)])
    ensures StoreAsserts(nodes + [FirstNode(index, v)], |nodes|, k) <==>
            index > XA_MASK && Shifted(k, FirstLevel(index)) == Shifted(index, FirstLevel(index))
  {
    hide Layered;
    var nodes', level := nodes + [FirstNode(index, v)], FirstLevel(index);
    FirstLevelFits(index);
    assert nodes'[|nodes|] == FirstNode(index, v);
    if Shifted(k, level) > XA_MASK { GrownNeverAsserts(nodes', |nodes|, k); }
  }

  lemma {:induction false} TreeMeetsNothing(nodes: seq<Node>, head: int, at: map<Pos, nat>, m: map<nat, nat>, top: nat,
                                            hole: int, index: nat, level: nat)
    requires Layered(nodes) && Tree(nodes, head, at, m, top, hole) && level <= top && PosOf(index, level) in at
    ensures at[PosOf(index, level)] < |nodes| && !Meets(nodes, at[PosOf(index, level)], index)
    decreases level
  {
    hide Tree, EntryAt, PosOf;
    SlotOf(nodes, head, at, m, top, hole, PosOf(index, level), Slot(index, level));
    SlotOnPath(at, m, index, level);
    PosLevel(index, level);
    if level > 0 && PosOf(index, level - 1) in at { TreeMeetsNothing(nodes, head, at, m, top, hole, index, level - 1); }
  }

  /** No store asserts on a tree that stands for a map. */
  lemma {:induction false} TreeNeverAsserts(nodes: seq<Node>, head: int, at: map<Pos, nat>, m: map<nat, nat>, top: nat,
                                            hole: int, index: nat)
    requires Layered(nodes) && Tree(nodes, head, at, m, top, hole)
    ensures 0 <= head < |nodes| && !StoreAsserts(nodes, head, index)
  {
    hide Tree, Meets, Layered;
    RootOf(nodes, head, at, m, top, hole);
    ShiftedStep(index, top);
    if Shifted(index, top) <= XA_MASK {
      TreeMeetsNothing(nodes, head, at, m, top, hole, index, top);
    } else {
      GrownNeverAsserts(nodes, head, index);
    }
  }

  class XArray {
    var nodes: seq<Node>
    var head: int
    ghost var m: map<nat, nat>
    ghost var at: map<Pos, nat>
    ghost var top: nat

    ghost predicate Arena()
      reads `nodes, `head
    {
      Layered(nodes) && (head == NULL || 0 <= head < |nodes|)
    }

    // A tree for the map, in which only the node called `hole` may be empty.
    ghost predicate Sound(hole: int)
      reads `nodes, `head, `m, `at, `top
    {
      Arena() && Tree(nodes, head, at, m, top, hole)
    }

    /** An empty array has no nodes; any other is a tree without empty nodes. */
    ghost predicate Valid()
      reads `nodes, `head, `m, `at, `top
    {
      if head == NULL then Arena() && m == map[] else Sound(NULL)
    }

    constructor ()
      ensures Valid() && m == map[]
    {
      nodes, head, m, at, top := [], NULL, map[], map[], 0;
    }

    /** The head is NULL exactly when the map is empty. */
    lemma {:induction false} EmptyIff()
      requires Valid()
      ensures head == NULL <==> m == map[]
    {
      if head != NULL {
        hide NodeOk, ParentOk;
        var k := HasKey(nodes, head, at, m, top, Pos(top, 0));
      }
    }

    /** xa_load, on any arena whose children lie below their parents. */
    method Load(index: nat) returns (v: nat)
      requires Arena()
      ensures v == Lookup(nodes, head, index)
      ensures Valid() ==> v == Get(m, index)
    {
      hide Tree;
      ghost var want := Lookup(nodes, head, index);
      if Valid() && head != NULL { LookupIsMap(nodes, head, at, m, top, NULL, index); }
      if head == NULL { return 0; }
      var node := head;
      if Shifted(index, nodes[node].level) > XA_MASK { return 0; }
      while true
        invariant 0 <= node < |nodes| && Walk(nodes, node, index) == want
        decreases nodes[node].level
      {
        var next := nodes[node].entries[Slot(index, nodes[node].level)];
        match next {
          case Empty => return 0;
          case Value(x) => return x;
          case Child(c) => node := c;
        }
      }
    }

    /** The empty-array branch of xa_store. */
    method StoreFirst(index: nat, v: nat)
      requires Valid() && head == NULL && v != 0
      modifies this
      ensures Arena() && head != NULL
      ensures (forall k: nat :: Lookup(nodes, head, k) == Get(map[index := v], k)) <==> index <= XA_MASK
      ensures index <= XA_MASK ==> Valid() && m == map[index := v]
      ensures forall k: nat {:trigger StoreAsserts(nodes, head, k)} :: StoreAsserts(nodes, head, k) <==>
                index > XA_MASK && Shifted(k, FirstLevel(index)) == Shifted(index, FirstLevel(index))
    {
      hide Tree, Lookup, FirstNode, StoreAsserts;
      FirstStoreIff(nodes, index, v);
      forall k: nat ensures StoreAsserts(nodes + [FirstNode(index, v)], |nodes|, k) <==>
                              index > XA_MASK && Shifted(k, FirstLevel(index)) == Shifted(index, FirstLevel(index))
      {
        NextStoreAssertsIff(nodes, index, v, k);
      }
      if index <= XA_MASK { FirstTree(nodes, index, v); }
      head, nodes := |nodes|, nodes + [FirstNode(index, v)];
      m, at, top := map[index := v], map[Pos(0, 0) := head], 0;
    }

    /** The growing loop of xa_store: add roots until the index fits. */
    method Grow(index: nat)
      requires Sound(NULL)
      modifies `nodes, `head, `at, `top
      ensures Sound(NULL) && Shifted(index, top) <= XA_MASK
    {
      hide Tree, Layered, GrownNodes;
      RootOf(nodes, head, at, m, top, NULL);
      while Shifted(index, nodes[head].level) > XA_MASK
        invariant Sound(NULL) && 0 <= head < |nodes| && nodes[head].level == top
        decreases Shifted(index, top)
      {
        ShiftedStep(index, top);
        GrowTree(nodes, head, at, m, top);
        LayeredGrown(nodes, head);
        head, nodes, at, top := |nodes|, GrownNodes(nodes, head), at[Pos(top + 1, 0) := |nodes|], top + 1;
        RootOf(nodes, head, at, m, top, NULL);
      }
    }

    /** The descending loop: follow the index to its leaf, adding the nodes that are missing. */
    method Descend(index: nat) returns (i: nat)
      requires Sound(NULL) && Shifted(index, top) <= XA_MASK
      modifies `nodes, `at
      ensures PosOf(index, 0) in at && i == at[PosOf(index, 0)] && (Sound(NULL) || Sound(i))
    {
      hide Tree, Layered, AddedNodes, EntryAt;
      RootOf(nodes, head, at, m, top, NULL);
      ShiftedStep(index, top);
      i := head;
      ghost var level, hole := top, NULL;
      while nodes[i].level > 0
        invariant 0 <= level <= top && PosOf(index, level) in at && i == at[PosOf(index, level)]
        invariant Sound(hole) && (hole == NULL || hole == i) && i < |nodes| && nodes[i].level == level
        decreases level
      {
        ghost var p := PosOf(index, level);
        var off := Slot(index, nodes[i].level);
        SlotOf(nodes, head, at, m, top, hole, p, off);
        SlotOnPath(at, m, index, level);
        assert Under(p, off) == PosOf(index, level - 1);
        if nodes[i].entries[off] == Empty {
          AddTree(nodes, head, at, m, top, hole, p, off);
          LayeredAdded(nodes, i, off);
          var c := |nodes|;
          at := at[Under(p, off) := c];
          nodes := AddedNodes(nodes, i, off);
          i, hole := c, c;
        } else {
          NotAHole(nodes, head, at, m, top, hole, p, off);
          i, hole := nodes[i].entries[off].id, NULL;
        }
        level := level - 1;
        SlotOf(nodes, head, at, m, top, hole, PosOf(index, level), 0);
      }
    }

    /** Write the leaf's slot and keep its bitmap in step. */
    method PutLeaf(i: nat, index: nat, v: nat) returns (pr: nat)
      requires (Sound(NULL) || Sound(i)) && Pos(0, index / 64) in at && i == at[Pos(0, index / 64)]
      modifies `nodes, `m
      ensures pr == Get(old(m), index) && m == Put(old(m), index, v) && |nodes| == |old(nodes)| && i < |nodes|
      ensures Sound(if nodes[i].bitmap == {} then i else NULL)
    {
      hide Tree, Layered;
      ghost var hole := if Sound(NULL) then NULL else i;
      var off := Slot(index, 0);
      SlotOf(nodes, head, at, m, top, hole, Pos(0, index / 64), off);
      PutTree(nodes, head, at, m, top, hole, index, v);
      MarkedOf(nodes, head, at, m, top, hole, Pos(0, index / 64), off);
      LayeredSlot(nodes, i, PutNode(nodes[i], off, v), off, if v == 0 then Empty else Value(v));
      var n := nodes[i];
      pr := if n.entries[off].Value? then n.entries[off].v else 0;
      if n.entries[off] == Empty && v != 0 {
        n := n.(bitmap := n.bitmap + {off});
      } else if n.entries[off] != Empty && v == 0 {
        n := n.(bitmap := n.bitmap - {off});
      }
      n := n.(entries := n.entries[off := if v == 0 then Empty else Value(v)]);
      assert n == PutNode(nodes[i], off, v);
      nodes, m := nodes[i := n], Put(m, index, v);
    }

    /** The cleaning loop: free the empty leaf and every node this leaves empty. */
    method Prune(leaf: nat, index: nat)
      requires Sound(leaf) && PosOf(index, 0) in at && leaf == at[PosOf(index, 0)]
      requires leaf < |nodes| && nodes[leaf].bitmap == {}
      modifies `nodes, `head, `at
      ensures Valid() && |nodes| == |old(nodes)|
    {
      hide Tree, Layered;
      var clean := leaf;
      ghost var level := 0;
      while true
        invariant 0 <= level <= top && PosOf(index, level) in at && clean == at[PosOf(index, level)]
        invariant Sound(clean) && clean < |nodes| == |old(nodes)| && nodes[clean].bitmap == {}
        decreases top - level
      {
        ghost var p := PosOf(index, level);
        UpOf(nodes, head, at, m, top, clean, p);
        RootOf(nodes, head, at, m, top, clean);
        var parent := nodes[clean].parent;
        if parent == NULL {
          NoKeys(nodes, head, at, m, top);
          head := NULL;
          return;
        }
        CutTree(nodes, head, at, m, top, p);
        ShiftedStep(index, level + 1);
        var off := Slot(index, nodes[parent].level);
        LayeredSlot(nodes, parent, CutNode(nodes[parent], off), off, Empty);
        nodes := nodes[parent := CutNode(nodes[parent], off)];
        at := at - {p};
        if nodes[parent].bitmap != {} { return; }
        clean, level := parent, level + 1;
      }
    }

    /** xa_store: returns what the index held and stores the new value there, or nothing for 0.  On an
        empty array an index beyond a leaf is outside the refinement: the next stores that assert are then
        exactly those in the same slot of the root. */
    method Store(index: nat, v: nat) returns (pr: nat)
      requires Valid()
      modifies this
      ensures Arena() && pr == Get(old(m), index)
      ensures old(head) != NULL || v == 0 || index <= XA_MASK ==> Valid() && m == Put(old(m), index, v)
      ensures pr == old(Lookup(nodes, head, index))
      ensures old(head) != NULL || v == 0 || index <= XA_MASK ==>
                forall k: nat :: Lookup(nodes, head, k) == if k == index then v else old(Lookup(nodes, head, k))
      ensures old(head) != NULL ==> !StoreAsserts(old(nodes), old(head), index)
      ensures old(head) == NULL && v != 0 ==>
                head != NULL &&
                forall k: nat {:trigger StoreAsserts(nodes, head, k)} :: StoreAsserts(nodes, head, k) <==>
                  index > XA_MASK && Shifted(k, FirstLevel(index)) == Shifted(index, FirstLevel(index))
    {
      hide Tree, Layered, StoreAsserts, Lookup;
      LooksUp();
      if head == NULL {
        if v != 0 { StoreFirst(index, v); }
        if v == 0 || index <= XA_MASK { LooksUp(); }
        return 0;
      }
      TreeNeverAsserts(nodes, head, at, m, top, NULL, index);
      Grow(index);
      var i := Descend(index);
      assert Shifted(index, 1) == index / 64;
      pr := PutLeaf(i, index, v);
      RootOf(nodes, head, at, m, top, if nodes[i].bitmap == {} then i else NULL);
      if nodes[i].bitmap == {} { Prune(i, index); }
      LooksUp();
    }

    /** A load at any index finds what the map holds there. */
    lemma {:induction false} LooksUp()
      requires Valid()
      ensures forall k: nat :: Lookup(nodes, head, k) == if k in m then m[k] else 0
    {
      hide Tree, Layered;
      forall k: nat ensures Lookup(nodes, head, k) == if k in m then m[k] else 0 {
        if head != NULL {
          hide Lookup;
          LookupIsMap(nodes, head, at, m, top, NULL, k);
        }
      }
    }

    /** xa_erase. */
    method Erase(index: nat) returns (pr: nat)
      requires Valid()
      modifies this
      ensures Valid() && m == old(m) - {index} && pr == Get(old(m), index)
      ensures forall k: nat :: Lookup(nodes, head, k) == if k == index then 0 else old(Lookup(nodes, head, k))
    {
      pr := Store(index, 0);
    }
  }
}
