/** The tree of connection groups: no edit may close a circle of parents. */
module Groups {
  import opened Options

  type GroupId = string

  datatype Group = Group(name: string, parent: GroupId)

  /** Each group's parent; the empty name stands for none. */
  type Parents = map<GroupId, GroupId>

  // ----- chains of parents -----

  /** A group that is not stored has no parent. */
  function ParentOf(p: Parents, id: GroupId): GroupId { if id in p then p[id] else "" }

  function Ancestor(p: Parents, id: GroupId, n: nat): GroupId
    decreases n
  {
    if n == 0 then id else ParentOf(p, Ancestor(p, id, n - 1))
  }

  ghost predicate Ends(p: Parents, id: GroupId) { exists n: nat :: Ancestor(p, id, n) == "" }

  ghost predicate Acyclic(p: Parents) { forall id :: id in p ==> Ends(p, id) }

  lemma {:induction false} AncestorOfAncestor(p: Parents, id: GroupId, n: nat, m: nat)
    ensures Ancestor(p, id, n + m) == Ancestor(p, Ancestor(p, id, n), m)
    decreases m
  {
    if m > 0 {
      AncestorOfAncestor(p, id, n, m - 1);
    }
  }

  /** A chain that comes back to where it was never ends. */
  lemma {:induction false} LoopNeverEnds(p: Parents, id: GroupId, k: nat, n: nat, m: nat)
    requires k < n && Ancestor(p, id, k) == Ancestor(p, id, n)
    requires forall j: nat :: j <= n ==> Ancestor(p, id, j) != ""
    ensures Ancestor(p, id, m) != ""
    decreases m
  {
    if m > n {
      AncestorOfAncestor(p, id, n, m - n);
      AncestorOfAncestor(p, id, k, m - n);
      LoopNeverEnds(p, id, k, n, k + (m - n));
    }
  }

  // ----- the check -----

  /** Follows the parents of the new parent. It stops on every store, and it answers exactly whether the
      chain, with the edit in place, has no end. */
  method IntroducesCycle(groups: map<GroupId, Group>, id: GroupId, parent: GroupId) returns (cycle: bool)
    ensures cycle <==> id != "" && !Ends(ParentsOf(groups)[id := parent], parent)
  {
    hide ParentsOf, Ends;
    if id == "" {
      return false;
    }
    cycle := ChainLoops(ParentsOf(groups)[id := parent], id, parent);
  }

  method ChainLoops(parents: Parents, id: GroupId, parent: GroupId) returns (cycle: bool)
    requires id in parents && parents[id] == parent
    ensures cycle <==> !Ends(parents, parent)
  {
    hide Ancestor, ParentOf, Visited;
    var seen := {id};
    var current := parent;
    ghost var n := 0;
    ghost var all := parents.Keys + parents.Values;
    AncestorZero(parents, parent);
    while current != ""
      invariant current == Ancestor(parents, parent, n) && (current == "" || current in all)
      invariant seen <= all
      invariant forall g :: g in seen ==> g == id || Visited(parents, parent, n, g)
      invariant forall k: nat :: k < n ==> Ancestor(parents, parent, k) != ""
      decreases |all - seen|
    {
      if current in seen {
        NeverEnds(parents, id, parent, n);
        return true;
      }
      Shrinks(all, seen, current);
      AncestorSucc(parents, parent, n);
      VisitedGrows(parents, parent, n);
      ParentIsKnown(parents, current);
      seen := seen + {current};
      current := ParentOf(parents, current);
      n := n + 1;
    }
    assert Ancestor(parents, parent, n) == "";
    cycle := false;
  }

  lemma ParentIsKnown(p: Parents, id: GroupId)
    ensures ParentOf(p, id) == "" || ParentOf(p, id) in p.Keys + p.Values
  {}

  ghost predicate Visited(p: Parents, parent: GroupId, n: nat, g: GroupId) {
    exists k: nat :: k < n && Ancestor(p, parent, k) == g
  }

  lemma VisitedGrows(p: Parents, parent: GroupId, n: nat)
    ensures forall g :: Visited(p, parent, n, g) ==> Visited(p, parent, n + 1, g)
    ensures Visited(p, parent, n + 1, Ancestor(p, parent, n))
  {}

  lemma AncestorZero(p: Parents, id: GroupId)
    ensures Ancestor(p, id, 0) == id
  {}

  lemma AncestorSucc(p: Parents, id: GroupId, n: nat)
    ensures Ancestor(p, id, n + 1) == ParentOf(p, Ancestor(p, id, n))
  {}

  lemma Shrinks(all: set<GroupId>, seen: set<GroupId>, g: GroupId)
    requires g in all && g !in seen
    ensures |all - (seen + {g})| < |all - seen|
  {
    assert all - (seen + {g}) == (all - seen) - {g};
  }

  lemma NeverEnds(p: Parents, id: GroupId, parent: GroupId, n: nat)
    requires id in p && p[id] == parent
    requires forall k: nat :: k <= n ==> Ancestor(p, parent, k) != ""
    requires Ancestor(p, parent, n) == id || Visited(p, parent, n, Ancestor(p, parent, n))
    ensures !Ends(p, parent)
  {
    forall m: nat ensures Ancestor(p, parent, m) != "" {
      if Ancestor(p, parent, n) == id {
        assert Ancestor(p, parent, n + 1) == parent == Ancestor(p, parent, 0);
        LoopNeverEnds(p, parent, 0, n + 1, m);
      } else {
        var k: nat :| k < n && Ancestor(p, parent, k) == Ancestor(p, parent, n);
        LoopNeverEnds(p, parent, k, n, m);
      }
    }
  }

  function ParentsOf(groups: map<GroupId, Group>): Parents { map id | id in groups :: groups[id].parent }

  lemma {:induction false} NoneAboveNone(p: Parents, n: nat)
    requires "" !in p
    ensures Ancestor(p, "", n) == ""
    decreases n
  {
    if n > 0 {
      NoneAboveNone(p, n - 1);
    }
  }

  /** When the chain ends, it does not pass through the edited group. */
  lemma EndingAvoidsGroup(p: Parents, id: GroupId, n: nat)
    requires "" !in p && id in p && Ends(p, p[id])
    ensures Ancestor(p, p[id], n) != id
  {
    var parent := p[id];
    if Ancestor(p, parent, n) == id {
      var m: nat :| Ancestor(p, parent, m) == "";
      forall k: nat | k <= n ensures Ancestor(p, parent, k) != "" {
        if Ancestor(p, parent, k) == "" {
          NoneAboveNone(p, n - k);
          AncestorOfAncestor(p, parent, k, n - k);
        }
      }
      assert Ancestor(p, parent, n + 1) == parent;
      LoopNeverEnds(p, parent, 0, n + 1, m);
    }
  }

  // ----- what an edit does to the tree -----

  /** The edited tree has no circle exactly when the chain from the new parent ends. */
  lemma EditKeepsAcyclic(p: Parents, id: GroupId, parent: GroupId)
    requires "" !in p && id != "" && Acyclic(p)
    ensures Acyclic(p[id := parent]) <==> Ends(p[id := parent], parent)
  {
    var q := p[id := parent];
    if Ends(q, parent) {
      forall g | g in q ensures Ends(q, g) {
        if g == id {
          EndsThroughGroup(q, id, id, 0);
        } else {
          var n: nat :| Ancestor(p, g, n) == "";
          EndsAfterEdit(p, id, parent, g, n);
        }
      }
    } else {
      forall n: nat ensures Ancestor(q, id, n) != "" {
        if n > 0 {
          AncestorOfAncestor(q, id, 1, n - 1);
          assert Ancestor(q, id, 1) == ParentOf(q, Ancestor(q, id, 0)) == parent;
        }
      }
      assert id in q && !Ends(q, id);
    }
  }

  lemma EndsThroughGroup(q: Parents, id: GroupId, g: GroupId, n: nat)
    requires id in q && Ends(q, q[id]) && Ancestor(q, g, n) == id
    ensures Ends(q, g)
  {
    var m: nat :| Ancestor(q, q[id], m) == "";
    assert Ancestor(q, g, n + 1) == q[id];
    AncestorOfAncestor(q, g, n + 1, m);
  }

  /** The old chain of another group either ends as before or runs into the edited group. */
  lemma {:induction false} EndsAfterEdit(p: Parents, id: GroupId, parent: GroupId, g: GroupId, n: nat)
    requires Ends(p[id := parent], parent) && Ancestor(p, g, n) == ""
    ensures Ends(p[id := parent], g)
  {
    var q := p[id := parent];
    if k: nat :| k <= n && Ancestor(q, g, k) == id {
      EndsThroughGroup(q, id, g, k);
    } else {
      SameChain(p, q, id, g, n);
    }
  }

  lemma {:induction false} SameChain(p: Parents, q: Parents, id: GroupId, g: GroupId, n: nat)
    requires q.Keys == p.Keys + {id} && forall other :: other in p && other != id ==> q[other] == p[other]
    requires forall k: nat :: k <= n ==> Ancestor(q, g, k) != id
    ensures Ancestor(q, g, n) == Ancestor(p, g, n)
    decreases n
  {
    if n > 0 {
      SameChain(p, q, id, g, n - 1);
    }
  }

  // ----- the store -----

  datatype GroupError = InvalidGroup | CycleError | HasChildren | HasConnections

  class Store {
    var groups: map<GroupId, Group>
    var connections: map<string, GroupId>
    const trim: string -> string

    ghost predicate Valid()
      reads this`groups
    {
      "" !in groups && Acyclic(ParentsOf(groups))
    }

    constructor (trim: string -> string)
      ensures Valid() && groups == map[] && this.trim == trim
    {
      groups, connections := map[], map[];
      this.trim := trim;
    }

    /** An edit or a new group; `drawn` is the identifier a new one gets. */
    method PutGroup(id: GroupId, name: string, parent: GroupId, drawn: GroupId)
      returns (stored: GroupId, err: Option<GroupError>)
      requires Valid() && drawn != "" && drawn !in groups
      modifies this`groups
      ensures Valid()
      ensures stored == (if id == "" then drawn else id)
      ensures err.Some? ==> groups == old(groups)
      ensures err.None? ==> groups == old(groups)[stored := Group(trim(name), parent)]
      ensures err == Some(InvalidGroup) <==> trim(name) == "" || |trim(name)| > 128 || parent == stored
      ensures err.None? <==>
        && trim(name) != "" && |trim(name)| <= 128 && parent != stored
        && Acyclic(ParentsOf(old(groups))[stored := parent])
    {
      stored := if id == "" then drawn else id;
      var trimmed := trim(name);
      EditKeepsAcyclic(ParentsOf(groups), stored, parent);
      if trimmed == "" || |trimmed| > 128 || parent == stored {
        return stored, Some(InvalidGroup);
      }
      if parent != "" {
        var cycle := IntroducesCycle(groups, stored, parent);
        if cycle {
          return stored, Some(CycleError);
        }
      } else {
        assert Ancestor(ParentsOf(groups)[stored := parent], parent, 0) == "";
      }
      groups := groups[stored := Group(trimmed, parent)];
      assert ParentsOf(groups) == ParentsOf(old(groups))[stored := parent];
      err := None;
    }

    /** A group goes only when nothing is in it. */
    method DeleteGroup(id: GroupId) returns (err: Option<GroupError>)
      requires Valid()
      modifies this`groups
      ensures Valid()
      ensures err.None? ==> groups == old(groups) - {id}
      ensures err.Some? ==> groups == old(groups)
      ensures err.None? <==>
        && (forall g :: g in old(groups) ==> old(groups)[g].parent != id)
        && (forall c :: c in connections ==> connections[c] != id)
      ensures err == Some(HasChildren) <==> exists g :: g in old(groups) && old(groups)[g].parent == id
    {
      if exists g :: g in groups && groups[g].parent == id {
        return Some(HasChildren);
      }
      if exists c :: c in connections && connections[c] == id {
        return Some(HasConnections);
      }
      RemovalKeepsAcyclic(ParentsOf(groups), id);
      groups := groups - {id};
      assert ParentsOf(groups) == ParentsOf(old(groups)) - {id};
      err := None;
    }
  }

  lemma RemovalKeepsAcyclic(p: Parents, id: GroupId)
    requires "" !in p && Acyclic(p)
    ensures Acyclic(p - {id})
  {
    var q := p - {id};
    forall g | g in q ensures Ends(q, g) {
      var n: nat :| Ancestor(p, g, n) == "";
      EndsAfterRemoval(p, id, g, n);
    }
  }

  lemma {:induction false} EndsAfterRemoval(p: Parents, id: GroupId, g: GroupId, n: nat)
    requires "" !in p && Ancestor(p, g, n) == ""
    ensures Ends(p - {id}, g)
    decreases n
  {
    var q := p - {id};
    if g == "" || n == 0 {
      assert Ancestor(q, g, 0) == g;
      assert n == 0 ==> Ancestor(p, g, 0) == g;
    } else {
      var up := ParentOf(q, g);
      assert Ancestor(q, g, 1) == up by {
        assert Ancestor(q, g, 0) == g;
      }
      if g == id || g !in p {
        assert Ancestor(q, g, 1) == "";
      } else {
        AncestorOfAncestor(p, g, 1, n - 1);
        assert Ancestor(p, g, 1) == up by {
          assert Ancestor(p, g, 0) == g;
        }
        EndsAfterRemoval(p, id, up, n - 1);
        var m: nat :| Ancestor(q, up, m) == "";
        AncestorOfAncestor(q, g, 1, m);
      }
    }
  }
}
