/**
 * Stale-deployment reconciliation (LeaderListener.cleanupDeployments): the
 * assignment nodes under MODULE_DEPLOYMENTS are named by container id; those
 * whose container is no longer registered under CONTAINERS are deleted with
 * their whole subtree.
 */
module Reconciliation {
  import opened Wrappers
  import opened Coordination
  import opened XdPaths

  /** The set cleanupDeployments builds: the names under MODULE_DEPLOYMENTS
      (addAll) minus the names under CONTAINERS (removeAll). NoNode from the
      first listing leaves the set empty; NoNode from the second skips the
      removal, so every recorded assignment is stale. */
  function StaleAssignments(t: Tree): set<string>
  {
    if ModuleDeployments !in t then {}
    else if Containers !in t then Children(t, ModuleDeployments)
    else Children(t, ModuleDeployments) - Children(t, Containers)
  }

  /** q is an assignment node MODULE_DEPLOYMENTS/id or lies below one. */
  predicate IsAssignmentNode(q: Path) {
    |q| > |ModuleDeployments| && q[..|ModuleDeployments|] == ModuleDeployments
  }

  /** The container id an assignment node belongs to. */
  function Owner(q: Path): string
    requires IsAssignmentNode(q)
  {
    q[|ModuleDeployments|]
  }

  /** The namespace after deleting the assignment subtree of every id in ids. */
  function RemoveAssignments(t: Tree, ids: set<string>): Tree
  {
    map q | q in t && !(IsAssignmentNode(q) && Owner(q) in ids) :: t[q]
  }

  /** Lying below MODULE_DEPLOYMENTS/id is being an assignment node of id. */
  lemma UnderAssignmentOf(q: Path, id: string)
    ensures IsUnder(q, ModuleDeployments + [id]) <==> IsAssignmentNode(q) && Owner(q) == id
  {
    var p := ModuleDeployments + [id];
    if IsUnder(q, p) {
      assert q[..|ModuleDeployments|] == p[..|ModuleDeployments|];
      assert q[|ModuleDeployments|] == q[..|p|][|ModuleDeployments|];
    }
    if IsAssignmentNode(q) && Owner(q) == id {
      assert q[..|p|] == q[..|ModuleDeployments|] + [q[|ModuleDeployments|]];
    }
  }

  /** One recursive delete of MODULE_DEPLOYMENTS/id extends the removed set by id. */
  lemma RemoveAssignmentsStep(t: Tree, done: set<string>, id: string)
    ensures RemoveSubtree(RemoveAssignments(t, done), ModuleDeployments + [id])
         == RemoveAssignments(t, done + {id})
  {
    var a := RemoveSubtree(RemoveAssignments(t, done), ModuleDeployments + [id]);
    var b := RemoveAssignments(t, done + {id});
    forall q ensures q in a <==> q in b {
      UnderAssignmentOf(q, id);
    }
    assert a.Keys == b.Keys;
  }

  /** Removing assignments keeps the namespace well-formed. */
  lemma RemoveAssignmentsWellFormed(t: Tree, ids: set<string>)
    requires WellFormed(t)
    ensures WellFormed(RemoveAssignments(t, ids))
  {
    var r := RemoveAssignments(t, ids);
    forall q | q in r && q != [] ensures q[..|q| - 1] in r {
      var parent := q[..|q| - 1];
      if IsAssignmentNode(parent) {
        assert q[..|ModuleDeployments|] == parent[..|ModuleDeployments|];
        assert Owner(q) == Owner(parent);
      }
    }
  }

  /** Both NoNode cases agree with plain set difference over a well-formed
      namespace, where a missing node simply has no children. */
  lemma StaleIsDifference(t: Tree)
    requires WellFormed(t)
    ensures StaleAssignments(t) == Children(t, ModuleDeployments) - Children(t, Containers)
  {
    if ModuleDeployments !in t {
      NoChildrenOfMissing(t, ModuleDeployments);
    } else if Containers !in t {
      NoChildrenOfMissing(t, Containers);
    }
  }

  /** Reconciliation deletes exactly the assignment subtrees whose container is
      not live: a node survives iff it is not an assignment node, or its
      owner is registered under CONTAINERS; surviving nodes keep their data. */
  lemma CleanupKeepsExactlyLive(t: Tree)
    requires WellFormed(t)
    ensures var r := RemoveAssignments(t, StaleAssignments(t));
      (forall q :: q in r <==> q in t && (!IsAssignmentNode(q) || Owner(q) in Children(t, Containers)))
      && (forall q :: q in r ==> r[q] == t[q])
      && Children(r, ModuleDeployments) == Children(t, ModuleDeployments) * Children(t, Containers)
  {
    StaleIsDifference(t);
    var r := RemoveAssignments(t, StaleAssignments(t));
    forall q | q in t && IsAssignmentNode(q)
      ensures Owner(q) in Children(t, ModuleDeployments)
    {
      UnderAssignmentOf(q, Owner(q));
      AncestorsExist(t, q, |ModuleDeployments| + 1);
      assert q[..|ModuleDeployments| + 1] == ModuleDeployments + [Owner(q)];
    }
    forall c ensures c in Children(r, ModuleDeployments) <==> c in Children(t, ModuleDeployments) * Children(t, Containers) {
      var q := ModuleDeployments + [c];
      assert IsAssignmentNode(q) && Owner(q) == c;
    }
  }

  /** Without a MODULE_DEPLOYMENTS node nothing is stale and nothing is deleted. */
  lemma CleanupWithoutDeploymentsRoot(t: Tree)
    requires ModuleDeployments !in t
    ensures StaleAssignments(t) == {}
    ensures RemoveAssignments(t, StaleAssignments(t)) == t
  {
    var r := RemoveAssignments(t, {});
    assert r.Keys == t.Keys;
  }

  /** With MODULE_DEPLOYMENTS present but no CONTAINERS node, every recorded
      assignment is stale and no assignment survives. */
  lemma CleanupWithoutContainersRoot(t: Tree)
    requires WellFormed(t) && ModuleDeployments in t && Containers !in t
    ensures StaleAssignments(t) == Children(t, ModuleDeployments)
    ensures Children(RemoveAssignments(t, StaleAssignments(t)), ModuleDeployments) == {}
  {
    NoChildrenOfMissing(t, Containers);
    CleanupKeepsExactlyLive(t);
  }

  /** The deletion loop of cleanupDeployments: delete MODULE_DEPLOYMENTS/id
      recursively for every id, treating NoNode (a target already removed,
      e.g. by a racing admin) as success and going on with the rest. Any
      other error ends the loop and propagates. */
  method DeleteAssignments(zk: ZooKeeper, ids: set<string>) returns (r: Outcome<KeeperError>)
    requires zk.Valid()
    modifies zk
    ensures zk.Valid() && zk.connected == old(zk.connected)
    ensures !old(zk.connected) && ids != {} ==> r == Fail(ConnectionLoss) && zk.tree == old(zk.tree)
    ensures old(zk.connected) || ids == {} ==> r == Pass && zk.tree == RemoveAssignments(old(zk.tree), ids)
  {
    var todo := ids;
    assert RemoveAssignments(zk.tree, {}) == zk.tree by {
      assert RemoveAssignments(zk.tree, {}).Keys == zk.tree.Keys;
    }
    while todo != {}
      invariant todo <= ids
      invariant zk.Valid() && zk.connected == old(zk.connected)
      invariant zk.tree == RemoveAssignments(old(zk.tree), ids - todo)
      invariant !zk.connected ==> todo == ids
      decreases todo
    {
      var id :| id in todo;
      RemoveAssignmentsStep(old(zk.tree), ids - todo, id);
      var d := zk.Delete(ModuleDeployments + [id]);
      if d.Fail? && d.error != NoNode {
        r := Fail(d.error);
        return;
      }
      assert ids - todo + {id} == ids - (todo - {id});
      todo := todo - {id};
    }
    r := Pass;
  }

  /** LeaderListener.cleanupDeployments(client). */
  method CleanupDeployments(zk: ZooKeeper) returns (r: Outcome<KeeperError>)
    requires zk.Valid()
    modifies zk
    ensures zk.Valid() && zk.connected == old(zk.connected)
    ensures !old(zk.connected) ==> r == Fail(ConnectionLoss) && zk.tree == old(zk.tree)
    ensures old(zk.connected) ==> r == Pass && zk.tree == RemoveAssignments(old(zk.tree), StaleAssignments(old(zk.tree)))
  {
    var containerDeployments: set<string> := {};
    var deployed := zk.GetChildren(ModuleDeployments);
    if deployed.Failure? && deployed.error != NoNode {
      r := Fail(deployed.error);
      return;
    }
    if deployed.Success? {
      containerDeployments := containerDeployments + deployed.value;
      var live := zk.GetChildren(Containers);
      // NoNode skips the removal; while connected nothing else can be raised
      assert live.Success? || live.error == NoNode;
      if live.Success? {
        containerDeployments := containerDeployments - live.value;
      }
    }
    r := DeleteAssignments(zk, containerDeployments);
  }
}
