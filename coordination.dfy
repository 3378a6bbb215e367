/**
 * The coordination service (ZooKeeper) as the supervisor sees it through its
 * Curator client: a hierarchical namespace of nodes, each with a byte payload,
 * and the three client calls the supervisor makes on it (list children,
 * delete a subtree, ensure a path exists). Each call is one atomic step;
 * watches, sessions and ephemeral-node expiry belong to the service and are
 * not modelled.
 */
module Coordination {
  import opened Wrappers

  /** A node's path as its sequence of segments; [] is the root "/". */
  type Path = seq<string>
  type Bytes = seq<bv8>
  /** The namespace: every existing node and its data. */
  type Tree = map<Path, Bytes>

  /** The two KeeperException kinds that matter here. */
  datatype KeeperError = NoNode | ConnectionLoss

  /** The root exists and the parent of every other node exists. */
  ghost predicate WellFormed(t: Tree) {
    [] in t && forall q :: q in t && q != [] ==> q[..|q| - 1] in t
  }

  /** q is p or lies below p. */
  predicate IsUnder(q: Path, p: Path) {
    |p| <= |q| && q[..|p|] == p
  }

  /** Every ancestor of an existing node exists. */
  lemma AncestorsExist(t: Tree, q: Path, k: nat)
    requires WellFormed(t) && q in t && k <= |q|
    ensures q[..k] in t
    decreases |q| - k
  {
    if k < |q| {
      AncestorsExist(t, q, k + 1);
      var a := q[..k + 1];
      assert a != [] && a[..|a| - 1] == q[..k];
    } else {
      assert q[..k] == q;
    }
  }

  /** The names of the direct children of p (getChildren().forPath(p)). */
  function Children(t: Tree, p: Path): (r: set<string>)
    ensures forall c :: c in r <==> p + [c] in t
  {
    var r := set q | q in t && |q| == |p| + 1 && q[..|p|] == p :: q[|p|];
    assert forall c :: p + [c] in t ==> c in r by {
      forall c | p + [c] in t ensures c in r {
        var q := p + [c];
        assert q[..|p|] == p && q[|p|] == c;
      }
    }
    assert forall c :: c in r ==> p + [c] in t by {
      forall c | c in r ensures p + [c] in t {
        var q :| q in t && |q| == |p| + 1 && q[..|p|] == p && q[|p|] == c;
        assert q == q[..|p|] + [q[|p|]];
      }
    }
    r
  }

  /** A missing node has no children. */
  lemma NoChildrenOfMissing(t: Tree, p: Path)
    requires WellFormed(t) && p !in t
    ensures Children(t, p) == {}
  {
  }

  /** The namespace without p and everything below it. */
  function RemoveSubtree(t: Tree, p: Path): (r: Tree)
  {
    map q | q in t && !IsUnder(q, p) :: t[q]
  }

  /** Removing a subtree other than the whole tree keeps the namespace
      well-formed, and removing one that is absent changes nothing. */
  lemma RemoveSubtreeProperties(t: Tree, p: Path)
    requires WellFormed(t) && p != []
    ensures WellFormed(RemoveSubtree(t, p))
    ensures p !in t ==> RemoveSubtree(t, p) == t
  {
    var r := RemoveSubtree(t, p);
    if p !in t {
      forall q | q in t ensures !IsUnder(q, p) {
        if IsUnder(q, p) {
          AncestorsExist(t, q, |p|);
        }
      }
    }
  }

  /** The namespace after creating p and every missing ancestor of it with
      empty data (an ensurePath). */
  function WithPath(t: Tree, p: Path): Tree
    decreases |p|
  {
    var s := if p == [] then t else WithPath(t, p[..|p| - 1]);
    if p in s then s else s[p := []]
  }

  /** Ensuring p adds exactly p and its ancestors, and keeps existing data. */
  lemma {:induction false} WithPathContents(t: Tree, p: Path)
    ensures forall q :: q in WithPath(t, p) <==> q in t || (|q| <= |p| && q == p[..|q|])
    ensures forall q :: q in t ==> WithPath(t, p)[q] == t[q]
    ensures forall q :: q in WithPath(t, p) && q !in t ==> WithPath(t, p)[q] == []
    decreases |p|
  {
    if p != [] {
      var p' := p[..|p| - 1];
      WithPathContents(t, p');
      forall q ensures (|q| <= |p'| && q == p'[..|q|]) <==> (|q| < |p| && q == p[..|q|]) {
        if |q| < |p| { assert p'[..|q|] == p[..|q|]; }
      }
    }
    assert p[..|p|] == p;
  }

  /** Ensuring a path keeps the namespace well-formed. */
  lemma WithPathWellFormed(t: Tree, p: Path)
    requires WellFormed(t)
    ensures WellFormed(WithPath(t, p))
  {
    WithPathContents(t, p);
    var r := WithPath(t, p);
    forall q | q in r && q != [] ensures q[..|q| - 1] in r {
      if q !in t {
        assert q[..|q| - 1] == p[..|q| - 1];
      }
    }
  }

  /** The namespace after ensuring each path of ps in turn. */
  function WithPaths(t: Tree, ps: seq<Path>): Tree
    decreases |ps|
  {
    if ps == [] then t else WithPaths(WithPath(t, ps[0]), ps[1..])
  }

  /** `after` is `before` with every path of ps ensured: old nodes keep
      their data, every listed path exists, and each new node is an empty
      ancestor-or-self of a listed path. */
  ghost predicate Ensured(before: Tree, after: Tree, ps: seq<Path>) {
    (forall q :: q in before ==> q in after && after[q] == before[q])
    && (forall i :: 0 <= i < |ps| ==> ps[i] in after)
    && (forall q :: q in after && q !in before ==>
          after[q] == [] && exists i :: 0 <= i < |ps| && IsUnder(ps[i], q))
  }

  /** Ensuring several paths keeps the namespace well-formed and does just
      what Ensured says. */
  lemma {:induction false} WithPathsProperties(t: Tree, ps: seq<Path>)
    requires WellFormed(t)
    ensures WellFormed(WithPaths(t, ps))
    ensures Ensured(t, WithPaths(t, ps), ps)
    decreases |ps|
  {
    var r := WithPaths(t, ps);
    if ps == [] {
      assert r == t;
    } else {
      var t1 := WithPath(t, ps[0]);
      WithPathContents(t, ps[0]);
      WithPathWellFormed(t, ps[0]);
      WithPathsProperties(t1, ps[1..]);
      assert ps[0] == ps[0][..|ps[0]|];
      forall i | 0 < i < |ps| ensures ps[i] in r {
        assert ps[i] == ps[1..][i - 1];
      }
      forall q | q in r && q !in t
        ensures r[q] == [] && exists i :: 0 <= i < |ps| && IsUnder(ps[i], q)
      {
        if q in t1 {
          assert IsUnder(ps[0], q);
        } else {
          var i :| 0 <= i < |ps[1..]| && IsUnder(ps[1..][i], q);
          assert IsUnder(ps[i + 1], q);
        }
      }
    }
  }

  /** The coordination service reached through the supervisor's client. */
  class ZooKeeper {
    var connected: bool
    var tree: Tree

    ghost predicate Valid()
      reads this
    {
      WellFormed(tree)
    }

    constructor (connected: bool)
      ensures Valid() && this.connected == connected && tree == map[[] := []]
    {
      this.connected := connected;
      tree := map[[] := []];
    }

    /** getChildren().forPath(p). */
    method GetChildren(p: Path) returns (r: Result<set<string>, KeeperError>)
      ensures !connected ==> r == Failure(ConnectionLoss)
      ensures connected && p !in tree ==> r == Failure(NoNode)
      ensures connected && p in tree ==> r == Success(Children(tree, p))
    {
      if !connected {
        r := Failure(ConnectionLoss);
      } else if p !in tree {
        r := Failure(NoNode);
      } else {
        r := Success(Children(tree, p));
      }
    }

    /** delete().deletingChildrenIfNeeded().forPath(p). */
    method Delete(p: Path) returns (r: Outcome<KeeperError>)
      requires Valid() && p != []
      modifies this
      ensures Valid() && connected == old(connected)
      ensures !connected ==> r == Fail(ConnectionLoss) && tree == old(tree)
      ensures connected && p !in old(tree) ==> r == Fail(NoNode) && tree == old(tree)
      ensures connected && p in old(tree) ==> r == Pass
      ensures connected ==> tree == RemoveSubtree(old(tree), p)
    {
      RemoveSubtreeProperties(tree, p);
      if !connected {
        r := Fail(ConnectionLoss);
      } else if p !in tree {
        r := Fail(NoNode);
      } else {
        tree := RemoveSubtree(tree, p);
        r := Pass;
      }
    }

    /** Paths.ensurePath(client, p): create p and its missing ancestors. */
    method EnsurePath(p: Path) returns (r: Outcome<KeeperError>)
      requires Valid()
      modifies this
      ensures Valid() && connected == old(connected)
      ensures !connected ==> r == Fail(ConnectionLoss) && tree == old(tree)
      ensures connected ==> r == Pass && tree == WithPath(old(tree), p)
    {
      if !connected {
        r := Fail(ConnectionLoss);
      } else {
        WithPathWellFormed(tree, p);
        tree := WithPath(tree, p);
        r := Pass;
      }
    }
  }
}
