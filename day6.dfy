/**
 * The orbit map: every object orbits at most one other, recorded as a parent
 * link, and each object keeps the set of objects that were ever inserted as
 * orbiting it. The map answers how many direct and indirect orbits there are
 * in total, the chain of objects from one object out to the centre, and how
 * many orbital transfers separate two objects.
 *
 * The walks up the parent links loop forever on a cycle. A walk here is given
 * as many steps as there are nodes; running out of steps is reported as
 * `Unending`, and `UnendingClimbIsForever` / `UnendingPathIsForever` show that
 * this happens exactly when the unbounded walk never stops.
 */
module Day6 {
  import opened Wrappers

  // ---------------------------------------------------------------------------
  // The orbit map as a value
  // ---------------------------------------------------------------------------

  /**
   * The nodes in the order they were created, each node's parent if it has
   * one, and each node's set of children.
   */
  datatype Orbits<T> = Orbits(nodes: seq<T>, parent: map<T, T>, children: map<T, set<T>>)

  /** No value is stored twice. */
  predicate Distinct<T(==,!new)>(s: seq<T>)
  {
    forall i, j :: 0 <= i < j < |s| ==> s[i] != s[j]
  }

  /**
   * The nodes are distinct, every node and only the nodes have a children
   * set, and every parent link and every child names a node.
   */
  ghost predicate Consistent<T(!new)>(o: Orbits<T>)
  {
    && Distinct(o.nodes)
    && (forall v :: v in o.children <==> v in o.nodes)
    && (forall v :: v in o.parent ==> v in o.nodes && o.parent[v] in o.nodes)
    && (forall v, c :: v in o.children && c in o.children[v] ==> c in o.nodes)
  }

  function EmptyOrbits<T>(): Orbits<T>
  {
    Orbits([], map[], map[])
  }

  /** The node with value `v`, created without parent or children if it is not there yet. */
  function AddNode<T(==,!new)>(o: Orbits<T>, v: T): (r: Orbits<T>)
    ensures v in r.nodes
    ensures o.nodes <= r.nodes && |r.nodes| <= |o.nodes| + 1
    ensures forall x :: x in r.nodes ==> x in o.nodes || x == v
    ensures r.parent == o.parent
  {
    if v in o.nodes then o
    else Orbits(o.nodes + [v], o.parent, o.children[v := {}])
  }

  /** Looking a node up keeps the map consistent, gives the node a children set and keeps every other one. */
  lemma AddNodeConsistent<T(!new)>(o: Orbits<T>, v: T)
    requires Consistent(o)
    ensures Consistent(AddNode(o, v)) && v in AddNode(o, v).children
    ensures forall x :: x in o.children ==> x in AddNode(o, v).children && AddNode(o, v).children[x] == o.children[x]
  {
    if v !in o.nodes {
      var r := AddNode(o, v);
      assert Distinct(r.nodes) by {
        forall i, j | 0 <= i < j < |r.nodes| ensures r.nodes[i] != r.nodes[j] {
          if j == |o.nodes| {
            assert r.nodes[i] == o.nodes[i];
          } else {
            assert r.nodes[i] == o.nodes[i] && r.nodes[j] == o.nodes[j];
          }
        }
      }
    }
  }

  /** `orbiting` now orbits `orbited`: its parent link is replaced and it joins `orbited`'s children. */
  function InsertOrbit<T(==,!new)>(o: Orbits<T>, orbiting: T, orbited: T): Orbits<T>
  {
    var o1 := AddNode(AddNode(o, orbiting), orbited);
    Orbits(o1.nodes, o1.parent[orbiting := orbited], o1.children[orbited := ChildrenOf(o1, orbited) + {orbiting}])
  }

  /** The children recorded for `v`; none for a value that has no entry. */
  function ChildrenOf<T(==,!new)>(o: Orbits<T>, v: T): set<T>
  {
    if v in o.children then o.children[v] else {}
  }

  /** Looking a node up twice creates it at most once. */
  lemma AddNodeIdempotent<T(!new)>(o: Orbits<T>, v: T)
    ensures AddNode(AddNode(o, v), v) == AddNode(o, v)
  {
  }

  /**
   * After an insertion both objects are nodes, the orbiting one's parent is
   * the orbited one whatever it was before, it is among the orbited one's
   * children, no other parent link or children set changes, the old nodes
   * keep their order and the only new nodes are the two objects.
   */
  lemma InsertOrbitMeaning<T(!new)>(o: Orbits<T>, a: T, b: T)
    requires Consistent(o)
    ensures var r := InsertOrbit(o, a, b);
      && a in r.nodes && b in r.nodes
      && a in r.parent && r.parent[a] == b
      && b in r.children && a in r.children[b]
      && o.nodes <= r.nodes && (forall x :: x in r.nodes ==> x in o.nodes || x == a || x == b)
      && (forall x :: x != a ==> (x in r.parent <==> x in o.parent))
      && (forall x :: x != a && x in o.parent ==> r.parent[x] == o.parent[x])
      && (forall x :: x != b && x in o.children ==> r.children[x] == o.children[x])
      && (b in o.children ==> r.children[b] == o.children[b] + {a})
  {
    AddNodeConsistent(o, a);
    AddNodeConsistent(AddNode(o, a), b);
  }

  /** Insertion keeps the nodes distinct and every link and child pointing at a node. */
  lemma InsertOrbitConsistent<T(!new)>(o: Orbits<T>, a: T, b: T)
    requires Consistent(o)
    ensures Consistent(InsertOrbit(o, a, b))
  {
    var o1 := AddNode(AddNode(o, a), b);
    assert Consistent(o1) && a in o1.nodes && b in o1.nodes by {
      AddNodeConsistent(o, a);
      AddNodeConsistent(AddNode(o, a), b);
    }
    RelinkConsistent(o1, a, b);
  }

  /** Linking two nodes keeps the map consistent. */
  lemma RelinkConsistent<T(!new)>(o: Orbits<T>, a: T, b: T)
    requires Consistent(o) && a in o.nodes && b in o.nodes
    ensures Consistent(Orbits(o.nodes, o.parent[a := b], o.children[b := ChildrenOf(o, b) + {a}]))
  {
    var r := Orbits(o.nodes, o.parent[a := b], o.children[b := ChildrenOf(o, b) + {a}]);
    assert forall v :: v in r.children <==> v in r.nodes;
    assert forall v :: v in r.parent ==> v in r.nodes && r.parent[v] in r.nodes;
    assert forall v, c :: v in r.children && c in r.children[v] ==> c in r.nodes;
  }

  // ---------------------------------------------------------------------------
  // Walking up the parent links
  // ---------------------------------------------------------------------------

  /** The node `k` parent steps above `v`, if the links go that far. */
  function Walk<T(==,!new)>(parent: map<T, T>, v: T, k: nat): Option<T>
  {
    if k == 0 then Some(v)
    else
      match Walk(parent, v, k - 1)
      case None => None
      case Some(x) => if x in parent then Some(parent[x]) else None
  }

  /** Walking from `v`'s parent is walking from `v` one step later. */
  lemma {:induction false} WalkShift<T(!new)>(parent: map<T, T>, v: T, k: nat)
    requires v in parent
    ensures Walk(parent, v, k + 1) == Walk(parent, parent[v], k)
  {
    if k > 0 {
      WalkShift(parent, v, k - 1);
    }
  }

  /** The walk from a node stays among the nodes. */
  lemma {:induction false} WalkStaysInNodes<T(!new)>(o: Orbits<T>, v: T, k: nat)
    requires Consistent(o) && v in o.nodes && Walk(o.parent, v, k).Some?
    ensures Walk(o.parent, v, k).value in o.nodes
  {
    if k > 0 {
      WalkStaysInNodes(o, v, k - 1);
    }
  }

  /** The walk from `v` has a next step at each of its first `n + 1` nodes. */
  ghost predicate LinkedFor<T(!new)>(parent: map<T, T>, v: T, n: nat)
  {
    forall k :: 0 <= k <= n ==> Walk(parent, v, k).Some? && Walk(parent, v, k).value in parent
  }

  /** Distinct values of a set make up as many elements as the sequence has. */
  lemma {:induction false} DistinctCard<T(!new)>(s: seq<T>)
    requires Distinct(s)
    ensures |set x | x in s| == |s|
  {
    if s != [] {
      var last := s[|s| - 1];
      var init := s[..|s| - 1];
      DistinctCard(init);
      assert (set x | x in s) == (set x | x in init) + {last};
      assert last !in (set x | x in init);
    }
  }

  /** More than `|nodes|` walk positions inside the nodes repeat some node. */
  lemma Pigeonhole<T(!new)>(o: Orbits<T>, v: T)
    requires Consistent(o) && v in o.nodes && LinkedFor(o.parent, v, |o.nodes|)
    ensures exists a, b :: 0 <= a < b <= |o.nodes| && Walk(o.parent, v, a) == Walk(o.parent, v, b)
  {
    var n := |o.nodes|;
    var visited := seq(n + 1, k requires 0 <= k <= n => Walk(o.parent, v, k).value);
    forall k | 0 <= k <= n ensures visited[k] in o.nodes {
      WalkStaysInNodes(o, v, k);
    }
    if Distinct(visited) {
      DistinctCard(visited);
      DistinctCard(o.nodes);
      assert (set x | x in visited) <= (set x | x in o.nodes);
      SubsetCard(set x | x in visited, set x | x in o.nodes);
      assert false;
    }
    var a, b :| 0 <= a < b < |visited| && visited[a] == visited[b];
    assert Walk(o.parent, v, a) == Walk(o.parent, v, b);
  }

  lemma {:induction false} SubsetCard<T>(a: set<T>, b: set<T>)
    requires a <= b
    ensures |a| <= |b|
    decreases |b|
  {
    if b != {} {
      var x :| x in b;
      SubsetCard(a - {x}, b - {x});
    }
  }

  /**
   * A walk linked at `|nodes| + 1` positions goes on for ever, through no
   * node other than those first positions.
   */
  lemma WalkRecurs<T(!new)>(o: Orbits<T>, v: T, k: nat)
    requires Consistent(o) && v in o.nodes && LinkedFor(o.parent, v, |o.nodes|)
    ensures exists j :: 0 <= j <= |o.nodes| && Walk(o.parent, v, k) == Walk(o.parent, v, j)
  {
    Pigeonhole(o, v);
    var a, b :| 0 <= a < b <= |o.nodes| && Walk(o.parent, v, a) == Walk(o.parent, v, b);
    WalkFolds(o.parent, v, a, b, k);
  }

  /** Once the walk comes back to a node it has seen, every later position repeats one up to `b`. */
  lemma {:induction false} WalkFolds<T(!new)>(parent: map<T, T>, v: T, a: nat, b: nat, k: nat)
    requires a < b && Walk(parent, v, a) == Walk(parent, v, b)
    ensures exists j :: 0 <= j <= b && Walk(parent, v, k) == Walk(parent, v, j)
    decreases k
  {
    if k > b {
      WalkFolds(parent, v, a, b, k - (b - a));
      WalkPeriod(parent, v, a, b, k - b);
    }
  }

  /** Equal walk positions stay equal when both move on the same number of steps. */
  lemma {:induction false} WalkPeriod<T(!new)>(parent: map<T, T>, v: T, a: nat, b: nat, d: nat)
    requires Walk(parent, v, a) == Walk(parent, v, b)
    ensures Walk(parent, v, a + d) == Walk(parent, v, b + d)
  {
    if d > 0 {
      WalkPeriod(parent, v, a, b, d - 1);
    }
  }

  // ---------------------------------------------------------------------------
  // Counting orbits
  // ---------------------------------------------------------------------------

  /** How a walk towards a root ends: there after some steps, at a node without parent, or not within its budget. */
  datatype Climb = Reached(steps: nat) | Stray | Unending

  /**
   * At most `fuel` parent steps from `v` towards `root`: the number of steps
   * if root is met, Stray if a node without parent comes first.
   */
  function ClimbFrom<T(==,!new)>(parent: map<T, T>, v: T, root: T, fuel: nat): Climb
    decreases fuel
  {
    if v == root then Reached(0)
    else if v !in parent then Stray
    else if fuel == 0 then Unending
    else
      match ClimbFrom(parent, parent[v], root, fuel - 1)
      case Reached(n) => Reached(n + 1)
      case other => other
  }

  /** The walk from `v` meets a node without parent at position `n`, and root at none of its positions up to there. */
  ghost predicate StopsBefore<T(!new)>(parent: map<T, T>, v: T, root: T, n: nat)
  {
    && Walk(parent, v, n).Some? && Walk(parent, v, n).value !in parent
    && forall k :: 0 <= k <= n ==> Walk(parent, v, k).Some? && Walk(parent, v, k).value != root
  }

  /**
   * A climb reaches root after `n` steps exactly when the walk's position `n`
   * is root and no earlier position is; it is Stray exactly when the walk
   * stops at a node without parent before meeting root.
   */
  lemma {:induction false} ClimbMeaning<T(!new)>(parent: map<T, T>, v: T, root: T, fuel: nat)
    ensures ClimbFrom(parent, v, root, fuel).Reached? ==>
      var n := ClimbFrom(parent, v, root, fuel).steps;
      n <= fuel && Walk(parent, v, n) == Some(root) &&
      forall k :: 0 <= k < n ==> Walk(parent, v, k).Some? && Walk(parent, v, k).value != root
    ensures ClimbFrom(parent, v, root, fuel).Stray? ==>
      exists n :: 0 <= n <= fuel && StopsBefore(parent, v, root, n)
    decreases fuel
  {
    if v != root && v in parent && fuel > 0 {
      var p := parent[v];
      ClimbMeaning(parent, p, root, fuel - 1);
      var c := ClimbFrom(parent, p, root, fuel - 1);
      forall k | 0 <= k ensures Walk(parent, v, k + 1) == Walk(parent, p, k) {
        WalkShift(parent, v, k);
      }
      if c.Reached? {
        forall k | 0 <= k < c.steps + 1 ensures Walk(parent, v, k).Some? && Walk(parent, v, k).value != root {
          if k > 0 {
            assert Walk(parent, v, k) == Walk(parent, p, k - 1);
          }
        }
      } else if c.Stray? {
        var n :| 0 <= n <= fuel - 1 && StopsBefore(parent, p, root, n);
        assert Walk(parent, v, n + 1) == Walk(parent, p, n);
        forall k | 0 <= k <= n + 1 ensures Walk(parent, v, k).Some? && Walk(parent, v, k).value != root {
          if k > 0 {
            assert Walk(parent, v, k) == Walk(parent, p, k - 1);
          }
        }
        assert StopsBefore(parent, v, root, n + 1);
      }
    } else if v != root && v !in parent {
      assert StopsBefore(parent, v, root, 0);
    }
  }

  /** A climb that ended within its budget ends the same way with any larger budget. */
  lemma {:induction false} ClimbMoreFuel<T(!new)>(parent: map<T, T>, v: T, root: T, fuel: nat, more: nat)
    requires fuel <= more && !ClimbFrom(parent, v, root, fuel).Unending?
    ensures ClimbFrom(parent, v, root, more) == ClimbFrom(parent, v, root, fuel)
    decreases fuel
  {
    if v != root && v in parent {
      ClimbMoreFuel(parent, parent[v], root, fuel - 1, more - 1);
    }
  }

  /** A climb that runs out of budget passes only nodes other than root that have a parent. */
  lemma {:induction false} UnendingClimbLinked<T(!new)>(parent: map<T, T>, v: T, root: T, fuel: nat)
    requires ClimbFrom(parent, v, root, fuel).Unending?
    ensures forall k :: 0 <= k <= fuel ==>
      Walk(parent, v, k).Some? && Walk(parent, v, k).value in parent && Walk(parent, v, k).value != root
    decreases fuel
  {
    if fuel > 0 {
      var p := parent[v];
      UnendingClimbLinked(parent, p, root, fuel - 1);
      forall k | 0 < k <= fuel
        ensures Walk(parent, v, k).Some? && Walk(parent, v, k).value in parent && Walk(parent, v, k).value != root
      {
        WalkShift(parent, v, k - 1);
      }
    }
  }

  /** A walk whose first positions all have parents and avoid root runs the climb out of any budget. */
  lemma {:induction false} LinkedClimbUnending<T(!new)>(parent: map<T, T>, v: T, root: T, fuel: nat)
    requires forall k :: 0 <= k <= fuel ==>
      Walk(parent, v, k).Some? && Walk(parent, v, k).value in parent && Walk(parent, v, k).value != root
    ensures ClimbFrom(parent, v, root, fuel) == Unending
    decreases fuel
  {
    assert Walk(parent, v, 0) == Some(v);
    if fuel > 0 {
      var p := parent[v];
      forall k | 0 <= k <= fuel - 1
        ensures Walk(parent, p, k).Some? && Walk(parent, p, k).value in parent && Walk(parent, p, k).value != root
      {
        WalkShift(parent, v, k);
      }
      LinkedClimbUnending(parent, p, root, fuel - 1);
    }
  }

  /**
   * With one step per node as budget, a climb from a node runs out exactly
   * when the unbounded climb never ends: it is then Unending for every budget.
   */
  lemma UnendingClimbIsForever<T(!new)>(o: Orbits<T>, v: T, root: T, fuel: nat)
    requires Consistent(o) && v in o.nodes
    requires ClimbFrom(o.parent, v, root, |o.nodes|) == Unending
    ensures ClimbFrom(o.parent, v, root, fuel) == Unending
  {
    var n := |o.nodes|;
    UnendingClimbLinked(o.parent, v, root, n);
    forall k | 0 <= k <= fuel
      ensures Walk(o.parent, v, k).Some? && Walk(o.parent, v, k).value in o.parent && Walk(o.parent, v, k).value != root
    {
      WalkRecurs(o, v, k);
      var j :| 0 <= j <= n && Walk(o.parent, v, k) == Walk(o.parent, v, j);
    }
    LinkedClimbUnending(o.parent, v, root, fuel);
  }

  /** Why a query fails: the node is not in the map, a walk never ends, or the two paths never part. */
  datatype OrbitError = MissingNode | Endless | NoFork

  /**
   * The orbits counted from the first `|ns|` nodes: each contributes the
   * steps of its climb to root, nothing if it strays, and a climb that never
   * ends makes the whole count fail.
   */
  function OrbitTotal<T(==,!new)>(parent: map<T, T>, ns: seq<T>, root: T, fuel: nat): Result<nat, OrbitError>
    decreases |ns|
  {
    if ns == [] then Ok(0)
    else
      var before :- OrbitTotal(parent, ns[..|ns| - 1], root, fuel);
      match ClimbFrom(parent, ns[|ns| - 1], root, fuel)
      case Reached(n) => Ok(before + n)
      case Stray => Ok(before)
      case Unending => Err(Endless)
  }

  /** The total number of direct and indirect orbits around `root`. */
  function CountOrbits<T(==,!new)>(o: Orbits<T>, root: T): Result<nat, OrbitError>
  {
    OrbitTotal(o.parent, o.nodes, root, |o.nodes|)
  }

  /** The steps a climb adds to the count: its length when it reached root, nothing otherwise. */
  function ClimbSteps(c: Climb): nat
  {
    if c.Reached? then c.steps else 0
  }

  /** The steps to root of every node of `ns` that reaches it, summed from the first node on. */
  ghost function ReachedSteps<T(!new)>(parent: map<T, T>, ns: seq<T>, root: T, fuel: nat): nat
    decreases |ns|
  {
    if ns == [] then 0 else ClimbSteps(ClimbFrom(parent, ns[0], root, fuel)) + ReachedSteps(parent, ns[1..], root, fuel)
  }

  /** Summing from the front agrees with adding the last node's steps to the sum of the others. */
  lemma {:induction false} ReachedStepsLast<T(!new)>(parent: map<T, T>, ns: seq<T>, root: T, fuel: nat)
    requires ns != []
    ensures ReachedSteps(parent, ns, root, fuel) ==
      ReachedSteps(parent, ns[..|ns| - 1], root, fuel) + ClimbSteps(ClimbFrom(parent, ns[|ns| - 1], root, fuel))
    decreases |ns|
  {
    if |ns| > 1 {
      ReachedStepsLast(parent, ns[1..], root, fuel);
      assert ns[1..][..|ns| - 2] == ns[..|ns| - 1][1..];
    }
  }

  /**
   * The count fails exactly when some node's climb never ends; otherwise it
   * is the sum of the steps to root of the nodes that reach it, so at least
   * each node's own number of steps.
   */
  lemma {:induction false} OrbitTotalMeaning<T(!new)>(parent: map<T, T>, ns: seq<T>, root: T, fuel: nat)
    ensures OrbitTotal(parent, ns, root, fuel).Err? <==>
      exists i :: 0 <= i < |ns| && ClimbFrom(parent, ns[i], root, fuel).Unending?
    ensures OrbitTotal(parent, ns, root, fuel).Ok? ==>
      OrbitTotal(parent, ns, root, fuel).value == ReachedSteps(parent, ns, root, fuel)
    ensures OrbitTotal(parent, ns, root, fuel).Ok? ==>
      forall i :: 0 <= i < |ns| && ClimbFrom(parent, ns[i], root, fuel).Reached? ==>
        ClimbFrom(parent, ns[i], root, fuel).steps <= OrbitTotal(parent, ns, root, fuel).value
    decreases |ns|
  {
    if ns != [] {
      var init := ns[..|ns| - 1];
      OrbitTotalMeaning(parent, init, root, fuel);
      ReachedStepsLast(parent, ns, root, fuel);
      forall i | 0 <= i < |init| ensures init[i] == ns[i] {
      }
    }
  }

  /** A count that already fails on a prefix of the nodes fails on all of them. */
  lemma {:induction false} OrbitTotalPrefixErr<T(!new)>(parent: map<T, T>, ns: seq<T>, k: nat, root: T, fuel: nat)
    requires k <= |ns| && OrbitTotal(parent, ns[..k], root, fuel).Err?
    ensures OrbitTotal(parent, ns, root, fuel) == Err(Endless)
    decreases |ns|
  {
    if k == |ns| {
      assert ns[..k] == ns;
      OrbitTotalErrIsEndless(parent, ns, root, fuel);
    } else {
      var init := ns[..|ns| - 1];
      assert init[..k] == ns[..k];
      OrbitTotalPrefixErr(parent, init, k, root, fuel);
    }
  }

  lemma {:induction false} OrbitTotalErrIsEndless<T(!new)>(parent: map<T, T>, ns: seq<T>, root: T, fuel: nat)
    ensures OrbitTotal(parent, ns, root, fuel).Err? ==> OrbitTotal(parent, ns, root, fuel) == Err(Endless)
    decreases |ns|
  {
    if ns != [] {
      OrbitTotalErrIsEndless(parent, ns[..|ns| - 1], root, fuel);
    }
  }

  // ---------------------------------------------------------------------------
  // Paths and orbital transfers
  // ---------------------------------------------------------------------------

  /** A chain of nodes, each the parent of the one before, ending at a node without parent. */
  ghost predicate IsPath<T(!new)>(parent: map<T, T>, p: seq<T>)
  {
    && p != []
    && (forall k :: 0 <= k < |p| - 1 ==> p[k] in parent && parent[p[k]] == p[k + 1])
    && p[|p| - 1] !in parent
  }

  /** The nodes from `v` up to the node without parent, if that takes at most `fuel` steps. */
  function PathFrom<T(==)>(parent: map<T, T>, v: T, fuel: nat): Option<seq<T>>
    decreases fuel
  {
    if v !in parent then Some([v])
    else if fuel == 0 then None
    else
      match PathFrom(parent, parent[v], fuel - 1)
      case None => None
      case Some(p) => Some([v] + p)
  }

  /** The path found from `v` starts at `v`, follows the parent links and ends at a node without parent. */
  lemma {:induction false} PathFromSound<T(!new)>(parent: map<T, T>, v: T, fuel: nat)
    requires PathFrom(parent, v, fuel).Some?
    ensures var p := PathFrom(parent, v, fuel).value;
      IsPath(parent, p) && p[0] == v && |p| <= fuel + 1
    decreases fuel
  {
    if v in parent {
      PathFromSound(parent, parent[v], fuel - 1);
    }
  }

  /** Any such chain from `v` short enough for the budget is the path found. */
  lemma {:induction false} PathFromComplete<T(!new)>(parent: map<T, T>, v: T, fuel: nat, p: seq<T>)
    requires IsPath(parent, p) && p[0] == v && |p| <= fuel + 1
    ensures PathFrom(parent, v, fuel) == Some(p)
    decreases fuel
  {
    if v in parent {
      assert |p| >= 2 && p[1] == parent[v];
      var q := p[1..];
      assert IsPath(parent, q) by {
        forall k | 0 <= k < |q| - 1 ensures q[k] in parent && parent[q[k]] == q[k + 1] {
          assert q[k] == p[k + 1];
        }
      }
      PathFromComplete(parent, parent[v], fuel - 1, q);
      assert p == [v] + q;
    } else {
      assert |p| == 1 && p == [v];
    }
  }

  /** A path that runs out of budget passes only nodes with a parent. */
  lemma {:induction false} UnendingPathLinked<T(!new)>(parent: map<T, T>, v: T, fuel: nat)
    requires PathFrom(parent, v, fuel).None?
    ensures LinkedFor(parent, v, fuel)
    decreases fuel
  {
    if fuel > 0 {
      var p := parent[v];
      UnendingPathLinked(parent, p, fuel - 1);
      forall k | 0 <= k <= fuel ensures Walk(parent, v, k).Some? && Walk(parent, v, k).value in parent {
        if k > 0 {
          WalkShift(parent, v, k - 1);
        }
      }
    }
  }

  /** A walk linked at its first positions runs a path out of any budget up to there. */
  lemma {:induction false} LinkedPathUnending<T(!new)>(parent: map<T, T>, v: T, fuel: nat)
    requires LinkedFor(parent, v, fuel)
    ensures PathFrom(parent, v, fuel) == None
    decreases fuel
  {
    assert Walk(parent, v, 0) == Some(v);
    if fuel > 0 {
      var p := parent[v];
      forall k | 0 <= k <= fuel - 1 ensures Walk(parent, p, k).Some? && Walk(parent, p, k).value in parent {
        WalkShift(parent, v, k);
      }
      LinkedPathUnending(parent, p, fuel - 1);
    }
  }

  /**
   * With one step per node as budget, the path from a node runs out exactly
   * when the unbounded walk never reaches a node without parent.
   */
  lemma UnendingPathIsForever<T(!new)>(o: Orbits<T>, v: T, fuel: nat)
    requires Consistent(o) && v in o.nodes
    requires PathFrom(o.parent, v, |o.nodes|) == None
    ensures PathFrom(o.parent, v, fuel) == None
  {
    var n := |o.nodes|;
    UnendingPathLinked(o.parent, v, n);
    forall k | 0 <= k <= fuel ensures Walk(o.parent, v, k).Some? && Walk(o.parent, v, k).value in o.parent {
      WalkRecurs(o, v, k);
      var j :| 0 <= j <= n && Walk(o.parent, v, k) == Walk(o.parent, v, j);
    }
    LinkedPathUnending(o.parent, v, fuel);
  }

  /** The path from `from` out to the centre; a missing node and an endless walk fail. */
  function PathOf<T(==)>(o: Orbits<T>, from: T): Result<seq<T>, OrbitError>
  {
    if from !in o.nodes then Err(MissingNode)
    else
      match PathFrom(o.parent, from, |o.nodes|)
      case None => Err(Endless)
      case Some(p) => Ok(p)
  }

  /**
   * Comparing the two paths from their far ends, starting at position `i`
   * from the end: the first position where they differ, or None when one
   * path runs out first.
   */
  function ForkFrom<T(==)>(p1: seq<T>, p2: seq<T>, i: nat): (r: Option<nat>)
    requires 1 <= i
    ensures r.Some? ==>
      && i <= r.value <= |p1| && r.value <= |p2|
      && p1[|p1| - r.value] != p2[|p2| - r.value]
      && forall k :: i <= k < r.value ==> AgreeAt(p1, p2, k)
    ensures r.None? ==> forall k :: i <= k <= |p1| && k <= |p2| ==> AgreeAt(p1, p2, k)
    decreases |p1| - i
  {
    if i > |p1| || i > |p2| then None
    else if p1[|p1| - i] != p2[|p2| - i] then Some(i)
    else ForkFrom(p1, p2, i + 1)
  }

  /** Both paths are at least `k` long and hold the same node `k` positions from their ends. */
  predicate AgreeAt<T(==)>(p1: seq<T>, p2: seq<T>, k: nat)
  {
    1 <= k <= |p1| && k <= |p2| && p1[|p1| - k] == p2[|p2| - k]
  }

  /**
   * The number of orbital transfers between `from` and `to`: both path
   * lengths less twice the first position, counted from the far end, where
   * the paths part. A path that is the tail of the other fails.
   */
  function JumpsOf<T(==)>(o: Orbits<T>, from: T, to: T): (r: Result<nat, OrbitError>)
  {
    var p1 :- PathOf(o, from);
    var p2 :- PathOf(o, to);
    match ForkFrom(p1, p2, 1)
    case None => Err(NoFork)
    case Some(i) => Ok(|p1| + |p2| - 2 * i)
  }

  /** Two paths that share a node share everything from there on. */
  lemma {:induction false} PathsMerge<T(!new)>(parent: map<T, T>, p: seq<T>, q: seq<T>, j: nat, j': nat)
    requires IsPath(parent, p) && IsPath(parent, q) && j < |p| && j' < |q| && p[j] == q[j']
    ensures |p| - j == |q| - j'
    ensures forall t :: j <= t < |p| ==> p[t] == q[t - j + j']
    decreases |p| - j
  {
    if p[j] in parent {
      assert j < |p| - 1 && j' < |q| - 1;
      assert p[j + 1] == q[j' + 1];
      PathsMerge(parent, p, q, j + 1, j' + 1);
    }
  }

  /**
   * The transfer count is the number of steps from `from`'s parent up to the
   * nearest object both paths pass through, plus the same from `to`'s
   * parent: no node of either path below that object is on the other path,
   * and when the paths part at once there is no shared object at all.
   */
  lemma JumpsCountsTransfers<T(!new)>(o: Orbits<T>, from: T, to: T)
    requires JumpsOf(o, from, to).Ok?
    ensures var p1 := PathOf(o, from).value;
      var p2 := PathOf(o, to).value;
      var i := ForkFrom(p1, p2, 1).value;
      && JumpsOf(o, from, to).value == (|p1| - i) + (|p2| - i)
      && (forall j :: 0 <= j <= |p1| - i ==> p1[j] !in p2)
      && (forall j :: 0 <= j <= |p2| - i ==> p2[j] !in p1)
      && (i >= 2 ==> p1[|p1| - i + 1] == p2[|p2| - i + 1])
  {
    var p1 := PathOf(o, from).value;
    var p2 := PathOf(o, to).value;
    PathFromSound(o.parent, from, |o.nodes|);
    PathFromSound(o.parent, to, |o.nodes|);
    var i := ForkFrom(p1, p2, 1).value;
    forall j | 0 <= j <= |p1| - i ensures p1[j] !in p2 {
      if p1[j] in p2 {
        var j' :| 0 <= j' < |p2| && p2[j'] == p1[j];
        PathsMerge(o.parent, p1, p2, j, j');
      }
    }
    forall j | 0 <= j <= |p2| - i ensures p2[j] !in p1 {
      if p2[j] in p1 {
        var j' :| 0 <= j' < |p1| && p1[j'] == p2[j];
        PathsMerge(o.parent, p2, p1, j, j');
      }
    }
    if i >= 2 {
      assert AgreeAt(p1, p2, i - 1);
    }
  }

  // ---------------------------------------------------------------------------
  // The orbit counts of the unit tests
  // ---------------------------------------------------------------------------

  /** The nodes after looking `v` up: unchanged if present, `v` appended otherwise. */
  function Added<T(==)>(ns: seq<T>, v: T): seq<T>
  {
    if v in ns then ns else ns + [v]
  }

  /** What an insertion does to the node list and the parent links. */
  lemma InsertOrbitLinks<T(!new)>(o: Orbits<T>, a: T, b: T)
    ensures InsertOrbit(o, a, b).nodes == Added(Added(o.nodes, a), b)
    ensures InsertOrbit(o, a, b).parent == o.parent[a := b]
  {
  }

  /** One object orbiting the centre makes one orbit. */
  lemma CountSingleOrbit<T(!new)>(a: T, com: T)
    requires a != com
    ensures CountOrbits(InsertOrbit(EmptyOrbits(), a, com), com) == Ok(1)
  {
    var o1 := InsertOrbit(EmptyOrbits<T>(), a, com);
    InsertFirst(a, com);
    SingleOrbitTotal(o1.parent, a, com);
  }

  lemma SingleOrbitTotal<T(!new)>(parent: map<T, T>, a: T, com: T)
    requires a != com && parent == map[a := com]
    ensures OrbitTotal(parent, [a, com], com, 2) == Ok(1)
  {
    assert ClimbFrom(parent, a, com, 2) == Reached(1);
    assert OrbitTotal(parent, [a], com, 2) == Ok(1);
    assert [a, com][..1] == [a];
  }

  /** Three objects orbiting the centre directly make three orbits. */
  lemma CountOneLevel<T(!new)>(a: T, b: T, c: T, com: T)
    requires a != b && a != c && b != c && a != com && b != com && c != com
    ensures CountOrbits(InsertOrbit(InsertOrbit(InsertOrbit(EmptyOrbits(), a, com), b, com), c, com), com) == Ok(3)
  {
    var o3 := InsertThree(a, com, b, com, c, com);
    DirectOrbitsCount(o3, a, b, c, com);
  }

  lemma DirectOrbitsCount<T(!new)>(o: Orbits<T>, a: T, b: T, c: T, com: T)
    requires a != b && a != c && b != c && a != com && b != com && c != com
    requires o.nodes == [a, com, b, c] && o.parent == map[a := com, b := com, c := com]
    ensures CountOrbits(o, com) == Ok(3)
  {
    DirectOrbitsTotal(o.parent, a, b, c, com);
  }

  lemma DirectOrbitsTotal<T(!new)>(parent: map<T, T>, a: T, b: T, c: T, com: T)
    requires a != b && a != c && b != c && a != com && b != com && c != com
    requires parent == map[a := com, b := com, c := com]
    ensures OrbitTotal(parent, [a, com, b, c], com, 4) == Ok(3)
  {
    var ns := [a, com, b, c];
    assert ClimbFrom(parent, a, com, 4) == Reached(1);
    assert ClimbFrom(parent, b, com, 4) == Reached(1);
    assert ClimbFrom(parent, c, com, 4) == Reached(1);
    assert ns[..1] == [a] && ns[..2] == [a, com] && ns[..3] == [a, com, b];
    assert [a, com][..1] == [a] && [a, com, b][..2] == [a, com];
    assert OrbitTotal(parent, [a], com, 4) == Ok(1);
    assert OrbitTotal(parent, [a, com], com, 4) == Ok(1);
    assert OrbitTotal(parent, [a, com, b], com, 4) == Ok(2);
  }

  /** A chain of three objects below the centre makes 1 + 2 + 3 orbits. */
  lemma CountNested<T(!new)>(a: T, b: T, c: T, com: T)
    requires a != b && a != c && b != c && a != com && b != com && c != com
    ensures CountOrbits(InsertOrbit(InsertOrbit(InsertOrbit(EmptyOrbits(), a, com), b, a), c, b), com) == Ok(6)
  {
    var o3 := InsertThree(a, com, b, a, c, b);
    ChainCount(o3, a, b, c, com);
  }

  lemma ChainCount<T(!new)>(o: Orbits<T>, a: T, b: T, c: T, com: T)
    requires a != b && a != c && b != c && a != com && b != com && c != com
    requires o.nodes == [a, com, b, c] && o.parent == map[a := com, b := a, c := b]
    ensures CountOrbits(o, com) == Ok(6)
  {
    ChainTotal(o.parent, a, b, c, com);
  }

  lemma ChainTotal<T(!new)>(parent: map<T, T>, a: T, b: T, c: T, com: T)
    requires a != b && a != c && b != c && a != com && b != com && c != com
    requires parent == map[a := com, b := a, c := b]
    ensures OrbitTotal(parent, [a, com, b, c], com, 4) == Ok(6)
  {
    var ns := [a, com, b, c];
    assert ClimbFrom(parent, com, com, 0) == Reached(0);
    assert ClimbFrom(parent, a, com, 1) == Reached(1);
    assert ClimbFrom(parent, b, com, 2) == Reached(2);
    assert ClimbFrom(parent, c, com, 3) == Reached(3);
    ClimbMoreFuel(parent, a, com, 1, 4);
    ClimbMoreFuel(parent, b, com, 2, 4);
    ClimbMoreFuel(parent, c, com, 3, 4);
    assert ns[..1] == [a] && ns[..2] == [a, com] && ns[..3] == [a, com, b];
    assert [a, com][..1] == [a] && [a, com, b][..2] == [a, com];
    assert OrbitTotal(parent, [a], com, 4) == Ok(1);
    assert OrbitTotal(parent, [a, com], com, 4) == Ok(1);
    assert OrbitTotal(parent, [a, com, b], com, 4) == Ok(3);
  }

  /** An insertion of a new object below one already there appends it and links it. */
  lemma InsertBelow<T(!new)>(o: Orbits<T>, a: T, b: T)
    requires a !in o.nodes && b in o.nodes
    ensures InsertOrbit(o, a, b).nodes == o.nodes + [a] && InsertOrbit(o, a, b).parent == o.parent[a := b]
  {
    InsertOrbitLinks(o, a, b);
  }

  /** The first insertion into the empty map creates both objects and links them. */
  lemma InsertFirst<T(!new)>(a: T, b: T)
    requires a != b
    ensures InsertOrbit(EmptyOrbits(), a, b).nodes == [a, b]
    ensures InsertOrbit(EmptyOrbits(), a, b).parent == map[a := b]
  {
    InsertOrbitLinks(EmptyOrbits(), a, b);
  }

  /**
   * Three insertions into the empty map, the second and third adding one new
   * object each below one already there.
   */
  lemma InsertThree<T(!new)>(a: T, a': T, b: T, b': T, c: T, c': T) returns (o3: Orbits<T>)
    requires a != a' && b !in [a, a'] && b' in [a, a'] && c !in [a, a', b] && c' in [a, a', b]
    ensures o3 == InsertOrbit(InsertOrbit(InsertOrbit(EmptyOrbits(), a, a'), b, b'), c, c')
    ensures o3.nodes == [a, a', b, c] && o3.parent == map[a := a', b := b', c := c']
  {
    var o0 := EmptyOrbits<T>();
    var o1 := InsertOrbit(o0, a, a');
    InsertFirst(a, a');
    var o2 := InsertOrbit(o1, b, b');
    InsertBelow(o1, b, b');
    assert o2.nodes == [a, a', b];
    o3 := InsertOrbit(o2, c, c');
    InsertBelow(o2, c, c');
    assert o3.nodes == [a, a', b, c];
  }

  // ---------------------------------------------------------------------------
  // The tree, updated in place
  // ---------------------------------------------------------------------------

  /** Shifts a climb that ended at root by `steps` more steps. */
  function Later(c: Climb, steps: nat): Climb
  {
    if c.Reached? then Reached(c.steps + steps) else c
  }

  /** Extends a path found from a later node with the nodes walked before it. */
  function Behind<T>(walked: seq<T>, rest: Option<seq<T>>): Option<seq<T>>
  {
    match rest
    case None => None
    case Some(p) => Some(walked + p)
  }

  lemma BehindJoin<T>(a: seq<T>, b: seq<T>, rest: Option<seq<T>>)
    ensures Behind(a, Behind(b, rest)) == Behind(a + b, rest)
  {
    if rest.Some? {
      assert a + (b + rest.value) == (a + b) + rest.value;
    }
  }

  class Tree<T(==, !new)> {
    var nodes: seq<T>
    var parent: map<T, T>
    var children: map<T, set<T>>

    ghost function State(): Orbits<T>
      reads this
    {
      Orbits(nodes, parent, children)
    }

    ghost predicate Valid()
      reads this
    {
      Consistent(State())
    }

    constructor()
      ensures Valid() && State() == EmptyOrbits()
    {
      nodes := [];
      parent := map[];
      children := map[];
    }

    /** The position of the node with value `value`, found by a scan over the nodes. */
    method Find(value: T) returns (r: Option<nat>)
      ensures r.None? <==> value !in nodes
      ensures r.Some? ==> r.value < |nodes| && nodes[r.value] == value
    {
      var k := 0;
      while k < |nodes|
        invariant k <= |nodes|
        invariant forall j :: 0 <= j < k ==> nodes[j] != value
      {
        if nodes[k] == value {
          return Some(k);
        }
        k := k + 1;
      }
      return None;
    }

    /** The position of the node with value `value`, created at the end if it was missing. */
    method GetOrCreateNode(value: T) returns (idx: nat)
      requires Valid()
      modifies this
      ensures Valid() && State() == AddNode(old(State()), value)
      ensures idx < |nodes| && nodes[idx] == value
    {
      var found := Find(value);
      if found.Some? {
        idx := found.value;
      } else {
        nodes := nodes + [value];
        children := children[value := {}];
        idx := |nodes| - 1;
      }
    }

    /** Records that `orbiting` orbits `orbited`, creating either node as needed. */
    method Insert(orbiting: T, orbited: T)
      requires Valid()
      modifies this
      ensures Valid() && State() == InsertOrbit(old(State()), orbiting, orbited)
    {
      ghost var o := State();
      var _ := GetOrCreateNode(orbiting);
      var _ := GetOrCreateNode(orbited);
      ghost var o2 := State();
      assert o2 == AddNode(AddNode(o, orbiting), orbited);
      assert orbited in children && ChildrenOf(o2, orbited) == children[orbited];
      parent := parent[orbiting := orbited];
      children := children[orbited := children[orbited] + {orbiting}];
      assert State() == InsertOrbit(o, orbiting, orbited);
      assert Valid() by {
        InsertOrbitConsistent(o, orbiting, orbited);
      }
    }

    /** Walks from `v` towards `root`, one step per node at most. */
    method ClimbToRoot(v: T, root: T) returns (c: Climb)
      ensures c == ClimbFrom(parent, v, root, |nodes|)
    {
      var current := v;
      var steps := 0;
      while current != root && current in parent && steps < |nodes|
        invariant steps <= |nodes|
        invariant ClimbFrom(parent, v, root, |nodes|) == Later(ClimbFrom(parent, current, root, |nodes| - steps), steps)
        decreases |nodes| - steps
      {
        current := parent[current];
        steps := steps + 1;
      }
      if current == root {
        c := Reached(steps);
      } else if current !in parent {
        c := Stray;
      } else {
        c := Climb.Unending;
      }
    }

    /** The total number of direct and indirect orbits around `root`. */
    method Count(root: T) returns (r: Result<nat, OrbitError>)
      ensures r == CountOrbits(State(), root)
    {
      var total := 0;
      var k := 0;
      while k < |nodes|
        invariant k <= |nodes|
        invariant OrbitTotal(parent, nodes[..k], root, |nodes|) == Ok(total)
      {
        var c := ClimbToRoot(nodes[k], root);
        assert nodes[..k + 1][..k] == nodes[..k];
        if c.Unending? {
          OrbitTotalPrefixErr(parent, nodes, k + 1, root, |nodes|);
          return Err(Endless);
        }
        if c.Reached? {
          total := total + c.steps;
        }
        k := k + 1;
      }
      assert nodes[..k] == nodes;
      return Ok(total);
    }

    /** The nodes from `from` out to the centre. */
    method Path(from: T) returns (r: Result<seq<T>, OrbitError>)
      ensures r == PathOf(State(), from)
    {
      var found := Find(from);
      if found.None? {
        return Err(MissingNode);
      }
      var path := [from];
      var current := from;
      if PathFrom(parent, from, |nodes|).Some? {
        assert [] + PathFrom(parent, from, |nodes|).value == PathFrom(parent, from, |nodes|).value;
      }
      while current in parent && |path| <= |nodes|
        invariant 1 <= |path| <= |nodes| + 1 && path[|path| - 1] == current
        invariant PathFrom(parent, from, |nodes|) == Behind(path[..|path| - 1], PathFrom(parent, current, |nodes| - (|path| - 1)))
        decreases |nodes| + 1 - |path|
      {
        ghost var walked := path;
        ghost var before := current;
        current := parent[current];
        path := path + [current];
        assert path[..|path| - 1] == walked;
        assert walked[..|walked| - 1] + [before] == walked;
        BehindJoin(walked[..|walked| - 1], [before], PathFrom(parent, current, |nodes| - (|path| - 1)));
      }
      if current in parent {
        return Err(Endless);
      }
      assert path[..|path| - 1] + [current] == path;
      return Ok(path);
    }

    /** The number of orbital transfers between `from` and `to`. */
    method Jumps(from: T, to: T) returns (r: Result<nat, OrbitError>)
      ensures r == JumpsOf(State(), from, to)
    {
      var fromPath := Path(from);
      if fromPath.Err? {
        return Err(fromPath.error);
      }
      var toPath := Path(to);
      if toPath.Err? {
        return Err(toPath.error);
      }
      var p1, p2 := fromPath.value, toPath.value;
      var i := 1;
      while i <= |p1| && i <= |p2| && p1[|p1| - i] == p2[|p2| - i]
        invariant 1 <= i
        invariant ForkFrom(p1, p2, 1) == ForkFrom(p1, p2, i)
        decreases |p1| - i
      {
        i := i + 1;
      }
      if i > |p1| || i > |p2| {
        return Err(NoFork);
      }
      return Ok(|p1| + |p2| - 2 * i);
    }
  }
}
