/** Schematic points and the relation "joined through a chain of wire segments".
    Coordinates are integers counted in thousandths of a schematic unit, so a
    point is its own key. */
module Connectivity {
  datatype Point = Point(x: int, y: int)

  type Link = (Point, Point)

  ghost predicate Adjacent(links: set<Link>, a: Point, b: Point) {
    (a, b) in links || (b, a) in links
  }

  ghost predicate Chain(links: set<Link>, p: seq<Point>, a: Point, b: Point) {
    && |p| > 0 && p[0] == a && p[|p| - 1] == b
    && forall i :: 0 <= i < |p| - 1 ==> Adjacent(links, p[i], p[i + 1])
  }

  /** The reflexive-symmetric-transitive closure of `links`. */
  ghost predicate Connected(links: set<Link>, a: Point, b: Point) {
    exists p :: Chain(links, p, a, b)
  }

  lemma ConnectedReflexive(links: set<Link>, a: Point)
    ensures Connected(links, a, a)
  {
    assert Chain(links, [a], a, a);
  }

  lemma ConnectedLink(links: set<Link>, a: Point, b: Point)
    requires Adjacent(links, a, b)
    ensures Connected(links, a, b)
  {
    assert Chain(links, [a, b], a, b);
  }

  lemma ConnectedMonotone(links: set<Link>, more: set<Link>, a: Point, b: Point)
    requires links <= more && Connected(links, a, b)
    ensures Connected(more, a, b)
  {
    var p :| Chain(links, p, a, b);
    assert Chain(more, p, a, b);
  }

  lemma ConnectedTransitive(links: set<Link>, a: Point, b: Point, c: Point)
    requires Connected(links, a, b) && Connected(links, b, c)
    ensures Connected(links, a, c)
  {
    var p :| Chain(links, p, a, b);
    var q :| Chain(links, q, b, c);
    var r := p + q[1..];
    forall i | 0 <= i < |r| - 1 ensures Adjacent(links, r[i], r[i + 1]) {
      if i < |p| - 1 {
        assert r[i] == p[i] && r[i + 1] == p[i + 1];
      } else {
        assert r[i] == q[i - |p| + 1] && r[i + 1] == q[i - |p| + 2];
      }
    }
    assert Chain(links, r, a, c);
  }

  lemma {:induction false} ConnectedSymmetric(links: set<Link>, a: Point, b: Point)
    requires Connected(links, a, b)
    ensures Connected(links, b, a)
  {
    var p :| Chain(links, p, a, b);
    var q := seq(|p|, i requires 0 <= i < |p| => p[|p| - 1 - i]);
    forall i | 0 <= i < |q| - 1 ensures Adjacent(links, q[i], q[i + 1]) {
      assert Adjacent(links, p[|p| - 2 - i], p[|p| - 1 - i]);
    }
    assert Chain(links, q, b, a);
  }

  /** A map that gives both ends of every link the same value is constant on
      connected points: connectivity is the least equivalence with the links. */
  lemma {:induction false} ColourConstant<T>(links: set<Link>, colour: map<Point, T>, p: seq<Point>, a: Point, b: Point)
    requires forall l :: l in links ==> l.0 in colour && l.1 in colour && colour[l.0] == colour[l.1]
    requires Chain(links, p, a, b) && a in colour
    ensures b in colour && colour[a] == colour[b]
    decreases |p|
  {
    if |p| > 1 {
      assert Adjacent(links, p[0], p[1]);
      assert Chain(links, p[1..], p[1], b) by {
        forall i | 0 <= i < |p| - 2 ensures Adjacent(links, p[1..][i], p[1..][i + 1]) {
          assert Adjacent(links, p[i + 1], p[i + 2]);
        }
      }
      ColourConstant(links, colour, p[1..], p[1], b);
    }
  }

  /** A point no link touches is connected to itself alone. */
  lemma IsolatedPoint(links: set<Link>, a: Point, b: Point)
    requires forall l :: l in links ==> l.0 != a && l.1 != a
    requires Connected(links, a, b)
    ensures a == b
  {
    var p :| Chain(links, p, a, b);
    assert |p| > 1 ==> Adjacent(links, p[0], p[1]);
  }

  /** Connectivity is carried along an injective relabelling of the points. */
  lemma ConnectedImage(links: set<Link>, image: set<Link>, f: Point -> Point, a: Point, b: Point)
    requires forall l :: l in links ==> (f(l.0), f(l.1)) in image
    requires Connected(links, a, b)
    ensures Connected(image, f(a), f(b))
  {
    var p :| Chain(links, p, a, b);
    var q := seq(|p|, i requires 0 <= i < |p| => f(p[i]));
    forall i | 0 <= i < |q| - 1 ensures Adjacent(image, q[i], q[i + 1]) {
      assert Adjacent(links, p[i], p[i + 1]);
    }
    assert Chain(image, q, f(a), f(b));
  }
}

/** The path-compressing union-find over point keys. */
module DisjointSets {
  import opened Connectivity

  type Pointers = map<Point, Point>

  /** What holds at one key: pointers stay inside the table, the root is a fixed
      point reached through the parent, and `height` grows on the way up. */
  ghost predicate Node(parent: Pointers, root: Pointers, height: map<Point, nat>, bound: nat, k: Point)
    requires parent.Keys == root.Keys == height.Keys && k in parent
  {
    && height[k] <= bound
    && parent[k] in parent && root[k] in parent
    && parent[root[k]] == root[k]
    && root[root[k]] == root[k]
    && root[parent[k]] == root[k]
    && (parent[k] == k ==> root[k] == k)
    && (parent[k] != k ==> height[k] < height[parent[k]])
    && (root[k] != k ==> height[k] < height[root[k]])
  }

  /** `parent` is an acyclic forest and `root` sends each key to the root of its tree. */
  ghost predicate Forest(parent: Pointers, root: Pointers, height: map<Point, nat>, bound: nat) {
    && parent.Keys == root.Keys == height.Keys
    && forall k {:trigger Node(parent, root, height, bound, k)} :: k in parent ==> Node(parent, root, height, bound, k)
  }

  lemma ForestRegister(parent: Pointers, root: Pointers, height: map<Point, nat>, bound: nat, key: Point)
    requires Forest(parent, root, height, bound) && key !in parent
    ensures Forest(parent[key := key], root[key := key], height[key := 0], bound)
  {
    var p, r, h := parent[key := key], root[key := key], height[key := 0];
    forall k | k in p ensures Node(p, r, h, bound, k) {
      assert k != key ==> Node(parent, root, height, bound, k);
    }
  }

  lemma ForestCompress(parent: Pointers, root: Pointers, height: map<Point, nat>, bound: nat, key: Point)
    requires Forest(parent, root, height, bound) && key in parent
    ensures Forest(parent[key := root[key]], root, height, bound)
  {
    var p := parent[key := root[key]];
    assert Node(parent, root, height, bound, key);
    forall k | k in p ensures Node(p, root, height, bound, k) {
      assert Node(parent, root, height, bound, k);
      assert Node(parent, root, height, bound, root[k]);
    }
  }

  function Redirect(root: Pointers, rootA: Point, rootB: Point): (r: Pointers)
    ensures r.Keys == root.Keys
  {
    map k | k in root :: if root[k] == rootB then rootA else root[k]
  }

  lemma ForestHang(parent: Pointers, root: Pointers, height: map<Point, nat>, bound: nat, rootA: Point, rootB: Point)
    requires Forest(parent, root, height, bound)
    requires rootA in parent && rootB in parent && rootA != rootB
    requires root[rootA] == rootA && root[rootB] == rootB
    ensures Forest(parent[rootB := rootA], Redirect(root, rootA, rootB),
                   height[rootA := height[rootA] + height[rootB] + 1], bound + bound + 1)
  {
    var p, r := parent[rootB := rootA], Redirect(root, rootA, rootB);
    var h := height[rootA := height[rootA] + height[rootB] + 1];
    forall k | k in p ensures Node(p, r, h, bound + bound + 1, k) {
      NodeHang(parent, root, height, bound, rootA, rootB, k, r, h);
    }
  }

  lemma NodeHang(parent: Pointers, root: Pointers, height: map<Point, nat>, bound: nat,
                 rootA: Point, rootB: Point, k: Point, r: Pointers, h: map<Point, nat>)
    requires Forest(parent, root, height, bound)
    requires rootA in parent && rootB in parent && k in parent && rootA != rootB
    requires root[rootA] == rootA && root[rootB] == rootB
    requires r == Redirect(root, rootA, rootB)
    requires h == height[rootA := height[rootA] + height[rootB] + 1]
    ensures Node(parent[rootB := rootA], r, h, bound + bound + 1, k)
  {
    assert Node(parent, root, height, bound, k);
    assert Node(parent, root, height, bound, rootA);
    assert Node(parent, root, height, bound, rootB);
    assert Node(parent, root, height, bound, parent[k]);
    if k == rootB {
    } else if root[k] == rootB {
      assert r[parent[k]] == rootA == r[k];
    } else {
      assert r[parent[k]] == root[k] == r[k];
    }
  }

  /** `root` is constant on linked points and never leaves a connected class. */
  ghost predicate Represents(links: set<Link>, root: Pointers) {
    && (forall l :: l in links ==> l.0 in root && l.1 in root && root[l.0] == root[l.1])
    && (forall k {:trigger Connected(links, k, root[k])} :: k in root ==> Connected(links, k, root[k]))
  }

  /** The partition given by `root` is exactly the equivalence the links generate. */
  lemma SameRootIffConnected(links: set<Link>, root: Pointers, a: Point, b: Point)
    requires Represents(links, root) && a in root && b in root
    ensures root[a] == root[b] <==> Connected(links, a, b)
  {
    if root[a] == root[b] {
      ConnectedSymmetric(links, b, root[b]);
      ConnectedTransitive(links, a, root[a], b);
    }
    if Connected(links, a, b) {
      var p :| Chain(links, p, a, b);
      ColourConstant(links, root, p, a, b);
    }
  }

  lemma RepresentsRegister(links: set<Link>, root: Pointers, key: Point)
    requires Represents(links, root) && key !in root
    ensures Represents(links, root[key := key])
  {
    ConnectedReflexive(links, key);
    var r := root[key := key];
    forall k | k in r ensures Connected(links, k, r[k]) {
      assert k != key ==> Connected(links, k, root[k]);
    }
  }

  /** Linking a to b and redirecting b's class to a's root keeps the two in step. */
  lemma RepresentsUnion(links: set<Link>, root: Pointers, a: Point, b: Point)
    requires Represents(links, root) && a in root && b in root
    ensures Represents(links + {(a, b)}, Redirect(root, root[a], root[b]))
  {
    var more, r := links + {(a, b)}, Redirect(root, root[a], root[b]);
    forall k | k in r ensures Connected(more, k, r[k]) {
      UnionConnects(links, root, a, b, k);
    }
  }

  /** After linking a to b, everything in b's class is connected to a's root. */
  lemma UnionConnects(links: set<Link>, root: Pointers, a: Point, b: Point, k: Point)
    requires a in root && b in root && k in root
    requires forall x {:trigger Connected(links, x, root[x])} :: x in root ==> Connected(links, x, root[x])
    ensures Connected(links + {(a, b)}, k, if root[k] == root[b] then root[a] else root[k])
  {
    var more := links + {(a, b)};
    assert Connected(links, k, root[k]) && Connected(links, a, root[a]) && Connected(links, b, root[b]);
    ConnectedMonotone(links, more, k, root[k]);
    if root[k] == root[b] {
      ConnectedMonotone(links, more, b, root[b]);
      ConnectedMonotone(links, more, a, root[a]);
      ConnectedSymmetric(more, b, root[b]);
      ConnectedLink(more, b, a);
      ConnectedTransitive(more, k, root[b], b);
      ConnectedTransitive(more, k, b, a);
      ConnectedTransitive(more, k, a, root[a]);
    }
  }

  /** The key reached from `k` after following `n` parent pointers. */
  function Climb(parent: Pointers, k: Point, n: nat): Point
    decreases n
  {
    if n == 0 || k !in parent then k else Climb(parent, parent[k], n - 1)
  }

  /** No parent path returns to a key it has left: the forest has no cycle,
      and every path stays inside its own class. */
  lemma {:induction false} ForestAcyclic(parent: Pointers, root: Pointers, height: map<Point, nat>, bound: nat,
                                         k: Point, n: nat)
    requires Forest(parent, root, height, bound) && k in parent
    ensures Climb(parent, k, n) in parent
    ensures root[Climb(parent, k, n)] == root[k]
    ensures height[k] <= height[Climb(parent, k, n)]
    ensures n > 0 && Climb(parent, k, n) == k ==> parent[k] == k
    decreases n
  {
    assert Node(parent, root, height, bound, k);
    if n > 0 {
      ForestAcyclic(parent, root, height, bound, parent[k], n - 1);
    }
  }

  ghost predicate Sound(parent: Pointers, root: Pointers, height: map<Point, nat>, bound: nat, links: set<Link>) {
    Forest(parent, root, height, bound) && Represents(links, root)
  }

  ghost function Taller(height: map<Point, nat>, rootA: Point, rootB: Point): map<Point, nat>
    requires rootA in height && rootB in height
  {
    if rootA == rootB then height else height[rootA := height[rootA] + height[rootB] + 1]
  }

  /** Hanging b's root under a's root, if they differ, keeps everything in step. */
  lemma SoundUnion(parent: Pointers, root: Pointers, height: map<Point, nat>, bound: nat, links: set<Link>, a: Point,
                   b: Point)
    requires Sound(parent, root, height, bound, links) && a in root && b in root
    ensures root[a] in parent && root[b] in parent
    ensures Sound(if root[a] != root[b] then parent[root[b] := root[a]] else parent,
                  Redirect(root, root[a], root[b]), Taller(height, root[a], root[b]),
                  bound + bound + 1, links + {(a, b)})
  {
    assert Node(parent, root, height, bound, a) && Node(parent, root, height, bound, b);
    RepresentsUnion(links, root, a, b);
    if root[a] != root[b] {
      ForestHang(parent, root, height, bound, root[a], root[b]);
    } else {
      assert Redirect(root, root[a], root[b]) == root;
      forall k | k in parent ensures Node(parent, root, height, bound + bound + 1, k) {
        assert Node(parent, root, height, bound, k);
      }
    }
  }

  function Registered(root: Pointers, key: Point): (r: Pointers)
    ensures key in r && r.Keys == root.Keys + {key}
  {
    if key in root then root else root[key := key]
  }

  class DisjointSet {
    var parent: Pointers
    /** Every pair handed to Union so far. */
    ghost var links: set<Link>
    /** The representative each key currently leads to. */
    ghost var root: Pointers
    ghost var height: map<Point, nat>
    ghost var bound: nat

    ghost predicate Valid()
      reads this
    {
      Sound(parent, root, height, bound, links)
    }

    constructor ()
      ensures Valid() && parent == map[] && links == {} && root == map[]
    {
      parent, links, root, height, bound := map[], {}, map[], map[], 0;
    }

    /** Walks to the root, registering an unknown key and compressing the path. */
    method Find(key: Point) returns (r: Point)
      requires Valid()
      modifies this
      ensures Valid() && links == old(links)
      ensures key in old(root) ==> root == old(root)
      ensures key !in old(root) ==> root == old(root)[key := key]
      ensures key in root && r == root[key]
      ensures key in old(parent) ==> height == old(height) && bound == old(bound)
      decreases if key in height then bound + 1 - height[key] else 0
    {
      if key !in parent {
        ForestRegister(parent, root, height, bound, key);
        RepresentsRegister(links, root, key);
        parent := parent[key := key];
        root := root[key := key];
        height := height[key := 0];
      }
      assert Node(parent, root, height, bound, key);
      var currentParent := parent[key];
      if currentParent == key {
        return key;
      }
      r := Find(currentParent);
      ForestCompress(parent, root, height, bound, key);
      parent := parent[key := r];
    }

    /** Joins the classes of a and b, registering either if it is new: the root of b is
        hung under the root of a. */
    method Union(a: Point, b: Point)
      requires Valid()
      modifies this
      ensures Valid() && links == old(links) + {(a, b)}
      ensures var known := Registered(Registered(old(root), a), b); root == Redirect(known, known[a], known[b])
    {
      var rootA := Find(a);
      var rootB := Find(b);
      assert root == Registered(Registered(old(root), a), b);
      if rootA != rootB {
        Hang(a, b, rootA, rootB);
      } else {
        NoteLink(a, b);
      }
    }

    ghost method NoteLink(a: Point, b: Point)
      requires Valid() && a in root && b in root && root[a] == root[b]
      modifies this`bound, this`root, this`links
      ensures Valid() && links == old(links) + {(a, b)}
      ensures root == Redirect(old(root), old(root)[a], old(root)[b])
    {
      SoundUnion(parent, root, height, bound, links, a, b);
      bound := bound + bound + 1;
      root, links := Redirect(root, root[a], root[b]), links + {(a, b)};
    }

    method Hang(ghost a: Point, ghost b: Point, rootA: Point, rootB: Point)
      requires Valid() && a in root && b in root
      requires rootA == root[a] && rootB == root[b] && rootA != rootB
      modifies this
      ensures Valid() && links == old(links) + {(a, b)}
      ensures root == Redirect(old(root), rootA, rootB)
    {
      SoundUnion(parent, root, height, bound, links, a, b);
      parent := parent[rootB := rootA];
      height, bound := Taller(height, rootA, rootB), bound + bound + 1;
      root, links := Redirect(root, rootA, rootB), links + {(a, b)};
    }
  }
}
