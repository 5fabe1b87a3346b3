/** The constellation lines: every unordered pair of particles closer than
    150 is joined by a line whose alpha falls off linearly with distance.
    The model records the list of (i, j, alpha) the stroke calls would
    receive, in the order the nested loop produces them. */
module Connections {
  import opened Particles

  const LinkRadius: real := 150.0
  const MaxAlpha: real := 0.12

  /** A line between particles `i` and `j` drawn with the given alpha. */
  datatype Link = Link(i: nat, j: nat, alpha: real)

  /** Stroke alpha for two particles `dist` apart. */
  function Alpha(dist: real): (a: real)
    requires 0.0 <= dist < LinkRadius
    ensures 0.0 < a <= MaxAlpha
    ensures dist == 0.0 ==> a == MaxAlpha
    ensures dist == 75.0 ==> a == MaxAlpha / 2.0
  {
    ((LinkRadius - dist) / LinkRadius) * MaxAlpha
  }

  /** `d[i][j]` is the distance between particles `i` and `j`, for i < j. */
  predicate PairDistances(ps: seq<Particle>, d: seq<seq<real>>)
  {
    |d| == |ps| &&
    (forall i :: 0 <= i < |d| ==> |d[i]| == |ps|) &&
    (forall i, j {:trigger d[i][j]} :: 0 <= i < j < |ps| ==>
       IsDistance(ps[i].x - ps[j].x, ps[i].y - ps[j].y, d[i][j]))
  }

  /** The order in which the nested loop visits pairs. */
  predicate Before(a: Link, b: Link)
  {
    a.i < b.i || (a.i == b.i && a.j < b.j)
  }

  /** Pair (a, b) is visited before the loops reach pair (i, j). */
  predicate Visited(i: int, j: int, a: int, b: int)
  {
    a < i || (a == i && b < j)
  }

  ghost predicate Has(links: seq<Link>, a: int, b: int)
  {
    exists k :: 0 <= k < |links| && links[k].i == a && links[k].j == b
  }

  /** `links` is what the loops have produced once every pair before
      (i, j) has been visited: each link is a pair closer than the radius
      with its alpha, the links come in visiting order (so no pair appears
      twice), and every close pair visited so far is among them. */
  ghost predicate SelectedUpTo(ps: seq<Particle>, d: seq<seq<real>>, links: seq<Link>, i: int, j: int)
    requires PairDistances(ps, d)
  {
    (forall k :: 0 <= k < |links| ==>
       && links[k].i < links[k].j < |ps|
       && Visited(i, j, links[k].i, links[k].j)
       && d[links[k].i][links[k].j] < LinkRadius
       && links[k].alpha == Alpha(d[links[k].i][links[k].j])) &&
    (forall k, l :: 0 <= k < l < |links| ==> Before(links[k], links[l])) &&
    (forall a, b :: 0 <= a < b < |ps| && Visited(i, j, a, b) && d[a][b] < LinkRadius ==>
       Has(links, a, b))
  }

  /** `links` is exactly the set of close pairs, each once, in loop order. */
  ghost predicate Selected(ps: seq<Particle>, d: seq<seq<real>>, links: seq<Link>)
    requires PairDistances(ps, d)
  {
    SelectedUpTo(ps, d, links, |ps|, |ps|)
  }

  /** `drawConnections`: scans each pair i < j once. */
  method SelectConnections(ps: seq<Particle>, d: seq<seq<real>>) returns (links: seq<Link>)
    requires PairDistances(ps, d)
    ensures Selected(ps, d, links)
  {
    links := [];
    var n := |ps|;
    var i := 0;
    while i < n
      invariant 0 <= i <= n
      invariant SelectedUpTo(ps, d, links, i, i + 1)
    {
      var j := i + 1;
      while j < n
        invariant i + 1 <= j <= n
        invariant SelectedUpTo(ps, d, links, i, j)
      {
        var dist := d[i][j];
        if dist < LinkRadius {
          var link := Link(i, j, Alpha(dist));
          HasAppend(links, link);
          links := links + [link];
        }
        j := j + 1;
      }
      i := i + 1;
    }
  }

  /** The contract of `SelectConnections` leaves the caller no freedom:
      two link lists that both satisfy it are the same list. */
  lemma SelectionIsUnique(ps: seq<Particle>, d: seq<seq<real>>, l1: seq<Link>, l2: seq<Link>)
    requires PairDistances(ps, d)
    requires Selected(ps, d, l1) && Selected(ps, d, l2)
    ensures l1 == l2
  {
    SameLength(ps, d, l1, l2);
    SameLength(ps, d, l2, l1);
    SamePrefix(ps, d, l1, l2, |l1|);
    assert l1 == l1[..|l1|] && l2 == l2[..|l2|];
  }

  lemma SameLength(ps: seq<Particle>, d: seq<seq<real>>, l1: seq<Link>, l2: seq<Link>)
    requires PairDistances(ps, d)
    requires Selected(ps, d, l1) && Selected(ps, d, l2)
    ensures |l1| >= |l2|
  {
    if |l1| < |l2| {
      var n := |l1|;
      SamePrefix(ps, d, l1, l2, n);
      var m := Find(ps, d, l1, l2, n);
      assert l1[m] == l2[..n][m] == l2[m];
      InOrder(ps, d, l2, m, n);
      assert false;
    }
  }

  /** The index in `l` of the pair that `other[k]` joins. */
  lemma Find(ps: seq<Particle>, d: seq<seq<real>>, l: seq<Link>, other: seq<Link>, k: nat) returns (m: nat)
    requires PairDistances(ps, d)
    requires Selected(ps, d, l) && Selected(ps, d, other)
    requires k < |other|
    ensures m < |l| && l[m] == other[k]
  {
    var y := other[k];
    assert Has(l, y.i, y.j);
    m :| 0 <= m < |l| && l[m].i == y.i && l[m].j == y.j;
  }

  lemma InOrder(ps: seq<Particle>, d: seq<seq<real>>, l: seq<Link>, a: nat, b: nat)
    requires PairDistances(ps, d)
    requires Selected(ps, d, l)
    requires a < b < |l|
    ensures Before(l[a], l[b])
  {
  }

  /** Two selections agree on their first `k` links. */
  lemma {:induction false} SamePrefix(ps: seq<Particle>, d: seq<seq<real>>, l1: seq<Link>, l2: seq<Link>, k: nat)
    requires PairDistances(ps, d)
    requires Selected(ps, d, l1) && Selected(ps, d, l2)
    requires k <= |l1| && k <= |l2|
    ensures l1[..k] == l2[..k]
    decreases k
  {
    if k > 0 {
      SamePrefix(ps, d, l1, l2, k - 1);
      var x, y := l1[k - 1], l2[k - 1];
      // Each list holds the other's k-th link somewhere; the shared prefix
      // and the visiting order leave only position k - 1 for it.
      var m := Find(ps, d, l2, l1, k - 1);
      var m' := Find(ps, d, l1, l2, k - 1);
      assert x == y;
      assert l1[..k] == l1[..k - 1] + [x] && l2[..k] == l2[..k - 1] + [y];
    }
  }

  lemma HasAppend(links: seq<Link>, x: Link)
    ensures forall a, b :: Has(links + [x], a, b) <==> Has(links, a, b) || (x.i == a && x.j == b)
  {
    var s := links + [x];
    forall a, b ensures Has(s, a, b) <==> Has(links, a, b) || (x.i == a && x.j == b) {
      if Has(links, a, b) {
        var k :| 0 <= k < |links| && links[k].i == a && links[k].j == b;
        assert s[k] == links[k];
      }
      if x.i == a && x.j == b {
        assert s[|links|] == x;
      }
      if Has(s, a, b) {
        var k :| 0 <= k < |s| && s[k].i == a && s[k].j == b;
        if k < |links| { assert s[k] == links[k]; }
      }
    }
  }
}
