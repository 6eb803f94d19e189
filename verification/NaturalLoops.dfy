// Natural loops of a reducible or irreducible graph: the regions that reach a
// latch without passing the header. These facts justify the loop tree of Loop.dfy.
module NaturalLoops {
  import opened ControlFlow

  ghost predicate Sound(g: Cfg) {
    g.Wf() && AllReachable(g)
  }

  // x jumps back to h, which dominates it.
  ghost predicate IsLatch(g: Cfg, h: nat, x: nat) {
    g.Edge(x, h) && Dominates(g, h, x)
  }

  ghost predicate IsHeader(g: Cfg, h: nat) {
    exists x :: IsLatch(g, h, x)
  }

  ghost predicate ReachesLatch(g: Cfg, h: nat, p: seq<nat>, v: nat, x: nat) {
    IsLatch(g, h, x) && PathBetween(g, p, v, x) && h !in p
  }

  ghost predicate InLoop(g: Cfg, h: nat, v: nat) {
    IsHeader(g, h) && (v == h || exists p, x :: ReachesLatch(g, h, p, v, x))
  }

  lemma InLoopBounds(g: Cfg, h: nat, v: nat)
    requires InLoop(g, h, v)
    ensures h < |g.succs| && v < |g.succs|
  {
    var x :| IsLatch(g, h, x);
    if v != h {
      var p, y :| ReachesLatch(g, h, p, v, y);
    }
  }

  // A region with a latch is not one of those that keep their incoming edges to themselves.
  lemma HeaderListed(g: Cfg, h: nat, x: nat)
    requires Sound(g) && IsLatch(g, h, x)
    ensures g.Listed(h)
  {
    assert Reachable(g, x);
    var p :| PathBetween(g, p, g.start, x);
    var k :| 0 <= k < |p| && p[k] == h;
    if k + 1 < |p| {
      assert g.Edge(p[k], p[k + 1]);
      SourceListed(g, h, p[k + 1]);
    } else {
      SourceListed(g, h, h);
    }
  }

  lemma LoopListed(g: Cfg, h: nat, v: nat)
    requires g.Wf() && InLoop(g, h, v) && v != h
    ensures g.Listed(v)
  {
    var p, x :| ReachesLatch(g, h, p, v, x);
    if |p| > 1 {
      assert g.Edge(p[0], p[1]);
      SourceListed(g, v, p[1]);
    } else {
      SourceListed(g, v, h);
    }
  }

  // ---------------------------------------------------------------- dominance

  lemma DominatesSelf(g: Cfg, a: nat)
    ensures Dominates(g, a, a)
  {
  }

  // First position of p that holds a or b.
  lemma FirstOf(p: seq<nat>, a: nat, b: nat) returns (k: nat)
    requires a in p || b in p
    ensures k < |p| && (p[k] == a || p[k] == b) && a !in p[..k] && b !in p[..k]
  {
    k := 0;
    while p[k] != a && p[k] != b
      invariant k < |p| && a !in p[..k] && b !in p[..k]
      decreases |p| - k
    {
      k := k + 1;
      assert p[..k] == p[..k - 1] + [p[k - 1]];
      assert p == p[..k] + p[k..];
    }
  }

  // Last position of p that holds a or b.
  lemma LastOf(p: seq<nat>, a: nat, b: nat) returns (k: nat)
    requires a in p || b in p
    ensures k < |p| && (p[k] == a || p[k] == b) && a !in p[k + 1..] && b !in p[k + 1..]
  {
    k := |p| - 1;
    while p[k] != a && p[k] != b
      invariant k < |p| && a !in p[k + 1..] && b !in p[k + 1..]
      decreases k
    {
      assert p[k..] == [p[k]] + p[k + 1..];
      assert p == p[..k] + p[k..];
      k := k - 1;
    }
  }

  lemma DominatesAntisym(g: Cfg, a: nat, b: nat)
    requires Reachable(g, a) && Dominates(g, a, b) && Dominates(g, b, a)
    ensures a == b
  {
    var p :| PathBetween(g, p, g.start, a);
    assert p[|p| - 1] == a;
    var k := FirstOf(p, a, b);
    PathPrefix(g, p, k);
    assert p[..k + 1] == p[..k] + [p[k]];
    assert a in p[..k + 1] && b in p[..k + 1];
  }

  lemma DominatesTrans(g: Cfg, a: nat, b: nat, c: nat)
    requires Dominates(g, a, b) && Dominates(g, b, c)
    ensures Dominates(g, a, c)
  {
    forall p | PathBetween(g, p, g.start, c) ensures a in p {
      assert b in p;
      var k :| 0 <= k < |p| && p[k] == b;
      PathPrefix(g, p, k);
      assert a in p[..k + 1];
    }
  }

  // A path avoiding b, then continued from a by a path avoiding b, shows that b
  // does not dominate the end.
  lemma Detour(g: Cfg, q: seq<nat>, r: seq<nat>, b: nat)
    requires IsPath(g, q) && q[0] == g.start && b !in q
    requires IsPath(g, r) && r[0] == q[|q| - 1] && b !in r[1..]
    ensures !Dominates(g, b, r[|r| - 1])
  {
    PathJoin(g, q, r);
    assert b !in q + r[1..];
  }

  lemma DominatorsChain(g: Cfg, a: nat, b: nat, v: nat)
    requires Reachable(g, v) && Dominates(g, a, v) && Dominates(g, b, v)
    ensures Dominates(g, a, b) || Dominates(g, b, a)
  {
    if !Dominates(g, a, b) && !Dominates(g, b, a) {
      var p :| PathBetween(g, p, g.start, v);
      var toB :| PathBetween(g, toB, g.start, b) && a !in toB;
      var toA :| PathBetween(g, toA, g.start, a) && b !in toA;
      var k := LastOf(p, a, b);
      PathSuffix(g, p, k);
      assert p[k..][1..] == p[k + 1..];
      if p[k] == a {
        Detour(g, toA, p[k..], b);
      } else {
        Detour(g, toB, p[k..], a);
      }
    }
  }

  // ---------------------------------------------------------------- loops

  lemma HeaderDominatesLoop(g: Cfg, h: nat, v: nat)
    requires InLoop(g, h, v)
    ensures Dominates(g, h, v)
  {
    if v != h {
      var p, x :| ReachesLatch(g, h, p, v, x);
      forall q | PathBetween(g, q, g.start, v) ensures h in q {
        PathJoin(g, q, p);
        assert h in q + p[1..];
      }
    }
  }

  // A predecessor of a loop region, other than across the header, is in the loop.
  lemma LoopStep(g: Cfg, h: nat, u: nat, v: nat)
    requires InLoop(g, h, v) && v != h && g.Edge(u, v)
    ensures InLoop(g, h, u)
  {
    if u != h {
      var p, x :| ReachesLatch(g, h, p, v, x);
      assert IsPath(g, [u]);
      assert IsPath(g, [u, v]);
      PathJoin(g, [u, v], p);
      var q := [u, v] + p[1..];
      assert q == [u] + p;
      assert ReachesLatch(g, h, q, u, x);
    }
  }

  lemma LatchInLoop(g: Cfg, h: nat, x: nat)
    requires IsLatch(g, h, x)
    ensures InLoop(g, h, x)
  {
    if x != h {
      assert ReachesLatch(g, h, [x], x, x);
    }
  }

  // A set that holds every latch and every predecessor of its members, the header
  // aside, holds the whole loop.
  lemma {:induction false} LoopCovered(g: Cfg, h: nat, X: set<nat>, p: seq<nat>, v: nat, x: nat)
    requires ReachesLatch(g, h, p, v, x)
    requires forall y :: IsLatch(g, h, y) && y != h ==> y in X
    requires forall u, w :: w in X && g.Edge(u, w) && u != h ==> u in X
    ensures v in X
    decreases |p|
  {
    if |p| > 1 {
      assert g.Edge(p[0], p[1]);
      PathSuffix(g, p, 1);
      assert ReachesLatch(g, h, p[1..], p[1], x);
      LoopCovered(g, h, X, p[1..], p[1], x);
    }
  }

  // Loops that meet: the header of the inner one lies in the outer one.
  lemma MeetingLoops(g: Cfg, h1: nat, h2: nat, x: nat)
    requires Sound(g) && InLoop(g, h1, x) && InLoop(g, h2, x) && h1 != h2 && Dominates(g, h1, h2)
    ensures InLoop(g, h1, h2)
  {
    InLoopBounds(g, h1, x);
    InLoopBounds(g, h2, x);
    HeaderDominatesLoop(g, h1, x);
    HeaderDominatesLoop(g, h2, x);
    var m, r := InnerAfterOuter(g, h1, h2, x);
    assert x != h1 by {
      if x == h1 {
        DominatesAntisym(g, h1, h2);
      }
    }
    var p, y :| ReachesLatch(g, h1, p, x, y);
    PathSuffix(g, r, m);
    PathJoin(g, r[m..], p);
    assert ReachesLatch(g, h1, r[m..] + p[1..], h2, y);
  }

  // Some path to x passes h2 after its last visit of h1.
  lemma InnerAfterOuter(g: Cfg, h1: nat, h2: nat, x: nat) returns (m: nat, r: seq<nat>)
    requires Sound(g) && x < |g.succs| && h1 < |g.succs| && h2 < |g.succs|
    requires h1 != h2 && Dominates(g, h1, h2) && Dominates(g, h1, x) && Dominates(g, h2, x)
    ensures PathBetween(g, r, g.start, x) && m < |r| && r[m] == h2 && h1 !in r[m..]
  {
    assert Reachable(g, x);
    r :| PathBetween(g, r, g.start, x);
    var k := LastOf(r, h1, h1);
    PathSuffix(g, r, k);
    assert r[k..][1..] == r[k + 1..];
    if h2 !in r[k + 1..] {
      assert Reachable(g, h1);
      if Dominates(g, h2, h1) {
        DominatesAntisym(g, h1, h2);
      }
      var q :| PathBetween(g, q, g.start, h1) && h2 !in q;
      Detour(g, q, r[k..], h2);
    }
    var i :| 0 <= i < |r[k + 1..]| && r[k + 1..][i] == h2;
    m := k + 1 + i;
    assert r[m..] == r[k + 1..][i..];
  }

  // The loop of a header inside another loop is part of that loop.
  lemma LoopNested(g: Cfg, h1: nat, h2: nat, y: nat)
    requires Sound(g) && InLoop(g, h1, h2) && InLoop(g, h2, y)
    ensures InLoop(g, h1, y)
  {
    if y != h2 && h1 != h2 {
      InLoopBounds(g, h1, h2);
      HeaderDominatesLoop(g, h1, h2);
      var p, x :| ReachesLatch(g, h2, p, y, x);
      if h1 in p {
        var k :| 0 <= k < |p| && p[k] == h1;
        PathSuffix(g, p, k);
        assert ReachesLatch(g, h2, p[k..], h1, x);
        HeaderDominatesLoop(g, h2, h1);
        assert Reachable(g, h1);
        DominatesAntisym(g, h1, h2);
      }
      var q, z :| ReachesLatch(g, h1, q, h2, z);
      PathAppend(g, p, h2);
      PathJoin(g, p + [h2], q);
      assert ReachesLatch(g, h1, p + [h2] + q[1..], y, z);
    }
  }
}
