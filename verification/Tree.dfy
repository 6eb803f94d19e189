// Forests given as parent arrays: vertex 0 is a root, no vertex has a larger parent and
// a vertex that is its own parent is a root. A tree has no other root than 0.
// Depth-first trees are trees; dominator trees are forests in general.
module Tree {

  ghost predicate IsForest(t: seq<nat>) {
    && |t| > 0 && t[0] == 0
    && forall i :: 0 <= i < |t| ==> t[i] <= i
  }

  ghost predicate IsTree(t: seq<nat>) {
    IsForest(t) && forall i :: 1 <= i < |t| ==> t[i] < i
  }

  // a lies on the walk from b up to its root.
  ghost predicate Anc(t: seq<nat>, a: nat, b: nat)
    requires IsForest(t) && b < |t|
    decreases b
  {
    a == b || (t[b] < b && Anc(t, a, t[b]))
  }

  // The walk from b up ends in 0.
  ghost predicate Rooted(t: seq<nat>, b: nat)
    requires IsForest(t) && b < |t|
  {
    Anc(t, 0, b)
  }

  // The vertex k parents above b.
  ghost function Up(t: seq<nat>, b: nat, k: nat): (u: nat)
    requires IsForest(t) && b < |t|
    ensures u <= b
  {
    if k == 0 then b else t[Up(t, b, k - 1)]
  }

  // Going up from b reaches a or 0 exactly when a is above b or b hangs below 0;
  // from any other vertex the walk stays at a root for ever.
  lemma ClimbStops(t: seq<nat>, a: nat, b: nat)
    requires IsForest(t) && b < |t|
    ensures (exists k: nat :: Up(t, b, k) == a || Up(t, b, k) == 0) <==> Anc(t, a, b) || Rooted(t, b)
  {
    if k: nat :| Up(t, b, k) == a || Up(t, b, k) == 0 {
      UpIsAnc(t, b, k);
    }
    if Anc(t, a, b) {
      var k := AncIsUp(t, a, b);
    }
    if Rooted(t, b) {
      var k := AncIsUp(t, 0, b);
    }
  }

  lemma {:induction false} UpIsAnc(t: seq<nat>, b: nat, k: nat)
    requires IsForest(t) && b < |t|
    ensures Anc(t, Up(t, b, k), b)
  {
    if k > 0 {
      var u := Up(t, b, k - 1);
      UpIsAnc(t, b, k - 1);
      assert Anc(t, t[u], t[u]);
      AncTrans(t, t[u], u, b);
    }
  }

  lemma {:induction false} AncIsUp(t: seq<nat>, a: nat, b: nat) returns (k: nat)
    requires IsForest(t) && b < |t| && Anc(t, a, b)
    ensures Up(t, b, k) == a
    decreases b
  {
    if a == b {
      k := 0;
    } else {
      var j := AncIsUp(t, a, t[b]);
      UpShift(t, b, j);
      k := j + 1;
    }
  }

  lemma {:induction false} UpShift(t: seq<nat>, b: nat, k: nat)
    requires IsForest(t) && b < |t|
    ensures Up(t, t[b], k) == Up(t, b, k + 1)
  {
    if k > 0 {
      UpShift(t, b, k - 1);
    }
  }

  lemma {:induction false} AncLeq(t: seq<nat>, a: nat, b: nat)
    requires IsForest(t) && b < |t| && Anc(t, a, b)
    ensures a <= b
    decreases b
  {
    if a != b {
      AncLeq(t, a, t[b]);
    }
  }

  lemma {:induction false} RootAnc(t: seq<nat>, b: nat)
    requires IsTree(t) && b < |t|
    ensures Anc(t, 0, b)
    decreases b
  {
    if b != 0 {
      RootAnc(t, t[b]);
    }
  }

  lemma {:induction false} AncTrans(t: seq<nat>, a: nat, b: nat, c: nat)
    requires IsForest(t) && b < |t| && c < |t| && Anc(t, a, b) && Anc(t, b, c)
    ensures Anc(t, a, c)
    decreases c
  {
    if b != c {
      AncTrans(t, a, b, t[c]);
    }
  }

  lemma AncAntisym(t: seq<nat>, a: nat, b: nat)
    requires IsForest(t) && a < |t| && b < |t| && Anc(t, a, b) && Anc(t, b, a)
    ensures a == b
  {
    AncLeq(t, a, b);
    AncLeq(t, b, a);
  }

  // The ancestors of a vertex form a chain.
  lemma {:induction false} AncChain(t: seq<nat>, a: nat, b: nat, c: nat)
    requires IsForest(t) && a < |t| && b < |t| && c < |t| && Anc(t, a, c) && Anc(t, b, c)
    ensures a <= b ==> Anc(t, a, b)
    decreases c
  {
    if a == c {
      AncLeq(t, b, c);
    } else if b != c {
      AncChain(t, a, b, t[c]);
    }
  }

  lemma {:induction false} AncExtend(t: seq<nat>, p: nat, a: nat, b: nat)
    requires IsTree(t) && p < |t| && b < |t|
    ensures IsTree(t + [p]) && (Anc(t + [p], a, b) <==> Anc(t, a, b))
    decreases b
  {
    assert (t + [p])[b] == t[b];
    if b > 0 {
      AncExtend(t, p, a, t[b]);
    }
  }
}
