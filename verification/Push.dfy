/**
 Local PageRank by pushing residual mass along weighted links (Andersen, Chung, Lang), over reals. A bounded number of
 pushes and of expanded nodes keeps the work small; this module says what the scores still mean.
 */
module Pushing {

  datatype Edge = Edge(to: nat, w: real)

  type Weights = map<nat, real>
  type Links = nat -> seq<Edge>

  const ALPHA: real := 0.25
  const EPSILON: real := 0.0005
  const MAX_PUSHES: nat := 600
  const MAX_EXPANSIONS: nat := 80

  /** The push state: mass still to spread, mass settled, the links resolved so far, the nodes to visit. */
  datatype Walk = Walk(residual: Weights, scores: Weights, adj: map<nat, seq<Edge>>, queue: seq<nat>)

  function At(m: Weights, u: nat): real
  {
    if u in m then m[u] else 0.0
  }

  function TotalWeight(out: seq<Edge>): real
  {
    if out == [] then 0.0 else TotalWeight(out[..|out| - 1]) + out[|out| - 1].w
  }

  /** The links followed from u: those resolved before, none once MAX_EXPANSIONS nodes are resolved. */
  function Followed(links: Links, adj: map<nat, seq<Edge>>, u: nat): seq<Edge>
  {
    if u in adj then adj[u] else if |adj| >= MAX_EXPANSIONS then [] else links(u)
  }

  function Resolved(links: Links, adj: map<nat, seq<Edge>>, u: nat): map<nat, seq<Edge>>
  {
    if u in adj || |adj| >= MAX_EXPANSIONS then adj else adj[u := links(u)]
  }

  /** A link's part of the mass being spread. */
  function Part(mass: real, w: real, total: real): real
    requires total != 0.0
  {
    mass * w / total
  }

  /** Mass m arrives at v, which is queued when its residual reaches EPSILON. */
  function Deliver(w: Walk, v: nat, m: real): Walk
  {
    var before := At(w.residual, v);
    w.(residual := w.residual[v := before + m],
       queue := if before < EPSILON && before + m >= EPSILON then w.queue + [v] else w.queue)
  }

  /** Spreading `mass` over the links in proportion to their weights. */
  function Spread(w: Walk, out: seq<Edge>, mass: real, total: real): Walk
    requires total != 0.0
  {
    if out == [] then w
    else
      var e := out[|out| - 1];
      Deliver(Spread(w, out[..|out| - 1], mass, total), e.to, Part(mass, e.w, total))
  }

  /** The first queued node's residual becomes zero; a part of it is settled and its links are resolved. */
  function Taken(links: Links, w: Walk): Walk
    requires w.queue != []
  {
    var u := w.queue[0];
    var r := At(w.residual, u);
    Walk(w.residual[u := 0.0], w.scores[u := At(w.scores, u) + ALPHA * r], Resolved(links, w.adj, u), w.queue[1..])
  }

  /** One push. */
  function Step(links: Links, w: Walk): Walk
    requires w.queue != []
  {
    var u := w.queue[0];
    var r := At(w.residual, u);
    if r < EPSILON then w.(queue := w.queue[1..])
    else
      var out := Followed(links, w.adj, u);
      var s := Taken(links, w);
      if TotalWeight(out) == 0.0 then s.(scores := s.scores[u := At(s.scores, u) + (1.0 - ALPHA) * r])
      else Spread(s, out, (1.0 - ALPHA) * r, TotalWeight(out))
  }

  function Run(links: Links, w: Walk, pushes: nat): Walk
    decreases pushes
  {
    if w.queue == [] || pushes == 0 then w else Run(links, Step(links, w), pushes - 1)
  }

  // ---------------------------------------------------------------------------------------------
  // The loops

  /** Where the pushes start: every seed queued, in ascending order. */
  ghost predicate Starts(w: Walk, seeds: Weights)
  {
    && w.residual == seeds && w.scores == map[] && w.adj == map[]
    && (forall u :: u in w.queue <==> u in seeds)
    && (forall i, j :: 0 <= i < j < |w.queue| ==> w.queue[i] < w.queue[j])
  }

  method Push(links: Links, seeds: Weights) returns (w: Walk)
    ensures exists first :: Starts(first, seeds) && w == Run(links, first, MAX_PUSHES)
    ensures |w.adj| <= 80 && |w.scores| <= 600
    ensures Sensible(links, seeds) ==>
      forall u :: u in seeds && Rank(seeds, u) < 600 && seeds[u] >= 0.0005 ==> At(w.scores, u) >= 0.25 * seeds[u]
    ensures forall nodes :: Closed(links, nodes) && seeds.Keys <= nodes && |nodes| <= 80 ==> Among(links, w, nodes)
  {
    hide Rank, Closed, Among, Sensible;
    var queue := Ascending(seeds.Keys);
    w := Walk(seeds, map[], map[], queue);
    ghost var first := w;
    var pushes := 0;
    while w.queue != [] && pushes < MAX_PUSHES
      decreases MAX_PUSHES - pushes
      invariant pushes <= MAX_PUSHES && Run(links, w, MAX_PUSHES - pushes) == Run(links, first, MAX_PUSHES)
    {
      w := PushOne(links, w);
      pushes := pushes + 1;
    }
    PushReaches(links, first, seeds);
  }

  method PushOne(links: Links, was: Walk) returns (w: Walk)
    requires was.queue != []
    ensures w == Step(links, was)
  {
    hide TotalWeight, Part, Deliver, Spread, Followed, Resolved;
    var u := was.queue[0];
    w := was.(queue := was.queue[1..]);
    var r := At(w.residual, u);
    if r < EPSILON { return; }
    w := w.(residual := w.residual[u := 0.0], scores := w.scores[u := At(w.scores, u) + ALPHA * r]);
    var out := Followed(links, w.adj, u);
    w := w.(adj := Resolved(links, w.adj, u));
    assert w == Taken(links, was);
    var total := SumWeights(out);
    if total == 0.0 {
      w := w.(scores := w.scores[u := At(w.scores, u) + (1.0 - ALPHA) * r]);
      return;
    }
    w := SpreadOut(w, out, (1.0 - ALPHA) * r, total);
  }

  method SumWeights(out: seq<Edge>) returns (total: real)
    ensures total == TotalWeight(out)
  {
    total := 0.0;
    for i := 0 to |out|
      invariant total == TotalWeight(out[..i])
    {
      assert out[..i + 1][..i] == out[..i];
      total := total + out[i].w;
    }
    assert out[..|out|] == out;
  }

  method SpreadOut(was: Walk, out: seq<Edge>, mass: real, total: real) returns (w: Walk)
    requires total != 0.0
    ensures w == Spread(was, out, mass, total)
  {
    hide Part;
    w := was;
    for i := 0 to |out|
      invariant w == Spread(was, out[..i], mass, total)
    {
      assert out[..i + 1][..i] == out[..i];
      var m := Part(mass, out[i].w, total);
      var before := At(w.residual, out[i].to);
      w := w.(residual := w.residual[out[i].to := before + m]);
      if before < EPSILON && before + m >= EPSILON {
        w := w.(queue := w.queue + [out[i].to]);
      }
    }
    assert out[..|out|] == out;
  }

  /** The keys in ascending order. */
  method Ascending(keys: set<nat>) returns (s: seq<nat>)
    ensures forall u :: u in s <==> u in keys
    ensures forall i, j :: 0 <= i < j < |s| ==> s[i] < s[j]
  {
    s := [];
    var todo := keys;
    while todo != {}
      invariant todo <= keys
      invariant forall u :: u in s <==> u in keys && u !in todo
      invariant forall i, j :: 0 <= i < j < |s| ==> s[i] < s[j]
      invariant forall u, v :: u in s && v in todo ==> u < v
    {
      var u := Least(todo);
      assert forall i :: 0 <= i < |s| ==> s[i] in s;
      s := s + [u];
      todo := todo - {u};
    }
  }

  method Least(keys: set<nat>) returns (u: nat)
    requires keys != {}
    ensures u in keys && forall v :: v in keys ==> u <= v
  {
    u :| u in keys;
    var todo := keys - {u};
    while todo != {}
      invariant todo <= keys && u in keys
      invariant forall v :: v in keys && v !in todo ==> u <= v
    {
      var v :| v in todo;
      todo := todo - {v};
      if v < u { u := v; }
    }
  }

  // ---------------------------------------------------------------------------------------------
  // The linear invariant

  /** The weighted sum of f over the nodes below n. */
  ghost function Dot(m: Weights, f: nat -> real, n: nat): real
  {
    if n == 0 then 0.0 else Dot(m, f, n - 1) + At(m, n - 1) * f(n - 1)
  }

  /** The links' targets averaged by weight, before dividing by the total. */
  ghost function Along(out: seq<Edge>, h: nat -> real): real
  {
    if out == [] then 0.0 else Along(out[..|out| - 1], h) + out[|out| - 1].w * h(out[|out| - 1].to)
  }

  /** h is what f is worth when followed along the links: a node without weight keeps its f. */
  ghost predicate SolvesAt(f: nat -> real, h: nat -> real, out: seq<Edge>, u: nat)
  {
    var total := TotalWeight(out);
    h(u) == if total == 0.0 then f(u) else 0.25 * f(u) + 0.75 * (Along(out, h) / total)
  }

  ghost predicate Bounded(m: Weights, n: nat)
  {
    forall u :: u in m ==> u < n
  }

  ghost predicate Within(out: seq<Edge>, n: nat)
  {
    forall i :: 0 <= i < |out| ==> out[i].to < n
  }

  ghost predicate Below(queue: seq<nat>, n: nat)
  {
    forall i :: 0 <= i < |queue| ==> queue[i] < n
  }

  /** All nodes are below n. */
  ghost predicate Fits(links: Links, w: Walk, n: nat)
  {
    && Below(w.queue, n)
    && (forall u: nat :: u < n ==> Within(links(u), n))
    && (forall u :: u in w.adj ==> u < n && w.adj[u] == links(u))
  }

  ghost function Worth(w: Walk, f: nat -> real, h: nat -> real, n: nat): real
  {
    Dot(w.scores, f, n) + Dot(w.residual, h, n)
  }

  /** A product, kept apart from linear reasoning. */
  ghost function Prod(a: real, b: real): real
  {
    a * b
  }

  lemma {:induction false} ProdDifference(a: real, b: real, f: real)
    ensures a * f == b * f + Prod(a - b, f)
  {
  }

  lemma {:induction false} DotSet(m: Weights, u: nat, v: real, f: nat -> real, n: nat)
    ensures Dot(m[u := v], f, n) == Dot(m, f, n) + if u < n then Prod(v - At(m, u), f(u)) else 0.0
  {
    hide Prod;
    if n > 0 {
      DotSet(m, u, v, f, n - 1);
      if u == n - 1 { ProdDifference(v, At(m, u), f(u)); }
    }
  }

  lemma {:induction false} DeliverDot(w: Walk, v: nat, m: real, h: nat -> real, n: nat)
    requires v < n
    ensures Dot(Deliver(w, v, m).residual, h, n) == Dot(w.residual, h, n) + Prod(m, h(v))
  {
    hide Dot, Prod;
    DotSet(w.residual, v, At(w.residual, v) + m, h, n);
  }

  lemma {:induction false} Share(mass: real, w: real, total: real, h: real, along: real)
    requires total != 0.0
    ensures Prod(mass / total, along) + Prod(Part(mass, w, total), h) == Prod(mass / total, along + w * h)
  {
    assert Part(mass, w, total) == (mass / total) * w;
    assert ((mass / total) * w) * h == (mass / total) * (w * h);
  }

  /** What a spread adds: the mass times the average of h along the links. */
  lemma {:induction false} SpreadDot(w: Walk, out: seq<Edge>, mass: real, total: real, h: nat -> real, n: nat)
    requires total != 0.0 && Within(out, n)
    ensures Dot(Spread(w, out, mass, total).residual, h, n) == Dot(w.residual, h, n) + Prod(mass / total, Along(out, h))
  {
    hide Dot, Part, Deliver;
    if out != [] {
      var front, e := out[..|out| - 1], out[|out| - 1];
      SpreadDot(w, front, mass, total, h, n);
      DeliverDot(Spread(w, front, mass, total), e.to, Part(mass, e.w, total), h, n);
      Share(mass, e.w, total, h(e.to), Along(front, h));
    }
  }

  /** A spread settles nothing, resolves nothing, and queues only link targets. */
  lemma {:induction false} SpreadFrame(w: Walk, out: seq<Edge>, mass: real, total: real, n: nat)
    requires total != 0.0
    ensures Spread(w, out, mass, total).adj == w.adj && Spread(w, out, mass, total).scores == w.scores
    ensures Within(out, n) && Below(w.queue, n) ==> Below(Spread(w, out, mass, total).queue, n)
  {
    hide Part;
    if out != [] { SpreadFrame(w, out[..|out| - 1], mass, total, n); }
  }

  /** Adding d at u. */
  lemma {:induction false} DotAdd(m: Weights, u: nat, d: real, f: nat -> real, n: nat)
    requires u < n
    ensures Dot(m[u := At(m, u) + d], f, n) == Dot(m, f, n) + Prod(d, f(u))
  {
    hide Dot, Prod;
    DotSet(m, u, At(m, u) + d, f, n);
  }

  /** Taking all there is at u. */
  lemma {:induction false} DotTake(m: Weights, u: nat, h: nat -> real, n: nat)
    requires u < n
    ensures Dot(m[u := 0.0], h, n) == Dot(m, h, n) - Prod(At(m, u), h(u))
  {
    hide Dot;
    DotSet(m, u, 0.0, h, n);
    assert Prod(0.0 - At(m, u), h(u)) == 0.0 - Prod(At(m, u), h(u));
  }

  /** Taking a node moves its mass: a part to its score, the rest still to be spread. */
  lemma {:induction false} TakenWorth(links: Links, w: Walk, f: nat -> real, h: nat -> real, n: nat)
    requires w.queue != [] && w.queue[0] < n
    ensures var u := w.queue[0]; var r := At(w.residual, u);
      Worth(Taken(links, w), f, h, n) == Worth(w, f, h, n) + Prod(ALPHA * r, f(u)) - Prod(r, h(u))
  {
    hide Dot, Resolved, At, Prod;
    var u := w.queue[0];
    DotTake(w.residual, u, h, n);
    DotAdd(w.scores, u, ALPHA * At(w.residual, u), f, n);
  }

  /** A push changes nobody's worth. */
  lemma {:induction false} StepKeepsWorth(links: Links, w: Walk, f: nat -> real, h: nat -> real, n: nat)
    requires w.queue != [] && Fits(links, w, n)
    requires SolvesAt(f, h, Followed(links, w.adj, w.queue[0]), w.queue[0])
    ensures Worth(Step(links, w), f, h, n) == Worth(w, f, h, n)
  {
    hide Dot, Taken, Along, TotalWeight, Spread, Followed, Resolved, At, Prod;
    var u := w.queue[0];
    if At(w.residual, u) >= EPSILON {
      TakenWorth(links, w, f, h, n);
      if TotalWeight(Followed(links, w.adj, u)) == 0.0 {
        SettleWorth(links, w, f, h, n);
      } else {
        SpreadWorth(links, w, f, h, n);
      }
    }
  }

  lemma {:induction false} SettleWorth(links: Links, w: Walk, f: nat -> real, h: nat -> real, n: nat)
    requires w.queue != [] && w.queue[0] < n
    ensures var u := w.queue[0]; var r := At(w.residual, u); var s := Taken(links, w);
      Worth(s.(scores := s.scores[u := At(s.scores, u) + (1.0 - ALPHA) * r]), f, h, n) + Prod(ALPHA * r, f(u)) == Worth(s, f, h, n) + Prod(r, f(u))
  {
    hide Dot, Taken, At, Prod;
    var u := w.queue[0];
    var r := At(w.residual, u);
    DotAdd(Taken(links, w).scores, u, (1.0 - ALPHA) * r, f, n);
    Whole(r, f(u));
  }

  lemma {:induction false} SpreadWorth(links: Links, w: Walk, f: nat -> real, h: nat -> real, n: nat)
    requires w.queue != [] && Fits(links, w, n) && w.queue[0] < n
    requires TotalWeight(Followed(links, w.adj, w.queue[0])) != 0.0
    requires SolvesAt(f, h, Followed(links, w.adj, w.queue[0]), w.queue[0])
    ensures var u := w.queue[0]; var r := At(w.residual, u); var s := Taken(links, w); var out := Followed(links, w.adj, u);
      Worth(Spread(s, out, (1.0 - ALPHA) * r, TotalWeight(out)), f, h, n) + Prod(ALPHA * r, f(u)) == Worth(s, f, h, n) + Prod(r, h(u))
  {
    hide Dot, Taken, At, Along, TotalWeight, Spread, Prod;
    var u := w.queue[0];
    var r := At(w.residual, u);
    var out := Followed(links, w.adj, u);
    var total := TotalWeight(out);
    var s := Taken(links, w);
    assert Within(out, n) by { assert Within(links(u), n); }
    SpreadDot(s, out, (1.0 - ALPHA) * r, total, h, n);
    SpreadFrame(s, out, (1.0 - ALPHA) * r, total, n);
    Balance(r, f(u), h(u), Along(out, h), total);
  }

  lemma {:induction false} Whole(r: real, f: real)
    ensures Prod(ALPHA * r, f) + Prod((1.0 - ALPHA) * r, f) == Prod(r, f)
  {
  }

  lemma {:induction false} Balance(r: real, f: real, h: real, along: real, total: real)
    requires total != 0.0 && h == ALPHA * f + (1.0 - ALPHA) * (along / total)
    ensures Prod(ALPHA * r, f) + Prod((1.0 - ALPHA) * r / total, along) == Prod(r, h)
  {
    var q := along / total;
    assert ((1.0 - ALPHA) * r / total) * along == ((1.0 - ALPHA) * r) * q;
    assert r * h == (ALPHA * r) * f + ((1.0 - ALPHA) * r) * q;
  }

  /** Followed links never change: those of a resolved node are kept, and a full table stays full. */
  lemma {:induction false} RunKeepsLinks(links: Links, w: Walk, pushes: nat)
    ensures var end := Run(links, w, pushes);
      && (forall u :: u in w.adj ==> u in end.adj && end.adj[u] == w.adj[u])
      && (|w.adj| >= MAX_EXPANSIONS ==> end.adj == w.adj)
    decreases pushes
  {
    hide Step;
    if w.queue != [] && pushes > 0 {
      StepLinks(links, w);
      RunKeepsLinks(links, Step(links, w), pushes - 1);
    }
  }

  lemma {:induction false} StepLinks(links: Links, w: Walk)
    requires w.queue != []
    ensures var u := w.queue[0];
      Step(links, w).adj == (if At(w.residual, u) < EPSILON then w.adj else Resolved(links, w.adj, u))
  {
    hide Spread, Followed, Resolved, TotalWeight;
    var u := w.queue[0];
    var r := At(w.residual, u);
    var out := Followed(links, w.adj, u);
    if r >= EPSILON && TotalWeight(out) != 0.0 {
      SpreadFrame(Taken(links, w), out, (1.0 - ALPHA) * r, TotalWeight(out), 0);
    }
  }

  lemma {:induction false} StepFits(links: Links, w: Walk, n: nat)
    requires w.queue != [] && Fits(links, w, n)
    ensures Fits(links, Step(links, w), n)
  {
    hide Spread, TotalWeight;
    var u := w.queue[0];
    var r := At(w.residual, u);
    var out := Followed(links, w.adj, u);
    assert Within(out, n) by { assert Within(links(u), n); }
    StepLinks(links, w);
    if r >= EPSILON && TotalWeight(out) != 0.0 {
      SpreadFrame(Taken(links, w), out, (1.0 - ALPHA) * r, TotalWeight(out), n);
    }
  }

  /** The links as the whole run follows them: the resolved ones; other nodes lead nowhere. */
  function Effective(end: Walk, u: nat): seq<Edge>
  {
    if u in end.adj then end.adj[u] else []
  }

  lemma {:induction false} FollowedIsEffective(links: Links, w: Walk, pushes: nat)
    requires w.queue != [] && At(w.residual, w.queue[0]) >= EPSILON
    ensures Followed(links, w.adj, w.queue[0]) == Effective(Run(links, Step(links, w), pushes), w.queue[0])
  {
    hide Step, Run;
    StepLinks(links, w);
    RunKeepsLinks(links, Step(links, w), pushes);
  }

  function Leads(end: Walk): Links
  {
    (u: nat) => Effective(end, u)
  }

  /** Every push of the run that is not skipped follows these links. */
  ghost predicate Follows(links: Links, w: Walk, pushes: nat, outs: Links)
    decreases pushes
  {
    w.queue == [] || pushes == 0 ||
    (&& (At(w.residual, w.queue[0]) >= EPSILON ==> Followed(links, w.adj, w.queue[0]) == outs(w.queue[0]))
     && Follows(links, Step(links, w), pushes - 1, outs))
  }

  /** A run follows the links it resolves. */
  lemma {:induction false} FollowsItsOwn(links: Links, w: Walk, pushes: nat)
    ensures Follows(links, w, pushes, Leads(Run(links, w, pushes)))
    decreases pushes
  {
    hide Step, Followed, Effective;
    if w.queue != [] && pushes > 0 {
      assert Run(links, w, pushes) == Run(links, Step(links, w), pushes - 1);
      FollowsItsOwn(links, Step(links, w), pushes - 1);
      if At(w.residual, w.queue[0]) >= EPSILON { FollowedIsEffective(links, w, pushes - 1); }
    }
  }

  /** h is what f is worth along these links, at every node below n. */
  ghost predicate Solves(f: nat -> real, h: nat -> real, outs: Links, n: nat)
  {
    forall u: nat :: u < n ==> SolvesAt(f, h, outs(u), u)
  }

  /**
   Over a whole run, for any f and any h solving the equation along the links the run follows, scores · f + residual · h
   stays what it was.
   */
  lemma {:induction false} RunKeepsWorth(links: Links, w: Walk, pushes: nat, outs: Links, f: nat -> real, h: nat -> real, n: nat)
    requires Fits(links, w, n) && Follows(links, w, pushes, outs) && Solves(f, h, outs, n)
    ensures Worth(Run(links, w, pushes), f, h, n) == Worth(w, f, h, n)
    decreases pushes
  {
    hide Step, Worth, SolvesAt, Followed;
    if w.queue != [] && pushes > 0 {
      var next := Step(links, w);
      StepFits(links, w, n);
      RunKeepsWorth(links, next, pushes - 1, outs, f, h, n);
      if At(w.residual, w.queue[0]) >= EPSILON {
        StepKeepsWorth(links, w, f, h, n);
      } else {
        SkipKeepsWorth(links, w, f, h, n);
      }
    }
  }

  lemma {:induction false} SkipKeepsWorth(links: Links, w: Walk, f: nat -> real, h: nat -> real, n: nat)
    requires w.queue != [] && At(w.residual, w.queue[0]) < EPSILON
    ensures Worth(Step(links, w), f, h, n) == Worth(w, f, h, n)
  {
  }

  // ---------------------------------------------------------------------------------------------
  // Few nodes: every link is followed

  /** No link leads out of the nodes. */
  ghost predicate Closed(links: Links, nodes: set<nat>)
  {
    forall u, i :: u in nodes && 0 <= i < |links(u)| ==> links(u)[i].to in nodes
  }

  /** The walk stays among the nodes and resolves each to its links; every node with a score is resolved. */
  ghost predicate Among(links: Links, w: Walk, nodes: set<nat>)
  {
    && (forall u :: u in w.queue ==> u in nodes)
    && (forall u :: u in w.adj ==> u in nodes && w.adj[u] == links(u))
    && (forall u :: u in w.scores ==> u in w.adj)
  }

  /** With at most 80 nodes to reach there is always room to resolve another. */
  lemma {:induction false} RoomLeft(links: Links, w: Walk, nodes: set<nat>, u: nat)
    requires Among(links, w, nodes) && |nodes| <= 80 && u in nodes
    ensures Followed(links, w.adj, u) == links(u) && Resolved(links, w.adj, u) == w.adj[u := links(u)]
  {
    if u !in w.adj {
      assert w.adj.Keys <= nodes - {u};
      Fewer(w.adj.Keys, nodes - {u});
    } else {
      assert w.adj[u := links(u)] == w.adj;
    }
  }

  lemma {:induction false} Fewer(a: set<nat>, b: set<nat>)
    requires a <= b
    ensures |a| <= |b|
  {
    assert b == a + (b - a);
  }

  lemma {:induction false} SpreadStaysAmong(links: Links, w: Walk, out: seq<Edge>, mass: real, total: real, nodes: set<nat>)
    requires total != 0.0 && Among(links, w, nodes) && forall i :: 0 <= i < |out| ==> out[i].to in nodes
    ensures Among(links, Spread(w, out, mass, total), nodes)
  {
    hide Part;
    if out != [] { SpreadStaysAmong(links, w, out[..|out| - 1], mass, total, nodes); }
  }

  lemma {:induction false} StepStaysAmong(links: Links, w: Walk, nodes: set<nat>)
    requires w.queue != [] && Among(links, w, nodes) && Closed(links, nodes) && |nodes| <= 80
    ensures Followed(links, w.adj, w.queue[0]) == links(w.queue[0]) && Among(links, Step(links, w), nodes)
  {
    hide Spread, TotalWeight, Followed, Resolved;
    var u := w.queue[0];
    var r := At(w.residual, u);
    RoomLeft(links, w, nodes, u);
    if r >= EPSILON {
      var s := Taken(links, w);
      assert Among(links, s, nodes);
      if TotalWeight(links(u)) != 0.0 { SpreadStaysAmong(links, s, links(u), (1.0 - ALPHA) * r, TotalWeight(links(u)), nodes); }
    }
  }

  /** A run among at most 80 nodes follows the links themselves, and resolves every node that it scores. */
  lemma {:induction false} FollowsLinks(links: Links, w: Walk, pushes: nat, nodes: set<nat>)
    requires Among(links, w, nodes) && Closed(links, nodes) && |nodes| <= 80
    ensures Follows(links, w, pushes, links) && Among(links, Run(links, w, pushes), nodes)
    decreases pushes
  {
    hide Step, Among, Closed, Followed;
    if w.queue != [] && pushes > 0 {
      StepStaysAmong(links, w, nodes);
      FollowsLinks(links, Step(links, w), pushes - 1, nodes);
    }
  }

  /** However many nodes there are, at most 80 are resolved. */
  lemma {:induction false} FewResolved(links: Links, w: Walk, pushes: nat)
    requires |w.adj| <= 80
    ensures |Run(links, w, pushes).adj| <= 80
    decreases pushes
  {
    hide Step;
    if w.queue != [] && pushes > 0 {
      StepLinks(links, w);
      FewResolved(links, Step(links, w), pushes - 1);
    }
  }

  lemma {:induction false} StepScores(links: Links, w: Walk)
    requires w.queue != []
    ensures Step(links, w).scores.Keys <= w.scores.Keys + {w.queue[0]}
  {
    hide Spread, Followed, Resolved, TotalWeight;
    var u := w.queue[0];
    var r := At(w.residual, u);
    var out := Followed(links, w.adj, u);
    if r >= EPSILON && TotalWeight(out) != 0.0 {
      SpreadFrame(Taken(links, w), out, (1.0 - ALPHA) * r, TotalWeight(out), 0);
    }
  }

  /** Each push scores one node. */
  lemma {:induction false} FewScored(links: Links, w: Walk, pushes: nat)
    ensures |Run(links, w, pushes).scores| <= |w.scores| + pushes
    decreases pushes
  {
    hide Step;
    if w.queue != [] && pushes > 0 {
      StepScores(links, w);
      Fewer(Step(links, w).scores.Keys, w.scores.Keys + {w.queue[0]});
      assert |w.scores.Keys + {w.queue[0]}| <= |w.scores.Keys| + 1;
      FewScored(links, Step(links, w), pushes - 1);
    }
  }

  // ---------------------------------------------------------------------------------------------
  // Every seed that matters is pushed

  ghost predicate Positive(links: Links, w: Walk)
  {
    && (forall u: nat :: NonNegative(links(u)))
    && (forall u :: u in w.adj ==> NonNegative(w.adj[u]))
    && forall u: nat :: At(w.residual, u) >= 0.0 && At(w.scores, u) >= 0.0
  }

  /** Spreading only adds residual mass and only appends to the queue. */
  lemma {:induction false} SpreadAdds(w: Walk, out: seq<Edge>, mass: real, total: real)
    requires total > 0.0 && mass >= 0.0 && NonNegative(out)
    ensures var s := Spread(w, out, mass, total);
      w.queue <= s.queue && s.scores == w.scores && s.adj == w.adj && forall u: nat :: At(s.residual, u) >= At(w.residual, u)
  {
    hide Part;
    if out != [] {
      var n := |out| - 1;
      SpreadAdds(w, out[..n], mass, total);
      PartIsNonNegative(mass, out[n].w, total);
    }
  }

  /** A push takes the first of the queue, adds to the other residuals, and lowers no score. */
  lemma {:induction false} StepAdds(links: Links, w: Walk)
    requires w.queue != [] && Positive(links, w)
    ensures var s := Step(links, w); var u := w.queue[0];
      && Positive(links, s) && w.queue[1..] <= s.queue
      && (forall v: nat :: v != u ==> At(s.residual, v) >= At(w.residual, v))
      && (forall v: nat :: At(s.scores, v) >= At(w.scores, v))
      && (At(w.residual, u) >= EPSILON ==> At(s.scores, u) >= ALPHA * At(w.residual, u))
  {
    hide Spread, TotalWeight;
    var u := w.queue[0];
    var r := At(w.residual, u);
    var out := Followed(links, w.adj, u);
    assert NonNegative(out) by { assert NonNegative(links(u)); }
    assert r >= 0.0 && At(w.scores, u) >= 0.0;
    if r >= EPSILON {
      var s := Taken(links, w);
      assert forall v: nat :: v != u ==> At(s.residual, v) == At(w.residual, v) && At(s.scores, v) == At(w.scores, v);
      assert forall v :: v in s.adj ==> NonNegative(s.adj[v]);
      if TotalWeight(out) != 0.0 {
        WeightIsNonNegative(out);
        SpreadAdds(s, out, (1.0 - ALPHA) * r, TotalWeight(out));
      }
    }
  }

  lemma {:induction false} ScoresGrow(links: Links, w: Walk, pushes: nat, u: nat)
    requires Positive(links, w)
    ensures At(Run(links, w, pushes).scores, u) >= At(w.scores, u)
    decreases pushes
  {
    hide Step, Positive, At;
    if w.queue != [] && pushes > 0 {
      StepAdds(links, w);
      ScoresGrow(links, Step(links, w), pushes - 1, u);
    }
  }

  /** A queued node that nothing before it in the queue repeats scores at least its part of the residual it has. */
  lemma {:induction false} QueuedScores(links: Links, w: Walk, pushes: nat, i: nat)
    requires Positive(links, w) && i < |w.queue| && i < pushes && At(w.residual, w.queue[i]) >= EPSILON
    requires forall k :: 0 <= k < i ==> w.queue[k] != w.queue[i]
    ensures At(Run(links, w, pushes).scores, w.queue[i]) >= ALPHA * At(w.residual, w.queue[i])
    decreases i
  {
    hide Step, Positive, At, Run;
    var u := w.queue[i];
    var next := Step(links, w);
    StepAdds(links, w);
    assert Run(links, w, pushes) == Run(links, next, pushes - 1) by { RunStep(links, w, pushes); }
    if i == 0 {
      ScoresGrow(links, next, pushes - 1, u);
    } else {
      assert forall k :: 0 <= k < |w.queue| - 1 ==> next.queue[k] == w.queue[1..][k] == w.queue[k + 1];
      assert u != w.queue[0];
      QueuedScores(links, next, pushes - 1, i - 1);
    }
  }

  lemma {:induction false} RunStep(links: Links, w: Walk, pushes: nat)
    requires w.queue != [] && pushes > 0
    ensures Run(links, w, pushes) == Run(links, Step(links, w), pushes - 1)
  {
  }

  /** How many seeds come before u. */
  ghost function Rank(seeds: Weights, u: nat): nat
  {
    |Earlier(seeds, u)|
  }

  ghost function Earlier(seeds: Weights, u: nat): set<nat>
  {
    set v | v in seeds && v < u
  }

  lemma {:induction false} PlaceIsRank(queue: seq<nat>, seeds: Weights, i: nat)
    requires (forall u :: u in queue <==> u in seeds) && (forall j, k :: 0 <= j < k < |queue| ==> queue[j] < queue[k]) && i < |queue|
    ensures Rank(seeds, queue[i]) == i
  {
    var before := Earlier(seeds, queue[i]);
    Members(queue, i);
    assert before == Firsts(queue, i) by {
      forall v ensures v in before <==> v in Firsts(queue, i) {
        if v in before {
          var k :| 0 <= k < |queue| && queue[k] == v;
          assert k < i;
        }
      }
    }
  }

  ghost function Firsts(queue: seq<nat>, i: nat): set<nat>
    requires i <= |queue|
  {
    set k | 0 <= k < i :: queue[k]
  }

  lemma {:induction false} Members(queue: seq<nat>, i: nat)
    requires i <= |queue| && forall j, k :: 0 <= j < k < |queue| ==> queue[j] < queue[k]
    ensures |Firsts(queue, i)| == i
  {
    if i == 0 {
      assert Firsts(queue, 0) == {};
    } else {
      Members(queue, i - 1);
      assert Firsts(queue, i) == Firsts(queue, i - 1) + {queue[i - 1]};
      assert queue[i - 1] !in Firsts(queue, i - 1);
    }
  }

  /** Link weights and seeds are not negative. */
  ghost predicate Sensible(links: Links, seeds: Weights)
  {
    (forall u: nat :: NonNegative(links(u))) && forall u :: u in seeds ==> seeds[u] >= 0.0
  }

  /** What Push promises of the first 600 seeds, and of walks that reach at most 80 nodes. */
  lemma {:induction false} PushReaches(links: Links, first: Walk, seeds: Weights)
    requires Starts(first, seeds)
    ensures var w := Run(links, first, MAX_PUSHES);
      && |w.adj| <= 80 && |w.scores| <= 600
      && (Sensible(links, seeds) ==>
            forall u :: u in seeds && Rank(seeds, u) < 600 && seeds[u] >= 0.0005 ==> At(w.scores, u) >= 0.25 * seeds[u])
      && forall nodes :: Closed(links, nodes) && seeds.Keys <= nodes && |nodes| <= 80 ==> Among(links, w, nodes)
  {
    hide Run, Among, Closed;
    FewResolved(links, first, MAX_PUSHES);
    FewScored(links, first, MAX_PUSHES);
    if Sensible(links, seeds) {
      forall u | u in seeds && Rank(seeds, u) < 600 && seeds[u] >= 0.0005
        ensures At(Run(links, first, MAX_PUSHES).scores, u) >= 0.25 * seeds[u]
      {
        assert u in first.queue;
        var i: nat :| i < |first.queue| && first.queue[i] == u;
        PlaceIsRank(first.queue, seeds, i);
        QueuedScores(links, first, MAX_PUSHES, i);
      }
    }
    forall nodes | Closed(links, nodes) && seeds.Keys <= nodes && |nodes| <= 80 ensures Among(links, Run(links, first, MAX_PUSHES), nodes) {
      StartsAmong(links, first, seeds, nodes);
      FollowsLinks(links, first, MAX_PUSHES, nodes);
    }
  }

  lemma {:induction false} StartsAmong(links: Links, first: Walk, seeds: Weights, nodes: set<nat>)
    requires Starts(first, seeds) && seeds.Keys <= nodes
    ensures Among(links, first, nodes)
  {
  }

  // ---------------------------------------------------------------------------------------------
  // Mass, and what an empty queue means

  ghost function One(u: nat): real { 1.0 }

  lemma {:induction false} OneSolves(out: seq<Edge>, u: nat)
    ensures SolvesAt(One, One, out, u)
  {
    AlongOne(out);
  }

  lemma {:induction false} AlongOne(out: seq<Edge>)
    ensures Along(out, One) == TotalWeight(out)
  {
    if out != [] { AlongOne(out[..|out| - 1]); }
  }

  /** No mass is made or lost, however few pushes are allowed. */
  lemma {:induction false} MassIsConserved(links: Links, w: Walk, pushes: nat, n: nat)
    requires Fits(links, w, n)
    ensures var end := Run(links, w, pushes);
      Dot(end.scores, One, n) + Dot(end.residual, One, n) == Dot(w.scores, One, n) + Dot(w.residual, One, n)
  {
    var outs := Leads(Run(links, w, pushes));
    forall u: nat | u < n ensures SolvesAt(One, One, outs(u), u) { OneSolves(outs(u), u); }
    FollowsItsOwn(links, w, pushes);
    RunKeepsWorth(links, w, pushes, outs, One, One, n);
  }

  ghost predicate NonNegative(out: seq<Edge>)
  {
    forall i :: 0 <= i < |out| ==> out[i].w >= 0.0
  }

  /** Link weights are not negative, residuals are not negative, and every node with EPSILON or more is queued. */
  ghost predicate Active(links: Links, w: Walk)
  {
    && (forall u: nat :: NonNegative(links(u)))
    && (forall u :: u in w.adj ==> NonNegative(w.adj[u]))
    && Pending(w)
  }

  ghost predicate Pending(w: Walk)
  {
    forall u: nat :: At(w.residual, u) >= 0.0 && At(w.scores, u) >= 0.0 && (At(w.residual, u) >= EPSILON ==> u in w.queue)
  }

  lemma {:induction false} DeliverPends(w: Walk, v: nat, m: real)
    requires Pending(w) && m >= 0.0
    ensures Pending(Deliver(w, v, m))
  {
    forall u: nat ensures var d := Deliver(w, v, m);
      At(d.residual, u) >= 0.0 && At(d.scores, u) >= 0.0 && (At(d.residual, u) >= EPSILON ==> u in d.queue) {
      assert At(w.residual, u) >= 0.0;
    }
  }

  lemma {:induction false} PartIsNonNegative(mass: real, w: real, total: real)
    requires mass >= 0.0 && w >= 0.0 && total > 0.0
    ensures Part(mass, w, total) >= 0.0
  {
  }

  lemma {:induction false} WeightIsNonNegative(out: seq<Edge>)
    requires NonNegative(out)
    ensures TotalWeight(out) >= 0.0
  {
    if out != [] { WeightIsNonNegative(out[..|out| - 1]); }
  }

  lemma {:induction false} SpreadPends(w: Walk, out: seq<Edge>, mass: real, total: real)
    requires Pending(w) && NonNegative(out) && mass >= 0.0 && total > 0.0
    ensures Pending(Spread(w, out, mass, total))
  {
    hide Part, Deliver, Pending;
    if out != [] {
      SpreadPends(w, out[..|out| - 1], mass, total);
      PartIsNonNegative(mass, out[|out| - 1].w, total);
      DeliverPends(Spread(w, out[..|out| - 1], mass, total), out[|out| - 1].to, Part(mass, out[|out| - 1].w, total));
    }
  }

  lemma {:induction false} StepStaysActive(links: Links, w: Walk)
    requires w.queue != [] && Active(links, w)
    ensures Active(links, Step(links, w))
  {
    hide Spread, TotalWeight;
    var u := w.queue[0];
    var r := At(w.residual, u);
    var out := Followed(links, w.adj, u);
    assert NonNegative(out) by { assert NonNegative(links(u)); }
    StepLinks(links, w);
    TakenPends(links, w);
    if r >= EPSILON && TotalWeight(out) != 0.0 {
      WeightIsNonNegative(out);
      SpreadPends(Taken(links, w), out, (1.0 - ALPHA) * r, TotalWeight(out));
    }
  }

  lemma {:induction false} TakenPends(links: Links, w: Walk)
    requires w.queue != [] && Pending(w)
    ensures At(w.residual, w.queue[0]) >= EPSILON ==> Pending(Taken(links, w))
    ensures At(w.residual, w.queue[0]) < EPSILON ==> Pending(w.(queue := w.queue[1..]))
  {
    assert w.queue == [w.queue[0]] + w.queue[1..];
    assert At(w.residual, w.queue[0]) >= 0.0;
    var t := Taken(links, w);
    forall u: nat
      ensures At(w.residual, u) >= EPSILON && u != w.queue[0] ==> u in w.queue[1..]
      ensures At(w.residual, w.queue[0]) >= EPSILON ==>
        At(t.residual, u) >= 0.0 && At(t.scores, u) >= 0.0 && (At(t.residual, u) >= EPSILON ==> u in t.queue)
    {
      assert At(w.residual, u) >= 0.0;
    }
  }

  lemma {:induction false} RunStaysActive(links: Links, w: Walk, pushes: nat)
    requires Active(links, w)
    ensures Active(links, Run(links, w, pushes))
    decreases pushes
  {
    hide Step, Active;
    if w.queue != [] && pushes > 0 {
      StepStaysActive(links, w);
      RunStaysActive(links, Step(links, w), pushes - 1);
    }
  }

  /** If the queue runs empty, every residual is below 0.0005. */
  lemma {:induction false} EmptyQueueIsSettled(links: Links, w: Walk, pushes: nat, u: nat)
    requires Active(links, w) && Run(links, w, pushes).queue == []
    ensures 0.0 <= At(Run(links, w, pushes).residual, u) < 0.0005
  {
    hide Run;
    RunStaysActive(links, w, pushes);
    assert Pending(Run(links, w, pushes));
    assert At(Run(links, w, pushes).residual, u) >= 0.0;
  }

  // ---------------------------------------------------------------------------------------------
  // What the scores approximate

  ghost predicate Sound(outs: Links, n: nat)
  {
    forall u: nat :: u < n ==> Within(outs(u), n) && NonNegative(outs(u))
  }

  lemma {:induction false} AlongIsAtMost(out: seq<Edge>, h: nat -> real, top: real, n: nat)
    requires Within(out, n) && NonNegative(out) && forall v: nat :: v < n ==> h(v) <= top
    ensures Along(out, h) <= TotalWeight(out) * top
  {
    if out != [] {
      var front, e := out[..|out| - 1], out[|out| - 1];
      AlongIsAtMost(front, h, top, n);
      Scale(e.w, h(e.to), top);
      Distribute(TotalWeight(front), e.w, top);
    }
  }

  lemma {:induction false} Scale(w: real, a: real, b: real)
    requires w >= 0.0 && a <= b
    ensures w * a <= w * b
  {
  }

  lemma {:induction false} Distribute(a: real, b: real, c: real)
    ensures (a + b) * c == a * c + b * c
  {
  }

  lemma {:induction false} Highest(h: nat -> real, n: nat) returns (u: nat)
    requires n > 0
    ensures u < n && forall v: nat :: v < n ==> h(v) <= h(u)
  {
    if n == 1 {
      u := 0;
    } else {
      u := Highest(h, n - 1);
      if h(n - 1) > h(u) { u := n - 1; }
    }
  }

  /** A solution never exceeds a bound on what it averages. */
  lemma {:induction false} MaximumPrinciple(f: nat -> real, h: nat -> real, outs: Links, n: nat, c: real)
    requires Solves(f, h, outs, n) && Sound(outs, n) && forall u: nat :: u < n ==> f(u) <= c
    ensures forall u: nat :: u < n ==> h(u) <= c
  {
    hide Along, TotalWeight;
    if n > 0 {
      var u := Highest(h, n);
      var out := outs(u);
      var total := TotalWeight(out);
      assert SolvesAt(f, h, out, u);
      assert Within(out, n) && NonNegative(out);
      if total != 0.0 {
        WeightIsNonNegative(out);
        AlongIsAtMost(out, h, h(u), n);
        Divide(Along(out, h), total, h(u));
      }
    }
  }

  lemma {:induction false} Divide(a: real, t: real, b: real)
    requires t > 0.0 && a <= t * b
    ensures a / t <= b
  {
  }

  ghost function Minus(g: nat -> real, h: nat -> real): nat -> real
  {
    (v: nat) => g(v) - h(v)
  }

  lemma {:induction false} AlongDifference(out: seq<Edge>, g: nat -> real, h: nat -> real)
    ensures Along(out, Minus(g, h)) == Along(out, g) - Along(out, h)
  {
    if out != [] { AlongDifference(out[..|out| - 1], g, h); }
  }

  lemma {:induction false} DifferenceSolves(f: nat -> real, g: nat -> real, e: nat -> real, h: nat -> real, outs: Links, n: nat)
    requires Solves(f, g, outs, n) && Solves(e, h, outs, n)
    ensures Solves(Minus(f, e), Minus(g, h), outs, n)
  {
    hide Along, TotalWeight;
    var d := Minus(g, h);
    forall u: nat | u < n ensures SolvesAt(Minus(f, e), d, outs(u), u) {
      var out := outs(u);
      assert SolvesAt(f, g, out, u) && SolvesAt(e, h, out, u);
      AlongDifference(out, g, h);
    }
  }

  /** The equation has at most one solution, so what the scores approximate is well defined. */
  lemma {:induction false} SolutionIsUnique(f: nat -> real, g: nat -> real, h: nat -> real, outs: Links, n: nat)
    requires Solves(f, g, outs, n) && Solves(f, h, outs, n) && Sound(outs, n)
    ensures forall u: nat :: u < n ==> g(u) == h(u)
  {
    hide Solves, Sound;
    DifferenceSolves(f, g, f, h, outs, n);
    DifferenceSolves(f, h, f, g, outs, n);
    MaximumPrinciple(Minus(f, f), Minus(g, h), outs, n, 0.0);
    MaximumPrinciple(Minus(f, f), Minus(h, g), outs, n, 0.0);
    forall u: nat | u < n ensures g(u) == h(u) {
      assert Minus(g, h)(u) <= 0.0 && Minus(h, g)(u) <= 0.0;
    }
  }

  lemma {:induction false} DotIsAtMost(m: Weights, f: nat -> real, g: nat -> real, n: nat)
    requires forall u: nat :: u < n ==> At(m, u) >= 0.0 && f(u) <= g(u)
    ensures Dot(m, f, n) <= Dot(m, g, n)
  {
    if n > 0 {
      DotIsAtMost(m, f, g, n - 1);
      Scale(At(m, n - 1), f(n - 1), g(n - 1));
    }
  }

  ghost function Zero(u: nat): real { 0.0 }

  lemma {:induction false} DotOfZero(m: Weights, n: nat)
    ensures Dot(m, Zero, n) == 0.0
  {
    if n > 0 { DotOfZero(m, n - 1); }
  }

  lemma {:induction false} AlongZero(out: seq<Edge>)
    ensures Along(out, Zero) == 0.0
  {
    if out != [] { AlongZero(out[..|out| - 1]); }
  }

  lemma {:induction false} SolutionIsNonNegative(f: nat -> real, h: nat -> real, outs: Links, n: nat)
    requires Solves(f, h, outs, n) && Sound(outs, n) && forall u: nat :: u < n ==> 0.0 <= f(u)
    ensures forall u: nat :: u < n ==> 0.0 <= h(u)
  {
    hide Along, TotalWeight;
    assert Solves(Zero, Zero, outs, n) by {
      forall u: nat | u < n ensures SolvesAt(Zero, Zero, outs(u), u) { AlongZero(outs(u)); }
    }
    DifferenceSolves(Zero, Zero, f, h, outs, n);
    MaximumPrinciple(Minus(Zero, f), Minus(Zero, h), outs, n, 0.0);
    forall u: nat | u < n ensures 0.0 <= h(u) { assert Minus(Zero, h)(u) == 0.0 - h(u) <= 0.0; }
  }

  /**
   However few pushes are allowed: for any f between 0 and 1, what the scores give f is at most what the seeds are worth
   under the exact solution h along the links followed, and short of it by no more than the mass left over.
   */
  lemma {:induction false} ScoresUnderestimate(links: Links, first: Walk, seeds: Weights, pushes: nat, outs: Links, f: nat -> real, h: nat -> real, n: nat)
    requires Starts(first, seeds) && Fits(links, first, n) && Active(links, first)
    requires Follows(links, first, pushes, outs) && Sound(outs, n) && Solves(f, h, outs, n)
    requires forall u: nat :: u < n ==> 0.0 <= f(u) <= 1.0
    ensures var end := Run(links, first, pushes);
      Dot(end.scores, f, n) <= Dot(seeds, h, n) <= Dot(end.scores, f, n) + Dot(end.residual, One, n)
  {
    hide Along, TotalWeight, Run, SolvesAt, Dot, Follows;
    var end := Run(links, first, pushes);
    RunStaysActive(links, first, pushes);
    SolutionIsNonNegative(f, h, outs, n);
    MaximumPrinciple(f, h, outs, n, 1.0);
    RunKeepsWorth(links, first, pushes, outs, f, h, n);
    NothingScored(f, n);
    assert forall u: nat :: u < n ==> At(end.residual, u) >= 0.0;
    DotIsAtMost(end.residual, Zero, h, n);
    DotOfZero(end.residual, n);
    DotIsAtMost(end.residual, h, One, n);
  }

  /** So it is along the links that the run resolves, whatever they are. */
  lemma {:induction false} FollowedScores(links: Links, first: Walk, seeds: Weights, pushes: nat, f: nat -> real, h: nat -> real, n: nat)
    requires Starts(first, seeds) && Fits(links, first, n) && Active(links, first)
    requires Solves(f, h, Leads(Run(links, first, pushes)), n) && forall u: nat :: u < n ==> 0.0 <= f(u) <= 1.0
    ensures var end := Run(links, first, pushes);
      Dot(end.scores, f, n) <= Dot(seeds, h, n) <= Dot(end.scores, f, n) + Dot(end.residual, One, n)
  {
    hide Along, TotalWeight, Run, SolvesAt, Dot, Follows;
    var end := Run(links, first, pushes);
    RunFits(links, first, pushes, n);
    assert Sound(Leads(end), n) by {
      forall u: nat | u < n ensures Within(Effective(end, u), n) && NonNegative(Effective(end, u)) {
        if u in end.adj { assert Within(links(u), n) && NonNegative(links(u)); }
      }
    }
    FollowsItsOwn(links, first, pushes);
    ScoresUnderestimate(links, first, seeds, pushes, Leads(end), f, h, n);
  }

  /** And along the links themselves, when at most 80 nodes can be reached from the seeds. */
  lemma {:induction false} LinkedScores(links: Links, first: Walk, seeds: Weights, nodes: set<nat>, pushes: nat, f: nat -> real, h: nat -> real, n: nat)
    requires Starts(first, seeds) && Fits(links, first, n) && Active(links, first)
    requires Closed(links, nodes) && seeds.Keys <= nodes && |nodes| <= 80
    requires Solves(f, h, links, n) && forall u: nat :: u < n ==> 0.0 <= f(u) <= 1.0
    ensures var end := Run(links, first, pushes);
      && Dot(end.scores, f, n) <= Dot(seeds, h, n) <= Dot(end.scores, f, n) + Dot(end.residual, One, n)
      && Worth(end, f, h, n) == Dot(seeds, h, n)
  {
    hide Along, TotalWeight, Run, SolvesAt, Dot, Follows, Closed, Among;
    StartsAmong(links, first, seeds, nodes);
    FollowsLinks(links, first, pushes, nodes);
    assert Sound(links, n) by {
      forall u: nat | u < n ensures Within(links(u), n) && NonNegative(links(u)) {}
    }
    ScoresUnderestimate(links, first, seeds, pushes, links, f, h, n);
    RunKeepsWorth(links, first, pushes, links, f, h, n);
    NothingScored(f, n);
  }

  lemma {:induction false} NothingScored(f: nat -> real, n: nat)
    ensures Dot(map[], f, n) == 0.0
  {
    if n > 0 { NothingScored(f, n - 1); }
  }

  lemma {:induction false} RunFits(links: Links, w: Walk, pushes: nat, n: nat)
    requires Fits(links, w, n)
    ensures Fits(links, Run(links, w, pushes), n)
    decreases pushes
  {
    hide Step, Fits;
    if w.queue != [] && pushes > 0 {
      StepFits(links, w, n);
      RunFits(links, Step(links, w), pushes - 1, n);
    }
  }

  // ---------------------------------------------------------------------------------------------
  // How much work there can be

  /** How many of a run's pushes are not skipped. */
  function Pushed(links: Links, w: Walk, pushes: nat): nat
    decreases pushes
  {
    if w.queue == [] || pushes == 0 then 0
    else (if At(w.residual, w.queue[0]) < EPSILON then 0 else 1) + Pushed(links, Step(links, w), pushes - 1)
  }

  /** A push that is not skipped settles at least ALPHA times EPSILON. */
  lemma {:induction false} StepSettles(links: Links, w: Walk, n: nat)
    requires w.queue != [] && Fits(links, w, n) && Active(links, w)
    ensures Dot(Step(links, w).scores, One, n) >=
      Dot(w.scores, One, n) + if At(w.residual, w.queue[0]) < EPSILON then 0.0 else ALPHA * EPSILON
  {
    hide Dot, TotalWeight, Spread, Followed, Resolved, At, Prod;
    var u := w.queue[0];
    var r := At(w.residual, u);
    if r >= EPSILON {
      DotAdd(w.scores, u, ALPHA * r, One, n);
      ProdOne(ALPHA * r);
      var s := Taken(links, w);
      var out := Followed(links, w.adj, u);
      if TotalWeight(out) == 0.0 {
        DotAdd(s.scores, u, (1.0 - ALPHA) * r, One, n);
        ProdOne((1.0 - ALPHA) * r);
      } else {
        SpreadFrame(s, out, (1.0 - ALPHA) * r, TotalWeight(out), n);
      }
    }
  }

  lemma {:induction false} ProdOne(a: real)
    ensures forall u: nat :: Prod(a, One(u)) == a
  {
  }

  lemma {:induction false} PushesSettle(links: Links, w: Walk, pushes: nat, n: nat)
    requires Fits(links, w, n) && Active(links, w)
    ensures Dot(Run(links, w, pushes).scores, One, n) >= Dot(w.scores, One, n) + Pushed(links, w, pushes) as real * (ALPHA * EPSILON)
    decreases pushes
  {
    hide Step, Dot, Fits, Active, At;
    if w.queue != [] && pushes > 0 {
      StepSettles(links, w, n);
      StepFits(links, w, n);
      StepStaysActive(links, w);
      PushesSettle(links, Step(links, w), pushes - 1, n);
    }
  }

  /** The pushes that are not skipped number at most the mass still to spread over 0.000125, whatever the links. */
  lemma {:induction false} PushesAreBounded(links: Links, w: Walk, pushes: nat, n: nat)
    requires Fits(links, w, n) && Active(links, w)
    ensures Pushed(links, w, pushes) as real * 0.000125 <= Dot(w.residual, One, n)
  {
    hide Run, Dot, Fits, Pushed;
    var end := Run(links, w, pushes);
    PushesSettle(links, w, pushes, n);
    MassIsConserved(links, w, pushes, n);
    RunStaysActive(links, w, pushes);
    assert Pending(end);
    assert forall u: nat :: u < n ==> At(end.residual, u) >= 0.0;
    DotIsAtMost(end.residual, Zero, One, n);
    DotOfZero(end.residual, n);
  }

  // ---------------------------------------------------------------------------------------------
  // Seeds

  function Scaled(m: Weights, total: real): Weights
    requires total != 0.0
  {
    map u | u in m :: m[u] / total
  }

  ghost function Only(m: Weights, keys: set<nat>): Weights
  {
    map u | u in m && u in keys :: m[u]
  }

  /** normalize: scale the weights to sum to one, unless they sum to zero. */
  method Normalize(m: Weights, ghost n: nat) returns (r: Weights)
    requires Bounded(m, n)
    ensures Dot(m, One, n) == 0.0 ==> r == m
    ensures Dot(m, One, n) != 0.0 ==> r == Scaled(m, Dot(m, One, n)) && Dot(r, One, n) == 1.0
  {
    hide Dot, Scaled;
    var total := SumAll(m, n);
    if total == 0.0 { return m; }
    r := Scale1(m, total);
    ScaledDot(m, total, One, n);
    Itself(total);
  }

  lemma {:induction false} Itself(x: real)
    requires x != 0.0
    ensures x / x == 1.0
  {
  }

  method SumAll(m: Weights, ghost n: nat) returns (total: real)
    requires Bounded(m, n)
    ensures total == Dot(m, One, n)
  {
    hide Dot;
    total := 0.0;
    var todo := m.Keys;
    assert Only(m, m.Keys - todo) == map[];
    NothingScored(One, n);
    while todo != {}
      invariant todo <= m.Keys
      invariant total == Dot(Only(m, m.Keys - todo), One, n)
    {
      var u :| u in todo;
      OnlyGrows(m, todo, u, n);
      todo := todo - {u};
      total := total + m[u];
    }
    assert Only(m, m.Keys - todo) == m;
  }

  lemma {:induction false} OnlyGrows(m: Weights, todo: set<nat>, u: nat, n: nat)
    requires todo <= m.Keys && u in todo && Bounded(m, n)
    ensures Dot(Only(m, m.Keys - (todo - {u})), One, n) == Dot(Only(m, m.Keys - todo), One, n) + m[u]
  {
    hide Dot;
    var seen := Only(m, m.Keys - todo);
    assert Only(m, m.Keys - (todo - {u})) == seen[u := m[u]];
    DotSet(seen, u, m[u], One, n);
    assert Prod(m[u] - At(seen, u), One(u)) == m[u];
  }

  method Scale1(m: Weights, total: real) returns (r: Weights)
    requires total != 0.0
    ensures r == Scaled(m, total)
  {
    r := map[];
    var todo := m.Keys;
    while todo != {}
      invariant todo <= m.Keys && r.Keys == m.Keys - todo
      invariant forall u :: u in r ==> r[u] == m[u] / total
    {
      var u :| u in todo;
      todo := todo - {u};
      r := r[u := m[u] / total];
    }
  }

  lemma {:induction false} ScaledDot(m: Weights, total: real, f: nat -> real, n: nat)
    requires total != 0.0
    ensures Dot(Scaled(m, total), f, n) == Dot(m, f, n) / total
  {
    if n > 0 {
      ScaledDot(m, total, f, n - 1);
      assert At(Scaled(m, total), n - 1) == At(m, n - 1) / total;
      Quotients(Dot(m, f, n - 1), At(m, n - 1), f(n - 1), total);
    }
  }

  lemma {:induction false} Quotients(a: real, b: real, c: real, total: real)
    requires total != 0.0
    ensures a / total + (b / total) * c == (a + b * c) / total
  {
    assert (b / total) * c == (b * c) / total;
  }
}
