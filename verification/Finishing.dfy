// That posters and copies can always be finished.
module Finishing {
  import opened Common
  import opened Agreement
  import opened Delivery
  import opened NodeQueue
  import opened Redelivery

  // ---- posters ----

  // Where a linking poster may go on
  lemma PosterHere(w: World, m: Name, n: NodeId)
    requires WorldInv(w) && NoPanic(w) && m in w.posters && w.posters[m].linking
    requires if w.posters[m].at.Some? then w.posters[m].at.value == n else n in w.posters[m].todo
    ensures var a := if w.posters[m].at.Some? then Push(m) else Link(m);
      n in w.node && CanStep(w, At(n, a)) && NoPanic(Do(w, At(n, a))) &&
      Do(w, At(n, a)).posters == Booked(w.posters, n, a)
  {
    hide AllNodes, Quiet, Lost, ClientsOk, Linkage, Copies, Delivered, Do, CanStep, Apply;
    assert PosterInv(w, m, w.posters[m]);
    var a := if w.posters[m].at.Some? then Push(m) else Link(m);
    PosterStep(w, At(n, a));
    NotPanics(w.node[n], a);
  }

  lemma NotPanics(n: Node, a: Act)
    requires !n.panicked && (a.Link? || a.Push? || a.CopyIn?) && Enabled(n, a)
    ensures !Apply(n, a).panicked
  {
  }

  // A poster that links can link and push its message at all the nodes that it still has to come to,
  // and ack it to its sender.
  lemma {:induction false} LinksAll(w: World, m: Name) returns (ss: seq<Step>)
    requires WorldInv(w) && NoPanic(w) && m in w.posters && w.posters[m].linking
    ensures CanRun(w, ss) && NoPanic(Run(w, ss)) && m in Run(w, ss).delivered
    ensures Run(w, ss).delivered[m] == w.posters[m].targets - w.posters[m].skipped
    decreases |w.posters[m].todo|, if w.posters[m].at.Some? then 1 else 0
  {
    hide WorldInv, Do, CanStep;
    var p := w.posters[m];
    if p.at == None && p.todo == {} {
      FinishIs(w, m);
      OneStep(w, Finish(m));
      ss := [Finish(m)];
    } else {
      var n: NodeId;
      if p.at.Some? { n := p.at.value; } else { n :| n in p.todo; }
      var s := At(n, if p.at.Some? then Push(m) else Link(m));
      PosterHere(w, m, n);
      InvStep(w, s);
      if p.at == None { Fewer(p.todo, n); }
      var more := LinksAll(Do(w, s), m);
      FirstStep(w, s, more);
      ss := [s] + more;
    }
  }

  lemma FinishIs(w: World, m: Name)
    requires NoPanic(w) && m in w.posters && w.posters[m].linking && w.posters[m].todo == {} && w.posters[m].at == None
    ensures CanStep(w, Finish(m)) && NoPanic(Do(w, Finish(m))) && m in Do(w, Finish(m)).delivered
    ensures Do(w, Finish(m)).delivered[m] == w.posters[m].targets - w.posters[m].skipped
  {
  }

  lemma StartIs(w: World, m: Name)
    requires NoPanic(w) && m in w.posters && !w.posters[m].linking
    ensures var r := Do(w, Start(m, false));
      CanStep(w, Start(m, false)) && NoPanic(r) && m in r.posters && r.posters[m].linking &&
      r.posters[m].targets == w.posters[m].targets && r.posters[m].skipped == {}
  {
  }

  // From every state of the server in which nothing has panicked, each running poster can come to the
  // ack of its success, with its message linked for every node that it has noted, but for those that
  // it has left out.
  lemma PosterSucceeds(ss: seq<Step>, m: Name) returns (more: seq<Step>)
    requires CanRun(InitWorld, ss) && NoPanic(Run(InitWorld, ss)) && m in Run(InitWorld, ss).posters
    ensures var w := Run(InitWorld, ss);
      CanRun(w, more) && m in Run(w, more).delivered &&
      Run(w, more).delivered[m] ==
        w.posters[m].targets - (if w.posters[m].linking then w.posters[m].skipped else {}) &&
      forall n :: n in Run(w, more).delivered[m] ==> Reached(Run(w, more), m, n)
  {
    hide Struct, AllNodes, Quiet, Lost, ClientsOk, Do, CanStep;
    InvRun(InitWorld, ss);
    var w := Run(InitWorld, ss);
    if w.posters[m].linking {
      more := LinksAll(w, m);
    } else {
      StartIs(w, m);
      InvStep(w, Start(m, false));
      var rest := LinksAll(Do(w, Start(m, false)), m);
      FirstStep(w, Start(m, false), rest);
      more := [Start(m, false)] + rest;
    }
    InvRun(w, more);
    DeliveredReached(Run(w, more), m);
  }

  lemma DeliveredReached(w: World, m: Name)
    requires Struct(w) && m in w.delivered
    ensures forall n :: n in w.delivered[m] ==> Reached(w, m, n)
  {
    hide Shape, Posters, Linkage, DirLocks, Copies;
  }

  // ---- copies ----

  // What copyDir does about an entry
  ghost function About(w: World, n: NodeId, m: Name): Step
    requires n in w.copies && w.copies[n].src in w.node
  {
    if m in w.node[w.copies[n].src].dir then At(n, CopyIn(m)) else Skip(n, m)
  }

  lemma CopyHere(w: World, n: NodeId, m: Name)
    requires Shape(w) && NoPanic(w) && n in w.copies && w.copies[n].listed && m in w.copies[n].rest
    ensures w.copies[n].src in w.node && CanStep(w, About(w, n, m))
    ensures var r := Do(w, About(w, n, m)); NoPanic(r) && r.copies == Crossed(w.copies, n, m)
  {
    hide Apply;
    if m in w.node[w.copies[n].src].dir { NotPanics(w.node[n], CopyIn(m)); }
  }

  lemma ListIs(w: World, n: NodeId)
    requires Shape(w) && NoPanic(w) && n in w.copies && !w.copies[n].listed
    ensures CanStep(w, List(n)) && NoPanic(Do(w, List(n)))
    ensures n in Do(w, List(n)).copies && Do(w, List(n)).copies[n].listed
  {
  }

  lemma EndIs(w: World, n: NodeId)
    requires NoPanic(w) && n in w.copies && w.copies[n].listed && w.copies[n].rest == {}
    ensures CanStep(w, EndCopy(n)) && n in Do(w, EndCopy(n)).ready && NoPanic(Do(w, EndCopy(n)))
  {
  }

  lemma {:induction false} CopiesRest(w: World, n: NodeId) returns (ss: seq<Step>)
    requires WorldInv(w) && NoPanic(w) && n in w.copies && w.copies[n].listed
    ensures CanRun(w, ss) && n in Run(w, ss).ready && NoPanic(Run(w, ss))
    decreases |w.copies[n].rest|
  {
    hide Shape, Posters, Linkage, DirLocks, Copies, Delivered, AllNodes, Quiet, Lost, ClientsOk, Do, CanStep, About;
    if w.copies[n].rest == {} {
      EndIs(w, n);
      OneStep(w, EndCopy(n));
      ss := [EndCopy(n)];
    } else {
      var m :| m in w.copies[n].rest;
      CopyHere(w, n, m);
      var s := About(w, n, m);
      assert CanStep(w, s);
      InvStep(w, s);
      Fewer(w.copies[n].rest, m);
      var more := CopiesRest(Do(w, s), n);
      FirstStep(w, s, more);
      ss := [s] + more;
    }
  }

  // From every such state each copy to a new node can be brought to its end, so that the node's password
  // goes out and clients can log in to it.
  lemma CopySucceeds(ss: seq<Step>, n: NodeId) returns (more: seq<Step>)
    requires CanRun(InitWorld, ss) && NoPanic(Run(InitWorld, ss)) && n in Run(InitWorld, ss).copies
    ensures CanRun(Run(InitWorld, ss), more) && n in Run(Run(InitWorld, ss), more).ready
  {
    hide Do, CanStep;
    InvRun(InitWorld, ss);
    hide Shape, Posters, Linkage, DirLocks, Copies, Delivered, AllNodes, Quiet, Lost, ClientsOk;
    var w := Run(InitWorld, ss);
    if w.copies[n].listed {
      more := CopiesRest(w, n);
    } else {
      ListIs(w, n);
      InvStep(w, List(n));
      var rest := CopiesRest(Do(w, List(n)), n);
      FirstStep(w, List(n), rest);
      more := [List(n)] + rest;
    }
  }
}
