// Runs from the initial state that come to where the code holds less than its design.
module Reachable {
  import opened Common
  import opened Agreement
  import opened Delivery
  import opened NodeQueue

  // Two users; the node N is being added to the first from its node A, and B belongs to the second.
  const U := "u"
  const V := "v"
  const A := "a"
  const B := "b"
  const N := "n"
  const M := "Mm"
  const L: LinkId := 0

  function Users(nodes: map<NodeId, Node>, ready: set<NodeId>): World {
    World(map[A := U, B := V, N := U], nodes, ready, map[], map[], map[], map[], map[], {}, {}, {})
  }

  const FRESH: map<NodeId, Node> := map[A := InitNode, B := InitNode, N := InitNode]
  const HOLDING := Node({M}, {}, None, false, {M}, {}, {})

  lemma {:induction false} Then(ss: seq<Step>, s: Step)
    requires CanRun(InitWorld, ss) && CanStep(Run(InitWorld, ss), s)
    ensures CanRun(InitWorld, ss + [s]) && Run(InitWorld, ss + [s]) == Do(Run(InitWorld, ss), s)
  {
    hide Do, CanStep;
    OneStep(Run(InitWorld, ss), s);
    RunAppend(InitWorld, ss, [s]);
  }

  lemma RegisterIs(w: World, u: Uid, n: NodeId)
    requires n !in w.node && NodesOf(w, u) == {} && forall k :: k in w.node ==> !w.node[k].panicked
    ensures CanStep(w, Register(u, n))
    ensures Do(w, Register(u, n)) == w.(owner := w.owner[n := u], node := w.node[n := InitNode], ready := w.ready + {n})
  {
  }

  // The users and the nodes, with the copy to N begun
  lemma Begun() returns (ss: seq<Step>)
    ensures CanRun(InitWorld, ss)
    ensures Run(InitWorld, ss) == Users(FRESH, {A, B}).(copies := map[N := Copy(A, false, {})])
  {
    hide Do, CanStep;
    ss := [];
    RegisterIs(InitWorld, U, A);
    Then(ss, Register(U, A));
    ss := ss + [Register(U, A)];
    RegisterIs(Run(InitWorld, ss), V, B);
    Then(ss, Register(V, B));
    ss := ss + [Register(V, B)];
    AddsNode(Run(InitWorld, ss));
    Then(ss, AddNode(A, N));
    ss := ss + [AddNode(A, N)];
  }

  lemma AddsNode(w: World)
    requires w == InitWorld.(owner := map[A := U][B := V], node := map[A := InitNode][B := InitNode], ready := {A, B})
    ensures CanStep(w, AddNode(A, N))
    ensures Do(w, AddNode(A, N)) == Users(FRESH, {A, B}).(copies := map[N := Copy(A, false, {})])
  {
    assert map[A := U][B := V][N := U] == map[A := U, B := V, N := U];
    assert map[A := InitNode][B := InitNode][N := InitNode] == FRESH;
  }

  // A poster from node f has opened the first user and linked the message at A; it keeps the world
  // otherwise. It leaves f out if asked to.
  function Posted(w: World, f: NodeId, skip: bool): World {
    var skipped := if skip then {f} else {};
    w.(posters := map[M := Poster(f, {U}, {A, N}, skipped, true, {N} - skipped, None)], sender := map[M := f],
       node := w.node[A := HOLDING], leftOut := if skip then {(M, f)} else {})
  }

  // Nobody posts yet, and neither A nor N has a queue.
  ghost predicate Calm(w: World) {
    w.owner == map[A := U, B := V, N := U] && w.posters == map[] && w.sender == map[] && w.leftOut == {} &&
    w.node == FRESH && A in w.ready && B in w.ready
  }

  lemma NodesAre(w: World)
    requires w.owner == map[A := U, B := V, N := U]
    ensures NodesOf(w, U) == {A, N}
  {
  }

  lemma Opens(w: World, f: NodeId)
    requires Calm(w) && f in w.ready
    ensures CanStep(w, Post(M, f)) && CanStep(Do(w, Post(M, f)), Open(M, U))
    ensures Do(Do(w, Post(M, f)), Open(M, U)) ==
            w.(posters := map[M := Poster(f, {U}, {A, N}, {}, false, {}, None)], sender := map[M := f])
  {
    hide Do;
    var s := Post(M, f);
    assert CanStep(w, s);
    PostIs(w, s);
    OpensU(Do(w, s), f);
  }

  lemma OpensU(w: World, f: NodeId)
    requires w.owner == map[A := U, B := V, N := U] && w.posters == map[M := Poster(f, {}, {}, {}, false, {}, None)]
    requires forall k :: k in w.node ==> !w.node[k].panicked
    ensures CanStep(w, Open(M, U))
    ensures Do(w, Open(M, U)) == w.(posters := map[M := Poster(f, {U}, {A, N}, {}, false, {}, None)])
  {
    NodesAre(w);
    assert CanStep(w, Open(M, U)) by { assert A in NodesOf(w, U); }
    var t := Do(w, Open(M, U));
    assert {} + {U} == {U} && {} + {A, N} == {A, N};
    assert t.posters == map[M := Poster(f, {U}, {A, N}, {}, false, {}, None)];
  }

  lemma Starts(w: World, f: NodeId, skip: bool)
    requires w.posters == map[M := Poster(f, {U}, {A, N}, {}, false, {}, None)] && w.leftOut == {}
    requires (skip ==> f == N) && forall k :: k in w.node ==> !w.node[k].panicked
    ensures CanStep(w, Start(M, skip))
    ensures var skipped := if skip then {f} else {};
      Do(w, Start(M, skip)) == w.(posters := map[M := Poster(f, {U}, {A, N}, skipped, true, {A, N} - skipped, None)],
                                  leftOut := if skip then {(M, f)} else {})
  {
    var skipped: set<NodeId> := if skip then {f} else {};
    var r := Do(w, Start(M, skip));
    assert r.leftOut == if skip then {(M, f)} else {};
    assert r.posters == map[M := Poster(f, {U}, {A, N}, skipped, true, {A, N} - skipped, None)];
  }

  lemma LinkAtA(w: World, p: Poster)
    requires w.posters == map[M := p] && p.at == None && A in p.todo && w.node == FRESH
    ensures CanStep(w, At(A, Link(M)))
    ensures Do(w, At(A, Link(M))) == w.(posters := map[M := p.(todo := p.todo - {A}, at := Some(A))],
                                        node := w.node[A := HOLDING.(pushing := {M})])
  {
    hide Do, CanStep;
    PosterStep(w, At(A, Link(M)));
    AtIs(w, At(A, Link(M)));
    assert Booked(w.posters, A, Link(M)) == map[M := p.(todo := p.todo - {A}, at := Some(A))];
    assert Apply(InitNode, Link(M)) == HOLDING.(pushing := {M});
  }

  lemma PushAtA(w: World, p: Poster)
    requires w.posters == map[M := p] && p.at == Some(A) && A in w.node && w.node[A] == HOLDING.(pushing := {M})
    requires forall k :: k in w.node ==> !w.node[k].panicked
    ensures CanStep(w, At(A, Push(M)))
    ensures Do(w, At(A, Push(M))) == w.(posters := map[M := p.(at := None)], node := w.node[A := HOLDING])
  {
    hide Do, CanStep;
    PosterStep(w, At(A, Push(M)));
    AtIs(w, At(A, Push(M)));
    assert Booked(w.posters, A, Push(M)) == map[M := p.(at := None)];
    assert Apply(w.node[A], Push(M)) == HOLDING;
  }

  lemma LinksAtA(w: World, p: Poster)
    requires w.posters == map[M := p] && p.at == None && A in p.todo && w.node == FRESH
    ensures CanStep(w, At(A, Link(M))) && CanStep(Do(w, At(A, Link(M))), At(A, Push(M)))
    ensures Do(Do(w, At(A, Link(M))), At(A, Push(M))) ==
            w.(posters := map[M := p.(todo := p.todo - {A})], node := w.node[A := HOLDING])
  {
    hide Do, CanStep;
    LinkAtA(w, p);
    PushAtA(Do(w, At(A, Link(M))), p.(todo := p.todo - {A}, at := Some(A)));
    assert w.node[A := HOLDING.(pushing := {M})][A := HOLDING] == w.node[A := HOLDING];
  }

  lemma Links(w: World, f: NodeId, skip: bool)
    requires w.posters == map[M := Poster(f, {U}, {A, N}, {}, false, {}, None)] && w.sender == map[M := f]
    requires w.node == FRESH && w.leftOut == {} && (skip ==> f == N)
    ensures CanStep(w, Start(M, skip)) && CanStep(Do(w, Start(M, skip)), At(A, Link(M)))
    ensures var r := Do(Do(w, Start(M, skip)), At(A, Link(M))); CanStep(r, At(A, Push(M)))
    ensures Do(Do(Do(w, Start(M, skip)), At(A, Link(M))), At(A, Push(M))) == Posted(w, f, skip)
  {
    hide Do, CanStep;
    var skipped: set<NodeId> := if skip then {f} else {};
    Starts(w, f, skip);
    LinksAtA(Do(w, Start(M, skip)), Poster(f, {U}, {A, N}, skipped, true, {A, N} - skipped, None));
    assert {A, N} - skipped - {A} == {N} - skipped;
  }

  // A poster from f at such a moment, up to its push at A
  lemma Posts(ss: seq<Step>, f: NodeId, skip: bool) returns (tt: seq<Step>)
    requires CanRun(InitWorld, ss) && Calm(Run(InitWorld, ss)) && f in Run(InitWorld, ss).ready && (skip ==> f == N)
    ensures CanRun(InitWorld, tt) && Run(InitWorld, tt) == Posted(Run(InitWorld, ss), f, skip)
  {
    hide Do, CanStep;
    var w := Run(InitWorld, ss);
    Opens(w, f);
    Then(ss, Post(M, f));
    tt := ss + [Post(M, f)];
    Then(tt, Open(M, U));
    tt := tt + [Open(M, U)];
    Links(Run(InitWorld, tt), f, skip);
    Then(tt, Start(M, skip));
    tt := tt + [Start(M, skip)];
    Then(tt, At(A, Link(M)));
    tt := tt + [At(A, Link(M))];
    Then(tt, At(A, Push(M)));
    tt := tt + [At(A, Push(M))];
  }

  // ---- a new node that lacks a message ----

  lemma CopyEnds(w: World)
    requires w.copies == map[N := Copy(A, true, {})] && forall k :: k in w.node ==> !w.node[k].panicked
    ensures CanStep(w, EndCopy(N))
    ensures Do(w, EndCopy(N)) == w.(copies := map[], ready := w.ready + {N}, copied := w.copied + {(A, N)})
  {
    assert Do(w, EndCopy(N)).copies == map[];
  }

  // The copy finds nothing and ends.
  lemma CopiesNothing() returns (ss: seq<Step>)
    ensures CanRun(InitWorld, ss)
    ensures Run(InitWorld, ss) == Users(FRESH, {A, B, N}).(copied := {(A, N)})
  {
    hide Do, CanStep;
    ss := Begun();
    ListsNothing(Run(InitWorld, ss));
    Then(ss, List(N));
    ss := ss + [List(N)];
    CopyEnds(Run(InitWorld, ss));
    Then(ss, EndCopy(N));
    ss := ss + [EndCopy(N)];
    assert {A, B} + {N} == {A, B, N} && {} + {(A, N)} == {(A, N)};
  }

  lemma ListsNothing(w: World)
    requires w == Users(FRESH, {A, B}).(copies := map[N := Copy(A, false, {})])
    ensures CanStep(w, List(N)) && Do(w, List(N)) == w.(copies := map[N := Copy(A, true, {})])
  {
  }

  // The new node's copy has ended and the source has the message in its directory, but the new node
  // neither has it nor had it nor will get it: for a crash, which is the only way without the sender
  // being the node itself ...
  lemma LostInCrash() returns (ss: seq<Step>)
    ensures CanRun(InitWorld, ss)
    ensures var w := Run(InitWorld, ss);
      (A, N) in w.copied && InDir(w, M, A) && !Reached(w, M, N) && !IsOwed(w, M, N) && (M, N) in w.lost &&
      w.leftOut == {}
  {
    hide Do, CanStep;
    ss := CopiesNothing();
    ss := Posts(ss, B, false);
    var w := Run(InitWorld, ss);
    CrashIs(w, Crash);
    assert CanStep(w, Crash) by { CanCrash(w); }
    Then(ss, Crash);
    ss := ss + [Crash];
    assert (M, N) in Owed(w);
  }

  lemma CanCrash(w: World)
    ensures CanStep(w, Crash)
  {
  }

  // ... or for being left out of what it sent.
  lemma LeftOutOfItsOwn() returns (ss: seq<Step>)
    ensures CanRun(InitWorld, ss)
    ensures var w := Run(InitWorld, ss);
      (A, N) in w.copied && InDir(w, M, A) && !Reached(w, M, N) && !IsOwed(w, M, N) && (M, N) in w.leftOut &&
      w.lost == {}
  {
    ss := CopiesNothing();
    ss := Posts(ss, N, true);
  }

  // ---- a queue goroutine that panics ----

  function Client1(pc: ClientPc, rev: bool): map<LinkId, Client> {
    map[L := Client(rev, None, pc)]
  }

  lemma ListsOwed(w: World)
    requires w.copies == map[N := Copy(A, false, {})] && w.node == FRESH[A := HOLDING]
    ensures CanStep(w, List(N)) && Do(w, List(N)) == w.(copies := map[N := Copy(A, true, {M})])
  {
  }

  lemma CopiesIn(w: World)
    requires w.copies == map[N := Copy(A, true, {M})] && w.node == FRESH[A := HOLDING]
    ensures CanStep(w, At(N, CopyIn(M)))
    ensures Do(w, At(N, CopyIn(M))) == w.(copies := map[N := Copy(A, true, {})], node := w.node[N := HOLDING])
  {
    hide Do;
    var s := At(N, CopyIn(M));
    assert CanStep(w, s);
    hide CanStep;
    AtIs(w, s);
    assert Apply(w.node[N], CopyIn(M)) == HOLDING;
    assert Do(w, s).copies == map[N := Copy(A, true, {})];
  }

  // A poster has linked the message at A and owes it to N; copyDir brings it to N.
  lemma CopiesOwed(w: World)
    requires w == Posted(Users(FRESH, {A, B}).(copies := map[N := Copy(A, false, {})]), B, false)
    ensures CanStep(w, List(N)) && CanStep(Do(w, List(N)), At(N, CopyIn(M)))
    ensures var r := Do(Do(w, List(N)), At(N, CopyIn(M)));
      CanStep(r, EndCopy(N)) && Do(r, EndCopy(N)) == w.(copies := map[], ready := {A, B} + {N}, copied := {} + {(A, N)},
                                                        node := w.node[N := HOLDING])
  {
    hide Do, CanStep;
    ListsOwed(w);
    CopiesIn(Do(w, List(N)));
    CopyEnds(Do(Do(w, List(N)), At(N, CopyIn(M))));
  }

  lemma Arrives(w: World, s: Step)
    requires s == By(L, Connect) && w.clients == map[] && forall k :: k in w.node ==> !w.node[k].panicked
    ensures CanStep(w, s) && Do(w, s) == w.(clients := Client1(Reading, false))
  {
  }

  lemma Moves(w: World, c: LinkAct)
    requires L in w.clients && w.clients == map[L := w.clients[L]] && MayDo(w, w.clients[L], c) && !c.Connect?
    requires forall k :: k in w.node ==> !w.node[k].panicked
    ensures CanStep(w, By(L, c)) && Do(w, By(L, c)) == w.(clients := map[L := Done(w.clients[L], c)])
  {
    hide MayDo, Done;
  }

  lemma Arriving(ss: seq<Step>) returns (tt: seq<Step>)
    requires CanRun(InitWorld, ss)
    requires var w := Run(InitWorld, ss);
      w.clients == map[] && N in w.ready && forall k :: k in w.node ==> !w.node[k].panicked
    ensures CanRun(InitWorld, tt)
    ensures Run(InitWorld, tt) == Run(InitWorld, ss).(clients := Client1(LoginAt(N), true))
  {
    hide Do, CanStep;
    var w := Run(InitWorld, ss);
    Arrives(w, By(L, Connect));
    Then(ss, By(L, Connect));
    tt := ss + [By(L, Connect)];
    Moves(Run(InitWorld, tt), HearRev);
    Then(tt, By(L, HearRev));
    tt := tt + [By(L, HearRev)];
    Moves(Run(InitWorld, tt), Told);
    Then(tt, By(L, Told));
    tt := tt + [By(L, Told)];
    Moves(Run(InitWorld, tt), HearLogin(N));
    Then(tt, By(L, HearLogin(N)));
    tt := tt + [By(L, HearLogin(N))];
  }

  // An unsafe login can be come to ...
  lemma UnsafeLogin() returns (ss: seq<Step>)
    ensures CanRun(InitWorld, ss)
    ensures var w := Run(InitWorld, ss); CanStep(w, At(N, Create)) && !SafeLogin(w, N)
  {
    hide Do, CanStep;
    ss := Begun();
    ss := Posts(ss, B, false);
    CopiesOwed(Run(InitWorld, ss));
    Then(ss, List(N));
    ss := ss + [List(N)];
    Then(ss, At(N, CopyIn(M)));
    ss := ss + [At(N, CopyIn(M))];
    Then(ss, EndCopy(N));
    ss := ss + [EndCopy(N)];
    ss := Arriving(ss);
    Creates(Run(InitWorld, ss));
    assert InDir(Run(InitWorld, ss), M, N);
  }

  lemma Creates(w: World)
    requires N in w.node && w.node[N] == HOLDING && N in w.ready && w.clients == Client1(LoginAt(N), true)
    requires forall k :: k in w.node ==> !w.node[k].panicked
    ensures CanStep(w, At(N, Create))
  {
    assert IsClient(w, L, LoginAt(N));
  }

  // ... and with it the panic.
  lemma PanicHappens() returns (ss: seq<Step>)
    ensures CanRun(InitWorld, ss) && N in Run(InitWorld, ss).node && Run(InitWorld, ss).node[N].panicked
  {
    hide Do, CanStep, SafeLogin, WorldInv;
    ss := UnsafeLogin();
    InvRun(InitWorld, ss) by { InitOk(); }
    var more := UnsafePanics(Run(InitWorld, ss), N);
    Then(ss, At(N, Create));
    RunAppend(InitWorld, ss + [At(N, Create)], more);
    ss := ss + [At(N, Create)] + more;
  }

  lemma InitOk()
    ensures WorldInv(InitWorld)
  {
  }
}
