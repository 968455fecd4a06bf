// The presence set of one user, taken and given back by concurrent links: unref counts down in one
// locked block and deletes in another, and other links may come between.
module LastLink {
  import opened Common

  type Link(==,!new) = int

  // A link that found no set and will make one; one with a reference; and one whose unref has
  // counted the set down to 0 and will delete it.
  datatype Pc = Finding | Holding | Dropping(id: nat)

  // count has all sets ever made, by a number below next; from is the one in the map; told are the
  // sets whose users were told that this one went, each as often as they were.
  datatype State = State(count: map<nat, int>, next: nat, from: Option<nat>, links: map<Link, Pc>,
                         told: multiset<nat>, panicked: bool)

  datatype Step = Ref(l: Link) | Store(l: Link) | Unref(l: Link) | Delete(l: Link)

  predicate At(s: State, l: Link, pc: Pc) {
    l in s.links && s.links[l] == pc
  }

  predicate Drops(s: State, l: Link) {
    l in s.links && s.links[l].Dropping? && s.links[l].id in s.count
  }

  // A set in the map is one that was made.
  predicate Can(s: State, a: Step) {
    !s.panicked && (s.from.Some? ==> s.from.value in s.count) &&
    match a
    case Ref(l) => l !in s.links
    case Store(l) => At(s, l, Finding)
    case Unref(l) => At(s, l, Holding)
    case Delete(l) => Drops(s, l)
  }

  function Counted(s: State, change: int, links: map<Link, Pc>): State
    requires s.from.Some? && s.from.value in s.count
  {
    s.(count := s.count[s.from.value := s.count[s.from.value] + change], links := links)
  }

  function After(s: State, a: Step): State
    requires Can(s, a)
  {
    match a
    case Ref(l) => if s.from.Some? then Counted(s, 1, s.links[l := Holding]) else s.(links := s.links[l := Finding])
    case Store(l) =>
      if s.from.Some? then Counted(s, 1, s.links[l := Holding])
      else s.(count := s.count[s.next := 1], next := s.next + 1, from := Some(s.next), links := s.links[l := Holding])
    case Unref(l) =>
      if s.from == None then s.(panicked := true)
      else
        var last := s.count[s.from.value] == 1;
        Counted(s, -1, if last then s.links[l := Dropping(s.from.value)] else s.links - {l})
    case Delete(l) =>
      var id, t := s.links[l].id, s.(links := s.links - {l});
      if s.count[id] == 0 then t.(from := None, told := s.told + multiset{id}) else t
  }

  // ---- invariant ----

  function Holders(links: map<Link, Pc>): set<Link> {
    set l | l in links && links[l] == Holding
  }

  ghost predicate SetOk(s: State, id: nat)
    requires id in s.count
  {
    id < s.next &&
    (s.from == Some(id) ==> s.count[id] == |Holders(s.links)| && id !in s.told) &&
    (s.from != Some(id) ==> s.count[id] == 0) &&
    (s.count[id] == 0 ==> id in s.told || exists l :: Drops(s, l) && s.links[l].id == id)
  }

  // A set that was counted down to 0 is told, or will be.
  ghost predicate Inv(s: State) {
    !s.panicked &&
    (if s.from.Some? then s.from.value in s.count else Holders(s.links) == {}) &&
    (forall id :: id in s.count ==> SetOk(s, id)) && (forall id :: id in s.told ==> id in s.count) &&
    (forall l :: l in s.links && s.links[l].Dropping? ==> Drops(s, l))
  }

  // The set that the link is about to delete is gone already, and it will delete another one, which
  // is in use.
  predicate Hits(s: State, l: Link) {
    Drops(s, l) && s.from.Some? && s.from.value != s.links[l].id && s.from.value in s.count && s.count[s.from.value] > 0
  }

  lemma OneLess(links: map<Link, Pc>, l: Link, now: map<Link, Pc>)
    requires l in links && links[l] == Holding && l !in Holders(now)
    requires forall k :: k != l ==> (k in now <==> k in links) && (k in now ==> now[k] == links[k])
    ensures Holders(links) == Holders(now) + {l} && |Holders(now)| == |Holders(links)| - 1
  {
    forall k ensures k in Holders(links) <==> k in Holders(now) + {l} {
      assert k != l ==> (k in now <==> k in links);
    }
    assert Holders(links) == Holders(now) + {l};
  }

  lemma Member<T>(s: set<T>) returns (x: T)
    requires s != {}
    ensures x in s
  {
    x :| x in s;
  }

  lemma OneMore(links: map<Link, Pc>, l: Link)
    requires l in links ==> links[l] != Holding
    ensures |Holders(links[l := Holding])| == |Holders(links)| + 1
  {
    assert Holders(links[l := Holding]) == Holders(links) + {l};
  }

  // Every step keeps the invariant, but for a deletion that hits.
  lemma InvStep(s: State, a: Step)
    requires Inv(s) && Can(s, a) && !(a.Delete? && Hits(s, a.l))
    ensures Inv(After(s, a))
  {
    match a
    case Ref(l) => TakeKeeps(s, a);
    case Store(l) => TakeKeeps(s, a);
    case Unref(l) => UnrefKeeps(s, l);
    case Delete(l) => DeleteKeeps(s, l);
  }

  lemma TakeKeeps(s: State, a: Step)
    requires Inv(s) && Can(s, a) && (a.Ref? || a.Store?)
    ensures Inv(After(s, a))
  {
    var r := After(s, a);
    OneMore(s.links, a.l);
    if r.from == None { assert Holders(r.links) == Holders(s.links); }
    forall id | id in r.count ensures SetOk(r, id) {
      if id in s.count {
        assert SetOk(s, id);
        StillDropped(s, r, id, a.l);
      }
    }
  }

  lemma StillDropped(s: State, r: State, id: nat, l: Link)
    requires l in s.links ==> !s.links[l].Dropping?
    requires forall k :: k != l ==> (k in r.links <==> k in s.links) && (k in r.links ==> r.links[k] == s.links[k])
    requires s.count.Keys <= r.count.Keys
    ensures (exists k :: Drops(s, k) && s.links[k].id == id) ==> exists k :: Drops(r, k) && r.links[k].id == id
  {
    if k :| Drops(s, k) && s.links[k].id == id {
      assert Drops(r, k);
    }
  }

  lemma UnrefKeeps(s: State, l: Link)
    requires Inv(s) && Can(s, Unref(l))
    ensures Inv(After(s, Unref(l)))
  {
    var r := After(s, Unref(l));
    assert l in Holders(s.links);
    assert SetOk(s, s.from.value);
    OneLess(s.links, l, r.links);
    forall id | id in r.count ensures SetOk(r, id) {
      assert SetOk(s, id);
      StillDropped(s, r, id, l);
      if id == s.from.value && r.count[id] == 0 {
        assert Drops(r, l) && r.links[l].id == id;
      }
    }
  }

  lemma DeleteKeeps(s: State, l: Link)
    requires Inv(s) && Can(s, Delete(l)) && !Hits(s, l)
    ensures Inv(After(s, Delete(l)))
  {
    var r := After(s, Delete(l));
    var d := s.links[l].id;
    assert Holders(r.links) == Holders(s.links);
    if s.from.Some? { assert SetOk(s, s.from.value); }
    forall id | id in r.count ensures SetOk(r, id) {
      assert SetOk(s, id);
      if k :| Drops(s, k) && s.links[k].id == id {
        assert k != l ==> Drops(r, k);
      }
    }
  }

  // ---- whole runs ----

  ghost predicate CanRun(s: State, run: seq<Step>)
    decreases |run|
  {
    |run| == 0 || (Can(s, run[0]) && CanRun(After(s, run[0]), run[1..]))
  }

  ghost function RunFrom(s: State, run: seq<Step>): State
    requires CanRun(s, run)
    decreases |run|
  {
    if |run| == 0 then s else RunFrom(After(s, run[0]), run[1..])
  }

  // No link takes a reference.
  predicate Leaving(run: seq<Step>) {
    forall a :: a in run ==> a.Unref? || a.Delete?
  }

  ghost predicate NeverPanics(s: State) {
    forall run :: CanRun(s, run) && Leaving(run) ==> !RunFrom(s, run).panicked
  }

  ghost predicate NobodyHits(s: State) {
    forall l :: !Hits(s, l)
  }

  // Without new references, unref panics on a set that is not in the map if and only if a link is
  // about to delete a set that it did not count down to 0.
  lemma PanicExactly(s: State)
    requires Inv(s)
    ensures NobodyHits(s) <==> NeverPanics(s)
  {
    if NobodyHits(s) {
      forall run | CanRun(s, run) && Leaving(run) ensures !RunFrom(s, run).panicked {
        LeavingKeeps(s, run);
      }
    } else {
      var l :| Hits(s, l);
      var run := HitPanics(s, l);
    }
  }

  lemma {:induction false} LeavingKeeps(s: State, run: seq<Step>)
    requires Inv(s) && NobodyHits(s) && CanRun(s, run) && Leaving(run)
    ensures Inv(RunFrom(s, run))
    decreases |run|
  {
    hide Inv;
    if |run| > 0 {
      assert run[0] in run;
      InvStep(s, run[0]);
      LeavingStep(s, run[0]);
      LeavingKeeps(After(s, run[0]), run[1..]);
    }
  }

  lemma LeavingStep(s: State, a: Step)
    requires Inv(s) && NobodyHits(s) && Can(s, a) && (a.Unref? || a.Delete?)
    ensures NobodyHits(After(s, a))
  {
    var r := After(s, a);
    if s.from.Some? { assert SetOk(s, s.from.value); }
    forall k ensures !Hits(r, k) {
      assert !Hits(s, k);
    }
  }

  lemma HitPanics(s: State, l: Link) returns (run: seq<Step>)
    requires Inv(s) && Hits(s, l)
    ensures CanRun(s, run) && Leaving(run) && RunFrom(s, run).panicked
  {
    assert SetOk(s, s.from.value) && SetOk(s, s.links[l].id);
    var h := Member(Holders(s.links));
    var r := After(s, Delete(l));
    assert Can(r, Unref(h)) && After(r, Unref(h)).panicked;
    run := [Delete(l)] + [Unref(h)];
    OneStep(r, Unref(h));
    FirstStep(s, Delete(l), [Unref(h)]);
  }

  lemma OneStep(s: State, a: Step)
    requires Can(s, a)
    ensures CanRun(s, [a]) && RunFrom(s, [a]) == After(s, a)
  {
    assert [a][1..] == [];
  }

  lemma FirstStep(s: State, a: Step, run: seq<Step>)
    requires Can(s, a) && CanRun(After(s, a), run)
    ensures CanRun(s, [a] + run) && RunFrom(s, [a] + run) == RunFrom(After(s, a), run)
  {
    assert ([a] + run)[1..] == run;
  }

  // ---- told once ----

  ghost predicate ToldOnce(s: State) {
    forall id :: s.told[id] <= 1
  }

  ghost predicate NeverTwice(s: State) {
    forall run :: CanRun(s, run) && Leaving(run) ==> ToldOnce(RunFrom(s, run))
  }

  // Each link that will delete is the only one to do so, and no other has taken the set up again.
  ghost predicate Alone(s: State) {
    forall l :: Drops(s, l) ==>
      s.links[l].id !in s.told && s.count[s.links[l].id] == 0 &&
      forall k :: Drops(s, k) && s.links[k].id == s.links[l].id ==> k == l
  }

  // The set in the map counts its links, as it does even when another is deleted in its place.
  ghost predicate InUse(s: State) {
    s.from.Some? ==>
      s.from.value in s.count && s.from.value !in s.told && s.count[s.from.value] == |Holders(s.links)|
  }

  lemma UseStep(s: State, a: Step)
    requires InUse(s) && Can(s, a) && (a.Unref? || a.Delete?)
    ensures InUse(After(s, a))
  {
    var r := After(s, a);
    if a.Delete? {
      assert Holders(r.links) == Holders(s.links);
    } else if s.from.Some? {
      OneLess(s.links, a.l, r.links);
    }
  }

  lemma AloneStep(s: State, a: Step)
    requires InUse(s) && Alone(s) && ToldOnce(s) && Can(s, a) && (a.Unref? || a.Delete?)
    ensures Alone(After(s, a)) && ToldOnce(After(s, a))
  {
    var r := After(s, a);
    assert a.Unref? ==> a.l in Holders(s.links);
    forall l | Drops(r, l)
      ensures r.links[l].id !in r.told && r.count[r.links[l].id] == 0
      ensures forall k :: Drops(r, k) && r.links[k].id == r.links[l].id ==> k == l
    {
    }
  }

  lemma {:induction false} AloneKeeps(s: State, run: seq<Step>)
    requires InUse(s) && Alone(s) && ToldOnce(s) && CanRun(s, run) && Leaving(run)
    ensures ToldOnce(RunFrom(s, run))
    decreases |run|
  {
    hide InUse, Alone;
    if |run| > 0 {
      assert run[0] in run;
      UseStep(s, run[0]);
      AloneStep(s, run[0]);
      AloneKeeps(After(s, run[0]), run[1..]);
    }
  }

  // Two deletions of a set that is counted down
  lemma TwiceDropped(s: State, l: Link, k: Link) returns (run: seq<Step>)
    requires Inv(s) && Drops(s, l) && Drops(s, k) && l != k && s.links[l].id == s.links[k].id &&
      s.count[s.links[l].id] == 0
    ensures CanRun(s, run) && Leaving(run) && !ToldOnce(RunFrom(s, run))
  {
    var r := After(s, Delete(l));
    assert Drops(r, k) && r.count == s.count;
    assert After(r, Delete(k)).told[s.links[l].id] >= 2;
    run := [Delete(l)] + [Delete(k)];
    OneStep(r, Delete(k));
    FirstStep(s, Delete(l), [Delete(k)]);
  }

  lemma ToldAgain(s: State, l: Link) returns (run: seq<Step>)
    requires Inv(s) && Drops(s, l) && s.links[l].id in s.told
    ensures CanRun(s, run) && Leaving(run) && !ToldOnce(RunFrom(s, run))
  {
    assert SetOk(s, s.links[l].id);
    assert After(s, Delete(l)).told[s.links[l].id] >= 2;
    run := [Delete(l)];
    OneStep(s, Delete(l));
  }

  // The set was taken up again; all its links leave, and the last of them drops it too.
  lemma {:induction false} TakenUpAgain(s: State, l: Link) returns (run: seq<Step>)
    requires Inv(s) && Drops(s, l) && s.from == Some(s.links[l].id) && s.count[s.links[l].id] > 0
    ensures CanRun(s, run) && Leaving(run) && !ToldOnce(RunFrom(s, run))
    decreases |Holders(s.links)|
  {
    var id := s.links[l].id;
    assert SetOk(s, id);
    var h := Member(Holders(s.links));
    var r := After(s, Unref(h));
    InvStep(s, Unref(h));
    assert Drops(r, l) && r.links[l].id == id;
    var more;
    if r.count[id] == 0 {
      more := TwiceDropped(r, l, h);
    } else {
      OneLess(s.links, h, r.links);
      more := TakenUpAgain(r, l);
    }
    run := [Unref(h)] + more;
    FirstStep(s, Unref(h), more);
  }

  // Without new references, no set's users are ever told twice if and only if none have been and each
  // link that will delete a set is alone: the set has not been deleted, no other link will delete
  // it, and none has it.
  lemma TwiceExactly(s: State)
    requires Inv(s)
    ensures Alone(s) && ToldOnce(s) <==> NeverTwice(s)
  {
    if !ToldOnce(s) {
      assert CanRun(s, []) && Leaving([]) && RunFrom(s, []) == s;
    } else if Alone(s) {
      assert InUse(s) by {
        if s.from.Some? { assert SetOk(s, s.from.value); }
      }
      forall run | CanRun(s, run) && Leaving(run) ensures ToldOnce(RunFrom(s, run)) {
        AloneKeeps(s, run);
      }
    } else {
      var l :| Drops(s, l) && !(s.links[l].id !in s.told && s.count[s.links[l].id] == 0 &&
        forall k :: Drops(s, k) && s.links[k].id == s.links[l].id ==> k == l);
      assert SetOk(s, s.links[l].id);
      var run;
      if s.links[l].id in s.told {
        run := ToldAgain(s, l);
      } else if s.count[s.links[l].id] > 0 {
        run := TakenUpAgain(s, l);
      } else {
        var k :| Drops(s, k) && s.links[k].id == s.links[l].id && k != l;
        run := TwiceDropped(s, l, k);
      }
    }
  }

  // ---- when unref is as good as one step ----

  const START := State(map[], 0, None, map[], multiset{}, false)

  // References are taken only while no link is between the two blocks.
  ghost predicate Calm(s: State, run: seq<Step>)
    requires CanRun(s, run)
    decreases |run|
  {
    |run| == 0 ||
    ((run[0].Ref? || run[0].Store? ==> forall l :: !Drops(s, l)) && Calm(After(s, run[0]), run[1..]))
  }

  ghost predicate Orderly(s: State) {
    ToldOnce(s) && forall l, k :: Drops(s, l) && Drops(s, k) ==>
      l == k && s.from == Some(s.links[l].id) && s.count[s.links[l].id] == 0
  }

  lemma OrderlyStep(s: State, a: Step)
    requires Inv(s) && Orderly(s) && Can(s, a) && (a.Ref? || a.Store? ==> forall l :: !Drops(s, l))
    ensures Orderly(After(s, a))
  {
    if s.from.Some? { assert SetOk(s, s.from.value); }
    assert a.Unref? ==> a.l in Holders(s.links);
    if a.Delete? { assert Drops(s, a.l); }
  }

  // In a run in which nobody takes a reference while a link is between its two blocks, no unref
  // panics, every set in the map counts the links that hold it, and each set's users are told once.
  lemma {:induction false} CalmIsSafe(s: State, run: seq<Step>)
    requires Inv(s) && Orderly(s) && CanRun(s, run) && Calm(s, run)
    ensures Inv(RunFrom(s, run)) && Orderly(RunFrom(s, run))
    decreases |run|
  {
    hide Inv;
    if |run| > 0 {
      assert run[0].Delete? ==> !Hits(s, run[0].l);
      InvStep(s, run[0]);
      OrderlyStep(s, run[0]);
      CalmIsSafe(After(s, run[0]), run[1..]);
    }
  }

  lemma StartOk()
    ensures Inv(START) && Orderly(START)
  {
    assert Holders(START.links) == {};
  }

  // ---- the way to the panic ----

  // Link 2 comes and goes between the blocks of link 1's unref and deletes the set ...
  const RACE := [Ref(1), Store(1), Unref(1), Ref(2), Unref(2), Delete(2)]

  // ... and link 1 then deletes the one that link 3 has made, whose unref does not find it.
  const REST := [Ref(3), Store(3), Delete(1), Unref(3)]

  lemma UnrefPanics()
    ensures CanRun(START, RACE + REST) && RunFrom(START, RACE + REST).panicked
  {
    hide Can, After;
    var s := SetGone();
    SetHit(s);
    RunAppend(START, RACE, REST);
  }

  lemma {:induction false} RunAppend(s: State, a: seq<Step>, b: seq<Step>)
    requires CanRun(s, a) && CanRun(RunFrom(s, a), b)
    ensures CanRun(s, a + b) && RunFrom(s, a + b) == RunFrom(RunFrom(s, a), b)
    decreases |a|
  {
    hide Can, After;
    if |a| == 0 {
      assert a + b == b;
    } else {
      RunAppend(After(s, a[0]), a[1..], b);
      assert a == [a[0]] + a[1..] && a + b == [a[0]] + (a[1..] + b);
    }
  }

  lemma SetGone() returns (r: State)
    ensures CanRun(START, RACE) && RunFrom(START, RACE) == r
    ensures r == State(map[0 := 0], 1, None, map[1 := Dropping(0)], multiset{0}, false)
  {
    var s0, s1, s2 := FirstTakes();
    var s3 := State(map[0 := 1], 1, Some(0), map[1 := Dropping(0), 2 := Holding], multiset{}, false);
    var s4 := State(map[0 := 0], 1, Some(0), map[1 := Dropping(0), 2 := Dropping(0)], multiset{}, false);
    r := State(map[0 := 0], 1, None, map[1 := Dropping(0)], multiset{0}, false);
    assert Can(s2, Ref(2)) && After(s2, Ref(2)) == s3;
    assert Can(s3, Unref(2)) && After(s3, Unref(2)) == s4;
    assert Can(s4, Delete(2)) && After(s4, Delete(2)) == r;
    hide Can, After;
    OneStep(s4, Delete(2));
    FirstStep(s3, Unref(2), [Delete(2)]);
    FirstStep(s2, Ref(2), RACE[4..]);
    FirstStep(s1, Unref(1), RACE[3..]);
    FirstStep(s0, Store(1), RACE[2..]);
    FirstStep(START, Ref(1), RACE[1..]);
  }

  lemma FirstTakes() returns (s0: State, s1: State, s2: State)
    ensures Can(START, Ref(1)) && After(START, Ref(1)) == s0 && Can(s0, Store(1)) && After(s0, Store(1)) == s1
    ensures Can(s1, Unref(1)) && After(s1, Unref(1)) == s2
    ensures s2 == State(map[0 := 0], 1, Some(0), map[1 := Dropping(0)], multiset{}, false)
  {
    s0 := START.(links := map[1 := Finding]);
    s1 := State(map[0 := 1], 1, Some(0), map[1 := Holding], multiset{}, false);
    s2 := State(map[0 := 0], 1, Some(0), map[1 := Dropping(0)], multiset{}, false);
  }

  lemma SetHit(s: State)
    requires s == State(map[0 := 0], 1, None, map[1 := Dropping(0)], multiset{0}, false)
    ensures CanRun(s, REST) && RunFrom(s, REST).panicked
  {
    var s1 := s.(links := map[1 := Dropping(0), 3 := Finding]);
    var s2 := State(map[0 := 0, 1 := 1], 2, Some(1), map[1 := Dropping(0), 3 := Holding], multiset{0}, false);
    var s3 := State(map[0 := 0, 1 := 1], 2, None, map[3 := Holding], multiset{0, 0}, false);
    assert Can(s, Ref(3)) && After(s, Ref(3)) == s1;
    assert Can(s1, Store(3)) && After(s1, Store(3)) == s2;
    assert Can(s2, Delete(1)) && After(s2, Delete(1)) == s3;
    assert Can(s3, Unref(3)) && After(s3, Unref(3)).panicked;
    hide Can, After;
    OneStep(s3, Unref(3));
    FirstStep(s2, Delete(1), [Unref(3)]);
    FirstStep(s1, Store(3), REST[2..]);
    FirstStep(s, Ref(3), REST[1..]);
  }
}
