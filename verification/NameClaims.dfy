// One name, claimed at the same time as an alias and as a group's id, by any number of goroutines
// that fill the caches from the files when they need them.
module NameClaims {
  import opened Common
  import Records

  // AddAlias for a user (A..), DropAlias (D..) and GroupInvite founding a group (G..), by what the
  // goroutine does next. A group being founded is an object, known by a number.
  datatype Pc =
    | ACheckGroup(uid: string) | AReadGroup(uid: string) | AStoreGroup(uid: string)
    | ACheckAlias(uid: string) | AReadAlias(uid: string) | AStoreAlias(uid: string, found: string)
    | AClaim(uid: string) | AWrite(uid: string)
    | DMark(uid: string) | DWrite
    | GCheckGroup | GReadGroup | GStoreGroup(onDisk: bool)
    | GLock(id: nat) | GCheckAlias(id: nat) | GReadAlias(id: nat) | GStoreAlias(id: nat, owner: string)
    | GClaim(id: nat) | GFound(id: nat) | GWrite(id: nat)

  // alias and group are the caches; full are the group objects that have members.
  datatype State = State(alias: Option<string>, group: Option<nat>, full: set<nat>, nextId: nat,
                         aliasFile: Option<string>, groupFile: bool, threads: map<int, Pc>)

  predicate Starts(pc: Pc) {
    pc.ACheckGroup? || pc.DMark? || pc.GCheckGroup?
  }

  // The goroutine holds the lock of the group object.
  predicate HasLock(pc: Pc, id: nat) {
    (pc.GCheckAlias? || pc.GReadAlias? || pc.GStoreAlias? || pc.GClaim? || pc.GFound? || pc.GWrite?) && pc.id == id
  }

  // A new goroutine, a step of one, or one that gives up for a reason outside this name; and a
  // restart, with what recovery has made of the writes cut short. A file that is being replaced may
  // be missed by one that reads it.
  datatype Step =
    | Spawn(tid: int, pc: Pc) | Go(tid: int, missed: bool) | Leave(tid: int)
    | Restart(aliasFile: Option<string>, groupFile: bool)

  ghost predicate Can(s: State, a: Step) {
    match a
    case Spawn(t, pc) => t !in s.threads && Starts(pc)
    case Go(t, missed) =>
      t in s.threads && (missed ==> MayMiss(s, s.threads[t])) &&
      (s.threads[t].GLock? ==> forall u :: u in s.threads ==> !HasLock(s.threads[u], s.threads[t].id)) &&
      (s.threads[t].DMark? ==> s.alias == Some(s.threads[t].uid))
    case Leave(t) => t in s.threads && (s.threads[t].AClaim? || s.threads[t].DMark?)
    case Restart(aliasFile, groupFile) =>
      (aliasFile == s.aliasFile || exists t :: t in s.threads && WritesAlias(s.threads[t], aliasFile)) &&
      (groupFile == s.groupFile || (groupFile && exists t :: t in s.threads && s.threads[t].GWrite?))
  }

  predicate MayMiss(s: State, pc: Pc) {
    ((pc.AReadGroup? || pc.GReadGroup?) && s.group.Some?) || ((pc.AReadAlias? || pc.GReadAlias?) && s.alias.Some?)
  }

  predicate WritesAlias(pc: Pc, aliasFile: Option<string>) {
    (pc.AWrite? && aliasFile == Some(pc.uid)) || (pc.DWrite? && aliasFile == Some(Records.DEFUNCT))
  }

  function Put(s: State, t: int, pc: Pc): State {
    s.(threads := s.threads[t := pc])
  }

  function End(s: State, t: int): State {
    s.(threads := s.threads - {t})
  }

  // A group object made by a goroutine, with the members read from the file if any
  function Create(s: State, onDisk: bool): State {
    s.(group := Some(s.nextId), full := if onDisk then s.full + {s.nextId} else s.full, nextId := s.nextId + 1)
  }

  function GoAlias(s: State, t: int, pc: Pc, missed: bool): State {
    match pc
    case ACheckGroup(u) => Put(s, t, if s.group.Some? then ACheckAlias(u) else AReadGroup(u))
    case AReadGroup(u) => Put(s, t, if s.groupFile && !missed then AStoreGroup(u) else ACheckAlias(u))
    case AStoreGroup(u) => Put(if s.group.Some? then s else Create(s, true), t, ACheckAlias(u))
    case ACheckAlias(u) => Put(s, t, if s.alias.Some? then AClaim(u) else AReadAlias(u))
    case AReadAlias(u) =>
      Put(s, t, if s.aliasFile.Some? && !missed then AStoreAlias(u, s.aliasFile.value) else AClaim(u))
    case AStoreAlias(u, v) => Put(if s.alias.Some? then s else s.(alias := Some(v)), t, AClaim(u))
    case AClaim(u) =>
      if (s.alias.Some? && s.alias.value != u) || s.group.Some? then End(s, t)
      else Put(s.(alias := Some(u)), t, AWrite(u))
    case AWrite(u) => End(s.(aliasFile := Some(u)), t)
    case DMark(u) => Put(s.(alias := Some(Records.DEFUNCT)), t, DWrite)
    case DWrite => End(s.(aliasFile := Some(Records.DEFUNCT)), t)
    case _ => s
  }

  function GoGroup(s: State, t: int, pc: Pc, missed: bool, valid: bool): State {
    match pc
    case GCheckGroup => Put(s, t, if s.group.Some? then GLock(s.group.value) else GReadGroup)
    case GReadGroup => Put(s, t, GStoreGroup(s.groupFile && !missed))
    case GStoreGroup(onDisk) =>
      if s.group.Some? then Put(s, t, GLock(s.group.value)) else Put(Create(s, onDisk), t, GLock(s.nextId))
    case GLock(g) => if g in s.full then End(s, t) else Put(s, t, GCheckAlias(g))
    case GCheckAlias(g) => Put(s, t, if s.alias.Some? then GClaim(g) else GReadAlias(g))
    case GReadAlias(g) =>
      Put(s, t, if s.aliasFile.Some? && !missed then GStoreAlias(g, s.aliasFile.value) else GClaim(g))
    case GStoreAlias(g, v) => Put(if s.alias.Some? then s else s.(alias := Some(v)), t, GClaim(g))
    case GClaim(g) => if s.alias.Some? || !valid then End(s.(group := None), t) else Put(s, t, GFound(g))
    case GFound(g) => Put(s.(full := s.full + {g}), t, GWrite(g))
    case GWrite(g) => End(s.(groupFile := true), t)
    case _ => s
  }

  predicate ForAlias(pc: Pc) {
    pc.ACheckGroup? || pc.AReadGroup? || pc.AStoreGroup? || pc.ACheckAlias? || pc.AReadAlias? || pc.AStoreAlias? ||
    pc.AClaim? || pc.AWrite? || pc.DMark? || pc.DWrite?
  }

  // valid says whether the name may be a group's id at all.
  ghost function After(s: State, a: Step, valid: bool): State
    requires Can(s, a)
  {
    match a
    case Spawn(t, pc) => Put(s, t, pc)
    case Go(t, missed) =>
      if ForAlias(s.threads[t]) then GoAlias(s, t, s.threads[t], missed) else GoGroup(s, t, s.threads[t], missed, valid)
    case Leave(t) => End(s, t)
    case Restart(aliasFile, groupFile) => State(None, None, {}, 0, aliasFile, groupFile, map[])
  }

  predicate AliasTaken(s: State) {
    s.alias.Some? || s.aliasFile.Some?
  }

  ghost predicate GroupTaken(s: State) {
    s.groupFile || s.full != {} || exists t :: t in s.threads && (s.threads[t].GFound? || s.threads[t].GWrite?)
  }

  // What a goroutine knows where it stands
  predicate Knows(s: State, pc: Pc, valid: bool) {
    (pc.AStoreGroup? ==> s.groupFile) &&
    (pc.ACheckAlias? || pc.AReadAlias? || pc.AStoreAlias? || pc.AClaim? ==> s.groupFile ==> s.group.Some?) &&
    (pc.AStoreAlias? || pc.GStoreAlias? ==> s.aliasFile.Some?) &&
    (pc.AWrite? || pc.DWrite? ==> s.alias.Some?) &&
    (pc.GStoreGroup? && pc.onDisk ==> s.groupFile) &&
    (pc.GLock? || pc.GCheckAlias? || pc.GReadAlias? || pc.GStoreAlias? || pc.GClaim? ==>
      s.group.Some? || s.alias.Some? || !valid) &&
    (pc.GClaim? ==> s.aliasFile.Some? ==> s.alias.Some?) &&
    (pc.GFound? || pc.GWrite? ==> s.group.Some?)
  }

  ghost predicate Inv(s: State, valid: bool) {
    !(AliasTaken(s) && GroupTaken(s)) &&
    (!valid ==> !GroupTaken(s)) &&
    (s.full != {} ==> s.group.Some?) &&
    forall t :: t in s.threads ==> Knows(s, s.threads[t], valid)
  }

  lemma AliasStep(s: State, t: int, missed: bool, valid: bool)
    requires Inv(s, valid) && Can(s, Go(t, missed)) && ForAlias(s.threads[t])
    ensures Inv(After(s, Go(t, missed), valid), valid)
  {
    var pc, d := s.threads[t], After(s, Go(t, missed), valid);
    assert Knows(s, pc, valid);
    AliasGroup(s, t, missed, valid);
    AliasKnows(s, t, missed, valid);
    if pc.AClaim? && d.alias != s.alias {
      NotTaken(s, valid);
    }
  }

  // What a goroutine of AddAlias or DropAlias does takes the name for no group ...
  lemma AliasGroup(s: State, t: int, missed: bool, valid: bool)
    requires Inv(s, valid) && Can(s, Go(t, missed)) && ForAlias(s.threads[t])
    ensures GroupTaken(After(s, Go(t, missed), valid)) ==> GroupTaken(s)
  {
    var d := After(s, Go(t, missed), valid);
    assert Knows(s, s.threads[t], valid);
    if u :| u in d.threads && (d.threads[u].GFound? || d.threads[u].GWrite?) {
      assert u in s.threads && s.threads[u] == d.threads[u];
    }
  }

  // ... and takes nothing away that another knows.
  lemma AliasKnows(s: State, t: int, missed: bool, valid: bool)
    requires Inv(s, valid) && Can(s, Go(t, missed)) && ForAlias(s.threads[t])
    ensures forall u :: u in After(s, Go(t, missed), valid).threads ==>
              Knows(After(s, Go(t, missed), valid), After(s, Go(t, missed), valid).threads[u], valid)
  {
    hide AliasTaken, GroupTaken;
    var d := After(s, Go(t, missed), valid);
    assert Knows(s, s.threads[t], valid);
    forall u | u in d.threads ensures Knows(d, d.threads[u], valid) {
      assert u != t ==> u in s.threads && d.threads[u] == s.threads[u] && Knows(s, s.threads[u], valid);
    }
  }

  lemma NotTaken(s: State, valid: bool)
    requires Inv(s, valid) && s.group == None && !s.groupFile
    ensures !GroupTaken(s)
  {
    if u :| u in s.threads && (s.threads[u].GFound? || s.threads[u].GWrite?) {
      assert Knows(s, s.threads[u], valid);
    }
  }

  lemma FoundStep(s: State, t: int, missed: bool, valid: bool)
    requires Inv(s, valid) && Can(s, Go(t, missed))
    requires s.threads[t].GClaim? || s.threads[t].GFound? || s.threads[t].GWrite?
    ensures Inv(After(s, Go(t, missed), valid), valid)
  {
    var pc := s.threads[t];
    assert Knows(s, pc, valid);
    if pc.GFound? || pc.GWrite? {
      assert GroupTaken(s);
    }
  }

  lemma GroupStep(s: State, t: int, missed: bool, valid: bool)
    requires Inv(s, valid) && Can(s, Go(t, missed)) && !ForAlias(s.threads[t])
    requires !s.threads[t].GClaim? && !s.threads[t].GFound? && !s.threads[t].GWrite?
    ensures Inv(After(s, Go(t, missed), valid), valid)
  {
    assert Knows(s, s.threads[t], valid);
    GroupGroup(s, t, missed, valid);
    GroupKnows(s, t, missed, valid);
  }

  lemma GroupGroup(s: State, t: int, missed: bool, valid: bool)
    requires Inv(s, valid) && Can(s, Go(t, missed)) && !ForAlias(s.threads[t])
    requires !s.threads[t].GClaim? && !s.threads[t].GFound? && !s.threads[t].GWrite?
    ensures GroupTaken(After(s, Go(t, missed), valid)) ==> GroupTaken(s)
  {
    var d := After(s, Go(t, missed), valid);
    assert Knows(s, s.threads[t], valid);
    if u :| u in d.threads && (d.threads[u].GFound? || d.threads[u].GWrite?) {
      assert u in s.threads && s.threads[u] == d.threads[u];
    }
  }

  lemma GroupKnows(s: State, t: int, missed: bool, valid: bool)
    requires Inv(s, valid) && Can(s, Go(t, missed)) && !ForAlias(s.threads[t])
    requires !s.threads[t].GClaim? && !s.threads[t].GFound? && !s.threads[t].GWrite?
    ensures forall u :: u in After(s, Go(t, missed), valid).threads ==>
              Knows(After(s, Go(t, missed), valid), After(s, Go(t, missed), valid).threads[u], valid)
  {
    hide AliasTaken, GroupTaken;
    var d := After(s, Go(t, missed), valid);
    assert Knows(s, s.threads[t], valid);
    forall u | u in d.threads ensures Knows(d, d.threads[u], valid) {
      assert u != t ==> u in s.threads && d.threads[u] == s.threads[u] && Knows(s, s.threads[u], valid);
    }
  }

  lemma InvStep(s: State, a: Step, valid: bool)
    requires Inv(s, valid) && Can(s, a)
    ensures Inv(After(s, a, valid), valid)
  {
    var d := After(s, a, valid);
    if a.Go? {
      if ForAlias(s.threads[a.tid]) {
        AliasStep(s, a.tid, a.missed, valid);
      } else if s.threads[a.tid].GClaim? || s.threads[a.tid].GFound? || s.threads[a.tid].GWrite? {
        FoundStep(s, a.tid, a.missed, valid);
      } else {
        GroupStep(s, a.tid, a.missed, valid);
      }
    } else if a.Restart? {
      if t :| t in s.threads && WritesAlias(s.threads[t], a.aliasFile) {
        assert Knows(s, s.threads[t], valid);
      }
    } else {
      assert GroupTaken(d) ==> GroupTaken(s) by {
        if u :| u in d.threads && (d.threads[u].GFound? || d.threads[u].GWrite?) {
          assert u in s.threads && s.threads[u] == d.threads[u];
        }
      }
    }
  }

  ghost predicate CanRun(s: State, run: seq<Step>, valid: bool)
    decreases |run|
  {
    |run| == 0 || (Can(s, run[0]) && CanRun(After(s, run[0], valid), run[1..], valid))
  }

  ghost function RunFrom(s: State, run: seq<Step>, valid: bool): State
    requires CanRun(s, run, valid)
    decreases |run|
  {
    if |run| == 0 then s else RunFrom(After(s, run[0], valid), run[1..], valid)
  }

  const START := State(None, None, {}, 0, None, false, map[])

  lemma {:induction false} InvRun(s: State, run: seq<Step>, valid: bool)
    requires Inv(s, valid) && CanRun(s, run, valid)
    ensures Inv(RunFrom(s, run, valid), valid)
    decreases |run|
  {
    if |run| > 0 {
      InvStep(s, run[0], valid);
      InvRun(After(s, run[0], valid), run[1..], valid);
    }
  }

  // However the claims interleave, with restarts at any moment, a name never is both an alias and a
  // group's id, in the caches or the files; nor is a name that may not be a group's id ever one.
  lemma NeverBoth(run: seq<Step>, valid: bool)
    requires CanRun(START, run, valid)
    ensures var s := RunFrom(START, run, valid); !(AliasTaken(s) && GroupTaken(s)) && (!valid ==> !GroupTaken(s))
  {
    InvRun(START, run, valid);
  }

  // ---- one goroutine alone ----

  function Owner(s: State): Option<string> {
    if s.alias.Some? then s.alias else s.aliasFile
  }

  function AliasRank(pc: Pc): nat {
    match pc
    case ACheckGroup(_) => 7
    case AReadGroup(_) => 6
    case AStoreGroup(_) => 5
    case ACheckAlias(_) => 4
    case AReadAlias(_) => 3
    case AStoreAlias(_, _) => 2
    case AClaim(_) => 1
    case _ => 0
  }

  // What the goroutine has read so far is what is in the files.
  predicate HasRead(s: State, pc: Pc) {
    (pc.AStoreGroup? ==> s.groupFile) &&
    (pc.ACheckAlias? || pc.AReadAlias? || pc.AStoreAlias? || pc.AClaim? ==> s.groupFile ==> s.group.Some?) &&
    (pc.AStoreAlias? ==> s.aliasFile == Some(pc.found)) &&
    (pc.AClaim? || pc.GClaim? ==> s.aliasFile.Some? ==> s.alias.Some?) &&
    (pc.GStoreAlias? ==> s.aliasFile == Some(pc.owner))
  }

  predicate MayHave(s: State, u: string) {
    s.group.None? && !s.groupFile && (Owner(s) == None || Owner(s) == Some(u))
  }

  lemma AliasTurn(s: State, t: int, pc: Pc, u: string, valid: bool)
    requires s.threads == map[t := pc] && ForAlias(pc) && !pc.DMark? && !pc.DWrite? && pc.uid == u && HasRead(s, pc)
    ensures Can(s, Go(t, false))
    ensures var d := After(s, Go(t, false), valid); var will := pc.AWrite? || MayHave(s, u);
      d.groupFile == s.groupFile &&
      if d.threads == map[] then d.aliasFile == if will then Some(u) else s.aliasFile
      else
        t in d.threads && var p := d.threads[t];
        d.threads == map[t := p] && ForAlias(p) && !p.DMark? && !p.DWrite? && p.uid == u && HasRead(d, p) &&
        AliasRank(p) < AliasRank(pc) && d.aliasFile == s.aliasFile && (will <==> p.AWrite? || MayHave(d, u))
  {
  }

  lemma FirstStep(s: State, a: Step, run: seq<Step>, valid: bool)
    requires Can(s, a) && CanRun(After(s, a, valid), run, valid)
    ensures CanRun(s, [a] + run, valid)
    ensures RunFrom(s, [a] + run, valid) == RunFrom(After(s, a, valid), run, valid)
  {
    assert ([a] + run)[1..] == run;
  }

  lemma {:induction false} AliasEnds(s: State, t: int, pc: Pc, u: string, valid: bool) returns (run: seq<Step>)
    requires s.threads == map[t := pc] && ForAlias(pc) && !pc.DMark? && !pc.DWrite? && pc.uid == u && HasRead(s, pc)
    ensures CanRun(s, run, valid)
    ensures var d := RunFrom(s, run, valid);
      d.threads == map[] && d.groupFile == s.groupFile &&
      d.aliasFile == if pc.AWrite? || MayHave(s, u) then Some(u) else s.aliasFile
    decreases AliasRank(pc)
  {
    AliasTurn(s, t, pc, u, valid);
    var d := After(s, Go(t, false), valid);
    run := [];
    hide After, Can, AliasRank, HasRead, MayHave, ForAlias;
    if d.threads != map[] {
      run := AliasEnds(d, t, d.threads[t], u, valid);
    }
    FirstStep(s, Go(t, false), run, valid);
    run := [Go(t, false)] + run;
  }

  // With no other about, AddAlias makes the name its user's exactly if it is free or his already, ...
  lemma AliasAlone(s: State, t: int, u: string, valid: bool) returns (run: seq<Step>)
    requires s.threads == map[]
    ensures CanRun(s, run, valid)
    ensures var d := RunFrom(s, run, valid);
      d.threads == map[] && d.groupFile == s.groupFile &&
      d.aliasFile == if MayHave(s, u) then Some(u) else s.aliasFile
  {
    var d := After(s, Spawn(t, ACheckGroup(u)), valid);
    run := AliasEnds(d, t, ACheckGroup(u), u, valid);
    assert ([Spawn(t, ACheckGroup(u))] + run)[1..] == run;
    run := [Spawn(t, ACheckGroup(u))] + run;
  }

  function GroupRank(pc: Pc): nat {
    match pc
    case GCheckGroup => 9
    case GReadGroup => 8
    case GStoreGroup(_) => 7
    case GLock(_) => 6
    case GCheckAlias(_) => 5
    case GReadAlias(_) => 4
    case GStoreAlias(_, _) => 3
    case GClaim(_) => 2
    case GFound(_) => 1
    case _ => 0
  }

  // A founder about his business, who has found no group so far
  predicate Founding(s: State, pc: Pc) {
    !ForAlias(pc) && HasRead(s, pc) && !s.groupFile && (pc.GStoreGroup? ==> !pc.onDisk) && (Founded(pc) || s.full == {})
  }

  predicate Founded(pc: Pc) {
    pc.GFound? || pc.GWrite?
  }

  // What the next step leaves of that
  ghost predicate Turned(s: State, t: int, pc: Pc, valid: bool, d: State) {
    var will := Founded(pc) || (valid && Owner(s).None?);
    d.aliasFile == s.aliasFile &&
    if d.threads == map[] then d.groupFile <==> will
    else
      t in d.threads && var p := d.threads[t];
      d.threads == map[t := p] && Founding(d, p) && GroupRank(p) < GroupRank(pc) &&
      (will <==> Founded(p) || (valid && Owner(d).None?))
  }

  lemma OneThread(s: State, t: int, p: Pc)
    requires s.threads.Keys == {t}
    ensures Put(s, t, p).threads == map[t := p] && End(s, t).threads == map[]
  {
  }

  lemma GroupTurn(s: State, t: int, pc: Pc, valid: bool)
    requires s.threads == map[t := pc] && Founding(s, pc)
    ensures Can(s, Go(t, false)) && Turned(s, t, pc, valid, After(s, Go(t, false), valid))
  {
    var d := After(s, Go(t, false), valid);
    OneThread(s, t, if d.threads == map[] then pc else d.threads[t]);
    if pc.GCheckGroup? || pc.GReadGroup? || pc.GStoreGroup? || pc.GLock? {
      assert Turned(s, t, pc, valid, d);
    } else {
      assert Turned(s, t, pc, valid, d);
    }
  }

  lemma {:induction false} GroupEnds(s: State, t: int, pc: Pc, valid: bool) returns (run: seq<Step>)
    requires s.threads == map[t := pc] && Founding(s, pc)
    ensures CanRun(s, run, valid)
    ensures var d := RunFrom(s, run, valid);
      d.threads == map[] && d.aliasFile == s.aliasFile &&
      (d.groupFile <==> Founded(pc) || (valid && Owner(s).None?))
    decreases GroupRank(pc)
  {
    GroupTurn(s, t, pc, valid);
    var d := After(s, Go(t, false), valid);
    run := [];
    hide After, Can, GroupRank, Founding, Founded, Owner;
    if d.threads != map[] {
      run := GroupEnds(d, t, d.threads[t], valid);
    }
    FirstStep(s, Go(t, false), run, valid);
    run := [Go(t, false)] + run;
  }

  // ... and an invitation founds the group exactly if the name is nobody's and may be a group's.
  lemma GroupAlone(s: State, t: int, valid: bool) returns (run: seq<Step>)
    requires s.threads == map[] && Inv(s, valid) && !GroupTaken(s)
    ensures CanRun(s, run, valid)
    ensures var d := RunFrom(s, run, valid);
      d.threads == map[] && d.aliasFile == s.aliasFile && (d.groupFile <==> valid && !AliasTaken(s))
  {
    var d := After(s, Spawn(t, GCheckGroup), valid);
    run := GroupEnds(d, t, GCheckGroup, valid);
    assert ([Spawn(t, GCheckGroup)] + run)[1..] == run;
    run := [Spawn(t, GCheckGroup)] + run;
  }
}
