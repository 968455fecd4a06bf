// A call cut short by a crash while others ran beside it, and made again after the restart.
module ServerRetry {
  import opened Common
  import Names
  import opened Records
  import C = CrashRetry
  import R = Recovery
  import Retry
  import opened S = Server

  // ---- what the call does to other databases ----

  // b is what a crash has left of t: it has no names and groups that t has not.
  ghost predicate LeftOf(b: Db, t: Db) {
    NamesInv(b) && NamesInv(t) && KeysAhead(b, t)
  }

  lemma NameAgain(s: Db, b: Db, t: Db, uid: string, n: string)
    requires NamesInv(s) && LeftOf(b, t) && uid in s.user && uid in b.user && b.user[uid] == s.user[uid]
    requires n != "" && OwnedBy(t, n, uid) && !Taken(s, uid, n)
    ensures Holds(b, uid, n) == Holds(s, uid, n) && !Taken(b, uid, n)
  {
    hide UserOk;
    assert NameOk(s, n) && NameOk(b, n) && NameOk(t, n);
    DefunctIsNoUser(s);
    if n in s.alias { IndexValue(s, n); }
    if n in b.alias { IndexValue(b, n); }
    assert OwnedBy(s, n, uid) == OwnedBy(b, n, uid);
  }

  // AddAlias, if nothing of it was committed
  lemma AliasAgain(printable: char -> bool, s: Db, b: Db, t: Db, c: Call)
    requires NamesInv(s) && LeftOf(b, t) && c.AddAlias? && Apply(printable, s, c).db != s
    requires c.uid in b.user && b.user[c.uid] == s.user[c.uid]
    requires c.uid in t.user && t.user[c.uid] == Apply(printable, s, c).db.user[c.uid]
    ensures c.uid in Apply(printable, b, c).db.user
    ensures Apply(printable, b, c).db.user[c.uid] == Apply(printable, s, c).db.user[c.uid]
  {
    hide InvalidInput, InvalidAscii, Names.ValidUid, NamesInv, KeysAhead, Taken, Holds;
    var u, local := s.user[c.uid], if c.local == c.en then "" else c.local;
    var v := WithAlias(u, local, c.en);
    assert t.user[c.uid] == v;
    forall n | n != "" && (n == local || n == c.en)
      ensures Holds(b, c.uid, n) == Holds(s, c.uid, n) && !Taken(b, c.uid, n)
    {
      WithAliasNames(u, local, c.en, n);
      NameAgain(s, b, t, c.uid, n);
    }
    Blank(s, b, c.uid);
  }

  lemma Blank(s: Db, b: Db, uid: string)
    ensures Holds(s, uid, "") && Holds(b, uid, "") && !Taken(s, uid, "") && !Taken(b, uid, "")
  {
  }

  lemma DropAgain(printable: char -> bool, s: Db, b: Db, c: Call)
    requires NamesInv(s) && NamesInv(b) && c.DropAlias? && Apply(printable, s, c).db != s
    requires c.uid in b.user && b.user[c.uid] == s.user[c.uid]
    ensures Apply(printable, b, c).db.user == b.user[c.uid := Apply(printable, s, c).db.user[c.uid]]
  {
    hide Names.ValidUid, WithoutAlias;
    IndexValue(s, c.alias);
    assert OwnedBy(b, c.alias, c.uid) && NameOk(b, c.alias);
  }

  // A user call of which nothing was committed does what it did, ...
  lemma UserAgain(printable: char -> bool, s: Db, b: Db, t: Db, c: Call)
    requires NamesInv(s) && Proper(c) && !OnGroup(c) && Apply(printable, s, c).db != s && LeftOf(b, t)
    requires c.uid in t.user && c.uid in Apply(printable, s, c).db.user &&
      t.user[c.uid] == Apply(printable, s, c).db.user[c.uid]
    requires R.Get(b.user, c.uid) == R.Get(s.user, c.uid)
    ensures c.uid in Apply(printable, b, c).db.user
    ensures Apply(printable, b, c).db.user[c.uid] == Apply(printable, s, c).db.user[c.uid]
  {
    hide InvalidInput, InvalidAscii, Names.ValidUid, NamesInv, KeysAhead, Taken, Holds, Marked, WithAlias,
         WithoutAlias, Cleared;
    if c.AddAlias? {
      AliasAgain(printable, s, b, t, c);
    } else if c.DropAlias? {
      DropAgain(printable, s, b, c);
    }
  }

  lemma StillHolds(s: Db, b: Db, u: User, v: User, uid: string, n: string)
    requires NamesInv(s) && NamesInv(b) && uid in s.user && s.user[uid] == u && uid in b.user && b.user[uid] == v
    requires n != "" ==> !Taken(s, uid, n) && Owns(v, n) && Marked(v, n) == Marked(u, n)
    ensures Holds(b, uid, n)
  {
    assert NameOk(s, n) && NameOk(b, n);
    DefunctIsNoUser(s);
    if n != "" && Marked(u, n) {
      MarkedIsOwned(s, uid, n);
    }
    assert n != "" ==> OwnedBy(b, n, uid);
  }

  // ... and one that was committed nothing more, unless it makes a node anew.
  lemma UserDone(printable: char -> bool, s: Db, b: Db, c: Call)
    requires NamesInv(s) && NamesInv(b) && Proper(c) && !OnGroup(c) && Apply(printable, s, c).db != s
    requires c.uid in b.user && c.uid in Apply(printable, s, c).db.user &&
      b.user[c.uid] == Apply(printable, s, c).db.user[c.uid]
    ensures c.uid in Apply(printable, b, c).db.user
    ensures Apply(printable, b, c).db.user[c.uid] == b.user[c.uid] <==> !Retry.Renumbers(s, c)
  {
    hide InvalidInput, InvalidAscii, Names.ValidUid, NamesInv, Taken, Holds, Marked, WithAlias, WithoutAlias, Cleared;
    match c
    case AddUser(uid, node, auth) =>
    case AddNode(uid, node) => NodeDone(s, b, uid, node);
    case DropNode(uid, node) =>
    case AddAlias(uid, given, en) =>
      var local := if given == en then "" else given;
      WithAliasNames(s.user[uid], local, en, local);
      WithAliasNames(s.user[uid], local, en, en);
      StillHolds(s, b, s.user[uid], b.user[uid], uid, local);
      StillHolds(s, b, s.user[uid], b.user[uid], uid, en);
    case DropAlias(uid, alias) => DropDone(s, uid, alias);
  }

  lemma DropDone(s: Db, uid: string, alias: string)
    requires NamesInv(s) && uid in s.user && Find(s, alias) == uid
    ensures Marked(WithoutAlias(s.user[uid], alias), alias)
  {
    IndexValue(s, alias);
    WithoutAliasNames(s.user[uid], alias, alias);
  }

  lemma NodeDone(s: Db, b: Db, uid: string, node: string)
    requires NodeAdded(s, uid, node).db != s && uid in b.user && uid in s.user &&
      b.user[uid] == NodeAdded(s, uid, node).db.user[uid]
    ensures uid in NodeAdded(b, uid, node).db.user
    ensures NodeAdded(b, uid, node).db.user[uid] == b.user[uid] <==> !Retry.Renumbers(s, AddNode(uid, node))
  {
    hide Cleared, Retry.Renumbers;
    Retry.RetryNode(s, uid, node);
    var d := NodeAdded(s, uid, node).db;
    assert b.user[uid] == d.user[uid];
    if NodeAdded(d, uid, node).db != d {
      assert NodeAdded(d, uid, node).db.user[uid].count != d.user[uid].count;
    }
  }

  // A group call depends on the group and on where the names lead that it looks up.
  lemma GroupLocal(printable: char -> bool, s: Db, b: Db, c: Call)
    requires OnGroup(c) && R.Get(s.group, c.gid) == R.Get(b.group, c.gid)
    requires forall n :: LooksUp(c, n) ==> Find(s, n) == Find(b, n)
    requires c.gid !in s.group ==> Find(s, c.gid) == Find(b, c.gid)
    ensures R.Get(Apply(printable, s, c).db.group, c.gid) == R.Get(Apply(printable, b, c).db.group, c.gid)
  {
    if c.GroupInvite? {
      InviteLocal(printable, s, b, c);
    } else {
      MemberLocal(printable, s, b, c);
    }
  }

  lemma InviteLocal(printable: char -> bool, s: Db, b: Db, c: Call)
    requires c.GroupInvite? && R.Get(s.group, c.gid) == R.Get(b.group, c.gid)
    requires forall n :: LooksUp(c, n) ==> Find(s, n) == Find(b, n)
    requires c.gid !in s.group ==> Find(s, c.gid) == Find(b, c.gid)
    ensures R.Get(Apply(printable, s, c).db.group, c.gid) == R.Get(Apply(printable, b, c).db.group, c.gid)
  {
    hide InvalidInput, StatusOf, Find;
    assert LooksUp(c, c.alias) && LooksUp(c, c.byAlias);
  }

  lemma MemberLocal(printable: char -> bool, s: Db, b: Db, c: Call)
    requires (c.GroupJoin? || c.GroupAlias? || c.GroupQuit?) && R.Get(s.group, c.gid) == R.Get(b.group, c.gid)
    requires forall n :: LooksUp(c, n) ==> Find(s, n) == Find(b, n)
    ensures R.Get(Apply(printable, s, c).db.group, c.gid) == R.Get(Apply(printable, b, c).db.group, c.gid)
  {
    hide StatusOf, AliasOf, Find;
    assert LooksUp(c, if c.GroupQuit? then c.alias else c.newAlias);
  }

  lemma GroupAgain(printable: char -> bool, s: Db, b: Db, t: Db, c: Call)
    requires NamesInv(s) && OnGroup(c) && Apply(printable, s, c).db != s && LeftOf(b, t) && c.gid in t.group
    requires R.Get(b.group, c.gid) == R.Get(s.group, c.gid) ||
      R.Get(b.group, c.gid) == R.Get(Apply(printable, s, c).db.group, c.gid)
    requires forall n :: LooksUp(c, n) ==> Find(s, n) == Find(b, n)
    ensures R.Get(Apply(printable, b, c).db.group, c.gid) == R.Get(Apply(printable, s, c).db.group, c.gid)
  {
    hide Apply, LooksUp, UserOk;
    var d := Apply(printable, s, c).db;
    GroupCallSpares(printable, s, c);
    GroupChanges(printable, s, c);
    if R.Get(b.group, c.gid) == R.Get(s.group, c.gid) {
      assert NameOk(t, c.gid);
      if c.gid !in s.group { Free(printable, s, c); }
      GroupLocal(printable, s, b, c);
    } else {
      Retry.RetryGroup(printable, s, c);
      GroupLocal(printable, d, b, c);
    }
  }

  lemma GroupChanges(printable: char -> bool, s: Db, c: Call)
    requires OnGroup(c) && Apply(printable, s, c).db != s
    ensures Apply(printable, s, c).outcome.Done? && c.gid in Apply(printable, s, c).db.group
  {
  }

  lemma Free(printable: char -> bool, s: Db, c: Call)
    requires OnGroup(c) && Apply(printable, s, c).db != s && c.gid !in s.group
    ensures Find(s, c.gid) == ""
  {
  }

  lemma CallAgain(printable: char -> bool, s: Db, b: Db, t: Db, c: Call)
    requires NamesInv(s) && Proper(c) && Apply(printable, s, c).db != s && LeftOf(b, t)
    requires C.RecordIn(t, C.KeyOf(c)) == C.RecordIn(Apply(printable, s, c).db, C.KeyOf(c))
    requires C.RecordIn(b, C.KeyOf(c)) == C.RecordIn(s, C.KeyOf(c)) ||
      C.RecordIn(b, C.KeyOf(c)) == C.RecordIn(t, C.KeyOf(c))
    requires forall n :: LooksUp(c, n) ==> Find(b, n) == Find(s, n)
    ensures C.RecordIn(Apply(printable, b, c).db, C.KeyOf(c)) == C.RecordIn(t, C.KeyOf(c)) <==>
            C.RecordIn(b, C.KeyOf(c)) == C.RecordIn(s, C.KeyOf(c)) || !Retry.Renumbers(s, c)
  {
    hide Apply, NamesInv, KeysAhead, LooksUp, Retry.Renumbers;
    var rec := CallWrites(printable, s, c);
    if OnGroup(c) {
      assert !Retry.Renumbers(s, c) by { NoNode(s, c); }
      GroupAgain(printable, s, b, t, c);
    } else if C.RecordIn(b, C.KeyOf(c)) == C.RecordIn(s, C.KeyOf(c)) {
      UserAgain(printable, s, b, t, c);
    } else {
      UserDone(printable, s, b, c);
    }
  }

  lemma NoNode(s: Db, c: Call)
    requires OnGroup(c)
    ensures !Retry.Renumbers(s, c)
  {
  }

  // ---- in the server ----

  predicate MakesOn(a: Step, k: Key) {
    a.Make? && C.KeyOf(a.c) == k
  }

  lemma MakeSpares(printable: char -> bool, s: State, c: Call, k: Key)
    requires S.Inv(s) && Can(printable, s, Make(c)) && C.KeyOf(c) != k
    ensures var r := S.After(printable, s, Make(c));
      r.files.mode.Up? && C.RecordIn(r.db, k) == C.RecordIn(s.db, k) && r.base == s.base
  {
    hide Apply, Shows, NamesInv, R.Inv, R.Good, Ahead, Waits, C.RecordIn, R.NameNow;
    if Apply(printable, s.db, c).db != s.db {
      CallMayBegin(printable, s, c);
      var rec := CallWrites(printable, s.db, c);
    }
  }

  lemma AdvanceSpares(s: State, l: Key, k: Key)
    requires S.Inv(s) && s.files.mode.Up? && R.Can(s.files, R.Advance(l))
    ensures R.After(s.files, R.Advance(l)).mode.Up?
    ensures var b := Based(s.base, s.files, R.Advance(l));
      C.RecordIn(b, k) == C.RecordIn(s.base, k) || C.RecordIn(b, k) == C.RecordIn(s.db, k)
  {
    hide Shows, NamesInv, R.Do, R.Succeeds, R.Good, KeysAhead, WantsChanged, IndexAhead, Committed, C.RecordIn,
         R.NameNow;
    var w := s.files.work[l];
    assert R.WorkOk(s.files.disk, l, w);
    if w.pc.Commit? {
      CommittedIs(s.base, l, w.rec);
    }
  }

  // A record that no call is on is as calls see it, and in the files as it was or as calls see it.
  lemma RecordStays(printable: char -> bool, s: State, a: Step, k: Key)
    requires S.Inv(s) && Can(printable, s, a) && s.files.mode.Up? && !MakesOn(a, k) && a != File(R.Crash)
    ensures var r := S.After(printable, s, a);
      r.files.mode.Up? && C.RecordIn(r.db, k) == C.RecordIn(s.db, k) &&
      (C.RecordIn(r.base, k) == C.RecordIn(s.base, k) || C.RecordIn(r.base, k) == C.RecordIn(s.db, k))
  {
    hide S.Inv, Apply, Based, R.After, C.RecordIn;
    match a
    case Make(c) => MakeSpares(printable, s, c, k);
    case File(f) =>
      assert f.Advance?;
      AdvanceSpares(s, f.key, k);
    case Restarted =>
      assert false;
  }

  lemma {:induction false} RecordStaysLong(printable: char -> bool, s: State, run: seq<Step>, k: Key)
    requires S.Inv(s) && S.CanRun(printable, s, run) && s.files.mode.Up?
    requires forall a :: a in run ==> !MakesOn(a, k) && a != File(R.Crash)
    ensures var r := RunFrom(printable, s, run);
      S.Inv(r) && r.files.mode.Up? && C.RecordIn(r.db, k) == C.RecordIn(s.db, k) &&
      (C.RecordIn(r.base, k) == C.RecordIn(s.base, k) || C.RecordIn(r.base, k) == C.RecordIn(s.db, k))
    decreases |run|
  {
    hide S.Inv, Can, S.After, C.RecordIn, MakesOn;
    if |run| > 0 {
      assert run[0] in run;
      S.InvStep(printable, s, run[0]);
      RecordStays(printable, s, run[0], k);
      RecordStaysLong(printable, S.After(printable, s, run[0]), run[1..], k);
    }
  }

  // Nothing is left to be committed, and calls see what the files hold.
  ghost predicate Still(s: State) {
    (forall k :: !Pending(s.files.work, k)) && (s.files.mode.Up? ==> s.db == s.base)
  }

  lemma FileStill(s: State, f: R.Step)
    requires R.Inv(s.files) && (forall k :: !Pending(s.files.work, k)) && R.Can(s.files, f) && !f.Begin? && !f.Finish?
    ensures (forall k :: !Pending(R.After(s.files, f).work, k)) && Based(s.base, s.files, f) == s.base
    ensures R.After(s.files, f).mode.Up? ==> s.files.mode.Up?
  {
    hide R.Do, R.Succeeds, R.Good, R.Touches, R.CommittedOk, R.CommittedApart, R.WorkApart, R.NameDone;
    if f.Advance? {
      assert !Pending(s.files.work, f.key);
      NextNotBefore(f.key, s.files.work[f.key]);
    }
    forall k ensures !Pending(R.After(s.files, f).work, k) {
      assert !Pending(s.files.work, k);
    }
  }

  lemma NextNotBefore(k: Key, w: R.Work)
    requires !R.BeforeCommit(w.pc)
    ensures R.Next(k, w).Some? ==> !R.BeforeCommit(R.Next(k, w).value.pc)
  {
  }

  lemma StillStep(printable: char -> bool, s: State, a: Step)
    requires S.Inv(s) && Still(s) && Can(printable, s, a) && !a.Make?
    ensures Still(S.After(printable, s, a)) && S.After(printable, s, a).base == s.base
  {
    hide Shows, NamesInv, Ahead, R.Inv, Based, FromFiles;
    match a
    case File(f) =>
      FileStill(s, f);
      assert S.After(printable, s, a) == State(s.db, Based(s.base, s.files, f), R.After(s.files, f));
    case Restarted =>
      RestartKeeps(printable, s);
      assert S.After(printable, s, Restarted).files == R.After(s.files, R.Finish);
      assert S.After(printable, s, Restarted).base == s.base;
  }

  lemma {:induction false} StillLong(printable: char -> bool, s: State, run: seq<Step>)
    requires S.Inv(s) && Still(s) && S.CanRun(printable, s, run) && forall a :: a in run ==> !a.Make?
    ensures Still(RunFrom(printable, s, run)) && RunFrom(printable, s, run).base == s.base
    decreases |run|
  {
    hide S.Inv, Still, Can, S.After;
    if |run| > 0 {
      assert run[0] in run;
      S.InvStep(printable, s, run[0]);
      StillStep(printable, s, run[0]);
      StillLong(printable, S.After(printable, s, run[0]), run[1..]);
    }
  }

  // A call is made and others beside it; there is a crash, and maybe more during recovery, and no
  // call since.
  ghost predicate Interrupted(printable: char -> bool, s: State, c: Call, beside: seq<Step>, restart: seq<Step>)
  {
    Can(printable, s, Make(c)) &&
    S.CanRun(printable, S.After(printable, s, Make(c)), beside) &&
    Can(printable, RunFrom(printable, S.After(printable, s, Make(c)), beside), File(R.Crash)) &&
    S.CanRun(printable, Crashed(printable, s, c, beside), restart) &&
    (forall a :: a in beside ==> !MakesOn(a, C.KeyOf(c)) && a != File(R.Crash)) && forall a :: a in restart ==> !a.Make?
  }

  ghost function Crashed(printable: char -> bool, s: State, c: Call, beside: seq<Step>): State
    requires Can(printable, s, Make(c)) && S.CanRun(printable, S.After(printable, s, Make(c)), beside)
  {
    S.After(printable, RunFrom(printable, S.After(printable, s, Make(c)), beside), File(R.Crash))
  }

  lemma LeftByCrash(printable: char -> bool, s: State, c: Call, beside: seq<Step>, restart: seq<Step>) returns (t: Db)
    requires S.Inv(s) && Interrupted(printable, s, c, beside, restart) && Apply(printable, s.db, c).db != s.db
    requires RunFrom(printable, Crashed(printable, s, c, beside), restart).files.mode.Up?
    ensures var b := RunFrom(printable, Crashed(printable, s, c, beside), restart).db;
      var d, k := Apply(printable, s.db, c).db, C.KeyOf(c);
      LeftOf(b, t) && C.RecordIn(t, k) == C.RecordIn(d, k) &&
      (C.RecordIn(b, k) == C.RecordIn(s.db, k) || C.RecordIn(b, k) == C.RecordIn(d, k))
  {
    hide S.Inv, Apply, Can, S.After, C.RecordIn, MakesOn, LeftOf;
    var s1 := S.After(printable, s, Make(c));
    S.InvStep(printable, s, Make(c));
    AfterMake(printable, s, c);
    RecordStaysLong(printable, s1, beside, C.KeyOf(c));
    var x := RunFrom(printable, s1, beside);
    t := x.db;
    S.InvStep(printable, x, File(R.Crash));
    CrashStill(printable, x);
    var y := Crashed(printable, s, c, beside);
    StillLong(printable, y, restart);
    S.InvRun(printable, y, restart);
    IsLeft(x);
  }

  lemma IsLeft(x: State)
    requires S.Inv(x) && x.files.mode.Up?
    ensures LeftOf(x.base, x.db)
  {
    hide R.Inv, Shows, NamesInv, RecordsAhead, KeysAhead, WantsChanged, IndexAhead;
  }

  lemma CrashStill(printable: char -> bool, x: State)
    requires Can(printable, x, File(R.Crash))
    ensures Still(S.After(printable, x, File(R.Crash))) && S.After(printable, x, File(R.Crash)).base == x.base
  {
  }

  lemma AfterMake(printable: char -> bool, s: State, c: Call)
    requires S.Inv(s) && Can(printable, s, Make(c)) && Apply(printable, s.db, c).db != s.db
    ensures var s1 := S.After(printable, s, Make(c));
      s1.files.mode.Up? && s1.db == Apply(printable, s.db, c).db && s1.base == s.base &&
      C.RecordIn(s.base, C.KeyOf(c)) == C.RecordIn(s.db, C.KeyOf(c))
  {
    hide Apply, NamesInv, R.Inv, Shows, KeysAhead, WantsChanged, IndexAhead, R.Good, Waits, C.RecordIn;
    CallMayBegin(printable, s, c);
  }

  // Whatever ran beside a call that a crash cut short: made again first thing after the restart, it
  // leaves its record as one uninterrupted call leaves it, exactly unless it was committed and adds a
  // node numbered 0. A group call does so if the names that it looks up lead where they led.
  lemma RetryAfterCrash(printable: char -> bool, run: seq<Step>, c: Call, beside: seq<Step>, restart: seq<Step>)
    requires S.CanRun(printable, START, run)
    requires var s := RunFrom(printable, START, run);
      Interrupted(printable, s, c, beside, restart) && Apply(printable, s.db, c).db != s.db
    requires var s := RunFrom(printable, START, run);
      var r := RunFrom(printable, Crashed(printable, s, c, beside), restart);
      r.files.mode.Up? && forall n :: LooksUp(c, n) ==> Find(r.db, n) == Find(s.db, n)
    ensures var s, k := RunFrom(printable, START, run), C.KeyOf(c);
      var b, d := RunFrom(printable, Crashed(printable, s, c, beside), restart).db, Apply(printable, s.db, c).db;
      (C.RecordIn(b, k) == C.RecordIn(s.db, k) || C.RecordIn(b, k) == C.RecordIn(d, k)) &&
      (C.RecordIn(Apply(printable, b, c).db, k) == C.RecordIn(d, k) <==>
       C.RecordIn(b, k) == C.RecordIn(s.db, k) || !Retry.Renumbers(s.db, c))
  {
    hide S.Inv, S.After, Can, Apply, Crashed, LooksUp, LeftOf, Retry.Renumbers, C.RecordIn;
    StartOk();
    S.InvRun(printable, START, run);
    var s := RunFrom(printable, START, run);
    var t := LeftByCrash(printable, s, c, beside, restart);
    LetIn(printable, s, c);
    CallAgain(printable, s.db, RunFrom(printable, Crashed(printable, s, c, beside), restart).db, t, c);
  }

  lemma LetIn(printable: char -> bool, s: State, c: Call)
    requires S.Inv(s) && Can(printable, s, Make(c))
    ensures NamesInv(s.db) && Proper(c)
  {
    hide R.Inv, Shows, NamesInv, Ahead;
  }
}
