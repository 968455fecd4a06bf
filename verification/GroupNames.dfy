// The aliases that groups record, through calls on many records at once and crashes.
module GroupNames {
  import opened Common
  import Names
  import opened Records
  import C = CrashRetry
  import M = Membership
  import P = Progress
  import R = Recovery
  import opened S = Server

  // ---- what a group may record ----

  // An entry is under a name that belongs to its member, or, if made for "*defunct", to somebody.
  ghost predicate EntryKnown(db: Db, u: string, m: Member) {
    u != "" && !m.status.Absent? && if u == DEFUNCT then m.alias in db.alias else OwnedBy(db, m.alias, u)
  }

  ghost predicate GroupKnown(db: Db, g: Group) {
    g != map[] && forall u :: u in g ==> EntryKnown(db, u, g[u])
  }

  // The names that the groups record are those of db.
  ghost predicate GroupsKnown(db: Db, groups: map<string, Group>) {
    forall g :: g in groups ==> GroupKnown(db, groups[g])
  }

  // The symlink that a write in flight drops still leads to its user, whatever else is committed.
  ghost predicate DropsHeld(base: Db, work: map<Key, R.Work>) {
    forall k, n :: Pending(work, k) && R.Last(R.Touches(k, work[k].rec), n) == Some(DEFUNCT) ==>
      R.Get(base.alias, n) == Some(k.id)
  }

  // Groups, committed or not, record names that are committed.
  ghost predicate NamesFirst(s: State) {
    GroupsKnown(s.base, s.base.group) &&
    (s.files.mode.Up? ==> GroupsKnown(s.base, s.db.group) && DropsHeld(s.base, s.files.work))
  }

  // ---- group calls ----

  // What a call finds under a name that no AddAlias is writing
  lemma FoundIsKnown(base: Db, db: Db, work: map<Key, R.Work>, n: string)
    requires NamesInv(base) && IndexAhead(base, db, work) && DropsHeld(base, work)
    requires n in db.alias && forall k :: k in work ==> !Gives(k, work[k].rec, n)
    ensures if db.alias[n] == DEFUNCT then n in base.alias else OwnedBy(base, n, db.alias[n])
  {
    if k :| Pending(work, k) && R.Wants(k, work[k].rec, n) {
      assert R.Get(db.alias, n) == Some(DEFUNCT) == R.Last(R.Touches(k, work[k].rec), n);
      assert R.Get(base.alias, n) == Some(k.id);
    } else {
      assert R.Get(db.alias, n) == R.Get(base.alias, n);
      assert NameOk(base, n);
      IndexValue(base, n);
    }
  }

  ghost predicate Finds(base: Db, db: Db, n: string) {
    n in db.alias ==> if db.alias[n] == DEFUNCT then n in base.alias else OwnedBy(base, n, db.alias[n])
  }

  lemma SetKnown(base: Db, db: Db, gid: string, uid: string, m: Member)
    requires GroupsKnown(base, db.group) && gid in db.group && EntryKnown(base, uid, m)
    ensures GroupsKnown(base, SetMember(db, gid, uid, m).group)
  {
    var d := SetMember(db, gid, uid, m);
    forall g | g in d.group ensures GroupKnown(base, d.group[g]) {
      assert GroupKnown(base, db.group[g]);
    }
  }

  lemma MemberKnown(base: Db, db: Db, gid: string, uid: string)
    requires GroupsKnown(base, db.group) && gid in db.group && uid in db.group[gid]
    ensures EntryKnown(base, uid, db.group[gid][uid])
  {
    assert GroupKnown(base, db.group[gid]);
  }

  lemma FoundEntry(base: Db, db: Db, n: string, st: Status)
    requires NamesInv(db) && Finds(base, db, n) && Find(db, n) != "" && !st.Absent?
    ensures EntryKnown(base, Find(db, n), Member(n, st))
  {
  }

  lemma InviteKnown(printable: char -> bool, base: Db, db: Db, c: Call)
    requires NamesInv(db) && GroupsKnown(base, db.group) && c.GroupInvite?
    requires Finds(base, db, c.alias) && Finds(base, db, c.byAlias)
    ensures GroupsKnown(base, Apply(printable, db, c).db.group)
  {
    hide InvalidInput, NamesInv, GroupKnown, EntryKnown, Finds;
    var d := Apply(printable, db, c).db;
    if d != db {
      FoundEntry(base, db, c.alias, Invited);
      if c.gid in db.group {
        SetKnown(base, db, c.gid, Find(db, c.alias), Member(c.alias, Invited));
      } else {
        FoundEntry(base, db, c.byAlias, Joined);
        Founded(base, c.byUid, Member(c.byAlias, Joined), Find(db, c.alias), Member(c.alias, Invited));
      }
    }
  }

  lemma Founded(base: Db, u: string, m: Member, v: string, o: Member)
    requires EntryKnown(base, u, m) && EntryKnown(base, v, o)
    ensures GroupKnown(base, map[u := m][v := o])
  {
    assert v in map[u := m][v := o];
  }

  lemma MoveKnown(printable: char -> bool, base: Db, db: Db, c: Call)
    requires NamesInv(db) && GroupsKnown(base, db.group) && (c.GroupJoin? || c.GroupAlias?) &&
      Finds(base, db, c.newAlias)
    ensures GroupsKnown(base, Apply(printable, db, c).db.group)
  {
    hide NamesInv, GroupKnown, EntryKnown, Finds;
    var d := Apply(printable, db, c).db;
    if d != db {
      MemberKnown(base, db, c.gid, c.uid);
      EntryIs(base, c.uid, db.group[c.gid][c.uid]);
      if c.newAlias != "" || c.GroupAlias? {
        FoundEntry(base, db, c.newAlias, Joined);
        SetKnown(base, db, c.gid, c.uid, Member(c.newAlias, Joined));
      } else {
        SetKnown(base, db, c.gid, c.uid, Member(db.group[c.gid][c.uid].alias, Joined));
      }
    }
  }

  lemma EntryIs(base: Db, u: string, m: Member)
    requires EntryKnown(base, u, m)
    ensures u != "" && forall st: Status :: !st.Absent? ==> EntryKnown(base, u, m.(status := st))
  {
  }

  lemma QuitKnown(printable: char -> bool, base: Db, db: Db, c: Call)
    requires NamesInv(db) && GroupsKnown(base, db.group) && c.GroupQuit? && Finds(base, db, c.alias)
    ensures GroupsKnown(base, Apply(printable, db, c).db.group)
  {
    hide NamesInv, GroupKnown, EntryKnown, Finds;
    if Apply(printable, db, c).db != db {
      FoundEntry(base, db, c.alias, Invited);
      FoundEntry(base, db, c.alias, Barred);
      SetKnown(base, db, c.gid, Find(db, c.alias), Member(c.alias, Invited));
      SetKnown(base, db, c.gid, Find(db, c.alias), Member(c.alias, Barred));
    }
  }

  lemma GroupCallKnown(printable: char -> bool, base: Db, db: Db, work: map<Key, R.Work>, c: Call)
    requires NamesInv(base) && NamesInv(db) && IndexAhead(base, db, work) && DropsHeld(base, work)
    requires GroupsKnown(base, db.group) && OnGroup(c) && !Waits(work, c)
    ensures GroupsKnown(base, Apply(printable, db, c).db.group)
  {
    hide Apply, NamesInv, IndexAhead, DropsHeld, GroupsKnown, Gives;
    forall n | LooksUp(c, n) ensures Finds(base, db, n) {
      if n in db.alias {
        FoundIsKnown(base, db, work, n);
      }
    }
    match c
    case GroupInvite(_, alias, byAlias, _) =>
      assert LooksUp(c, alias) && LooksUp(c, byAlias);
      InviteKnown(printable, base, db, c);
    case GroupJoin(_, _, newAlias) =>
      assert LooksUp(c, newAlias);
      MoveKnown(printable, base, db, c);
    case GroupAlias(_, _, newAlias) =>
      assert LooksUp(c, newAlias);
      MoveKnown(printable, base, db, c);
    case GroupQuit(_, alias, _) =>
      assert LooksUp(c, alias);
      QuitKnown(printable, base, db, c);
  }

  // ---- user calls ----

  predicate DropsName(a: Alias, n: string) {
    (a.enTouched && a.en == n && a.enDefunct) || (a.localTouched && a.local == n && a.localDefunct)
  }

  lemma EntryDrops(uid: string, a: Alias, n: string)
    requires uid != DEFUNCT && R.Last(R.EntryTouches(uid, a), n) == Some(DEFUNCT)
    ensures DropsName(a, n)
  {
    var ts := R.EntryTouches(uid, a);
    assert ts[..|ts|] == ts && ts[..0] == [];
    if |ts| > 0 { R.LastStep(ts, 0, n); }
    if |ts| > 1 { R.LastStep(ts, 1, n); }
  }

  lemma {:induction false} DropsTouched(uid: string, s: seq<Alias>, n: string)
    requires uid != DEFUNCT && R.Last(R.UserTouches(uid, s), n) == Some(DEFUNCT)
    ensures exists i :: 0 <= i < |s| && DropsName(s[i], n)
  {
    if |s| > 0 {
      var k := |s| - 1;
      EntryWants(uid, s[k], n);
      R.LastJoins(R.UserTouches(uid, s[..k]), R.EntryTouches(uid, s[k]), n);
      if R.Last(R.EntryTouches(uid, s[k]), n).Some? {
        EntryDrops(uid, s[k], n);
      } else {
        DropsTouched(uid, s[..k], n);
        var i :| 0 <= i < k && DropsName(s[..k][i], n);
        assert DropsName(s[i], n);
      }
    }
  }

  // A call that drops a name found it to be its user's.
  lemma CallDrops(printable: char -> bool, db: Db, c: Call, n: string)
    requires NamesInv(db) && Proper(c) && !OnGroup(c) && Apply(printable, db, c).db != db
    requires c.uid in Apply(printable, db, c).db.user
    requires R.Last(R.UserTouches(c.uid, Apply(printable, db, c).db.user[c.uid].aliases), n) == Some(DEFUNCT)
    ensures n in db.alias && db.alias[n] == c.uid && c.uid in db.user && OwnedBy(db, n, c.uid)
  {
    var d := Apply(printable, db, c).db;
    assert c.uid != DEFUNCT by {
      NamesStep(printable, db, c);
      DefunctIsNoUser(d);
    }
    DropsTouched(c.uid, d.user[c.uid].aliases, n);
    var i :| 0 <= i < |d.user[c.uid].aliases| && DropsName(d.user[c.uid].aliases[i], n);
    assert c.DropAlias? by {
      OnlyDropAlias(printable, db, c, i, n);
    }
    hide Marked, Linked, Cleared, Mark;
    IndexValue(db, c.alias);
    DropOne(db.user[c.uid], c.alias, i, n);
  }

  lemma OnlyDropAlias(printable: char -> bool, db: Db, c: Call, i: nat, n: string)
    requires !OnGroup(c) && Apply(printable, db, c).db != db && c.uid in Apply(printable, db, c).db.user
    requires i < |Apply(printable, db, c).db.user[c.uid].aliases| &&
      DropsName(Apply(printable, db, c).db.user[c.uid].aliases[i], n)
    ensures c.DropAlias?
  {
    hide InvalidInput, InvalidAscii, Names.ValidUid, Cleared, Taken, Holds, Marked, Indexed;
  }

  lemma DropOne(u: User, name: string, i: nat, n: string)
    requires Owns(u, name) && i < |WithoutAlias(u, name).aliases| && DropsName(WithoutAlias(u, name).aliases[i], n)
    ensures n == name
  {
    WithoutAliasEntries(u, name, i);
  }

  lemma DropsOfMore(printable: char -> bool, s: State, c: Call)
    requires S.Inv(s) && DropsHeld(s.base, s.files.work) && Can(printable, s, Make(c)) &&
      Apply(printable, s.db, c).db != s.db
    ensures var d, k := Apply(printable, s.db, c).db, C.KeyOf(c); DropsHeld(s.base, Begun(s.files, d, k).work)
  {
    hide Apply, NamesInv, R.Inv, Shows, KeysAhead, WantsChanged, IndexAhead, R.Good, Waits;
    var d, k := Apply(printable, s.db, c).db, C.KeyOf(c);
    var rec := CallWrites(printable, s.db, c);
    var work := s.files.work[k := R.Work(rec, R.Create)];
    assert Begun(s.files, d, k).work == work;
    forall l, n | Pending(work, l) && R.Last(R.Touches(l, work[l].rec), n) == Some(DEFUNCT)
      ensures R.Get(s.base.alias, n) == Some(l.id)
    {
      if l != k {
        assert Pending(s.files.work, l);
      } else {
        assert !OnGroup(c) && rec == R.UserRecord(d.user[c.uid]);
        CallDrops(printable, s.db, c, n);
        assert C.RecordIn(s.db, k) == C.RecordIn(s.base, k);
        SameIndex(s.base, s.db, c.uid, n);
      }
    }
  }

  lemma SameIndex(base: Db, db: Db, u: string, n: string)
    requires NamesInv(base) && NamesInv(db) && C.RecordIn(db, UserKey(u)) == C.RecordIn(base, UserKey(u))
    requires OwnedBy(db, n, u) && n in db.alias && db.alias[n] == u
    ensures R.Get(base.alias, n) == Some(u)
  {
    assert db.user[u] == base.user[u] && NameOk(db, n) && NameOk(base, n);
    DefunctIsNoUser(db);
    assert OwnedBy(base, n, u);
  }

  // ---- the steps ----

  lemma MakeNames(printable: char -> bool, s: State, c: Call)
    requires S.Inv(s) && NamesFirst(s) && Can(printable, s, Make(c))
    ensures NamesFirst(S.After(printable, s, Make(c)))
  {
    hide Apply, NamesInv, R.Inv, Shows, RecordsAhead, KeysAhead, WantsChanged, IndexAhead, R.Good, Waits, DropsHeld;
    if Apply(printable, s.db, c).db != s.db {
      DropsOfMore(printable, s, c);
      if OnGroup(c) {
        GroupCallKnown(printable, s.base, s.db, s.files.work, c);
      } else {
        UserCallSpares(printable, s.db, c);
      }
    }
  }

  // A commit adds to what the files hold, and takes nothing away.
  lemma CommitAdds(base: Db, db: Db, work: map<Key, R.Work>, k: Key)
    requires NamesInv(db) && Ahead(base, db, work) && Pending(work, k) && R.Fits(k, work[k].rec)
    ensures var b := Committed(base, k, work[k].rec);
      base.alias.Keys <= b.alias.Keys && forall u, n :: OwnedBy(base, n, u) ==> OwnedBy(b, n, u)
  {
    hide IndexAhead;
    var rec := work[k].rec;
    var b := Committed(base, k, rec);
    CommittedIs(base, k, rec);
    assert C.RecordIn(db, k) == Some(rec);
    forall n | n in base.alias ensures n in b.alias {
      assert R.Get(b.alias, n) == R.NameNow(R.Get(base.alias, n), R.Commitment(k, rec), n);
    }
    forall u, n | OwnedBy(base, n, u) ensures OwnedBy(b, n, u) {
      if rec.UserRecord? && u == k.id {
        if R.Wants(k, rec, n) {
          assert k == UserKey(k.id) && db.user[k.id] == rec.user;
          WantedIsOwned(db, k.id, n);
        } else {
          assert OwnedBy(base, n, k.id) == Owns(rec.user, n);
        }
      }
    }
  }

  lemma KnownGrows(base: Db, b: Db, groups: map<string, Group>)
    requires GroupsKnown(base, groups)
    requires base.alias.Keys <= b.alias.Keys && forall u, n :: OwnedBy(base, n, u) ==> OwnedBy(b, n, u)
    ensures GroupsKnown(b, groups)
  {
    hide OwnedBy;
    forall g | g in groups ensures GroupKnown(b, groups[g]) {
      assert GroupKnown(base, groups[g]);
      forall u | u in groups[g] ensures EntryKnown(b, u, groups[g][u]) {
        assert EntryKnown(base, u, groups[g][u]);
      }
    }
  }

  lemma CommitNames(base: Db, db: Db, work: map<Key, R.Work>, k: Key)
    requires NamesInv(db) && Ahead(base, db, work) && Pending(work, k) && R.Fits(k, work[k].rec)
    requires GroupsKnown(base, base.group) && GroupsKnown(base, db.group)
    ensures var b := Committed(base, k, work[k].rec); GroupsKnown(b, b.group) && GroupsKnown(b, db.group)
  {
    hide NamesInv, GroupKnown, OwnedBy, KeysAhead, WantsChanged, IndexAhead, Linked;
    var rec := work[k].rec;
    var b := Committed(base, k, rec);
    CommitAdds(base, db, work, k);
    KnownGrows(base, b, base.group);
    KnownGrows(base, b, db.group);
    assert C.RecordIn(db, k) == Some(rec);
    forall g | g in b.group ensures GroupKnown(b, b.group[g]) {
      if rec.GroupRecord? && g == k.id {
        assert b.group[g] == db.group[g];
      } else {
        assert g in base.group && b.group[g] == base.group[g];
      }
    }
  }

  lemma CommitDrops(base: Db, work: map<Key, R.Work>, k: Key)
    requires DropsHeld(base, work) && Pending(work, k) && R.Fits(k, work[k].rec)
    requires forall l :: l in work && l != k ==> R.Apart(k, work[k].rec, l, work[l].rec)
    ensures DropsHeld(Committed(base, k, work[k].rec), work[k := work[k].(pc := R.DropMain)])
  {
    hide Linked;
    var rec, after := work[k].rec, work[k := work[k].(pc := R.DropMain)];
    var b := Committed(base, k, rec);
    CommittedIs(base, k, rec);
    forall l, n | Pending(after, l) && R.Last(R.Touches(l, after[l].rec), n) == Some(DEFUNCT)
      ensures R.Get(b.alias, n) == Some(l.id)
    {
      assert l != k && Pending(work, l) && !R.Wants(k, rec, n);
      assert R.Get(b.alias, n) == R.NameNow(R.Get(base.alias, n), R.Commitment(k, rec), n);
    }
  }

  lemma AdvanceNames(s: State, k: Key)
    requires S.Inv(s) && NamesFirst(s) && R.Can(s.files, R.Advance(k))
    ensures NamesFirst(State(s.db, Based(s.base, s.files, R.Advance(k)), R.After(s.files, R.Advance(k))))
  {
    hide Shows, NamesInv, Ahead, R.Succeeds, R.Do, R.InRange, GroupsKnown;
    var w := s.files.work[k];
    assert R.WorkOk(s.files.disk, k, w);
    if w.pc.Commit? {
      assert s.files.mode.Up? && Pending(s.files.work, k);
      CommitNames(s.base, s.db, s.files.work, k);
      CommitDrops(s.base, s.files.work, k);
    } else if s.files.mode.Up? {
      var after := R.After(s.files, R.Advance(k)).work;
      forall l ensures Pending(after, l) ==> Pending(s.files.work, l) && after[l].rec == s.files.work[l].rec {
      }
    }
  }

  lemma FileNames(printable: char -> bool, s: State, f: R.Step)
    requires S.Inv(s) && NamesFirst(s) && Can(printable, s, File(f))
    ensures NamesFirst(S.After(printable, s, File(f)))
  {
    hide S.Inv, GroupsKnown, DropsHeld, R.Succeeds, R.Do, Committed;
    if f.Advance? {
      assert f == R.Advance(f.key);
      AdvanceNames(s, f.key);
      assert S.After(printable, s, File(f)) == State(s.db, Based(s.base, s.files, f), R.After(s.files, f));
      assert NamesFirst(S.After(printable, s, File(f)));
    } else {
      assert !R.After(s.files, f).mode.Up?;
      assert S.After(printable, s, File(f)).base == s.base;
      assert NamesFirst(S.After(printable, s, File(f)));
    }
  }

  lemma NamesStepOf(printable: char -> bool, s: State, a: Step)
    requires S.Inv(s) && NamesFirst(s) && Can(printable, s, a)
    ensures NamesFirst(S.After(printable, s, a))
  {
    hide S.Inv, GroupsKnown, DropsHeld, Apply;
    match a
    case Make(c) => MakeNames(printable, s, c);
    case File(f) => FileNames(printable, s, f);
    case Restarted => RestartNames(printable, s);
  }

  lemma RestartNames(printable: char -> bool, s: State)
    requires S.Inv(s) && NamesFirst(s) && Can(printable, s, Restarted)
    ensures NamesFirst(S.After(printable, s, Restarted))
  {
    hide S.Inv, GroupsKnown, FromFiles, Apply;
    RestartKeeps(printable, s);
    assert S.After(printable, s, Restarted).files.work == map[];
  }

  // ---- whole runs ----

  lemma StartNames()
    ensures NamesFirst(START)
  {
  }

  lemma {:induction false} NamesFirstRun(printable: char -> bool, s: State, run: seq<Step>)
    requires S.Inv(s) && NamesFirst(s) && S.CanRun(printable, s, run)
    ensures S.Inv(RunFrom(printable, s, run)) && NamesFirst(RunFrom(printable, s, run))
    decreases |run|
  {
    hide S.Inv, NamesFirst, Can, S.After;
    if |run| > 0 {
      S.InvStep(printable, s, run[0]);
      NamesStepOf(printable, s, run[0]);
      NamesFirstRun(printable, S.After(printable, s, run[0]), run[1..]);
    }
  }

  // Each member is a registered user, recorded under an alias that leads to him or that he has
  // dropped; or "*defunct", under somebody's.
  ghost predicate GroupsAgree(db: Db) {
    forall g, u :: g in db.group && u in db.group[g] ==>
      var m := db.group[g][u];
      !m.status.Absent? && m.alias in db.alias &&
      (u != DEFUNCT ==> u in db.user && (db.alias[m.alias] == u || db.alias[m.alias] == DEFUNCT))
  }

  lemma KnownAgree(db: Db)
    requires NamesInv(db) && GroupsKnown(db, db.group)
    ensures GroupsAgree(db)
  {
    forall g, u | g in db.group && u in db.group[g]
      ensures var m := db.group[g][u];
        !m.status.Absent? && m.alias in db.alias &&
        (u != DEFUNCT ==> u in db.user && (db.alias[m.alias] == u || db.alias[m.alias] == DEFUNCT))
    {
      MemberKnown(db, db, g, u);
      assert NameOk(db, db.group[g][u].alias);
    }
  }

  // Whatever calls run beside one another, and whatever crashes cut their writes short: what calls
  // see while the server is up, and what the next start will find, has its groups in agreement with
  // its names.
  lemma GroupsAgreeAlways(printable: char -> bool, run: seq<Step>)
    requires S.CanRun(printable, START, run)
    ensures var s := RunFrom(printable, START, run); GroupsAgree(s.base) && (s.files.mode.Up? ==> GroupsAgree(s.db))
  {
    hide S.Inv, S.After, Can, GroupsAgree, GroupsKnown, NamesInv, DropsHeld;
    StartOk();
    StartNames();
    NamesFirstRun(printable, START, run);
    NamesAgreeAlways(printable, run);
    var s := RunFrom(printable, START, run);
    KnownAgree(s.base);
    if s.files.mode.Up? {
      AheadOf(s);
      KnownGrows(s.base, s.db, s.db.group);
      KnownAgree(s.db);
    }
  }

  lemma AheadOf(s: State)
    requires S.Inv(s) && s.files.mode.Up?
    ensures s.base.alias.Keys <= s.db.alias.Keys && forall u, n :: OwnedBy(s.base, n, u) ==> OwnedBy(s.db, n, u)
  {
    hide R.Inv, Shows, NamesInv, OwnedBy, RecordsAhead, WantsChanged, IndexAhead;
  }

  // A name that calls find dropped stays so through a crash exactly if no write that drops it is
  // still to be committed. So an entry made for "*defunct" under it may find its alias alive again.
  lemma DroppedForGood(printable: char -> bool, run: seq<Step>, n: string)
    requires S.CanRun(printable, START, run)
    requires var s := RunFrom(printable, START, run); s.files.mode.Up? && R.Get(s.db.alias, n) == Some(DEFUNCT)
    ensures var s := RunFrom(printable, START, run);
      R.NameOf(s.files.disk, n) == Some(DEFUNCT) <==>
      forall k :: Pending(s.files.work, k) ==> R.Last(R.Touches(k, s.files.work[k].rec), n) != Some(DEFUNCT)
  {
    hide S.After, Can, R.Inv, NamesInv, R.NameOf, RecordsAhead, KeysAhead, WantsChanged, GroupsKnown;
    StartOk();
    StartNames();
    NamesFirstRun(printable, START, run);
    var s := RunFrom(printable, START, run);
    DroppedExactly(s.base, s.db, s.files.work, n);
  }

  lemma DroppedExactly(base: Db, db: Db, work: map<Key, R.Work>, n: string)
    requires NamesInv(db) && RecordsAhead(base, db, work) && IndexAhead(base, db, work) && DropsHeld(base, work)
    requires R.Get(db.alias, n) == Some(DEFUNCT)
    ensures R.Get(base.alias, n) == Some(DEFUNCT) <==>
            forall k :: Pending(work, k) ==> R.Last(R.Touches(k, work[k].rec), n) != Some(DEFUNCT)
  {
    if k :| Pending(work, k) && R.Last(R.Touches(k, work[k].rec), n) == Some(DEFUNCT) {
      assert C.RecordIn(db, k) == Some(work[k].rec) && R.Wants(k, work[k].rec, n);
      HeldOwns(db, k, work[k].rec, n);
      DefunctIsNoUser(db);
    } else {
      forall k | Pending(work, k) ensures !R.Wants(k, work[k].rec, n) {
        if R.Wants(k, work[k].rec, n) {
          IndexOfPending(base, db, work, k, n);
        }
      }
    }
  }

  lemma IndexOfPending(base: Db, db: Db, work: map<Key, R.Work>, k: Key, n: string)
    requires IndexAhead(base, db, work) && Pending(work, k) && R.Wants(k, work[k].rec, n)
    ensures R.Get(db.alias, n) == R.Last(R.Touches(k, work[k].rec), n)
  {
  }

  // Without a crash calls see all the agreement that single calls keep.
  lemma {:induction false} NoCrashAllAgree(printable: char -> bool, s: State, run: seq<Step>)
    requires s.files.mode.Up? && Records.Inv(s.db) && S.CanRun(printable, s, run) && File(R.Crash) !in run
    ensures RunFrom(printable, s, run).files.mode.Up? && Records.Inv(RunFrom(printable, s, run).db)
    decreases |run|
  {
    hide Records.Inv, Can, S.After;
    if |run| > 0 {
      assert run[0] in run;
      UpStep(printable, s, run[0]);
      NoCrashAllAgree(printable, S.After(printable, s, run[0]), run[1..]);
    }
  }

  lemma UpStep(printable: char -> bool, s: State, a: Step)
    requires s.files.mode.Up? && Records.Inv(s.db) && Can(printable, s, a) && a != File(R.Crash)
    ensures S.After(printable, s, a).files.mode.Up? && Records.Inv(S.After(printable, s, a).db)
  {
    hide Records.Inv, Apply, R.Do, R.Succeeds;
    if a.Make? {
      Records.InvStep(printable, s.db, a.c);
    }
  }

  // ---- a drop taken back ----

  lemma UserMakes(printable: char -> bool, s: State, c: Call) returns (run: seq<Step>)
    requires S.Inv(s) && R.Settled(s.files) && Proper(c) && !OnGroup(c) && c.uid == "U"
    requires Apply(printable, s.db, c).db != s.db
    ensures S.CanRun(printable, s, run)
    ensures var r := RunFrom(printable, s, run); S.Inv(r) && R.Settled(r.files) && r.db == Apply(printable, s.db, c).db
  {
    hide S.Inv, S.After, Apply;
    Names.UidHasNoSuffix("U");
    run := P.Makes(printable, s, c);
  }

  lemma JoinedRun(printable: char -> bool) returns (run: seq<Step>)
    ensures S.CanRun(printable, START, run)
    ensures var r := RunFrom(printable, START, run); S.Inv(r) && R.Settled(r.files) && r.db == r.base == M.JOINED
  {
    hide S.Inv, S.After, Can, Apply;
    StartOk();
    M.Joining(printable);
    assert "U" in M.One([], map[]).user && "n" in M.One([M.OLD_NAME], map["n" := "U"]).alias && "m" in M.JOINED.alias;
    var a := UserMakes(printable, START, M.JOIN[0]);
    var s1 := RunFrom(printable, START, a);
    var b := UserMakes(printable, s1, M.JOIN[1]);
    var s2 := RunFrom(printable, s1, b);
    var c := UserMakes(printable, s2, M.JOIN[2]);
    AtRest(RunFrom(printable, s2, c));
    P.RunJoin(printable, s1, b, c);
    P.RunJoin(printable, START, a, b + c);
    run := a + (b + c);
  }

  lemma AtRest(s: State)
    requires S.Inv(s) && R.Settled(s.files)
    ensures s.db == s.base
  {
    hide R.Inv, Shows, NamesInv, Ahead;
    NothingAhead(s.base, s.db);
  }

  // The write of the drop waits; it keeps no invitation under the name from being made.
  lemma DropBegins(printable: char -> bool, s: State)
    requires S.Inv(s) && R.Settled(s.files) && s.db == s.base == M.JOINED && printable('g')
    ensures Can(printable, s, Make(M.DROP))
    ensures var r := S.After(printable, s, Make(M.DROP));
      S.Inv(r) && r.db == M.DROPPED && r.base == s.base && Can(printable, r, Make(M.INVITE)) &&
      Apply(printable, r.db, M.INVITE).db == M.DROPPED.(group := map["g" := M.GROUP])
  {
    hide S.Inv, Apply, NamesInv, Gives;
    M.Drops(printable);
    M.Invites(printable);
    Names.UidHasNoSuffix("U");
    assert M.DROPPED.alias["n"] != M.JOINED.alias["n"];
    S.InvStep(printable, s, Make(M.DROP));
    var r := S.After(printable, s, Make(M.DROP));
    var rec := R.UserRecord(M.DROPPED.user["U"]);
    assert r.files.work == map[UserKey("U") := R.Work(rec, R.Create)];
    DropTouches();
    assert !Waits(r.files.work, M.INVITE);
  }

  lemma DropTouches()
    ensures forall n :: !Gives(UserKey("U"), R.UserRecord(M.DROPPED.user["U"]), n)
  {
    var a, b := Alias("n", "", true, false, true, false), Untouched(M.NEW_NAME);
    assert M.DROPPED.user["U"].aliases == [a, b] && [a, b][..1] == [a] && [a][..0] == [];
    assert R.EntryTouches("U", a) == [R.Touch("n", DEFUNCT)] && R.EntryTouches("U", b) == [];
    assert R.UserTouches("U", [a]) == R.UserTouches("U", []) + R.EntryTouches("U", a);
    assert R.UserTouches("U", [a, b]) == R.UserTouches("U", [a]) + R.EntryTouches("U", b);
    var ts := R.UserTouches("U", [a, b]);
    assert ts == [R.Touch("n", DEFUNCT)] && ts[..0] == [];
    forall n ensures !Gives(UserKey("U"), R.UserRecord(M.DROPPED.user["U"]), n) {
      assert R.Last(ts, n) == if n == "n" then Some(DEFUNCT) else None;
    }
  }

  // A user has dropped a name, but the write is not committed; an invitation under it is, and lists
  // "*defunct"; after a crash the name leads to the user again.
  lemma DropTakenBack(printable: char -> bool) returns (run: seq<Step>)
    requires printable('g')
    ensures S.CanRun(printable, START, run)
    ensures var s := RunFrom(printable, START, run);
      R.Settled(s.files) && s.db.group == map["g" := M.GROUP] && s.db.alias == map["n" := "U", "m" := "U"]
    ensures DEFUNCT in M.GROUP && M.GROUP[DEFUNCT].alias == "n"
  {
    hide S.Inv, S.After, Can, Apply;
    var join := JoinedRun(printable);
    var s := RunFrom(printable, START, join);
    DropBegins(printable, s);
    var r := S.After(printable, s, Make(M.DROP));
    assert "g" !in r.db.group;
    var invite := P.Makes(printable, r, M.INVITE);
    var t := RunFrom(printable, r, invite);
    var crash := P.Recovers(printable, t);
    P.RunJoin(printable, r, invite, crash);
    P.RunStep(printable, s, Make(M.DROP), invite + crash);
    run := join + ([Make(M.DROP)] + (invite + crash));
    P.RunJoin(printable, START, join, [Make(M.DROP)] + (invite + crash));
  }
}
