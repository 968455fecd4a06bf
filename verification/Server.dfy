// Calls of the user database that run at the same time, each writing its record file by file, and
// the crashes between: what Recovery takes for granted of the writes in flight follows from the
// database, and the database read back at a restart is in order.
module Server {
  import opened Common
  import Names
  import opened Records
  import C = CrashRetry
  import Effects
  import Histories
  import R = Recovery

  type Key = Names.Key

  // ---- what a record wants of the index ----

  predicate TouchesName(a: Alias, n: string) {
    (a.enTouched && a.en == n) || (a.localTouched && a.local == n)
  }

  lemma EntryWants(uid: string, a: Alias, n: string)
    ensures |R.EntryTouches(uid, a)| <= 2
    ensures R.Last(R.EntryTouches(uid, a), n).Some? <==> TouchesName(a, n)
  {
    var ts := R.EntryTouches(uid, a);
    assert ts[..|ts|] == ts && ts[..0] == [];
    if |ts| > 0 { R.LastStep(ts, 0, n); }
    if |ts| > 1 { R.LastStep(ts, 1, n); }
  }

  // Exactly the touched names
  lemma {:induction false} WantsTouched(uid: string, s: seq<Alias>, n: string)
    ensures R.Last(R.UserTouches(uid, s), n).Some? <==> exists i :: 0 <= i < |s| && TouchesName(s[i], n)
  {
    if |s| > 0 {
      var k := |s| - 1;
      WantsTouched(uid, s[..k], n);
      EntryWants(uid, s[k], n);
      R.LastJoins(R.UserTouches(uid, s[..k]), R.EntryTouches(uid, s[k]), n);
      if i :| 0 <= i < k && TouchesName(s[..k][i], n) {
        assert TouchesName(s[i], n);
      }
      if i :| 0 <= i < |s| && TouchesName(s[i], n) {
        assert i < k ==> TouchesName(s[..k][i], n);
      }
    }
  }

  lemma WantedIsOwned(db: Db, u: string, n: string)
    requires UsersOk(db) && u in db.user && R.Wants(UserKey(u), R.UserRecord(db.user[u]), n)
    ensures OwnedBy(db, n, u)
  {
    var s := db.user[u].aliases;
    WantsTouched(u, s, n);
    var i :| 0 <= i < |s| && TouchesName(s[i], n);
    assert UserOk(u, db.user[u]) && EntryOk(s[i]) && Called(s[i], n);
  }

  function UserKey(u: string): Key {
    Names.Key(Names.IsUser, u)
  }

  // No two users' records want the same name: a name that is wanted is owned, and has one owner.
  lemma RecordsApart(db: Db, u: string, v: string)
    requires NamesInv(db) && u in db.user && v in db.user && u != v
    ensures R.Apart(UserKey(u), R.UserRecord(db.user[u]), UserKey(v), R.UserRecord(db.user[v]))
  {
    forall n
      ensures !(R.Wants(UserKey(u), R.UserRecord(db.user[u]), n) && R.Wants(UserKey(v), R.UserRecord(db.user[v]), n))
    {
      if R.Wants(UserKey(u), R.UserRecord(db.user[u]), n) {
        WantedIsOwned(db, u, n);
      }
      if R.Wants(UserKey(v), R.UserRecord(db.user[v]), n) {
        WantedIsOwned(db, v, n);
      }
      assert NameOk(db, n);
    }
  }

  // Records that a database holds at the same time are apart.
  lemma HeldApart(db: Db, k: Key, r: R.Record, l: Key, t: R.Record)
    requires NamesInv(db) && k != l && C.RecordIn(db, k) == Some(r) && C.RecordIn(db, l) == Some(t)
    ensures R.Apart(k, r, l, t)
  {
    if k.kind.IsUser? && l.kind.IsUser? {
      assert k == UserKey(k.id) && l == UserKey(l.id);
      RecordsApart(db, k.id, l.id);
    }
  }

  // ---- the server ----

  // db is the database that calls see, in the caches and the files; base, a history, is what the
  // commits so far have made.
  datatype State = State(db: Db, base: Db, files: R.State)

  // A call, as far as its write's beginning; a file operation, a crash or a step of recovery; and
  // the end of recovery, when the database is read from the files
  datatype Step = Make(c: Call) | File(a: R.Step) | Restarted

  // The names that a group call looks up
  predicate LooksUp(c: Call, n: string) {
    match c
    case GroupInvite(_, alias, byAlias, _) => n == alias || n == byAlias
    case GroupJoin(_, _, newAlias) => n == newAlias
    case GroupAlias(_, _, newAlias) => n == newAlias
    case GroupQuit(_, alias, _) => n == alias
    case _ => false
  }

  // The record has the name made for its user.
  predicate Gives(k: Key, rec: R.Record, n: string) {
    R.Wants(k, rec, n) && R.Last(R.Touches(k, rec), n) != Some(DEFUNCT)
  }

  // AddAlias holds the lock under which names are looked up until its write is done.
  ghost predicate Waits(work: map<Key, R.Work>, c: Call) {
    exists k, n :: k in work && Gives(k, work[k].rec, n) && LooksUp(c, n)
  }

  ghost predicate Can(printable: char -> bool, s: State, a: Step) {
    match a
    case Make(c) =>
      s.files.mode.Up? && Proper(c) && !Waits(s.files.work, c) &&
      (Apply(printable, s.db, c).db != s.db ==> C.KeyOf(c) !in s.files.work && R.Good(C.KeyOf(c))) // the record's lock
    case File(f) => R.Can(s.files, f) && (f.Advance? || f.Crash? || f.Start? || f.Visit?)
    case Restarted => R.Can(s.files, R.Finish)
  }

  function Committed(base: Db, k: Key, rec: R.Record): Db {
    match rec
    case UserRecord(u) => base.(user := base.user[k.id := u], alias := Linked(base.alias, k.id, u.aliases))
    case GroupRecord(g) => base.(group := base.group[k.id := g])
  }

  function Based(base: Db, f: R.State, a: R.Step): Db {
    if a.Advance? && a.key in f.work && f.work[a.key].pc.Commit? then Committed(base, a.key, f.work[a.key].rec)
    else base
  }

  function FromFiles(disk: R.Disk): Db {
    Db(map k | k in disk.main && k.kind.IsUser? && disk.main[k].UserRecord? :: k.id := disk.main[k].user,
       disk.alias,
       map k | k in disk.main && k.kind.IsGroup? && disk.main[k].GroupRecord? :: k.id := disk.main[k].group)
  }

  // The write of a call that changes the database
  function Begun(f: R.State, d: Db, k: Key): R.State {
    match C.RecordIn(d, k)
    case Some(rec) => f.(work := f.work[k := R.Work(rec, R.Create)])
    case None => f
  }

  ghost function After(printable: char -> bool, s: State, a: Step): State
    requires Can(printable, s, a)
  {
    match a
    case Make(c) =>
      var d := Apply(printable, s.db, c).db;
      if d == s.db then s else State(d, s.base, Begun(s.files, d, C.KeyOf(c)))
    case File(f) => State(s.db, Based(s.base, s.files, f), R.After(s.files, f))
    case Restarted => State(FromFiles(s.files.disk), s.base, R.After(s.files, R.Finish))
  }

  // ---- invariant ----

  // What the files would be recovered to is base.
  ghost predicate Shows(disk: R.Disk, base: Db) {
    (forall k :: R.RecordOf(disk, k) == C.RecordIn(base, k)) && forall n :: R.NameOf(disk, n) == R.Get(base.alias, n)
  }

  predicate Pending(work: map<Key, R.Work>, k: Key) {
    k in work && R.BeforeCommit(work[k].pc)
  }

  predicate MarkedBy(db: Db, n: string, u: string) {
    u in db.user && Marked(db.user[u], n)
  }

  // db is ahead of base by the writes that are still to be committed.
  ghost predicate RecordsAhead(base: Db, db: Db, work: map<Key, R.Work>) {
    forall k ::
      (k in work ==> C.RecordIn(db, k) == Some(work[k].rec)) &&
      (!Pending(work, k) ==> C.RecordIn(db, k) == C.RecordIn(base, k))
  }

  ghost predicate KeysAhead(base: Db, db: Db) {
    base.alias.Keys <= db.alias.Keys && base.group.Keys <= db.group.Keys &&
    forall u, n :: OwnedBy(base, n, u) ==> OwnedBy(db, n, u)
  }

  // A write in flight wants every name that it changes anything about.
  ghost predicate WantsChanged(base: Db, work: map<Key, R.Work>) {
    forall k, n :: Pending(work, k) && work[k].rec.UserRecord? && !R.Wants(k, work[k].rec, n) ==>
      OwnedBy(base, n, k.id) == Owns(work[k].rec.user, n) && MarkedBy(base, n, k.id) == Marked(work[k].rec.user, n)
  }

  ghost predicate IndexAhead(base: Db, db: Db, work: map<Key, R.Work>) {
    (forall k, n :: Pending(work, k) && R.Wants(k, work[k].rec, n) ==>
      R.Get(db.alias, n) == R.Last(R.Touches(k, work[k].rec), n)) &&
    (forall n :: (forall k :: Pending(work, k) ==> !R.Wants(k, work[k].rec, n)) ==>
      R.Get(db.alias, n) == R.Get(base.alias, n))
  }

  ghost predicate Ahead(base: Db, db: Db, work: map<Key, R.Work>) {
    RecordsAhead(base, db, work) && KeysAhead(base, db) && WantsChanged(base, work) && IndexAhead(base, db, work)
  }

  ghost predicate Inv(s: State) {
    R.Inv(s.files) && Shows(s.files.disk, s.base) && NamesInv(s.base) &&
    (s.files.mode.Up? ==> NamesInv(s.db) && Ahead(s.base, s.db, s.files.work))
  }

  // ---- a call ----

  // A call's record wants every name that the call changes anything about.
  lemma CallWants(printable: char -> bool, db: Db, c: Call, n: string)
    requires NamesInv(db) && Proper(c) && !OnGroup(c) && Apply(printable, db, c).db != db
    requires c.uid in Apply(printable, db, c).db.user
    requires !R.Wants(UserKey(c.uid), R.UserRecord(Apply(printable, db, c).db.user[c.uid]), n)
    ensures var d := Apply(printable, db, c).db;
      OwnedBy(d, n, c.uid) == OwnedBy(db, n, c.uid) && MarkedBy(d, n, c.uid) == MarkedBy(db, n, c.uid)
  {
    hide InvalidInput, InvalidAscii, Names.ValidUid, Linked;
    var d := Apply(printable, db, c).db;
    WantsTouched(c.uid, d.user[c.uid].aliases, n);
    match c
    case AddUser(uid, node, auth) =>
    case AddNode(uid, node) => ClearedSameAt(db.user[uid], WithNode(db.user[uid], node), n);
    case DropNode(uid, node) => ClearedSameAt(db.user[uid], WithoutNode(db.user[uid], node), n);
    case AddAlias(uid, given, en) => AliasWants(db.user[uid], if given == en then "" else given, en, n);
    case DropAlias(uid, alias) =>
      IndexValue(db, alias);
      DropWants(db.user[uid], alias, n);
  }

  lemma AliasWants(u: User, local: string, en: string, n: string)
    requires forall i :: 0 <= i < |WithAlias(u, local, en).aliases| ==>
      !TouchesName(WithAlias(u, local, en).aliases[i], n)
    ensures var v := WithAlias(u, local, en); Owns(v, n) == Owns(u, n) && Marked(v, n) == Marked(u, n)
  {
    WithAliasNames(u, local, en, n);
    var s := WithAlias(u, local, en).aliases;
    assert !TouchesName(s[|s| - 1], n);
  }

  lemma DropWants(u: User, name: string, n: string)
    requires Owns(u, name)
    requires forall i :: 0 <= i < |WithoutAlias(u, name).aliases| ==> !TouchesName(WithoutAlias(u, name).aliases[i], n)
    ensures var v := WithoutAlias(u, name); Owns(v, n) == Owns(u, n) && Marked(v, n) == Marked(u, n)
  {
    WithoutAliasNames(u, name, n);
    var k := First(u.aliases, name);
    WithoutAliasEntries(u, name, k);
    assert !TouchesName(WithoutAlias(u, name).aliases[k], n);
  }

  // What a call that changes the database writes
  lemma CallWrites(printable: char -> bool, db: Db, c: Call) returns (rec: R.Record)
    requires NamesInv(db) && Proper(c) && Apply(printable, db, c).db != db
    ensures var d, k := Apply(printable, db, c).db, C.KeyOf(c);
      C.RecordIn(d, k) == Some(rec) && R.Fits(k, rec) && C.Written(db, d, R.Commitment(k, rec))
  {
    hide InvalidInput, InvalidAscii, Names.ValidUid, Linked;
    var d, k := Apply(printable, db, c).db, C.KeyOf(c);
    if OnGroup(c) {
      rec := R.GroupRecord(d.group[c.gid]);
    } else {
      C.UserCallLinks(printable, db, c);
      rec := R.UserRecord(d.user[c.uid]);
    }
    C.OneWrite(printable, db, c, rec);
  }

  // A new write never clashes with those in flight.
  lemma NewWriteApart(s: State, d: Db, k: Key, rec: R.Record)
    requires RecordsAhead(s.base, s.db, s.files.work) && NamesInv(d) && k !in s.files.work
    requires C.RecordIn(d, k) == Some(rec) && forall l :: l != k ==> C.RecordIn(d, l) == C.RecordIn(s.db, l)
    ensures forall l :: l in s.files.work ==> R.Apart(k, rec, l, s.files.work[l].rec)
  {
    forall l | l in s.files.work ensures R.Apart(k, rec, l, s.files.work[l].rec) {
      assert C.RecordIn(d, l) == Some(s.files.work[l].rec);
      HeldApart(d, k, rec, l, s.files.work[l].rec);
    }
  }

  // The condition under which a write may begin in Recovery always holds.
  lemma CallMayBegin(printable: char -> bool, s: State, c: Call)
    requires Inv(s) && Can(printable, s, Make(c)) && Apply(printable, s.db, c).db != s.db
    ensures var d, k := Apply(printable, s.db, c).db, C.KeyOf(c);
      C.RecordIn(d, k).Some? && R.Can(s.files, R.Begin(k, C.RecordIn(d, k).value)) &&
      Begun(s.files, d, k) == R.After(s.files, R.Begin(k, C.RecordIn(d, k).value))
  {
    hide R.Inv, Shows, NamesInv, KeysAhead, WantsChanged, IndexAhead, Apply, R.Good, R.Apart;
    var rec := CallWrites(printable, s.db, c);
    NamesStep(printable, s.db, c);
    NewWriteApart(s, Apply(printable, s.db, c).db, C.KeyOf(c), rec);
  }

  lemma AheadOfMore(printable: char -> bool, s: State, c: Call)
    requires Inv(s) && Can(printable, s, Make(c)) && Apply(printable, s.db, c).db != s.db
    ensures var d, k := Apply(printable, s.db, c).db, C.KeyOf(c); Ahead(s.base, d, Begun(s.files, d, k).work)
  {
    hide R.Inv, Shows, Apply, R.Good, R.Apart, NamesInv, RecordsAhead, KeysAhead, WantsChanged, IndexAhead;
    var d, k := Apply(printable, s.db, c).db, C.KeyOf(c);
    var rec := CallWrites(printable, s.db, c);
    var work := s.files.work[k := R.Work(rec, R.Create)];
    assert Begun(s.files, d, k).work == work;
    RecordsAhead1(s, d, k, rec);
    KeysAhead1(printable, s, c);
    WantsChanged1(printable, s, c, rec);
    IndexAhead1(printable, s, c, rec);
  }

  lemma RecordsAhead1(s: State, d: Db, k: Key, rec: R.Record)
    requires RecordsAhead(s.base, s.db, s.files.work) && C.Written(s.db, d, R.Commitment(k, rec))
    ensures RecordsAhead(s.base, d, s.files.work[k := R.Work(rec, R.Create)])
  {
    hide R.NameNow;
    var work := s.files.work[k := R.Work(rec, R.Create)];
    forall l
      ensures l in work ==> C.RecordIn(d, l) == Some(work[l].rec)
      ensures !Pending(work, l) ==> C.RecordIn(d, l) == C.RecordIn(s.base, l)
    {
      assert l != k ==> Pending(work, l) == Pending(s.files.work, l);
    }
  }

  lemma KeysAhead1(printable: char -> bool, s: State, c: Call)
    requires KeysAhead(s.base, s.db) && NamesInv(s.db) && Proper(c)
    ensures KeysAhead(s.base, Apply(printable, s.db, c).db)
  {
    hide Apply, NamesInv;
    var d := Apply(printable, s.db, c).db;
    NamesStep(printable, s.db, c);
    forall g | g in s.base.group ensures g in d.group {
      Histories.GroupsStay(printable, s.db, c, g);
    }
    forall u, n | OwnedBy(s.base, n, u) ensures OwnedBy(d, n, u) {
      Histories.OwnsStep(printable, s.db, c, u, n);
    }
  }

  lemma WantsChanged1(printable: char -> bool, s: State, c: Call, rec: R.Record)
    requires NamesInv(s.db) && Proper(c) && Apply(printable, s.db, c).db != s.db && C.KeyOf(c) !in s.files.work
    requires RecordsAhead(s.base, s.db, s.files.work) && WantsChanged(s.base, s.files.work)
    requires C.RecordIn(Apply(printable, s.db, c).db, C.KeyOf(c)) == Some(rec)
    ensures WantsChanged(s.base, s.files.work[C.KeyOf(c) := R.Work(rec, R.Create)])
  {
    hide Apply, NamesInv;
    var k, d := C.KeyOf(c), Apply(printable, s.db, c).db;
    var work := s.files.work[k := R.Work(rec, R.Create)];
    forall l, n | Pending(work, l) && work[l].rec.UserRecord? && !R.Wants(l, work[l].rec, n)
      ensures OwnedBy(s.base, n, l.id) == Owns(work[l].rec.user, n) &&
        MarkedBy(s.base, n, l.id) == Marked(work[l].rec.user, n)
    {
      if l == k {
        CallWants(printable, s.db, c, n);
        SameUser(s.base, s.db, c.uid, n);
      } else {
        assert Pending(s.files.work, l);
      }
    }
  }

  lemma SameUser(base: Db, db: Db, u: string, n: string)
    requires C.RecordIn(db, UserKey(u)) == C.RecordIn(base, UserKey(u))
    ensures OwnedBy(base, n, u) == OwnedBy(db, n, u) && MarkedBy(base, n, u) == MarkedBy(db, n, u)
  {
  }

  lemma IndexAhead1(printable: char -> bool, s: State, c: Call, rec: R.Record)
    requires Inv(s) && Can(printable, s, Make(c)) && Apply(printable, s.db, c).db != s.db
    requires C.RecordIn(Apply(printable, s.db, c).db, C.KeyOf(c)) == Some(rec)
    requires C.Written(s.db, Apply(printable, s.db, c).db, R.Commitment(C.KeyOf(c), rec))
    ensures IndexAhead(s.base, Apply(printable, s.db, c).db, s.files.work[C.KeyOf(c) := R.Work(rec, R.Create)])
  {
    hide Apply, NamesInv, R.Inv, Shows, KeysAhead, WantsChanged, R.Good;
    var k, d := C.KeyOf(c), Apply(printable, s.db, c).db;
    NamesStep(printable, s.db, c);
    NewWriteApart(s, d, k, rec);
    IndexGrows(s.base, s.db, d, s.files.work, k, rec);
  }

  lemma IndexGrows(base: Db, db: Db, d: Db, was: map<Key, R.Work>, k: Key, rec: R.Record)
    requires IndexAhead(base, db, was) && k !in was && C.Written(db, d, R.Commitment(k, rec))
    requires forall l :: l in was ==> R.Apart(k, rec, l, was[l].rec)
    ensures IndexAhead(base, d, was[k := R.Work(rec, R.Create)])
  {
    var work := was[k := R.Work(rec, R.Create)];
    forall l, n | Pending(work, l) && R.Wants(l, work[l].rec, n)
      ensures R.Get(d.alias, n) == R.Last(R.Touches(l, work[l].rec), n)
    {
      if l != k {
        assert Pending(was, l) && R.Apart(k, rec, l, was[l].rec);
      }
    }
    forall n | forall l :: Pending(work, l) ==> !R.Wants(l, work[l].rec, n)
      ensures R.Get(d.alias, n) == R.Get(base.alias, n)
    {
      assert Pending(work, k);
      forall l | Pending(was, l) ensures !R.Wants(l, was[l].rec, n) {
        assert Pending(work, l);
      }
    }
  }

  lemma MakeKeeps(printable: char -> bool, s: State, c: Call)
    requires Inv(s) && Can(printable, s, Make(c))
    ensures Inv(After(printable, s, Make(c)))
  {
    hide Apply, NamesInv, R.Inv, Shows, Ahead, R.Good, R.Can;
    if Apply(printable, s.db, c).db != s.db {
      var d, k := Apply(printable, s.db, c).db, C.KeyOf(c);
      CallMayBegin(printable, s, c);
      R.InvStep(s.files, R.Begin(k, C.RecordIn(d, k).value));
      NamesStep(printable, s.db, c);
      AheadOfMore(printable, s, c);
    }
  }

  // ---- a commit ----

  lemma CommittedIs(base: Db, k: Key, rec: R.Record)
    requires R.Fits(k, rec)
    ensures C.Written(base, Committed(base, k, rec), R.Commitment(k, rec))
  {
    match rec
    case UserRecord(u) => C.UserWritten(base, k.id, u);
    case GroupRecord(g) =>
  }

  // A commit keeps names, users and index of the base in agreement.
  lemma CommitKeepsNames(base: Db, db: Db, work: map<Key, R.Work>, k: Key)
    requires NamesInv(base) && NamesInv(db) && Ahead(base, db, work) && Pending(work, k) && R.Fits(k, work[k].rec)
    ensures NamesInv(Committed(base, k, work[k].rec))
  {
    hide UserOk;
    var rec := work[k].rec;
    var b := Committed(base, k, rec);
    CommittedIs(base, k, rec);
    assert C.RecordIn(db, k) == Some(rec);
    forall u | u in b.user ensures UserOk(u, b.user[u]) {
      if rec.UserRecord? && u == k.id { assert db.user[u] == rec.user; }
    }
    forall n ensures NameOk(b, n) {
      if rec.GroupRecord? {
        assert NameOk(db, n) && k.id in db.group && (n in base.alias ==> n in db.alias);
        NameKept(base, b, n);
      } else if R.Wants(k, rec, n) {
        WantedName(base, db, work, k, n);
      } else {
        UnwantedName(base, db, work, k, n);
      }
    }
  }

  lemma WantedName(base: Db, db: Db, work: map<Key, R.Work>, k: Key, n: string)
    requires NamesInv(base) && NamesInv(db) && Ahead(base, db, work) && Pending(work, k) && R.Fits(k, work[k].rec)
    requires work[k].rec.UserRecord? && R.Wants(k, work[k].rec, n)
    ensures NameOk(Committed(base, k, work[k].rec), n)
  {
    var rec := work[k].rec;
    var b := Committed(base, k, rec);
    CommittedIs(base, k, rec);
    assert C.RecordIn(db, k) == Some(rec);
    assert k == UserKey(k.id) && db.user[k.id] == rec.user;
    WantedIsOwned(db, k.id, n);
    assert NameOk(db, n);
    assert OwnedBy(b, n, k.id);
    assert R.Get(b.alias, n) == R.Get(db.alias, n);
    forall u | OwnedBy(b, n, u) ensures u == k.id {
      assert u != k.id ==> OwnedBy(base, n, u);
    }
    assert n in db.alias && n in b.alias && b.alias[n] == db.alias[n];
  }

  lemma UnwantedName(base: Db, db: Db, work: map<Key, R.Work>, k: Key, n: string)
    requires NamesInv(base) && Ahead(base, db, work) && Pending(work, k) && R.Fits(k, work[k].rec)
    requires work[k].rec.UserRecord? && !R.Wants(k, work[k].rec, n)
    ensures NameOk(Committed(base, k, work[k].rec), n)
  {
    var rec := work[k].rec;
    var b := Committed(base, k, rec);
    CommittedIs(base, k, rec);
    assert OwnedBy(base, n, k.id) == Owns(rec.user, n) && MarkedBy(base, n, k.id) == Marked(rec.user, n);
    assert R.Get(b.alias, n) == R.Get(base.alias, n);
    forall u ensures OwnedBy(b, n, u) <==> OwnedBy(base, n, u) {
    }
    NameKept(base, b, n);
  }

  lemma CommitKeepsAhead(base: Db, db: Db, work: map<Key, R.Work>, k: Key)
    requires Ahead(base, db, work) && Pending(work, k)
    requires forall l :: l in work ==> R.Fits(l, work[l].rec)
    ensures Ahead(Committed(base, k, work[k].rec), db, work[k := work[k].(pc := R.DropMain)])
  {
    hide RecordsAhead, KeysAhead, WantsChanged, IndexAhead;
    CommitRecords(base, db, work, k);
    CommitKeys(base, db, work, k);
    CommitWants(base, work, k);
    CommitIndex(base, db, work, k);
  }

  lemma CommitRecords(base: Db, db: Db, work: map<Key, R.Work>, k: Key)
    requires RecordsAhead(base, db, work) && Pending(work, k) && R.Fits(k, work[k].rec)
    ensures RecordsAhead(Committed(base, k, work[k].rec), db, work[k := work[k].(pc := R.DropMain)])
  {
    hide R.NameNow;
    var after := work[k := work[k].(pc := R.DropMain)];
    CommittedIs(base, k, work[k].rec);
    forall l
      ensures l in after ==> C.RecordIn(db, l) == Some(after[l].rec)
      ensures !Pending(after, l) ==> C.RecordIn(db, l) == C.RecordIn(Committed(base, k, work[k].rec), l)
    {
      assert l != k ==> Pending(after, l) == Pending(work, l);
    }
  }

  lemma CommitKeys(base: Db, db: Db, work: map<Key, R.Work>, k: Key)
    requires RecordsAhead(base, db, work) && KeysAhead(base, db) && IndexAhead(base, db, work)
    requires Pending(work, k) && R.Fits(k, work[k].rec)
    ensures KeysAhead(Committed(base, k, work[k].rec), db)
  {
    var rec := work[k].rec;
    var b := Committed(base, k, rec);
    CommittedIs(base, k, rec);
    assert C.RecordIn(db, k) == Some(rec);
    forall n | n in b.alias ensures n in db.alias {
      assert R.Get(b.alias, n) == R.NameNow(R.Get(base.alias, n), R.Commitment(k, rec), n);
      if R.Wants(k, rec, n) {
        assert R.Get(db.alias, n) == R.Last(R.Touches(k, rec), n);
      }
    }
    forall u, n | OwnedBy(b, n, u) ensures OwnedBy(db, n, u) {
      assert (rec.UserRecord? && u == k.id) || OwnedBy(base, n, u);
    }
  }

  lemma CommitWants(base: Db, work: map<Key, R.Work>, k: Key)
    requires WantsChanged(base, work) && Pending(work, k)
    requires forall l :: l in work ==> R.Fits(l, work[l].rec)
    ensures WantsChanged(Committed(base, k, work[k].rec), work[k := work[k].(pc := R.DropMain)])
  {
    hide Linked;
    var after := work[k := work[k].(pc := R.DropMain)];
    var b := Committed(base, k, work[k].rec);
    forall l, n | Pending(after, l) && after[l].rec.UserRecord? && !R.Wants(l, after[l].rec, n)
      ensures OwnedBy(b, n, l.id) == Owns(after[l].rec.user, n) && MarkedBy(b, n, l.id) == Marked(after[l].rec.user, n)
    {
      assert l != k && Pending(work, l);
      assert work[k].rec.UserRecord? ==> l.id != k.id;
    }
  }

  lemma CommitIndex(base: Db, db: Db, work: map<Key, R.Work>, k: Key)
    requires IndexAhead(base, db, work) && Pending(work, k) && R.Fits(k, work[k].rec)
    ensures IndexAhead(Committed(base, k, work[k].rec), db, work[k := work[k].(pc := R.DropMain)])
  {
    var rec := work[k].rec;
    var after := work[k := work[k].(pc := R.DropMain)];
    var b := Committed(base, k, rec);
    CommittedIs(base, k, rec);
    forall l, n | Pending(after, l) && R.Wants(l, after[l].rec, n)
      ensures R.Get(db.alias, n) == R.Last(R.Touches(l, after[l].rec), n)
    {
      assert Pending(work, l);
    }
    forall n | forall l :: Pending(after, l) ==> !R.Wants(l, after[l].rec, n)
      ensures R.Get(db.alias, n) == R.Get(b.alias, n)
    {
      assert R.Get(b.alias, n) == R.NameNow(R.Get(base.alias, n), R.Commitment(k, rec), n);
      if !R.Wants(k, rec, n) {
        forall l | Pending(work, l) ensures !R.Wants(l, work[l].rec, n) {
          assert l != k ==> Pending(after, l);
        }
      }
    }
  }

  // ---- the files ----

  // The step changes the recovered view as it changes the base.
  lemma ShowsAfter(f: R.State, base: Db, a: R.Step)
    requires R.Inv(f) && R.Can(f, a) && Shows(f.disk, base)
    ensures Shows(R.After(f, a).disk, Based(base, f, a))
  {
    hide R.Inv, R.Can, R.After, R.RecordOf, R.NameOf, Based;
    forall k ensures R.RecordOf(R.After(f, a).disk, k) == C.RecordIn(Based(base, f, a), k) {
      ShowsAt(f, base, a, k, "");
    }
    forall n ensures R.NameOf(R.After(f, a).disk, n) == R.Get(Based(base, f, a).alias, n) {
      ShowsAt(f, base, a, Names.Key(Names.IsUser, ""), n);
    }
  }

  lemma ShowsAt(f: R.State, base: Db, a: R.Step, k: Key, n: string)
    requires R.Inv(f) && R.Can(f, a) && Shows(f.disk, base)
    ensures R.RecordOf(R.After(f, a).disk, k) == C.RecordIn(Based(base, f, a), k)
    ensures R.NameOf(R.After(f, a).disk, n) == R.Get(Based(base, f, a).alias, n)
  {
    hide R.Inv, R.Can, R.After, R.RecordOf, R.NameOf, Based, R.Committing, R.RecordDue, R.NameDue;
    R.StepView(f, a, k, n);
    BasedAt(base, f, a, k, n);
  }

  lemma BasedAt(base: Db, f: R.State, a: R.Step, k: Key, n: string)
    requires R.Inv(f) && R.Can(f, a)
    ensures R.RecordDue(C.RecordIn(base, k), R.Committing(f, a), k) == C.RecordIn(Based(base, f, a), k)
    ensures R.NameDue(R.Get(base.alias, n), R.Committing(f, a), n) == R.Get(Based(base, f, a).alias, n)
  {
    hide R.Can, Linked;
    var cs := R.Committing(f, a);
    if |cs| == 1 {
      assert R.WorkOk(f.disk, a.key, f.work[a.key]);
      CommittedIs(base, a.key, f.work[a.key].rec);
      assert cs[1..] == [];
    }
  }

  // An operation that is not a commit leaves the database as far ahead as it is.
  lemma QuietKeepsAhead(base: Db, db: Db, work: map<Key, R.Work>, k: Key, after: map<Key, R.Work>)
    requires Ahead(base, db, work) && k in work && !work[k].pc.Commit?
    requires after == match R.Next(k, work[k]) case None => work - {k} case Some(v) => work[k := v]
    ensures Ahead(base, db, after)
  {
    hide KeysAhead;
    forall l
      ensures Pending(after, l) <==> Pending(work, l)
      ensures l in after ==> l in work && after[l].rec == work[l].rec
    {
    }
    SameAhead(base, db, work, after);
  }

  lemma SameAhead(base: Db, db: Db, work: map<Key, R.Work>, after: map<Key, R.Work>)
    requires Ahead(base, db, work)
    requires forall l :: Pending(after, l) <==> Pending(work, l)
    requires forall l :: l in after ==> l in work && after[l].rec == work[l].rec
    ensures Ahead(base, db, after)
  {
    hide KeysAhead;
  }

  lemma AdvanceKeeps(s: State, k: Key)
    requires Inv(s) && R.Can(s.files, R.Advance(k))
    ensures NamesInv(Based(s.base, s.files, R.Advance(k)))
    ensures s.files.mode.Up? ==> Ahead(Based(s.base, s.files, R.Advance(k)), s.db, R.After(s.files, R.Advance(k)).work)
  {
    hide Shows, NamesInv, Ahead, R.Succeeds, R.Do, R.InRange;
    var w := s.files.work[k];
    assert R.WorkOk(s.files.disk, k, w);
    if w.pc.Commit? {
      assert s.files.mode.Up? && Pending(s.files.work, k);
      CommitKeepsNames(s.base, s.db, s.files.work, k);
      forall l | l in s.files.work ensures R.Fits(l, s.files.work[l].rec) {
        assert R.WorkOk(s.files.disk, l, s.files.work[l]);
      }
      CommitKeepsAhead(s.base, s.db, s.files.work, k);
    } else if s.files.mode.Up? {
      QuietKeepsAhead(s.base, s.db, s.files.work, k, R.After(s.files, R.Advance(k)).work);
    }
  }

  lemma FileKeeps(printable: char -> bool, s: State, a: R.Step)
    requires Inv(s) && Can(printable, s, File(a))
    ensures Inv(After(printable, s, File(a)))
  {
    hide Shows, NamesInv, Ahead, R.Inv;
    R.InvStep(s.files, a);
    ShowsAfter(s.files, s.base, a);
    if a.Advance? {
      AdvanceKeeps(s, a.key);
    }
  }

  // ---- the restart ----

  // What is read from the files is the base.
  lemma ReadsBase(f: R.State, base: Db)
    requires R.Inv(f) && R.Settled(f) && Shows(f.disk, base)
    ensures FromFiles(f.disk) == base
  {
    hide R.Inv, R.NameOf;
    var disk, d := f.disk, FromFiles(f.disk);
    R.SettledIsClean(f, "");
    forall u ensures R.Get(d.user, u) == R.Get(base.user, u) {
      ReadUser(disk, base, u);
    }
    forall g ensures R.Get(d.group, g) == R.Get(base.group, g) {
      ReadGroup(disk, base, g);
    }
    forall n ensures R.Get(d.alias, n) == R.Get(base.alias, n) {
      R.SettledIsClean(f, n);
    }
    C.SameMap(d.user, base.user);
    C.SameMap(d.group, base.group);
    C.SameMap(d.alias, base.alias);
  }

  lemma ReadUser(disk: R.Disk, base: Db, u: string)
    requires disk.committed == map[] && Shows(disk, base)
    ensures R.Get(FromFiles(disk).user, u) == R.Get(base.user, u)
  {
    hide R.NameOf;
    assert R.RecordOf(disk, UserKey(u)) == C.RecordIn(base, UserKey(u));
  }

  lemma ReadGroup(disk: R.Disk, base: Db, g: string)
    requires disk.committed == map[] && Shows(disk, base)
    ensures R.Get(FromFiles(disk).group, g) == R.Get(base.group, g)
  {
    hide R.NameOf;
    assert R.RecordOf(disk, Names.Key(Names.IsGroup, g)) == C.RecordIn(base, Names.Key(Names.IsGroup, g));
  }

  lemma RestartKeeps(printable: char -> bool, s: State)
    requires Inv(s) && Can(printable, s, Restarted)
    ensures Inv(After(printable, s, Restarted)) && After(printable, s, Restarted).db == s.base
  {
    hide NamesInv, R.Inv, Shows, Ahead;
    R.InvStep(s.files, R.Finish);
    ReadsBase(R.After(s.files, R.Finish), s.base);
    AheadOfItself(s.base);
  }

  lemma AheadOfItself(db: Db)
    ensures Ahead(db, db, map[])
  {
  }

  lemma InvStep(printable: char -> bool, s: State, a: Step)
    requires Inv(s) && Can(printable, s, a)
    ensures Inv(After(printable, s, a))
  {
    hide Inv, Can, After;
    match a
    case Make(c) => MakeKeeps(printable, s, c);
    case File(f) => FileKeeps(printable, s, f);
    case Restarted => RestartKeeps(printable, s);
  }

  // ---- whole runs ----

  ghost predicate CanRun(printable: char -> bool, s: State, run: seq<Step>)
    decreases |run|
  {
    |run| == 0 || (Can(printable, s, run[0]) && CanRun(printable, After(printable, s, run[0]), run[1..]))
  }

  ghost function RunFrom(printable: char -> bool, s: State, run: seq<Step>): State
    requires CanRun(printable, s, run)
    decreases |run|
  {
    if |run| == 0 then s else RunFrom(printable, After(printable, s, run[0]), run[1..])
  }

  const START := State(EMPTY, EMPTY, R.State(R.Disk(map[], map[], map[], map[]), map[], R.Up))

  lemma StartOk()
    ensures Inv(START)
  {
    var f := START.files;
    assert R.Inv(f);
    forall n ensures R.NameOf(f.disk, n) == R.Get(EMPTY.alias, n) {
      R.SettledIsClean(f, n);
    }
  }

  lemma {:induction false} InvRun(printable: char -> bool, s: State, run: seq<Step>)
    requires Inv(s) && CanRun(printable, s, run)
    ensures Inv(RunFrom(printable, s, run))
    decreases |run|
  {
    hide Inv, Can, After;
    if |run| > 0 {
      InvStep(printable, s, run[0]);
      InvRun(printable, After(printable, s, run[0]), run[1..]);
    }
  }

  // Whatever calls run at the same time, on whatever users and groups, and however crashes cut
  // their writes short: the write of a call can always begin, since no write in flight wants one of
  // its names.
  lemma WritesNeverClash(printable: char -> bool, run: seq<Step>, c: Call)
    requires CanRun(printable, START, run) && Can(printable, RunFrom(printable, START, run), Make(c))
    requires var s := RunFrom(printable, START, run); Apply(printable, s.db, c).db != s.db
    ensures var s := RunFrom(printable, START, run); var d, k := Apply(printable, s.db, c).db, C.KeyOf(c);
      C.RecordIn(d, k).Some? && R.Can(s.files, R.Begin(k, C.RecordIn(d, k).value))
  {
    hide Inv, After, Apply;
    StartOk();
    InvRun(printable, START, run);
    CallMayBegin(printable, RunFrom(printable, START, run), c);
  }

  // With no write in flight nothing is ahead.
  lemma NothingAhead(base: Db, db: Db)
    requires Ahead(base, db, map[])
    ensures db == base
  {
    forall u ensures R.Get(db.user, u) == R.Get(base.user, u) {
      assert C.RecordIn(db, UserKey(u)) == C.RecordIn(base, UserKey(u));
    }
    forall g ensures R.Get(db.group, g) == R.Get(base.group, g) {
      assert C.RecordIn(db, Names.Key(Names.IsGroup, g)) == C.RecordIn(base, Names.Key(Names.IsGroup, g));
    }
    C.SameMap(db.user, base.user);
    C.SameMap(db.group, base.group);
    C.SameMap(db.alias, base.alias);
  }

  // In every such run, what calls see while the server is up, and what the next start will find, is
  // a database whose users, names and index agree: each name has one owner, and leads to him or,
  // once dropped, to nobody, and is no group's id. When no write is in flight, the two are one.
  lemma NamesAgreeAlways(printable: char -> bool, run: seq<Step>)
    requires CanRun(printable, START, run)
    ensures var s := RunFrom(printable, START, run);
      NamesInv(s.base) && Shows(s.files.disk, s.base) && (s.files.mode.Up? ==> NamesInv(s.db)) &&
      (R.Settled(s.files) ==> FromFiles(s.files.disk) == s.base == s.db)
  {
    hide NamesInv, After, Can, R.Inv, Shows, Ahead;
    StartOk();
    InvRun(printable, START, run);
    var s := RunFrom(printable, START, run);
    if R.Settled(s.files) {
      ReadsBase(s.files, s.base);
      NothingAhead(s.base, s.db);
    }
  }

  // What a finished call made is safe from any crash: a record that no write in flight is about,
  // and the names of its user, will be recovered as calls see them.
  lemma FinishedIsSafe(printable: char -> bool, run: seq<Step>, k: Key, n: string)
    requires CanRun(printable, START, run)
    requires RunFrom(printable, START, run).files.mode.Up? && k !in RunFrom(printable, START, run).files.work
    ensures var s := RunFrom(printable, START, run);
      R.RecordOf(s.files.disk, k) == C.RecordIn(s.db, k) &&
      (k.kind.IsUser? && OwnedBy(s.db, n, k.id) ==> R.NameOf(s.files.disk, n) == R.Get(s.db.alias, n))
  {
    hide After, Can, R.Inv, R.RecordOf, R.NameOf;
    StartOk();
    InvRun(printable, START, run);
    var s := RunFrom(printable, START, run);
    if k.kind.IsUser? && OwnedBy(s.db, n, k.id) {
      OwnNameIsSafe(s.base, s.db, s.files.work, k, n);
    }
  }

  lemma OwnNameIsSafe(base: Db, db: Db, work: map<Key, R.Work>, k: Key, n: string)
    requires NamesInv(db) && RecordsAhead(base, db, work) && IndexAhead(base, db, work)
    requires k !in work && k.kind.IsUser? && OwnedBy(db, n, k.id)
    ensures R.Get(db.alias, n) == R.Get(base.alias, n)
  {
    assert NameOk(db, n);
    forall l | Pending(work, l) ensures !R.Wants(l, work[l].rec, n) {
      if R.Wants(l, work[l].rec, n) {
        HeldOwns(db, l, work[l].rec, n);
      }
    }
  }

  lemma HeldOwns(db: Db, l: Key, rec: R.Record, n: string)
    requires NamesInv(db) && C.RecordIn(db, l) == Some(rec) && R.Wants(l, rec, n)
    ensures l.kind.IsUser? && OwnedBy(db, n, l.id)
  {
    if l.kind.IsUser? {
      assert l == UserKey(l.id);
      WantedIsOwned(db, l.id, n);
    }
  }

  // The run as Recovery sees it
  ghost function FileStep(printable: char -> bool, s: State, a: Step): seq<R.Step> {
    match a
    case Make(c) =>
      var d, k := Apply(printable, s.db, c).db, C.KeyOf(c);
      if d == s.db || C.RecordIn(d, k) == None then [] else [R.Begin(k, C.RecordIn(d, k).value)]
    case File(f) => [f]
    case Restarted => [R.Finish]
  }

  ghost function Files(printable: char -> bool, s: State, run: seq<Step>): seq<R.Step>
    requires CanRun(printable, s, run)
    decreases |run|
  {
    if |run| == 0 then [] else FileStep(printable, s, run[0]) + Files(printable, After(printable, s, run[0]), run[1..])
  }

  lemma FilesRunStep(printable: char -> bool, s: State, a: Step)
    requires Inv(s) && Can(printable, s, a)
    ensures var fs := FileStep(printable, s, a);
      |fs| <= 1 && if fs == [] then After(printable, s, a).files == s.files
                   else R.Can(s.files, fs[0]) && After(printable, s, a).files == R.After(s.files, fs[0])
  {
    hide Inv, Apply, R.Can, R.After;
    if a.Make? && Apply(printable, s.db, a.c).db != s.db {
      CallMayBegin(printable, s, a.c);
    }
  }

  // Each such run is a run of Recovery, so that all that is proved of those holds: the record and
  // the names of the last commit, or those from before, after any crashes.
  lemma {:induction false} FilesRun(printable: char -> bool, s: State, run: seq<Step>)
    requires Inv(s) && CanRun(printable, s, run)
    ensures R.CanRun(s.files, Files(printable, s, run))
    ensures R.RunFrom(s.files, Files(printable, s, run)) == RunFrom(printable, s, run).files
    decreases |run|
  {
    hide Inv, Can, After, R.Can, R.After, FileStep;
    if |run| > 0 {
      var s1 := After(printable, s, run[0]);
      var fs, rest := FileStep(printable, s, run[0]), Files(printable, s1, run[1..]);
      InvStep(printable, s, run[0]);
      FilesRunStep(printable, s, run[0]);
      FilesRun(printable, s1, run[1..]);
      if fs == [] {
        assert fs + rest == rest;
      } else {
        assert fs + rest == [fs[0]] + rest && (fs + rest)[1..] == rest;
      }
    }
  }

  lemma ConcurrentCallsAreAtomic(printable: char -> bool, run: seq<Step>, k: Key, n: string)
    requires CanRun(printable, START, run) && R.Settled(RunFrom(printable, START, run).files)
    ensures var t := RunFrom(printable, START, run).files.disk; var fs := Files(printable, START, run);
      R.CanRun(START.files, fs) && t.drafts == map[] && t.committed == map[] &&
      R.Get(t.main, k) == R.RecordDue(None, R.Commits(START.files, fs), k) &&
      R.Get(t.alias, n) == R.NameDue(None, R.Commits(START.files, fs), n)
  {
    hide Can, After, R.Can, R.After, R.Commits, R.RunFrom, Files;
    StartOk();
    FilesRun(printable, START, run);
    R.CrashesAreAtomic(START.files, Files(printable, START, run), k, n);
  }
}
