// A call that is cut short by a crash, and made again after recovery.
module CrashRetry {
  import opened Common
  import Names
  import opened Records
  import Retry
  import UserDb
  import R = Recovery

  // ---- a call writes one record ----

  function RecordIn(db: Db, k: Names.Key): Option<R.Record> {
    match k.kind
    case IsUser => if k.id in db.user then Some(R.UserRecord(db.user[k.id])) else None
    case IsGroup => if k.id in db.group then Some(R.GroupRecord(db.group[k.id])) else None
  }

  function KeyOf(c: Call): Names.Key {
    if OnGroup(c) then Names.Key(Names.IsGroup, c.gid) else Names.Key(Names.IsUser, c.uid)
  }

  // d is db with the record and its names written.
  ghost predicate Written(db: Db, d: Db, c: R.Commitment) {
    (forall k :: RecordIn(d, k) == if k == c.key then Some(c.rec) else RecordIn(db, k)) &&
    (forall n :: R.Get(d.alias, n) == R.NameNow(R.Get(db.alias, n), c, n))
  }

  lemma UserWritten(db: Db, uid: string, u: User)
    ensures Written(db, db.(user := db.user[uid := u], alias := Linked(db.alias, uid, u.aliases)),
                    R.Commitment(Names.Key(Names.IsUser, uid), R.UserRecord(u)))
  {
    forall n ensures R.Get(Linked(db.alias, uid, u.aliases), n) ==
      R.NameNow(R.Get(db.alias, n), R.Commitment(Names.Key(Names.IsUser, uid), R.UserRecord(u)), n)
    {
      R.LinkedIs(db.alias, uid, u.aliases, n);
    }
  }

  lemma UserCallLinks(printable: char -> bool, db: Db, c: Call)
    requires NamesInv(db) && Proper(c) && !OnGroup(c) && Apply(printable, db, c).db != db
    ensures var d := Apply(printable, db, c).db;
      c.uid in d.user && d == db.(user := db.user[c.uid := d.user[c.uid]],
                                  alias := Linked(db.alias, c.uid, d.user[c.uid].aliases))
  {
    hide InvalidInput, InvalidAscii, Names.ValidUid, Linked, WithAlias, Indexed, Marked, Taken, Holds;
    var d := Apply(printable, db, c).db;
    match c
    case AddUser(uid, node, auth) => LinkedNone(db.alias, uid, []);
    case AddNode(uid, node) => LinkedNone(db.alias, uid, Cleared(db.user[uid].aliases));
    case DropNode(uid, node) => LinkedNone(db.alias, uid, Cleared(db.user[uid].aliases));
    case AddAlias(uid, given, en) =>
      UserDb.LinkedGiven(db.alias, uid, db.user[uid], if given == en then "" else given, en);
    case DropAlias(uid, alias) =>
      IndexValue(db, alias);
      UserDb.LinkedRetired(db.alias, uid, db.user[uid], alias);
  }

  lemma OneWrite(printable: char -> bool, db: Db, c: Call, rec: R.Record)
    requires NamesInv(db) && Proper(c) && Apply(printable, db, c).db != db
    requires RecordIn(Apply(printable, db, c).db, KeyOf(c)) == Some(rec)
    ensures Written(db, Apply(printable, db, c).db, R.Commitment(KeyOf(c), rec))
  {
    hide Apply, Linked;
    if OnGroup(c) {
      GroupCallSpares(printable, db, c);
      OtherGroups(printable, db, c);
    } else {
      UserCallLinks(printable, db, c);
      UserWritten(db, c.uid, rec.user);
    }
  }

  lemma OtherGroups(printable: char -> bool, db: Db, c: Call)
    requires OnGroup(c)
    ensures forall g :: g != c.gid ==> RecordIn(Apply(printable, db, c).db, Names.Key(Names.IsGroup, g)) ==
                                       RecordIn(db, Names.Key(Names.IsGroup, g))
  {
  }

  // ---- runs with one write ----

  function Begins(run: seq<R.Step>): nat {
    if |run| == 0 then 0 else (if run[0].Begin? then 1 else 0) + Begins(run[1..])
  }

  predicate Pending(s: R.State, k: Names.Key) {
    k in s.work && R.BeforeCommit(s.work[k].pc)
  }

  ghost predicate OnlyThis(s: R.State, k: Names.Key, rec: R.Record) {
    forall l :: Pending(s, l) ==> l == k && s.work[l].rec == rec
  }

  lemma OnlyStep(s: R.State, a: R.Step, k: Names.Key, rec: R.Record)
    requires R.Inv(s) && R.Can(s, a) && OnlyThis(s, k, rec) && (a.Begin? ==> a == R.Begin(k, rec))
    ensures OnlyThis(R.After(s, a), k, rec)
    ensures R.Committing(s, a) == [] || (R.Committing(s, a) == [R.Commitment(k, rec)] && Pending(s, k))
    ensures Pending(R.After(s, a), k) ==> (Pending(s, k) && R.Committing(s, a) == []) || a.Begin?
  {
    hide R.Good, R.Apart, R.Inv, R.Do, R.Succeeds, R.Touches, R.FileName, Names.Classify;
    if a.Advance? && s.work[a.key].pc.Commit? {
      assert Pending(s, a.key);
    }
  }

  lemma {:induction false} OneCommit(s: R.State, run: seq<R.Step>, k: Names.Key, rec: R.Record)
    requires R.Inv(s) && R.CanRun(s, run) && OnlyThis(s, k, rec)
    requires forall a :: a in run && a.Begin? ==> a == R.Begin(k, rec)
    ensures |R.Commits(s, run)| <= Begins(run) + if Pending(s, k) then 1 else 0
    ensures forall c :: c in R.Commits(s, run) ==> c == R.Commitment(k, rec)
    decreases |run|
  {
    if |run| > 0 {
      assert run[0] in run && forall a :: a in run[1..] ==> a in run;
      OnlyStep(s, run[0], k, rec);
      R.InvStep(s, run[0]);
      OneCommit(R.After(s, run[0]), run[1..], k, rec);
    }
  }

  // The files hold the database, and the temp directory nothing.
  ghost predicate Stores(disk: R.Disk, db: Db) {
    disk.drafts == map[] && disk.committed == map[] && disk.alias == db.alias &&
    forall k :: R.Get(disk.main, k) == RecordIn(db, k)
  }

  lemma SameMap<K, V>(m: map<K, V>, n: map<K, V>)
    requires forall k :: R.Get(m, k) == R.Get(n, k)
    ensures m == n
  {
    forall k ensures k in m <==> k in n { assert R.Get(m, k) == R.Get(n, k); }
    forall k | k in m ensures m[k] == n[k] { assert R.Get(m, k) == R.Get(n, k); }
  }

  // Whatever crashes interrupt the write of a call, the files hold what they held or what the
  // call makes of it.
  lemma OldOrNew(printable: char -> bool, db: Db, c: Call, rec: R.Record, s: R.State, run: seq<R.Step>)
    requires Inv(db) && Proper(c) && Apply(printable, db, c).db != db
    requires RecordIn(Apply(printable, db, c).db, KeyOf(c)) == Some(rec)
    requires R.Inv(s) && R.Settled(s) && Stores(s.disk, db)
    requires R.CanRun(s, run) && R.Settled(R.RunFrom(s, run)) && Begins(run) <= 1
    requires forall a :: a in run && a.Begin? ==> a == R.Begin(KeyOf(c), rec)
    ensures Stores(R.RunFrom(s, run).disk, if R.Commits(s, run) == [] then db else Apply(printable, db, c).db)
  {
    var d := Apply(printable, db, c).db;
    var disk, cs, put := R.RunFrom(s, run).disk, R.Commits(s, run), R.Commitment(KeyOf(c), rec);
    OneCommit(s, run, KeyOf(c), rec);
    OneWrite(printable, db, c, rec);
    assert cs == [] || cs == [put] by {
      if cs != [] { assert cs[0] in cs; }
    }
    var r := if cs == [] then db else d;
    forall k ensures R.Get(disk.main, k) == RecordIn(r, k) {
      R.CrashesAreAtomic(s, run, k, "");
      assert R.Get(s.disk.main, k) == RecordIn(db, k);
    }
    forall n ensures R.Get(disk.alias, n) == R.Get(r.alias, n) {
      R.CrashesAreAtomic(s, run, KeyOf(c), n);
      if cs == [put] {
        assert cs[1..] == [];
      }
    }
    SameMap(disk.alias, r.alias);
    R.CrashesAreAtomic(s, run, KeyOf(c), "");
  }

  // A call made again after any crashes leaves what one uninterrupted call leaves, except that a
  // node numbered 0 may be made anew.
  lemma CrashThenRetry(printable: char -> bool, db: Db, c: Call, rec: R.Record, s: R.State, run: seq<R.Step>)
    requires Inv(db) && Proper(c) && Apply(printable, db, c).db != db
    requires RecordIn(Apply(printable, db, c).db, KeyOf(c)) == Some(rec)
    requires R.Inv(s) && R.Settled(s) && Stores(s.disk, db)
    requires R.CanRun(s, run) && R.Settled(R.RunFrom(s, run)) && Begins(run) <= 1
    requires forall a :: a in run && a.Begin? ==> a == R.Begin(KeyOf(c), rec)
    ensures var d := Apply(printable, db, c).db; var r := if R.Commits(s, run) == [] then db else d;
      Stores(R.RunFrom(s, run).disk, r) && Inv(r) &&
      (Apply(printable, r, c).db == d <==> R.Commits(s, run) == [] || !Retry.Renumbers(db, c))
  {
    OldOrNew(printable, db, c, rec, s, run);
    Retry.RetryExact(printable, db, c);
    InvStep(printable, db, c);
  }
}
