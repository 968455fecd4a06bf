// Writing records so that a crash leaves each of them old or new: the file operations of
// putRecord and complete, one at a time, and the recovery at the next start.
module Recovery {
  import opened Common
  import Names
  import opened Records

  type Key = Names.Key

  datatype Record = UserRecord(user: User) | GroupRecord(group: Group)

  // A symlink that a record wants made
  datatype Touch = Touch(name: string, target: string)

  // A file under construction
  datatype Draft = Partial | Whole(rec: Record)

  // Drafts and committed files are in the temp directory, under FileTemp(k) + ".tmp" and
  // FileTemp(k); main files are in the user and group directories.
  datatype Disk = Disk(drafts: map<Key, Draft>, committed: map<Key, Record>, main: map<Key, Record>,
                       alias: map<string, string>)

  predicate Fits(k: Key, rec: Record) {
    k.kind.IsUser? <==> rec.UserRecord?
  }

  // ---- the symlinks of a record, in the order they are made ----

  function EntryTouches(uid: string, a: Alias): seq<Touch> {
    (if a.enTouched then [Touch(a.en, if a.enDefunct then DEFUNCT else uid)] else []) +
    (if a.localTouched then [Touch(a.local, if a.localDefunct then DEFUNCT else uid)] else [])
  }

  function UserTouches(uid: string, s: seq<Alias>): seq<Touch> {
    if |s| == 0 then [] else UserTouches(uid, s[..|s| - 1]) + EntryTouches(uid, s[|s| - 1])
  }

  function Touches(k: Key, rec: Record): seq<Touch> {
    match rec
    case UserRecord(user) => UserTouches(k.id, user.aliases)
    case GroupRecord(_) => []
  }

  // Where a name leads after the symlinks were made, None if none is for the name
  function Last(ts: seq<Touch>, name: string): Option<string> {
    if |ts| == 0 then None
    else if ts[|ts| - 1].name == name then Some(ts[|ts| - 1].target)
    else Last(ts[..|ts| - 1], name)
  }

  // ---- the file operations ----

  datatype Pc =
    | Create | Write | Commit
    | DropMain | LinkMain | DropName(j: nat) | MakeName(j: nat) | DropCommitted | DropDraft

  datatype Work = Work(rec: Record, pc: Pc)

  predicate InRange(k: Key, w: Work) {
    match w.pc
    case DropName(j) => j < |Touches(k, w.rec)|
    case MakeName(j) => j < |Touches(k, w.rec)|
    case _ => true
  }

  // The operation does not panic; and what is committed is whole.
  predicate Succeeds(disk: Disk, k: Key, w: Work)
    requires InRange(k, w)
  {
    match w.pc
    case Create => k !in disk.drafts // O_EXCL
    case Commit => k !in disk.committed && k in disk.drafts && disk.drafts[k].Whole?
    case LinkMain => k !in disk.main && k in disk.committed
    case MakeName(j) => Touches(k, w.rec)[j].name !in disk.alias
    case DropCommitted => k in disk.committed
    case _ => true
  }

  // A link gives a file's content another name.
  function Do(disk: Disk, k: Key, w: Work): Disk
    requires InRange(k, w)
  {
    match w.pc
    case Create => disk.(drafts := disk.drafts[k := Partial])
    case Write => disk.(drafts := disk.drafts[k := Whole(w.rec)])
    case Commit =>
      if k in disk.drafts && disk.drafts[k].Whole? then disk.(committed := disk.committed[k := disk.drafts[k].rec])
      else disk
    case DropMain => disk.(main := disk.main - {k})
    case LinkMain => if k in disk.committed then disk.(main := disk.main[k := disk.committed[k]]) else disk
    case DropName(j) => disk.(alias := disk.alias - {Touches(k, w.rec)[j].name})
    case MakeName(j) => disk.(alias := disk.alias[Touches(k, w.rec)[j].name := Touches(k, w.rec)[j].target])
    case DropCommitted => disk.(committed := disk.committed - {k})
    case DropDraft => disk.(drafts := disk.drafts - {k})
  }

  function NameFrom(j: nat, n: nat): Pc {
    if j < n then DropName(j) else DropCommitted
  }

  function Next(k: Key, w: Work): Option<Work> {
    var n := |Touches(k, w.rec)|;
    match w.pc
    case Create => Some(w.(pc := Write))
    case Write => Some(w.(pc := Commit))
    case Commit => Some(w.(pc := DropMain))
    case DropMain => Some(w.(pc := LinkMain))
    case LinkMain => Some(w.(pc := NameFrom(0, n)))
    case DropName(j) => Some(w.(pc := MakeName(j)))
    case MakeName(j) => Some(w.(pc := NameFrom(j + 1, n)))
    case DropCommitted => Some(w.(pc := DropDraft))
    case DropDraft => None
  }

  // ---- the server ----

  datatype File = DraftOf(key: Key) | CommittedOf(key: Key)

  // While recovering, the files of the temp directory that are still to be looked at
  datatype Mode = Up | Down | Recovering(left: set<File>)

  datatype State = State(disk: Disk, work: map<Key, Work>, mode: Mode)

  datatype Step = Begin(key: Key, rec: Record) | Advance(key: Key) | Crash | Start | Visit(file: File) | Finish

  predicate Wants(k: Key, rec: Record, name: string) {
    Last(Touches(k, rec), name).Some?
  }

  // No name is to be made by both.
  ghost predicate Apart(k: Key, r: Record, l: Key, s: Record) {
    forall n :: !(Wants(k, r, n) && Wants(l, s, n))
  }

  predicate Good(k: Key) {
    Names.ValidKey(k) && !Names.HasSuffix(k.id, Names.TMP)
  }

  function FileName(f: File): string {
    Names.FileTemp(f.key) + if f.DraftOf? then Names.TMP else ""
  }

  ghost predicate Can(s: State, a: Step) {
    match a
    case Begin(k, rec) =>
      s.mode.Up? && k !in s.work && Good(k) && Fits(k, rec) &&
      forall l :: l in s.work ==> Apart(k, rec, l, s.work[l].rec)
    case Advance(k) => k in s.work && InRange(k, s.work[k]) && Succeeds(s.disk, k, s.work[k])
    case Crash => true
    case Start => s.mode.Down?
    case Visit(f) => s.mode.Recovering? && s.work == map[] && f in s.mode.left
    case Finish => s.mode.Recovering? && s.work == map[] && s.mode.left == {}
  }

  function Listing(disk: Disk): set<File> {
    (set k | k in disk.drafts :: DraftOf(k)) + set k | k in disk.committed :: CommittedOf(k)
  }

  function KeyNamed(kind: string, id: string): Option<Key> {
    if kind == "user" then Some(Names.Key(Names.IsUser, id))
    else if kind == "group" then Some(Names.Key(Names.IsGroup, id))
    else None
  }

  // What recovery does about a file goes by its name.
  function Visited(s: State, f: File): State
    requires s.mode.Recovering?
  {
    var t := s.(mode := Recovering(s.mode.left - {f}));
    match Names.Classify(FileName(f))
    case Delete =>
      if f.DraftOf? then t.(disk := t.disk.(drafts := t.disk.drafts - {f.key}))
      else t.(disk := t.disk.(committed := t.disk.committed - {f.key}))
    case Complete(kind, id) =>
      (match KeyNamed(kind, id)
       case Some(k) => if k in s.disk.committed then t.(work := s.work[k := Work(s.disk.committed[k], DropMain)]) else t
       case None => t)
    case Unexpected => t
  }

  function Advanced(s: State, k: Key): State
    requires k in s.work && InRange(k, s.work[k])
  {
    var w := s.work[k];
    s.(disk := Do(s.disk, k, w), work := match Next(k, w) case None => s.work - {k} case Some(v) => s.work[k := v])
  }

  ghost function After(s: State, a: Step): State
    requires Can(s, a)
  {
    match a
    case Begin(k, rec) => s.(work := s.work[k := Work(rec, Create)])
    case Advance(k) => Advanced(s, k)
    case Crash => State(s.disk, map[], Down)
    case Start => s.(mode := Recovering(Listing(s.disk)))
    case Visit(f) => Visited(s, f)
    case Finish => s.(mode := Up)
  }

  // ---- what the database will be once recovered ----

  function Get<K, V>(m: map<K, V>, k: K): Option<V> {
    if k in m then Some(m[k]) else None
  }

  function RecordOf(disk: Disk, k: Key): Option<Record> {
    if k in disk.committed then Some(disk.committed[k]) else Get(disk.main, k)
  }

  ghost predicate Renamed(disk: Disk, n: string, k: Key) {
    k in disk.committed && Wants(k, disk.committed[k], n)
  }

  ghost function Renamer(disk: Disk, n: string): (k: Key)
    requires exists k :: Renamed(disk, n, k)
    ensures Renamed(disk, n, k)
  {
    var k :| Renamed(disk, n, k); k
  }

  ghost function NameOf(disk: Disk, n: string): Option<string> {
    if exists k :: Renamed(disk, n, k) then
      var k := Renamer(disk, n);
      Last(Touches(k, disk.committed[k]), n)
    else Get(disk.alias, n)
  }

  // ---- invariant ----

  function Made(k: Key, w: Work): nat {
    var n := |Touches(k, w.rec)|;
    match w.pc
    case DropName(j) => if j < n then j else n
    case MakeName(j) => if j < n then j else n
    case DropCommitted => n
    case DropDraft => n
    case _ => 0
  }

  predicate BeforeCommit(pc: Pc) {
    pc.Create? || pc.Write? || pc.Commit?
  }

  // The name leads where the symlinks made so far say.
  predicate NameDone(disk: Disk, k: Key, w: Work, n: string) {
    var ts := Touches(k, w.rec);
    var made := ts[..Made(k, w)];
    if w.pc.MakeName? && Made(k, w) < |ts| && ts[Made(k, w)].name == n then n !in disk.alias
    else Last(made, n).Some? ==> Get(disk.alias, n) == Last(made, n)
  }

  ghost predicate WorkOk(disk: Disk, k: Key, w: Work) {
    InRange(k, w) && Good(k) && Fits(k, w.rec) &&
    (k in disk.committed <==> !BeforeCommit(w.pc) && !w.pc.DropDraft?) &&
    (k in disk.committed ==> disk.committed[k] == w.rec) &&
    (w.pc.Create? ==> k !in disk.drafts) && (w.pc.Commit? ==> k in disk.drafts && disk.drafts[k] == Whole(w.rec)) &&
    (w.pc.LinkMain? ==> k !in disk.main) &&
    (!BeforeCommit(w.pc) && !w.pc.DropMain? && !w.pc.LinkMain? ==> Get(disk.main, k) == Some(w.rec)) &&
    (!w.pc.DropDraft? ==> forall n :: NameDone(disk, k, w, n))
  }

  ghost predicate FilesOk(s: State) {
    match s.mode
    case Up => (forall k :: k in s.disk.committed ==> k in s.work) && (forall k :: k in s.disk.drafts ==> k in s.work)
    case Down => s.work == map[]
    case Recovering(left) =>
      (forall k :: k in s.disk.committed ==> (CommittedOf(k) in left <==> k !in s.work)) &&
      (forall k :: CommittedOf(k) in left ==> k in s.disk.committed) &&
      (forall k :: k in s.disk.drafts ==> DraftOf(k) in left || k in s.work || CommittedOf(k) in left) &&
      (forall k, l :: k in s.work && l in s.work ==> k == l) &&
      (forall k :: k in s.work ==> !BeforeCommit(s.work[k].pc))
  }

  // ---- the operations ----

  lemma {:induction false} LastPrefix(ts: seq<Touch>, i: nat, n: string)
    requires i <= |ts| && Last(ts[..i], n).Some?
    ensures Last(ts, n).Some?
    decreases |ts|
  {
    if i == |ts| {
      assert ts[..i] == ts;
    } else {
      assert ts[..|ts| - 1][..i] == ts[..i];
      LastPrefix(ts[..|ts| - 1], i, n);
    }
  }

  lemma LastAt(ts: seq<Touch>, j: nat)
    requires j < |ts|
    ensures Last(ts, ts[j].name).Some?
  {
    assert ts[..j + 1][..j] == ts[..j];
    LastPrefix(ts, j + 1, ts[j].name);
  }

  lemma LastStep(ts: seq<Touch>, j: nat, n: string)
    requires j < |ts|
    ensures Last(ts[..j + 1], n) == if ts[j].name == n then Some(ts[j].target) else Last(ts[..j], n)
  {
    assert ts[..j + 1][..j] == ts[..j];
  }

  // Names that a record does not want are no concern of its write.
  lemma NotWanted(disk: Disk, k: Key, w: Work, n: string)
    requires InRange(k, w) && !Wants(k, w.rec, n)
    ensures NameDone(disk, k, w, n)
  {
    var ts := Touches(k, w.rec);
    if Last(ts[..Made(k, w)], n).Some? {
      LastPrefix(ts, Made(k, w), n);
    }
    if Made(k, w) < |ts| {
      LastAt(ts, Made(k, w));
    }
  }

  // The writes of other records go on undisturbed.
  lemma WorkKept(disk: Disk, k: Key, w: Work, l: Key, v: Work)
    requires k != l && Apart(k, w.rec, l, v.rec) && InRange(l, v) && WorkOk(disk, k, w)
    ensures WorkOk(Do(disk, l, v), k, w)
  {
    var d := Do(disk, l, v);
    if !w.pc.DropDraft? {
      forall n ensures NameDone(d, k, w, n) {
        assert NameDone(disk, k, w, n);
        if Get(d.alias, n) != Get(disk.alias, n) {
          var ts := Touches(l, v.rec);
          LastAt(ts, v.pc.j);
          assert Wants(l, v.rec, n);
          NotWanted(d, k, w, n);
        }
      }
    }
  }

  lemma WorkAdvances(disk: Disk, k: Key, w: Work)
    requires WorkOk(disk, k, w) && Succeeds(disk, k, w) && !w.pc.DropDraft?
    ensures WorkOk(Do(disk, k, w), k, Next(k, w).value)
  {
    hide NameDone, Good, Touches, Last;
    var d, v := Do(disk, k, w), Next(k, w).value;
    if !v.pc.DropDraft? {
      forall n ensures NameDone(d, k, v, n) {
        assert NameDone(disk, k, w, n);
        NameAdvances(disk, k, w, n);
      }
    }
  }

  lemma NameAdvances(disk: Disk, k: Key, w: Work, n: string)
    requires InRange(k, w) && !w.pc.DropCommitted? && !w.pc.DropDraft? && NameDone(disk, k, w, n)
    ensures NameDone(Do(disk, k, w), k, Next(k, w).value, n)
  {
    if w.pc.MakeName? {
      LastStep(Touches(k, w.rec), w.pc.j, n);
    }
  }

  // No operation in the code can panic: in particular the draft of a record never exists when one
  // is to be created.
  lemma NoPanic(disk: Disk, k: Key, w: Work)
    requires WorkOk(disk, k, w)
    ensures Succeeds(disk, k, w)
  {
    if w.pc.MakeName? {
      assert NameDone(disk, k, w, Touches(k, w.rec)[w.pc.j].name);
    }
  }

  // ---- the recovered view ----

  ghost predicate CommittedApart(disk: Disk) {
    forall k, l :: k in disk.committed && l in disk.committed && k != l ==>
      Apart(k, disk.committed[k], l, disk.committed[l])
  }

  lemma NameOfIs(disk: Disk, n: string, k: Key)
    requires CommittedApart(disk)
    ensures Renamed(disk, n, k) ==> NameOf(disk, n) == Last(Touches(k, disk.committed[k]), n)
    ensures (forall l :: !Renamed(disk, n, l)) ==> NameOf(disk, n) == Get(disk.alias, n)
  {
    if Renamed(disk, n, k) {
      var l := Renamer(disk, n);
      assert Renamed(disk, n, l);
      assert k != l ==> Apart(k, disk.committed[k], l, disk.committed[l]);
    }
  }

  // Only a change of what is wanted of the name, or of the name alone where nothing is wanted,
  // changes where it will lead.
  lemma NameOfSame(disk: Disk, d: Disk, n: string)
    requires CommittedApart(disk) && CommittedApart(d)
    requires forall k :: Renamed(disk, n, k) <==> Renamed(d, n, k)
    requires forall k :: Renamed(disk, n, k) ==> k in d.committed && d.committed[k] == disk.committed[k]
    requires (forall k :: !Renamed(disk, n, k)) ==> Get(d.alias, n) == Get(disk.alias, n)
    ensures NameOf(d, n) == NameOf(disk, n)
  {
    if k :| Renamed(disk, n, k) {
      NameOfIs(disk, n, k);
      NameOfIs(d, n, k);
    } else {
      assert forall k :: !Renamed(d, n, k);
    }
  }

  ghost predicate SameView(disk: Disk, d: Disk, k: Key, n: string) {
    RecordOf(d, k) == RecordOf(disk, k) && NameOf(d, n) == NameOf(disk, n)
  }

  lemma EndKeepsView(disk: Disk, k: Key, w: Work, l: Key, n: string)
    requires WorkOk(disk, k, w) && CommittedApart(disk) && w.pc.DropCommitted?
    ensures SameView(disk, Do(disk, k, w), l, n)
  {
    var d := Do(disk, k, w);
    assert RecordOf(d, l) == RecordOf(disk, l);
    if Wants(k, w.rec, n) {
      NameReady(disk, k, w, n);
      EndOfName(disk, k, n);
    } else {
      assert forall m :: Renamed(disk, n, m) <==> Renamed(d, n, m);
      NameOfSame(disk, d, n);
    }
  }

  lemma NameReady(disk: Disk, k: Key, w: Work, n: string)
    requires WorkOk(disk, k, w) && w.pc.DropCommitted? && Wants(k, w.rec, n)
    ensures Get(disk.alias, n) == Last(Touches(k, w.rec), n)
  {
    assert NameDone(disk, k, w, n);
    var ts := Touches(k, w.rec);
    assert ts[..Made(k, w)] == ts;
  }

  // When its record is no longer waiting, a name that leads where the record wants leads there still.
  lemma EndOfName(disk: Disk, k: Key, n: string)
    requires CommittedApart(disk) && Renamed(disk, n, k) && Get(disk.alias, n) == Last(Touches(k, disk.committed[k]), n)
    ensures NameOf(disk.(committed := disk.committed - {k}), n) == NameOf(disk, n)
  {
    hide Touches, Last;
    var d := disk.(committed := disk.committed - {k});
    NameOfIs(disk, n, k);
    forall m ensures !Renamed(d, n, m) {
      assert m in d.committed ==> Apart(m, d.committed[m], k, disk.committed[k]);
    }
    NameOfIs(d, n, k);
  }

  lemma NamingKeepsView(disk: Disk, k: Key, w: Work, l: Key, n: string)
    requires WorkOk(disk, k, w) && CommittedApart(disk) && (w.pc.DropName? || w.pc.MakeName?)
    ensures SameView(disk, Do(disk, k, w), l, n)
  {
    var ts := Touches(k, w.rec);
    LastAt(ts, w.pc.j);
    assert Renamed(disk, ts[w.pc.j].name, k);
    NameOfSame(disk, Do(disk, k, w), n);
  }

  lemma FileKeepsView(disk: Disk, k: Key, w: Work, l: Key, n: string)
    requires WorkOk(disk, k, w) && CommittedApart(disk)
    requires w.pc.Create? || w.pc.Write? || w.pc.DropMain? || w.pc.LinkMain? || w.pc.DropDraft?
    ensures SameView(disk, Do(disk, k, w), l, n)
  {
    hide NameDone, Good, Touches, Last;
    var d := Do(disk, k, w);
    assert d.committed == disk.committed && d.alias == disk.alias;
    assert forall m :: Renamed(disk, n, m) <==> Renamed(d, n, m);
    NameOfSame(disk, d, n);
  }

  // Before its commit and after it, a write changes nothing that recovery would not change itself.
  lemma OperationKeepsView(disk: Disk, k: Key, w: Work, l: Key, n: string)
    requires WorkOk(disk, k, w) && CommittedApart(disk) && !w.pc.Commit?
    ensures SameView(disk, Do(disk, k, w), l, n)
  {
    if w.pc.DropCommitted? {
      EndKeepsView(disk, k, w, l, n);
    } else if w.pc.DropName? || w.pc.MakeName? {
      NamingKeepsView(disk, k, w, l, n);
    } else {
      FileKeepsView(disk, k, w, l, n);
    }
  }

  // The commit replaces the record and all of its names at once.
  lemma CommitSetsView(disk: Disk, k: Key, w: Work, l: Key, n: string)
    requires WorkOk(disk, k, w) && w.pc.Commit? && CommittedApart(disk) && CommittedApart(Do(disk, k, w))
    ensures var d := Do(disk, k, w);
      RecordOf(d, l) == (if l == k then Some(w.rec) else RecordOf(disk, l)) &&
      NameOf(d, n) == if Wants(k, w.rec, n) then Last(Touches(k, w.rec), n) else NameOf(disk, n)
  {
    var d := Do(disk, k, w);
    if Wants(k, w.rec, n) {
      assert Renamed(d, n, k);
      NameOfIs(d, n, k);
    } else {
      NameOfSame(disk, d, n);
    }
  }

  // ---- every step ----

  ghost predicate WorkApart(s: State) {
    forall k, l :: k in s.work && l in s.work && k != l ==> Apart(k, s.work[k].rec, l, s.work[l].rec)
  }

  ghost predicate WorksOk(s: State) {
    forall k :: k in s.work ==> WorkOk(s.disk, k, s.work[k])
  }

  ghost predicate CommittedOk(disk: Disk) {
    forall k :: k in disk.committed ==> Good(k) && Fits(k, disk.committed[k])
  }

  ghost predicate Inv(s: State) {
    FilesOk(s) && WorkApart(s) && CommittedApart(s.disk) && WorksOk(s) && CommittedOk(s.disk)
  }

  // What an operation does to the temp directory
  lemma CommittedAfter(disk: Disk, k: Key, w: Work)
    requires InRange(k, w) && (w.pc.Commit? ==> k in disk.drafts && disk.drafts[k] == Whole(w.rec))
    ensures Do(disk, k, w).committed == if w.pc.Commit? then disk.committed[k := w.rec]
                                        else if w.pc.DropCommitted? then disk.committed - {k} else disk.committed
  {
    hide Touches;
  }

  lemma DraftsAfter(disk: Disk, k: Key, w: Work)
    requires InRange(k, w)
    ensures Do(disk, k, w).drafts.Keys == if w.pc.Create? || w.pc.Write? then disk.drafts.Keys + {k}
                                          else if w.pc.DropDraft? then disk.drafts.Keys - {k} else disk.drafts.Keys
  {
    hide Touches;
  }

  lemma ApartAfter(s: State, k: Key)
    requires Inv(s) && k in s.work
    ensures WorkApart(Advanced(s, k)) && CommittedApart(Do(s.disk, k, s.work[k]))
  {
    hide Do, Apart, NameDone, Good, Touches;
    var w := s.work[k];
    var t := Advanced(s, k);
    assert forall l :: l in t.work ==> l in s.work && t.work[l].rec == s.work[l].rec;
    CommittedAfter(s.disk, k, w);
    if w.pc.Commit? {
      NowApart(s, k);
    }
  }

  lemma ApartFlips(k: Key, r: Record, l: Key, s: Record)
    requires Apart(k, r, l, s)
    ensures Apart(l, s, k, r)
  {
  }

  lemma NowApart(s: State, k: Key)
    requires Inv(s) && k in s.work && s.work[k].pc.Commit?
    ensures CommittedApart(s.disk.(committed := s.disk.committed[k := s.work[k].rec]))
  {
    hide Apart;
    var d := s.disk.(committed := s.disk.committed[k := s.work[k].rec]);
    forall l | l in s.disk.committed && l != k ensures Apart(l, s.disk.committed[l], k, s.work[k].rec) {
      assert l in s.work && WorkOk(s.disk, l, s.work[l]);
    }
    forall l, m | l in d.committed && m in d.committed && l != m ensures Apart(l, d.committed[l], m, d.committed[m]) {
      if l == k { ApartFlips(m, s.disk.committed[m], k, s.work[k].rec); }
    }
  }

  // The temp directory after an operation: there may be one more file of the record, which is still
  // at work, or one less.
  ghost predicate TempAfter(s: State, t: State, k: Key) {
    t.mode == s.mode && s.work.Keys - {k} <= t.work.Keys <= s.work.Keys &&
    t.disk.committed.Keys - {k} == s.disk.committed.Keys - {k} &&
    t.disk.drafts.Keys - {k} == s.disk.drafts.Keys - {k} &&
    (forall l :: l in t.work && l != k ==> t.work[l] == s.work[l]) &&
    if k in t.work then BeforeCommit(t.work[k].pc) ==> BeforeCommit(s.work[k].pc)
    else k !in t.disk.drafts && k !in t.disk.committed
  }

  lemma TempIs(s: State, k: Key)
    requires k in s.work && WorkOk(s.disk, k, s.work[k])
    ensures TempAfter(s, Advanced(s, k), k)
  {
    hide Do, NameDone, Touches, Good;
    CommittedAfter(s.disk, k, s.work[k]);
    DraftsAfter(s.disk, k, s.work[k]);
  }

  lemma FilesKept(s: State, t: State, k: Key)
    requires FilesOk(s) && k in s.work && TempAfter(s, t, k)
    ensures FilesOk(t)
  {
    forall l | l != k
      ensures l in t.disk.committed <==> l in s.disk.committed
      ensures l in t.disk.drafts <==> l in s.disk.drafts
      ensures l in t.work <==> l in s.work
    {
      assert l in t.disk.committed.Keys - {k} <==> l in s.disk.committed.Keys - {k};
      assert l in t.disk.drafts.Keys - {k} <==> l in s.disk.drafts.Keys - {k};
    }
  }

  lemma FilesAfter(s: State, k: Key)
    requires Inv(s) && k in s.work
    ensures FilesOk(Advanced(s, k)) && CommittedOk(Advanced(s, k).disk)
  {
    hide Do, Apart, NameDone, Touches, Good, Fits, FilesOk, TempAfter;
    assert WorkOk(s.disk, k, s.work[k]);
    CommittedAfter(s.disk, k, s.work[k]);
    TempIs(s, k);
    FilesKept(s, Advanced(s, k), k);
  }

  lemma WorksAfter(s: State, k: Key)
    requires Inv(s) && k in s.work
    ensures WorksOk(Advanced(s, k))
  {
    var w := s.work[k];
    NoPanic(s.disk, k, w);
    if !w.pc.DropDraft? {
      WorkAdvances(s.disk, k, w);
    }
    forall l | l in s.work && l != k ensures WorkOk(Do(s.disk, k, w), l, s.work[l]) {
      WorkKept(s.disk, l, s.work[l], k, w);
    }
  }

  lemma BeginKeeps(s: State, k: Key, rec: Record)
    requires Inv(s) && Can(s, Begin(k, rec))
    ensures Inv(After(s, Begin(k, rec)))
  {
    var w := Work(rec, Create);
    forall n ensures NameDone(s.disk, k, w, n) {
    }
  }

  lemma StartedOk(disk: Disk, k: Key)
    requires CommittedOk(disk) && k in disk.committed
    ensures WorkOk(disk, k, Work(disk.committed[k], DropMain))
  {
    var w := Work(disk.committed[k], DropMain);
    forall n ensures NameDone(disk, k, w, n) {
    }
  }

  lemma KeyNamedIs(k: Key)
    ensures KeyNamed(Names.KindName(k.kind), k.id) == Some(k)
  {
  }

  lemma DraftVisited(s: State, f: File)
    requires s.mode.Recovering? && f.DraftOf?
    ensures Visited(s, f) ==
            s.(mode := Recovering(s.mode.left - {f}), disk := s.disk.(drafts := s.disk.drafts - {f.key}))
  {
    Names.UnfinishedIsDeleted(f.key);
  }

  // A committed file is recognized for what it is.
  lemma CommittedVisited(s: State, f: File)
    requires s.mode.Recovering? && f.CommittedOf? && f.key in s.disk.committed && Good(f.key)
    ensures Visited(s, f) == s.(mode := Recovering(s.mode.left - {f}),
                                work := s.work[f.key := Work(s.disk.committed[f.key], DropMain)])
  {
    assert FileName(f) == Names.FileTemp(f.key);
    Names.CommittedIsCompleted(f.key);
    KeyNamedIs(f.key);
  }

  lemma VisitKeeps(s: State, f: File)
    requires Inv(s) && Can(s, Visit(f))
    ensures Inv(Visited(s, f))
  {
    if f.CommittedOf? {
      CommittedVisited(s, f);
      StartedOk(s.disk, f.key);
    } else {
      DraftVisited(s, f);
    }
  }

  // Every step keeps the invariant.
  lemma InvStep(s: State, a: Step)
    requires Inv(s) && Can(s, a)
    ensures Inv(After(s, a))
  {
    match a
    case Begin(k, rec) => BeginKeeps(s, k, rec);
    case Advance(k) =>
      ApartAfter(s, k);
      FilesAfter(s, k);
      WorksAfter(s, k);
    case Crash =>
    case Start =>
    case Visit(f) => VisitKeeps(s, f);
    case Finish =>
  }

  // ---- whole runs ----

  ghost predicate CanRun(s: State, run: seq<Step>)
    decreases |run|
  {
    |run| == 0 || (Can(s, run[0]) && CanRun(After(s, run[0]), run[1..]))
  }

  ghost function RunFrom(s: State, run: seq<Step>): State
    requires CanRun(s, run)
    decreases |run|
  {
    if |run| == 0 then s else RunFrom(After(s, run[0]), run[1..])
  }

  datatype Commitment = Commitment(key: Key, rec: Record)

  function Committing(s: State, a: Step): seq<Commitment> {
    if a.Advance? && a.key in s.work && s.work[a.key].pc.Commit? then [Commitment(a.key, s.work[a.key].rec)] else []
  }

  // The records committed in a run, in order
  ghost function Commits(s: State, run: seq<Step>): seq<Commitment>
    requires CanRun(s, run)
    decreases |run|
  {
    if |run| == 0 then [] else Committing(s, run[0]) + Commits(After(s, run[0]), run[1..])
  }

  // What the commits make of a record, and of a name
  function RecordDue(was: Option<Record>, cs: seq<Commitment>, k: Key): Option<Record>
    decreases |cs|
  {
    if |cs| == 0 then was
    else RecordDue(if cs[0].key == k then Some(cs[0].rec) else was, cs[1..], k)
  }

  function NameNow(was: Option<string>, c: Commitment, n: string): Option<string> {
    if Wants(c.key, c.rec, n) then Last(Touches(c.key, c.rec), n) else was
  }

  function NameDue(was: Option<string>, cs: seq<Commitment>, n: string): Option<string>
    decreases |cs|
  {
    if |cs| == 0 then was else NameDue(NameNow(was, cs[0], n), cs[1..], n)
  }

  lemma StepView(s: State, a: Step, k: Key, n: string)
    requires Inv(s) && Can(s, a)
    ensures var cs, d := Committing(s, a), After(s, a).disk;
      RecordOf(d, k) == RecordDue(RecordOf(s.disk, k), cs, k) && NameOf(d, n) == NameDue(NameOf(s.disk, n), cs, n)
  {
    match a
    case Advance(l) =>
      ApartAfter(s, l);
      if s.work[l].pc.Commit? {
        CommitSetsView(s.disk, l, s.work[l], k, n);
      } else {
        OperationKeepsView(s.disk, l, s.work[l], k, n);
      }
    case Visit(f) =>
      if f.CommittedOf? {
        CommittedVisited(s, f);
      } else {
        DraftVisited(s, f);
        NameOfSame(s.disk, Visited(s, f).disk, n);
      }
    case _ =>
  }

  lemma DueJoins(was: Option<Record>, cs: seq<Commitment>, ds: seq<Commitment>, k: Key)
    requires |cs| <= 1
    ensures RecordDue(was, cs + ds, k) == RecordDue(RecordDue(was, cs, k), ds, k)
  {
    if |cs| == 0 { assert cs + ds == ds; } else { assert (cs + ds)[1..] == ds; }
  }

  lemma NameDueJoins(was: Option<string>, cs: seq<Commitment>, ds: seq<Commitment>, n: string)
    requires |cs| <= 1
    ensures NameDue(was, cs + ds, n) == NameDue(NameDue(was, cs, n), ds, n)
  {
    if |cs| == 0 { assert cs + ds == ds; } else { assert (cs + ds)[1..] == ds; }
  }

  lemma {:induction false} RunView(s: State, run: seq<Step>, k: Key, n: string)
    requires Inv(s) && CanRun(s, run)
    ensures var t, cs := RunFrom(s, run), Commits(s, run);
      Inv(t) && RecordOf(t.disk, k) == RecordDue(RecordOf(s.disk, k), cs, k) &&
      NameOf(t.disk, n) == NameDue(NameOf(s.disk, n), cs, n)
    decreases |run|
  {
    if |run| > 0 {
      var s1 := After(s, run[0]);
      InvStep(s, run[0]);
      StepView(s, run[0], k, n);
      RunView(s1, run[1..], k, n);
      DueJoins(RecordOf(s.disk, k), Committing(s, run[0]), Commits(s1, run[1..]), k);
      NameDueJoins(NameOf(s.disk, n), Committing(s, run[0]), Commits(s1, run[1..]), n);
    }
  }

  // No write is under way, and none is left to recover.
  predicate Settled(s: State) {
    s.mode.Up? && s.work == map[]
  }

  lemma SettledIsClean(s: State, n: string)
    requires Inv(s) && Settled(s)
    ensures s.disk.drafts == map[] && s.disk.committed == map[]
    ensures NameOf(s.disk, n) == Get(s.disk.alias, n)
  {
    assert forall k :: !Renamed(s.disk, n, k);
  }

  // Through any run of concurrent writes, crashes, and crashes during recovery, with the temp
  // directory read in any order, each record is in the end the last one committed, or as it was,
  // and each name leads where the last committed record that wants it says, or where it did; and
  // nothing is left in the temp directory.
  lemma CrashesAreAtomic(s: State, run: seq<Step>, k: Key, n: string)
    requires Inv(s) && Settled(s) && CanRun(s, run) && Settled(RunFrom(s, run))
    ensures var t, cs := RunFrom(s, run), Commits(s, run);
      Get(t.disk.main, k) == RecordDue(Get(s.disk.main, k), cs, k) &&
      Get(t.disk.alias, n) == NameDue(Get(s.disk.alias, n), cs, n) &&
      t.disk.drafts == map[] && t.disk.committed == map[]
  {
    RunView(s, run, k, n);
    SettledIsClean(s, n);
    SettledIsClean(RunFrom(s, run), n);
  }

  // Recovery keeps a committed record exactly if its id does not end in ".tmp", else it falls back.
  lemma SuffixDecides(s: State, k: Key)
    requires s.mode.Recovering? && k in s.disk.committed && Names.ValidKey(k)
    ensures RecordOf(Visited(s, CommittedOf(k)).disk, k) ==
            if Names.HasSuffix(k.id, Names.TMP) then Get(s.disk.main, k) else Some(s.disk.committed[k])
  {
    assert FileName(CommittedOf(k)) == Names.FileTemp(k);
    Names.CommittedIsCompleted(k);
    KeyNamedIs(k);
  }

  // ---- one write is what the database's callers see ----

  lemma LastJoins(ts: seq<Touch>, us: seq<Touch>, n: string)
    requires |us| <= 2
    ensures Last(ts + us, n) == if Last(us, n).Some? then Last(us, n) else Last(ts, n)
  {
    if |us| == 0 {
      assert ts + us == ts;
    } else {
      assert (ts + us)[..|ts + us| - 1] == ts + us[..|us| - 1];
      LastJoins(ts, us[..|us| - 1], n);
    }
  }

  lemma LinkedEntryIs(index: map<string, string>, uid: string, a: Alias, n: string)
    ensures var ts := EntryTouches(uid, a);
      |ts| <= 2 && Get(LinkedEntry(index, uid, a), n) == if Last(ts, n).Some? then Last(ts, n) else Get(index, n)
  {
    var ts := EntryTouches(uid, a);
    assert ts[..|ts|] == ts && ts[..0] == [];
    if |ts| > 0 { LastStep(ts, 0, n); }
    if |ts| > 1 { LastStep(ts, 1, n); }
  }

  // The symlinks made one by one are those of a write seen whole.
  lemma {:induction false} LinkedIs(index: map<string, string>, uid: string, s: seq<Alias>, n: string)
    ensures var ts := UserTouches(uid, s);
      Get(Linked(index, uid, s), n) == if Last(ts, n).Some? then Last(ts, n) else Get(index, n)
  {
    if |s| > 0 {
      var k := |s| - 1;
      LinkedIs(index, uid, s[..k], n);
      LinkedEntryIs(Linked(index, uid, s[..k]), uid, s[k], n);
      LastJoins(UserTouches(uid, s[..k]), EntryTouches(uid, s[k]), n);
    }
  }
}
