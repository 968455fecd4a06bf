// Writes and recovery can always be brought to an end: nothing that the server does leaves it, or
// the files, in a state from which it cannot go on.
module Progress {
  import opened Common
  import Names
  import opened Records
  import C = CrashRetry
  import R = Recovery
  import opened S = Server

  // The operations that a write still has to do
  function Left(k: Key, w: R.Work): nat {
    var n := |R.Touches(k, w.rec)|;
    match w.pc
    case Create => 2 * n + 8
    case Write => 2 * n + 7
    case Commit => 2 * n + 6
    case DropMain => 2 * n + 5
    case LinkMain => 2 * n + 4
    case DropName(j) => if j < n then 2 * (n - j) + 3 else 0
    case MakeName(j) => if j < n then 2 * (n - j) + 2 else 0
    case DropCommitted => 2
    case DropDraft => 1
  }

  function BaseAfter(s: State, k: Key): Db
    requires k in s.files.work
  {
    if Pending(s.files.work, k) then Committed(s.base, k, s.files.work[k].rec) else s.base
  }

  lemma OneOperation(printable: char -> bool, s: State, k: Key)
    requires S.Inv(s) && k in s.files.work
    ensures Can(printable, s, File(R.Advance(k))) && R.InRange(k, s.files.work[k])
    ensures var r := S.After(printable, s, File(R.Advance(k)));
      r.db == s.db && r.files.mode == s.files.mode &&
      match R.Next(k, s.files.work[k])
      case None => r.files.work == s.files.work - {k} && r.base == BaseAfter(s, k)
      case Some(v) =>
        r.files.work == s.files.work[k := v] && BaseAfter(r, k) == BaseAfter(s, k) &&
        Left(k, v) < Left(k, s.files.work[k])
  {
    hide Shows, NamesInv, Ahead, R.Do, R.Succeeds, R.Good, R.Touches, Committed, R.FilesOk, R.WorkApart,
         R.CommittedOk, R.CommittedApart, R.NameDone;
    assert R.WorkOk(s.files.disk, k, s.files.work[k]);
    R.NoPanic(s.files.disk, k, s.files.work[k]);
  }

  lemma RunStep(printable: char -> bool, s: State, a: Step, run: seq<Step>)
    requires Can(printable, s, a) && S.CanRun(printable, S.After(printable, s, a), run)
    ensures S.CanRun(printable, s, [a] + run)
    ensures RunFrom(printable, s, [a] + run) == RunFrom(printable, S.After(printable, s, a), run)
  {
    assert ([a] + run)[1..] == run;
  }

  lemma {:induction false} RunJoin(printable: char -> bool, s: State, a: seq<Step>, b: seq<Step>)
    requires S.CanRun(printable, s, a) && S.CanRun(printable, RunFrom(printable, s, a), b)
    ensures S.CanRun(printable, s, a + b)
    ensures RunFrom(printable, s, a + b) == RunFrom(printable, RunFrom(printable, s, a), b)
    decreases |a|
  {
    hide Can, S.After;
    if |a| == 0 {
      assert a + b == b;
    } else {
      RunJoin(printable, S.After(printable, s, a[0]), a[1..], b);
      RunStep(printable, s, a[0], a[1..] + b);
      assert a + b == [a[0]] + (a[1..] + b);
    }
  }

  // A write that has begun can be finished, whatever else is going on, up to its last operation.
  lemma {:induction false} Finishes(printable: char -> bool, s: State, k: Key) returns (run: seq<Step>)
    requires S.Inv(s) && k in s.files.work
    ensures S.CanRun(printable, s, run)
    ensures var r := RunFrom(printable, s, run);
      S.Inv(r) && r.db == s.db && r.files.mode == s.files.mode && r.files.work == s.files.work - {k} &&
      r.base == BaseAfter(s, k)
    decreases Left(k, s.files.work[k])
  {
    hide S.Inv, Can, S.After, BaseAfter, Left;
    var a := File(R.Advance(k));
    OneOperation(printable, s, k);
    var r := S.After(printable, s, a);
    S.InvStep(printable, s, a);
    var more: seq<Step> := [];
    if k in r.files.work {
      more := Finishes(printable, r, k);
      assert r.files.work - {k} == s.files.work - {k};
    } else {
      assert S.CanRun(printable, r, more) && RunFrom(printable, r, more) == r;
    }
    run := [a] + more;
    RunStep(printable, s, a, more);
    var z := RunFrom(printable, s, run);
    assert z.files.work == s.files.work - {k} && z.base == BaseAfter(s, k);
  }

  // Recovery comes to its end, file by file.
  lemma {:induction false} Visits(printable: char -> bool, s: State) returns (run: seq<Step>)
    requires S.Inv(s) && s.files.mode.Recovering? && s.files.work == map[]
    ensures S.CanRun(printable, s, run)
    ensures var r := RunFrom(printable, s, run); S.Inv(r) && R.Settled(r.files) && r.db == r.base == s.base
    decreases |s.files.mode.left|
  {
    hide S.Inv, S.After;
    if s.files.mode.left == {} {
      RestartIs(printable, s);
      run := [Restarted] + [];
      RunStep(printable, s, Restarted, []);
    } else {
      var f :| f in s.files.mode.left;
      var r := S.After(printable, s, File(R.Visit(f)));
      S.InvStep(printable, s, File(R.Visit(f)));
      var work := VisitIs(printable, s, f);
      var rest := Visits(printable, RunFrom(printable, r, work));
      RunJoin(printable, r, work, rest);
      RunStep(printable, s, File(R.Visit(f)), work + rest);
      run := [File(R.Visit(f))] + (work + rest);
    }
  }

  lemma RestartIs(printable: char -> bool, s: State)
    requires S.Inv(s) && Can(printable, s, Restarted)
    ensures var r := S.After(printable, s, Restarted); S.Inv(r) && R.Settled(r.files) && r.db == r.base == s.base
  {
    hide S.Inv;
    RestartKeeps(printable, s);
  }

  // A file looked at, and the write completed that it may stand for
  lemma VisitIs(printable: char -> bool, s: State, f: R.File) returns (run: seq<Step>)
    requires S.Inv(s) && Can(printable, s, File(R.Visit(f)))
    ensures S.CanRun(printable, S.After(printable, s, File(R.Visit(f))), run)
    ensures var r := RunFrom(printable, S.After(printable, s, File(R.Visit(f))), run);
      S.Inv(r) && r.base == s.base && r.files.work == map[] && r.files.mode == R.Recovering(s.files.mode.left - {f})
  {
    hide S.Inv, S.After, Can, BaseAfter;
    var r := S.After(printable, s, File(R.Visit(f)));
    VisitedIs(printable, s, f);
    S.InvStep(printable, s, File(R.Visit(f)));
    run := [];
    if k :| k in r.files.work {
      OneAtATime(r, k);
      run := Finishes(printable, r, k);
    }
  }

  lemma VisitedIs(printable: char -> bool, s: State, f: R.File)
    requires Can(printable, s, File(R.Visit(f)))
    ensures var r := S.After(printable, s, File(R.Visit(f)));
      r.base == s.base && r.files.mode == R.Recovering(s.files.mode.left - {f})
  {
  }

  lemma OneAtATime(s: State, k: Key)
    requires S.Inv(s) && s.files.mode.Recovering? && k in s.files.work
    ensures s.files.work - {k} == map[] && BaseAfter(s, k) == s.base
  {
    hide Shows, NamesInv, R.WorksOk, R.CommittedOk, Committed;
  }

  // From every state there is a way through a crash to a server at rest, which has kept exactly what
  // was committed.
  lemma Recovers(printable: char -> bool, s: State) returns (run: seq<Step>)
    requires S.Inv(s)
    ensures S.CanRun(printable, s, run)
    ensures var r := RunFrom(printable, s, run); S.Inv(r) && R.Settled(r.files) && r.db == r.base == s.base
  {
    hide S.Inv;
    var s1 := S.After(printable, s, File(R.Crash));
    S.InvStep(printable, s, File(R.Crash));
    var s2 := S.After(printable, s1, File(R.Start));
    S.InvStep(printable, s1, File(R.Start));
    var rest := Visits(printable, s2);
    RunStep(printable, s1, File(R.Start), rest);
    RunStep(printable, s, File(R.Crash), [File(R.Start)] + rest);
    run := [File(R.Crash)] + ([File(R.Start)] + rest);
  }

  // A call that is let in can be finished beside the others.
  lemma Makes(printable: char -> bool, s: State, c: Call) returns (run: seq<Step>)
    requires S.Inv(s) && Can(printable, s, Make(c)) && Apply(printable, s.db, c).db != s.db
    ensures S.CanRun(printable, s, run)
    ensures var r, d, k := RunFrom(printable, s, run), Apply(printable, s.db, c).db, C.KeyOf(c);
      S.Inv(r) && r.db == d && r.files.mode.Up? && r.files.work == s.files.work &&
      C.RecordIn(d, k).Some? && r.base == Committed(s.base, k, C.RecordIn(d, k).value)
  {
    hide S.Inv, Apply, Committed;
    var d, k := Apply(printable, s.db, c).db, C.KeyOf(c);
    CallMayBegin(printable, s, c);
    S.InvStep(printable, s, Make(c));
    var r := S.After(printable, s, Make(c));
    var rest := Finishes(printable, r, k);
    assert r.files.work - {k} == s.files.work;
    run := [Make(c)] + rest;
    RunStep(printable, s, Make(c), rest);
  }
}
