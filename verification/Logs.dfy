// Histories of calls as logs: what each call was to somebody, and which event came first or last.
module Logs {
  import opened Common
  import opened Records

  // ---- events ----

  // Some call was such an event.
  ghost predicate Ever<T>(log: seq<Option<T>>) {
    exists i :: 0 <= i < |log| && log[i].Some?
  }

  // The first event of the log
  ghost predicate FirstIs<T>(log: seq<Option<T>>, x: T) {
    exists i :: 0 <= i < |log| && log[i] == Some(x) && forall j :: 0 <= j < i ==> log[j].None?
  }

  // The last event of the log
  ghost predicate LastIs<T>(log: seq<Option<T>>, x: T) {
    exists i :: 0 <= i < |log| && log[i] == Some(x) && forall j :: i < j < |log| ==> log[j].None?
  }

  lemma EverNext<T>(log: seq<Option<T>>, e: Option<T>)
    ensures Ever(log + [e]) <==> Ever(log) || e.Some?
  {
    var more := log + [e];
    assert more[|log|] == e && forall i :: 0 <= i < |log| ==> more[i] == log[i];
  }

  lemma FirstNext<T>(log: seq<Option<T>>, e: Option<T>, x: T)
    ensures FirstIs(log + [e], x) <==> FirstIs(log, x) || (!Ever(log) && e == Some(x))
  {
    var more := log + [e];
    assert more[|log|] == e && forall i :: 0 <= i < |log| ==> more[i] == log[i];
  }

  lemma LastNext<T>(log: seq<Option<T>>, e: Option<T>, x: T)
    ensures LastIs(log + [e], x) <==> if e.Some? then e == Some(x) else LastIs(log, x)
  {
    var more := log + [e];
    assert more[|log|] == e && forall i :: 0 <= i < |log| ==> more[i] == log[i];
  }

  // ---- histories ----

  // What each call of a history was.
  function Log<T>(printable: char -> bool, calls: seq<Call>, event: (Db, Call, Outcome) -> Option<T>)
    : (log: seq<Option<T>>)
    ensures |log| == |calls|
  {
    if |calls| == 0 then []
    else
      var db, c := After(printable, calls[..|calls| - 1]), calls[|calls| - 1];
      Log(printable, calls[..|calls| - 1], event) + [event(db, c, Apply(printable, db, c).outcome)]
  }

  lemma {:induction false} LogAt<T>(printable: char -> bool, calls: seq<Call>, i: nat,
                                   event: (Db, Call, Outcome) -> Option<T>)
    requires i < |calls|
    ensures var db := After(printable, calls[..i]);
      Log(printable, calls, event)[i] == event(db, calls[i], Apply(printable, db, calls[i]).outcome)
  {
    if i < |calls| - 1 {
      LogAt(printable, calls[..|calls| - 1], i, event);
      assert calls[..|calls| - 1][..i] == calls[..i];
    }
  }
}
