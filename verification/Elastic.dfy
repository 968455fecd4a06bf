// The elastic channel between the posters of a node and its queue goroutine: every id received
// is appended to a buffer which is then sorted; the head of the buffer is what is handed out.
module Elastic {
  import opened Common

  // Byte-wise order on strings, as used by sort.Strings.
  predicate StrLe(a: string, b: string) {
    |a| == 0 || (|b| > 0 && (a[0] < b[0] || (a[0] == b[0] && StrLe(a[1..], b[1..]))))
  }

  ghost predicate Sorted(s: seq<string>) {
    forall i, j :: 0 <= i < j < |s| ==> StrLe(s[i], s[j])
  }

  lemma {:induction false} StrLeTotal(a: string, b: string)
    ensures StrLe(a, b) || StrLe(b, a)
    ensures StrLe(a, b) && StrLe(b, a) ==> a == b
  {
    if |a| > 0 && |b| > 0 {
      StrLeTotal(a[1..], b[1..]);
      assert a == [a[0]] + a[1..] && b == [b[0]] + b[1..];
    }
  }

  lemma {:induction false} StrLeTrans(a: string, b: string, c: string)
    requires StrLe(a, b) && StrLe(b, c)
    ensures StrLe(a, c)
  {
    if |a| > 0 && a[0] == b[0] == c[0] {
      StrLeTrans(a[1..], b[1..], c[1..]);
    }
  }

  function Insert(x: string, s: seq<string>): seq<string> {
    if |s| == 0 || StrLe(x, s[0]) then [x] + s else [s[0]] + Insert(x, s[1..])
  }

  // What sort.Strings leaves in its argument.
  function SortStrings(s: seq<string>): seq<string> {
    if |s| == 0 then [] else Insert(s[0], SortStrings(s[1..]))
  }

  lemma {:induction false} InsertKeepsOrder(x: string, s: seq<string>)
    requires Sorted(s)
    ensures Sorted(Insert(x, s))
    ensures multiset(Insert(x, s)) == multiset{x} + multiset(s)
  {
    if |s| == 0 {
      assert Insert(x, s) == [x];
    } else if StrLe(x, s[0]) {
      forall i | 0 <= i < |s| ensures StrLe(x, s[i]) {
        if i > 0 { StrLeTrans(x, s[0], s[i]); }
      }
    } else {
      var t := Insert(x, s[1..]);
      InsertKeepsOrder(x, s[1..]);
      assert s == [s[0]] + s[1..];
      forall i | 0 <= i < |t| ensures StrLe(s[0], t[i]) {
        StrLeTotal(x, s[0]);
        assert t[i] in multiset(t);
      }
    }
  }

  lemma {:induction false} SortStringsSorts(s: seq<string>)
    ensures Sorted(SortStrings(s))
    ensures multiset(SortStrings(s)) == multiset(s)
  {
    if |s| > 0 {
      SortStringsSorts(s[1..]);
      InsertKeepsOrder(s[0], SortStrings(s[1..]));
      assert s == [s[0]] + s[1..];
    }
  }

  // The buffer after one more id has come in.
  function Received(buf: seq<string>, x: string): seq<string> {
    SortStrings(buf + [x])
  }

  lemma ReceivedHolds(buf: seq<string>, x: string)
    ensures Sorted(Received(buf, x))
    ensures multiset(Received(buf, x)) == multiset(buf) + multiset{x}
    ensures |Received(buf, x)| == |buf| + 1
  {
    SortStringsSorts(buf + [x]);
    assert |multiset(Received(buf, x))| == |buf| + 1;
  }

  // The goroutine that runs one elastic channel. The select statement is free to prefer either
  // side, so its choices are an input.
  class ElasticChan {
    var buf: seq<string>

    // The buffer starts out as the node's directory listing.
    constructor (listing: seq<string>)
      ensures buf == SortStrings(listing)
      ensures Sorted(buf) && multiset(buf) == multiset(listing)
    {
      buf := SortStrings(listing);
      SortStringsSorts(listing);
    }

    // `o.in` delivers the inputs and is then closed. `preferIn(k)` is what select does the k-th time.
    method Serve(inputs: seq<string>, preferIn: nat -> bool) returns (out: seq<string>)
      modifies this
      ensures buf == []
      ensures multiset(out) == multiset(old(buf)) + multiset(inputs)
      ensures ServedBy(old(buf), inputs, out)
    {
      out := [];
      var next, turn := 0, 0;
      ghost var es: seq<Event> := [];
      while true
        invariant next <= |inputs|
        invariant CanRun(old(buf), es) && Inputs(es) == inputs[..next]
        invariant buf == Rest(old(buf), es) && out == Outs(old(buf), es)
        decreases |inputs| - next, |buf|
      {
        // buf needs a value before consumer and producer can be multiplexed
        var takeIn := |buf| == 0;
        if !takeIn {
          takeIn := preferIn(turn);
          turn := turn + 1;
        }
        if !takeIn {
          RunExtend(old(buf), es, Hand);
          es := es + [Hand];
          out, buf := out + [buf[0]], buf[1..];
        } else if next < |inputs| {
          assert inputs[..next + 1] == inputs[..next] + [inputs[next]];
          RunExtend(old(buf), es, Recv(inputs[next]));
          es := es + [Recv(inputs[next])];
          buf := Received(buf, inputs[next]);
          next := next + 1;
        } else {
          break;
        }
      }
      assert inputs[..next] == inputs;
      // closed: what is left goes out in order
      while |buf| > 0
        invariant CanRun(old(buf), es) && Inputs(es) == inputs
        invariant buf == Rest(old(buf), es) && out == Outs(old(buf), es)
      {
        RunExtend(old(buf), es, Hand);
        es := es + [Hand];
        out, buf := out + [buf[0]], buf[1..];
      }
      Conserved(old(buf), es);
    }
  }

  // The visible events of an elastic channel.
  datatype Event = Recv(x: string) | Hand

  predicate CanRun(buf: seq<string>, es: seq<Event>)
    decreases es
  {
    |es| == 0 || match es[0]
                 case Recv(x) => CanRun(Received(buf, x), es[1..])
                 case Hand => |buf| > 0 && CanRun(buf[1..], es[1..])
  }

  function Outs(buf: seq<string>, es: seq<Event>): seq<string>
    requires CanRun(buf, es)
    decreases es
  {
    if |es| == 0 then [] else match es[0]
                              case Recv(x) => Outs(Received(buf, x), es[1..])
                              case Hand => [buf[0]] + Outs(buf[1..], es[1..])
  }

  function Rest(buf: seq<string>, es: seq<Event>): seq<string>
    requires CanRun(buf, es)
    decreases es
  {
    if |es| == 0 then buf else match es[0]
                               case Recv(x) => Rest(Received(buf, x), es[1..])
                               case Hand => Rest(buf[1..], es[1..])
  }

  function Inputs(es: seq<Event>): seq<string> {
    if |es| == 0 then [] else match es[0]
                              case Recv(x) => [x] + Inputs(es[1..])
                              case Hand => Inputs(es[1..])
  }

  ghost predicate ServedBy(buf: seq<string>, inputs: seq<string>, out: seq<string>) {
    exists es :: CanRun(buf, es) && Inputs(es) == inputs && Outs(buf, es) == out && Rest(buf, es) == []
  }

  lemma {:induction false} RunExtend(buf: seq<string>, es: seq<Event>, e: Event)
    requires CanRun(buf, es)
    requires e.Hand? ==> |Rest(buf, es)| > 0
    ensures CanRun(buf, es + [e])
    ensures Inputs(es + [e]) == Inputs(es) + (if e.Recv? then [e.x] else [])
    ensures e.Recv? ==> Rest(buf, es + [e]) == Received(Rest(buf, es), e.x) && Outs(buf, es + [e]) == Outs(buf, es)
    ensures e.Hand? ==> Rest(buf, es + [e]) == Rest(buf, es)[1..]
                        && Outs(buf, es + [e]) == Outs(buf, es) + [Rest(buf, es)[0]]
    decreases es
  {
    var all := es + [e];
    if |es| == 0 {
      assert all[1..] == [];
    } else {
      assert all[1..] == es[1..] + [e];
      match es[0]
      case Recv(x) => RunExtend(Received(buf, x), es[1..], e);
      case Hand => RunExtend(buf[1..], es[1..], e);
    }
  }

  lemma ConsBoth(x: string, a: seq<string>, b: seq<string>, c: seq<string>, d: seq<string>)
    requires multiset(a) + multiset(b) == multiset(c) + multiset(d)
    ensures multiset([x] + a) + multiset(b) == multiset([x] + c) + multiset(d)
  {
    calc {
      multiset([x] + a) + multiset(b);
      multiset{x} + (multiset(a) + multiset(b));
      multiset{x} + (multiset(c) + multiset(d));
      multiset([x] + c) + multiset(d);
    }
  }

  // Nothing is lost or made up, whatever select prefers; and a sorted buffer stays sorted.
  lemma {:induction false} Conserved(buf: seq<string>, es: seq<Event>)
    requires CanRun(buf, es)
    ensures multiset(Outs(buf, es)) + multiset(Rest(buf, es)) == multiset(buf) + multiset(Inputs(es))
    ensures Sorted(buf) ==> Sorted(Rest(buf, es))
    decreases es
  {
    if |es| > 0 {
      match es[0]
      case Recv(x) =>
        ReceivedHolds(buf, x);
        Conserved(Received(buf, x), es[1..]);
      case Hand =>
        assert buf == [buf[0]] + buf[1..];
        Conserved(buf[1..], es[1..]);
        assert Outs(buf, es) == [buf[0]] + Outs(buf[1..], es[1..]);
        assert Rest(buf, es) == Rest(buf[1..], es[1..]);
        assert Inputs(es) == Inputs(es[1..]);
        ConsBoth(buf[0], Outs(buf[1..], es[1..]), Rest(buf[1..], es[1..]), buf[1..], Inputs(es[1..]));
    }
  }

  // Two ids which are in the buffer together never leave inverted: whatever comes in meanwhile,
  // the lesser one has already left when the greater one does.
  lemma {:induction false} NoInversion(buf: seq<string>, es: seq<Event>, a: string, b: string, j: nat)
    requires Sorted(buf) && CanRun(buf, es)
    requires a in buf && b in buf && a != b && StrLe(a, b)
    requires j < |Outs(buf, es)| && Outs(buf, es)[j] == b
    ensures exists i :: 0 <= i < j && Outs(buf, es)[i] == a
    decreases es
  {
    match es[0]
    case Recv(x) =>
      ReceivedHolds(buf, x);
      assert a in multiset(Received(buf, x)) && b in multiset(Received(buf, x));
      NoInversion(Received(buf, x), es[1..], a, b, j);
    case Hand =>
      StrLeTotal(a, b);
      assert buf[0] != b;
      if buf[0] == a {
        assert Outs(buf, es)[0] == a;
      } else {
        NoInversion(buf[1..], es[1..], a, b, j - 1);
        var i :| 0 <= i < j - 1 && Outs(buf[1..], es[1..])[i] == a;
        assert Outs(buf, es)[i + 1] == a;
      }
  }

  // ---- message names: a priority byte and sixteen hex digits of a counter ----

  function Pow16(w: nat): (p: nat)
    ensures p > 0
  {
    if w == 0 then 1 else 16 * Pow16(w - 1)
  }

  // The w lowest hex digits of n, highest first.
  function Hex(n: nat, w: nat): (s: string)
    ensures |s| == w
  {
    if w == 0 then "" else Hex(n / 16, w - 1) + [HexDigit(n % 16)]
  }

  lemma {:induction false} StrLeAppend(a: string, b: string, x: char, y: char)
    requires |a| == |b|
    ensures StrLe(a + [x], b + [y]) <==> (if a == b then x <= y else StrLe(a, b))
  {
    if |a| == 0 {
      assert a + [x] == [x] && b + [y] == [y];
    } else {
      assert (a + [x])[1..] == a[1..] + [x] && (b + [y])[1..] == b[1..] + [y];
      StrLeAppend(a[1..], b[1..], x, y);
      assert a == [a[0]] + a[1..] && b == [b[0]] + b[1..];
    }
  }

  lemma {:induction false} HexOrder(n: nat, m: nat, w: nat)
    requires n < Pow16(w) && m < Pow16(w)
    ensures StrLe(Hex(n, w), Hex(m, w)) <==> n <= m
    ensures Hex(n, w) == Hex(m, w) <==> n == m
  {
    if w > 0 {
      HexOrder(n / 16, m / 16, w - 1);
      var a, b := Hex(n / 16, w - 1), Hex(m / 16, w - 1);
      StrLeAppend(a, b, HexDigit(n % 16), HexDigit(m % 16));
      var s, t := Hex(n, w), Hex(m, w);
      assert s[..w - 1] == a && t[..w - 1] == b && s[w - 1] == HexDigit(n % 16) && t[w - 1] == HexDigit(m % 16);
      assert s == t <==> a == b && HexDigit(n % 16) == HexDigit(m % 16);
    }
  }

  // The name a message has in a node's directory: priority byte, then the 64-bit id as %016x.
  function MsgName(prio: char, id: nat): string {
    [prio] + Hex(id, 16)
  }

  // So string order on names is numeric order on (priority, id).
  lemma NameOrder(p: char, n: nat, q: char, m: nat)
    requires n < Pow16(16) && m < Pow16(16)
    ensures StrLe(MsgName(p, n), MsgName(q, m)) <==> p < q || (p == q && n <= m)
    ensures MsgName(p, n) == MsgName(q, m) <==> p == q && n == m
  {
    HexOrder(n, m, 16);
    var a, b := MsgName(p, n), MsgName(q, m);
    assert a[0] == p && a[1..] == Hex(n, 16) && b[0] == q && b[1..] == Hex(m, 16);
  }
}
