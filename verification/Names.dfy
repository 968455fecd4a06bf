// File names: queue directories of nodes, and the temp files of the user database.
module Names {
  import opened Common
  import Utf8

  predicate HasSuffix(s: string, t: string) {
    |t| <= |s| && s[|s| - |t|..] == t
  }

  const TMP := ".tmp"

  // ---- the bytes of a string ----

  type byte = Utf8.byte

  function Utf8Of(s: string): seq<byte> {
    if |s| == 0 then [] else Utf8.Encode(s[0] as int) + Utf8Of(s[1..])
  }

  // What ranging over a string finds
  function TextOf(p: seq<byte>): string {
    if |p| == 0 then "" else [Rune(p)] + TextOf(p[Utf8.DecodeRune(p).1..])
  }

  function Rune(p: seq<byte>): char
    requires |p| > 0
  {
    RuneIsScalar(p);
    Utf8.DecodeRune(p).0 as char
  }

  lemma RuneIsScalar(p: seq<byte>)
    requires |p| > 0
    ensures Utf8.Scalar(Utf8.DecodeRune(p).0)
  {
    if Utf8.DecodeRune(p) != (Utf8.RUNE_ERROR, 1) {
      Utf8.EncodeOfDecode(p);
    }
  }

  lemma {:induction false} TextOfUtf8(s: string)
    ensures TextOf(Utf8Of(s)) == s
  {
    hide Utf8.Encode, Utf8.DecodeRune;
    if |s| > 0 {
      var p, rest := Utf8.Encode(s[0] as int), Utf8Of(s[1..]);
      Utf8.DecodeOfEncode(s[0] as int, rest);
      TextOfUtf8(s[1..]);
      assert (p + rest)[|p|..] == rest && [s[0]] + s[1..] == s;
    }
  }

  lemma {:induction false} Utf8Append(s: string, c: char)
    ensures Utf8Of(s + [c]) == Utf8Of(s) + Utf8.Encode(c as int)
  {
    hide Utf8.Encode;
    if |s| == 0 {
      assert s + [c] == [c];
      assert Utf8Of([c][1..]) == [];
    } else {
      assert (s + [c])[1..] == s[1..] + [c];
      Utf8Append(s[1..], c);
    }
  }

  // ---- url.QueryEscape and url.QueryUnescape ----

  predicate Unreserved(b: byte) {
    'a' as int <= b <= 'z' as int || 'A' as int <= b <= 'Z' as int || '0' as int <= b <= '9' as int ||
    b == '-' as int || b == '_' as int || b == '.' as int || b == '~' as int
  }

  predicate Plain(c: char) {
    c == '.' || c == 't' || c == 'm' || c == 'p'
  }

  function UpperHex(d: int): (c: char)
    requires 0 <= d < 16
  {
    if d < 10 then (48 + d) as char else (55 + d) as char
  }

  lemma HexDigits(d: int)
    requires 0 <= d < 16
    ensures HexValue(UpperHex(d) as int) == Some(d)
    ensures !Plain(UpperHex(d)) && UpperHex(d) != '%'
  {
  }

  function Percent(b: byte): (e: string)
    ensures |e| == 3 && e[0] == '%' && !Plain(e[2])
    ensures HexValue(e[1] as int) == Some(b / 16) && HexValue(e[2] as int) == Some(b % 16)
  {
    HexDigits(b / 16);
    HexDigits(b % 16);
    ['%', UpperHex(b / 16), UpperHex(b % 16)]
  }

  function EscapeByte(b: byte): (e: string)
    ensures |e| > 0
    ensures forall d :: Plain(d) ==> (e[|e| - 1] == d <==> b == d as int)
    ensures forall d :: Plain(d) && b == d as int ==> e == [d]
  {
    if Unreserved(b) then [b as char]
    else if b == ' ' as int then "+"
    else Percent(b)
  }

  function EscapeBytes(p: seq<byte>): string {
    if |p| == 0 then "" else EscapeByte(p[0]) + EscapeBytes(p[1..])
  }

  function Escape(s: string): string {
    EscapeBytes(Utf8Of(s))
  }

  // None for a malformed escape
  function UnescapeBytes(s: string): Option<seq<byte>> {
    if |s| == 0 then Some([])
    else if s[0] != '%' then Before(if s[0] == '+' then ' ' as int else s[0] as int % 256, UnescapeBytes(s[1..]))
    else if |s| < 3 then None
    else match (HexValue(s[1] as int), HexValue(s[2] as int))
      case (Some(high), Some(low)) => Before(high * 16 + low, UnescapeBytes(s[3..]))
      case _ => None
  }

  function Before(b: byte, rest: Option<seq<byte>>): Option<seq<byte>> {
    match rest
    case None => None
    case Some(p) => Some([b] + p)
  }

  function Unescape(s: string): Option<string> {
    match UnescapeBytes(s)
    case None => None
    case Some(p) => Some(TextOf(p))
  }

  lemma UnescapeStep(b: byte, rest: string)
    ensures UnescapeBytes(EscapeByte(b) + rest) == Before(b, UnescapeBytes(rest))
  {
    hide Percent, UnescapeBytes;
    if Unreserved(b) || b == ' ' as int {
      PlainStep(if b == ' ' as int then '+' else b as char, rest);
    } else {
      PercentStep(b, rest);
    }
  }

  lemma PlainStep(d: char, rest: string)
    requires d != '%' && d as int < 256
    ensures UnescapeBytes([d] + rest) == Before(if d == '+' then ' ' as int else d as int, UnescapeBytes(rest))
  {
    assert ([d] + rest)[1..] == rest;
  }

  lemma PercentStep(b: byte, rest: string)
    ensures UnescapeBytes(Percent(b) + rest) == Before(b, UnescapeBytes(rest))
  {
    hide HexValue, UpperHex, Percent;
    var e := Percent(b);
    var s := e + rest;
    assert s[0] == e[0] && s[1] == e[1] && s[2] == e[2] && s[3..] == rest;
  }

  lemma {:induction false} UnescapeOfBytes(p: seq<byte>)
    ensures UnescapeBytes(EscapeBytes(p)) == Some(p)
  {
    hide EscapeByte;
    if |p| > 0 {
      UnescapeOfBytes(p[1..]);
      UnescapeStep(p[0], EscapeBytes(p[1..]));
      assert [p[0]] + p[1..] == p;
    }
  }

  lemma UnescapeOfEscape(s: string)
    ensures Unescape(Escape(s)) == Some(s)
  {
    UnescapeOfBytes(Utf8Of(s));
    TextOfUtf8(s);
  }

  lemma {:induction false} EscapeJoins(p: seq<byte>, q: seq<byte>)
    ensures EscapeBytes(p + q) == EscapeBytes(p) + EscapeBytes(q)
  {
    hide EscapeByte;
    if |p| == 0 {
      assert p + q == q;
    } else {
      assert (p + q)[1..] == p[1..] + q;
      EscapeJoins(p[1..], q);
    }
  }

  // What one character is escaped to
  function EscapeChar(c: char): (e: string)
    ensures |e| > 0
    ensures forall d :: Plain(d) ==> (e[|e| - 1] == d <==> c == d)
    ensures Plain(c) ==> e == [c]
  {
    EscapeCharEnds(c);
    EscapeBytes(Utf8.Encode(c as int))
  }

  lemma EscapeCharEnds(c: char)
    ensures var e := EscapeBytes(Utf8.Encode(c as int));
      |e| > 0 && (Plain(c) ==> e == [c]) && forall d :: Plain(d) ==> (e[|e| - 1] == d <==> c == d)
  {
    var p := Utf8.Encode(c as int);
    var k := |p| - 1;
    assert p == p[..k] + [p[k]];
    EscapeJoins(p[..k], [p[k]]);
    EscapeOne(p[k]);
    LastByte(c as int);
  }

  lemma EscapeOne(b: byte)
    ensures EscapeBytes([b]) == EscapeByte(b)
  {
    assert [b][1..] == [];
    assert EscapeByte(b) + "" == EscapeByte(b);
  }

  lemma LastByte(c: int)
    requires Utf8.Scalar(c)
    ensures var p := Utf8.Encode(c); if c < 0x80 then p == [c] else p[|p| - 1] >= 0x80
  {
  }

  lemma EscapeAppend(s: string, c: char)
    ensures Escape(s + [c]) == Escape(s) + EscapeChar(c)
  {
    Utf8Append(s, c);
    EscapeJoins(Utf8Of(s), Utf8.Encode(c as int));
  }

  lemma SuffixAppend(s: string, t: string, c: char, d: char)
    ensures HasSuffix(s + [c], t + [d]) <==> c == d && HasSuffix(s, t)
  {
    if |t| <= |s| {
      var x := (s + [c])[|s| - |t|..];
      assert x == s[|s| - |t|..] + [c];
      assert x == t + [d] <==> x[..|t|] == t && x[|t|] == d;
    }
  }

  // Escaping keeps a suffix such as ".tmp", and never makes one.
  lemma {:induction false} SuffixKept(s: string, t: string)
    requires forall c :: c in t ==> Plain(c)
    ensures HasSuffix(Escape(s), t) <==> HasSuffix(s, t)
    decreases |t|
  {
    if |t| > 0 && |s| > 0 {
      var s', c := s[..|s| - 1], s[|s| - 1];
      var t', d := t[..|t| - 1], t[|t| - 1];
      assert s == s' + [c] && t == t' + [d];
      assert d in t;
      var e := EscapeChar(c);
      var front := Escape(s') + e[..|e| - 1];
      EscapeAppend(s', c);
      assert Escape(s) == front + [e[|e| - 1]];
      SuffixAppend(s', t', c, d);
      SuffixAppend(front, t', e[|e| - 1], d);
      if c == d {
        assert front == Escape(s');
        SuffixKept(s', t');
      }
    }
  }

  // ---- names in the temp directory ----

  datatype Kind = IsUser | IsGroup

  // What putRecord stores a record under.
  datatype Key = Key(kind: Kind, id: string)

  function KindName(kind: Kind): string {
    match kind
    case IsUser => "user"
    case IsGroup => "group"
  }

  // fileTemp, below the temp directory
  function FileTemp(k: Key): string {
    KindName(k.kind) + "_" + (if k.kind.IsUser? then k.id else Escape(k.id))
  }

  // Ids that user records are made for: see fetchUser.
  predicate UidChar(c: char) {
    'A' <= c <= 'Z' || '0' <= c <= '9' || c == '+' || c == '%' || 'a' <= c <= 'z'
  }

  predicate ValidUid(uid: string) {
    forall c :: c in uid ==> UidChar(c)
  }

  predicate ValidKey(k: Key) {
    k.kind.IsUser? ==> ValidUid(k.id)
  }

  function IndexOf(s: string, c: char): (i: nat)
    ensures i <= |s| && (i < |s| ==> s[i] == c) && forall j :: 0 <= j < i ==> s[j] != c
  {
    if |s| == 0 || s[0] == c then 0 else 1 + IndexOf(s[1..], c)
  }

  // What recovery does about a file in the temp directory.
  datatype Verdict = Delete | Complete(kind: string, id: string) | Unexpected

  function Classify(name: string): Verdict {
    if HasSuffix(name, TMP) then Delete
    else
      var i := IndexOf(name, '_');
      if i == |name| then Unexpected
      else if name[..i] == "user" then Complete("user", name[i + 1..])
      else match Unescape(name[i + 1..])
        case None => Unexpected
        case Some(id) => Complete(name[..i], id)
  }

  lemma FirstUnderscore(kind: string, rest: string)
    requires kind == "user" || kind == "group"
    ensures var s := kind + "_" + rest; IndexOf(s, '_') == |kind| && s[..|kind|] == kind && s[|kind| + 1..] == rest
  {
    var s := kind + "_" + rest;
    assert s[..|kind|] == kind && s[|kind|] == '_';
    forall j | 0 <= j < |kind| ensures s[j] != '_' {
      assert s[j] == kind[j];
    }
  }

  lemma SuffixBehind(kind: string, rest: string)
    requires kind == "user" || kind == "group"
    ensures HasSuffix(kind + "_" + rest, TMP) <==> HasSuffix(rest, TMP)
  {
    var s := kind + "_" + rest;
    if |rest| >= 4 {
      assert s[|s| - 4..] == rest[|rest| - 4..];
    } else {
      assert s[|s| - 4..][3 - |rest|] == '_';
    }
  }

  lemma UidHasNoSuffix(uid: string)
    requires ValidUid(uid)
    ensures !HasSuffix(uid, TMP)
  {
    if |uid| >= 4 {
      assert uid[|uid| - 4..][0] == uid[|uid| - 4];
      assert uid[|uid| - 4] in uid;
    }
  }

  // Recovery takes a committed file for what it is exactly if its id does not end in ".tmp", and
  // deletes it otherwise; a user's id never ends so.
  lemma CommittedIsCompleted(k: Key)
    requires ValidKey(k)
    ensures Classify(FileTemp(k)) == if HasSuffix(k.id, TMP) then Delete else Complete(KindName(k.kind), k.id)
    ensures k.kind.IsUser? ==> !HasSuffix(k.id, TMP)
    ensures HasSuffix(FileTemp(k), TMP) <==> HasSuffix(k.id, TMP)
  {
    var kind := KindName(k.kind);
    var rest := if k.kind.IsUser? then k.id else Escape(k.id);
    FirstUnderscore(kind, rest);
    SuffixBehind(kind, rest);
    if k.kind.IsUser? {
      UidHasNoSuffix(k.id);
    } else {
      UnescapeOfEscape(k.id);
      SuffixKept(k.id, TMP);
    }
  }

  // The file under construction next to a committed one is always deleted.
  lemma UnfinishedIsDeleted(k: Key)
    ensures Classify(FileTemp(k) + TMP) == Delete
  {
    var a := FileTemp(k) + TMP;
    assert a[|a| - 4..] == TMP;
  }

  // The temp files of different records never collide.
  lemma TempNamesApart(k: Key, l: Key)
    requires ValidKey(k) && ValidKey(l)
    ensures FileTemp(k) == FileTemp(l) <==> k == l
    ensures FileTemp(k) + TMP == FileTemp(l) + TMP <==> k == l
  {
    var a, b := FileTemp(k), FileTemp(l);
    assert (a + TMP)[..|a|] == a && (b + TMP)[..|b|] == b;
    FirstUnderscore(KindName(k.kind), if k.kind.IsUser? then k.id else Escape(k.id));
    FirstUnderscore(KindName(l.kind), if l.kind.IsUser? then l.id else Escape(l.id));
    if k.kind.IsGroup? && l.kind.IsGroup? {
      UnescapeOfEscape(k.id);
      UnescapeOfEscape(l.id);
    }
  }

  // A committed file never has the name of an unfinished one, unless its id ends in ".tmp".
  lemma CommittedIsNotUnfinished(k: Key, l: Key)
    requires ValidKey(k) && !HasSuffix(k.id, TMP)
    ensures FileTemp(k) != FileTemp(l) + TMP
  {
    CommittedIsCompleted(k);
    UnfinishedIsDeleted(l);
  }

  // ---- queue ids and queue directories ----

  // A node's queue id: the user's id and the node's number, a byte, in hex.
  function Qid(uid: string, num: int): (q: string)
    ensures |q| == |uid| + 3
  {
    uid + "." + [HexDigit(num / 16 % 16), HexDigit(num % 16)]
  }

  function Lower(s: string): (r: string)
    ensures |r| == |s|
  {
    seq(|s|, i requires 0 <= i < |s| => if 'A' <= s[i] <= 'Z' then (s[i] as int + 32) as char else s[i])
  }

  // The directory of a queue below the store's root.
  function NodeSub(q: string): string
    requires |q| >= 4
  {
    Lower(q[..4]) + "/" + Lower(q)
  }

  const ALPHABET := "%+123456789BCDFGHJKLMNPQRSTVWXYZ"

  // Ids made by the server: base 32 of a hash.
  predicate ServerUid(uid: string) {
    |uid| == 32 && forall c :: c in uid ==> c in ALPHABET
  }

  lemma AlphabetIsUpper(c: char)
    requires c in ALPHABET
    ensures !('a' <= c <= 'z') && c != '.' && c != '_'
  {
  }

  lemma ServerUidIsValid(uid: string)
    requires ServerUid(uid)
    ensures ValidUid(uid)
  {
  }

  lemma HexApart(m: int, n: int)
    requires 0 <= m < 256 && 0 <= n < 256
    requires HexDigit(m / 16 % 16) == HexDigit(n / 16 % 16) && HexDigit(m % 16) == HexDigit(n % 16)
    ensures m == n
  {
  }

  // Different nodes have different queue ids, whatever their users' ids are.
  lemma QidsApart(u: string, m: int, v: string, n: int)
    requires 0 <= m < 256 && 0 <= n < 256
    ensures Qid(u, m) == Qid(v, n) <==> u == v && m == n
  {
    var p, q := Qid(u, m), Qid(v, n);
    assert p[..|u|] == u && q[..|v|] == v;
    if p == q {
      assert p[|u| + 1] == q[|u| + 1] && p[|u| + 2] == q[|u| + 2];
      HexApart(m, n);
    }
  }

  // Nor does folding to lower case make the directories of two of them the same.
  lemma DirectoriesApart(u: string, m: int, v: string, n: int)
    requires ServerUid(u) && ServerUid(v) && 0 <= m < 256 && 0 <= n < 256
    ensures NodeSub(Qid(u, m)) == NodeSub(Qid(v, n)) <==> u == v && m == n
  {
    var p, q := Qid(u, m), Qid(v, n);
    if NodeSub(p) == NodeSub(q) {
      assert NodeSub(p)[5..] == Lower(p) && NodeSub(q)[5..] == Lower(q);
      forall i | 0 <= i < 32 ensures u[i] == v[i] {
        assert Lower(p)[i] == Lower(q)[i] && p[i] == u[i] && q[i] == v[i];
        AlphabetIsUpper(u[i]);
        AlphabetIsUpper(v[i]);
      }
      assert u == v;
      assert Lower(p)[33] == Lower(q)[33] && Lower(p)[34] == Lower(q)[34];
      HexApart(m, n);
    }
  }
}
