/** The text encodings of the Redis backend, and that each decoder undoes its encoder. */
module Encodings {
  import opened Model

  /** The unit separator, code 31. */
  const SEP: char := '\U{1F}'

  /** What validateID and validateBusinessKey let through: no ASCII control character. */
  predicate ValidName(s: string) {
    forall i :: 0 <= i < |s| ==> ' ' <= s[i] && s[i] != '\U{7F}'
  }

  method ValidateId(id: string) returns (ok: bool)
    ensures ok <==> ValidName(id)
    ensures ok <==> forall i :: 0 <= i < |id| ==> 32 <= id[i] as int && id[i] as int != 127
  {
    for i := 0 to |id|
      invariant forall j :: 0 <= j < i ==> ' ' <= id[j] && id[j] != '\U{7F}'
    {
      if id[i] < ' ' || id[i] == '\U{7F}' {
        return false;
      }
    }
    ok := true;
  }

  /** The bytes of a text in UTF-8, which is what the length limit counts. */
  function ByteLen(s: string): nat {
    if s == "" then 0
    else
      var c := s[0] as int;
      (if c < 0x80 then 1 else if c < 0x800 then 2 else if c < 0x10000 then 3 else 4) + ByteLen(s[1..])
  }

  /** The bytes of a concatenation add up; every character takes one to four, and one exactly when it is ASCII. */
  lemma {:induction false} ByteLenAppend(a: string, b: string)
    ensures ByteLen(a + b) == ByteLen(a) + ByteLen(b)
  {
    if a == "" {
      assert a + b == b;
    } else {
      ByteLenAppend(a[1..], b);
      assert (a + b)[1..] == a[1..] + b;
    }
  }

  lemma {:induction false} ByteLenBounds(s: string)
    ensures |s| <= ByteLen(s) <= 4 * |s|
    ensures ByteLen(s) == |s| <==> forall i :: 0 <= i < |s| ==> s[i] as int < 128
  {
    if s != "" {
      ByteLenBounds(s[1..]);
      assert s == [s[0]] + s[1..];
      assert (forall i :: 0 <= i < |s| ==> s[i] as int < 128)
             <==> s[0] as int < 128 && forall i :: 0 <= i < |s[1..]| ==> s[1..][i] as int < 128;
    }
  }

  /** No key at all, or at most 512 bytes without a control character. */
  predicate CleanKey(key: string) {
    key == "" || (ByteLen(key) <= 512 && ValidName(key))
  }

  method ValidateBusinessKey(key: string) returns (ok: bool)
    ensures ok <==> CleanKey(key)
    ensures ok <==> key == ""
                    || (ByteLen(key) <= 512
                        && forall i :: 0 <= i < |key| ==> 32 <= key[i] as int && key[i] as int != 127)
  {
    if key == "" { return true; }
    if ByteLen(key) > 512 { return false; }
    ok := ValidateId(key);
  }

  lemma ValidHasNoSep(s: string)
    requires ValidName(s)
    ensures SEP !in s
  {}

  // ---- searching ----

  /** Position of the first c, or the length. */
  function First(s: string, c: char): (n: nat)
    ensures n <= |s| && c !in s[..n] && (n < |s| ==> s[n] == c)
  {
    if s == [] || s[0] == c then 0
    else
      var n := First(s[1..], c);
      assert s[..n + 1] == [s[0]] + s[1..][..n];
      n + 1
  }

  lemma {:induction false} FirstAt(a: string, c: char, b: string)
    requires c !in a
    ensures First(a + [c] + b, c) == |a|
  {
    if a != [] {
      assert (a + [c] + b)[1..] == a[1..] + [c] + b;
      FirstAt(a[1..], c, b);
    }
  }

  /** Position after the last c; 0 when there is none. */
  function AfterLast(s: string, c: char): (n: nat)
    ensures n <= |s| && c !in s[n..] && (n > 0 ==> s[n - 1] == c)
  {
    if s == [] then 0
    else if s[|s| - 1] == c then |s|
    else
      var n := AfterLast(s[..|s| - 1], c);
      assert s[n..] == s[..|s| - 1][n..] + [s[|s| - 1]];
      n
  }

  lemma {:induction false} AfterLastAt(a: string, c: char, b: string)
    requires c !in b
    ensures AfterLast(a + [c] + b, c) == |a| + 1
  {
    if b != [] {
      var s := a + [c] + b;
      assert s[..|s| - 1] == a + [c] + b[..|b| - 1];
      AfterLastAt(a, c, b[..|b| - 1]);
    }
  }

  // ---- the parents field ----

  function Join(ids: seq<string>): string {
    if |ids| == 0 then "" else if |ids| == 1 then ids[0] else ids[0] + [SEP] + Join(ids[1..])
  }

  /** The maximal runs without a separator, as the repair script splits them. */
  function Pieces(s: string): seq<string>
    decreases |s|
  {
    if s == [] then []
    else if s[0] == SEP then Pieces(s[1..])
    else var n := First(s, SEP); [s[..n]] + Pieces(s[n..])
  }

  predicate Joinable(ids: seq<string>) {
    forall i :: 0 <= i < |ids| ==> ids[i] != "" && SEP !in ids[i]
  }

  lemma LastPiece(a: string)
    requires a != "" && SEP !in a
    ensures Pieces(a) == [a]
  {
    var n := First(a, SEP);
    assert n == |a| && a[..n] == a && a[n..] == [];
  }

  lemma FirstPiece(a: string, rest: string)
    requires a != "" && SEP !in a
    ensures Pieces(a + [SEP] + rest) == [a] + Pieces(rest)
  {
    var s, n := a + [SEP] + rest, |a|;
    FirstAt(a, SEP, rest);
    hide First;
    assert s[0] == a[0];
    assert s[..n] == a;
    assert s[n..] == [SEP] + rest;
    assert s[n..][1..] == rest;
  }

  /** The parents written by enqueue are the parents read by the repair pass. */
  lemma {:induction false} ParentsRoundTrip(ids: seq<string>)
    requires Joinable(ids)
    ensures Pieces(Join(ids)) == ids
  {
    hide Pieces;
    if |ids| == 0 {
      NoPieces();
    } else if |ids| == 1 {
      LastPiece(ids[0]);
    } else {
      ParentsRoundTrip(ids[1..]);
      FirstPiece(ids[0], Join(ids[1..]));
    }
  }

  lemma NoPieces()
    ensures Pieces("") == []
  {}

  // ---- the stats field ----

  function StatusName(s: Status): string {
    match s
    case Blocked => "blocked"
    case Pending => "pending"
    case Running => "running"
    case Retrying => "retrying"
    case Completed => "completed"
    case Failed => "failed"
    case Canceled => "canceled"
  }

  function Field(typ: string, s: Status): string {
    typ + ":" + StatusName(s)
  }

  lemma NoColon(s: Status)
    ensures ':' !in StatusName(s)
  {}

  lemma NamesDiffer(a: Status, b: Status)
    requires StatusName(a) == StatusName(b)
    ensures a == b
  {
    assert |StatusName(a)| == |StatusName(b)|;
    assert StatusName(a)[0] == StatusName(b)[0];
    assert StatusName(a)[|StatusName(a)| - 1] == StatusName(b)[|StatusName(b)| - 1];
  }

  /** Splitting a stats field at its last colon gives back the type, even one with colons, and the status. */
  lemma FieldRoundTrip(typ: string, s: Status)
    ensures var f := Field(typ, s); var n := AfterLast(f, ':');
            n > 0 && f[..n - 1] == typ && f[n..] == StatusName(s)
  {
    NoColon(s);
    AfterLastAt(typ, ':', StatusName(s));
  }

  lemma FieldInjective(t1: string, s1: Status, t2: string, s2: Status)
    requires Field(t1, s1) == Field(t2, s2)
    ensures t1 == t2 && s1 == s2
  {
    FieldRoundTrip(t1, s1);
    FieldRoundTrip(t2, s2);
    NamesDiffer(s1, s2);
  }

  // ---- the key-exists error ----

  datatype Decoded = KeyExists(key: string, tail: string, status: string) | Other

  /** Position of the first occurrence of pat, or -1. */
  function Index(s: string, pat: string): int {
    if |s| < |pat| then -1
    else if s[..|pat|] == pat then 0
    else if s == [] then -1
    else var n := Index(s[1..], pat); if n < 0 then -1 else n + 1
  }

  const Marker := "TGERR:"

  /** The three parts of a key-exists detail. */
  function DecodeDetail(detail: string): Decoded {
    var a := First(detail, SEP);
    if a == |detail| then Other
    else
      var more := detail[a + 1..];
      var b := First(more, SEP);
      if b == |more| then Other else KeyExists(detail[..a], more[..b], more[b + 1..])
  }

  /** The code up to the first colon, then the detail. */
  function DecodeRest(rest: string): Decoded {
    var j := First(rest, ':');
    if j == |rest| || rest[..j] != "bk_exists" then Other else DecodeDetail(rest[j + 1..])
  }

  /** mapLuaErr as far as the key-exists branch goes. */
  function DecodeError(msg: string): Decoded {
    var i := Index(msg, Marker);
    if i < 0 || i + 6 > |msg| then Other else DecodeRest(msg[i + 6..])
  }

  function EncodeKeyExists(key: string, tail: string, status: string): string {
    "TGERR:bk_exists:" + key + [SEP] + tail + [SEP] + status
  }

  /** The marker cannot begin inside text that does not contain it. */
  lemma {:induction false} IndexAfter(prefix: string, s: string)
    requires Index(prefix, Marker) < 0 && |s| >= 6 && s[..6] == Marker
    ensures Index(prefix + s, Marker) == |prefix|
  {
    var m := prefix + s;
    if prefix == [] {
      assert m == s;
    } else {
      var n := |prefix|;
      if n >= 6 {
        assert m[..6] == prefix[..6];
      } else {
        assert m[..6][n] == s[..6][0] == 'T' && Marker[n] != 'T';
      }
      assert m[1..] == prefix[1..] + s;
      IndexAfter(prefix[1..], s);
    }
  }

  lemma DetailRoundTrip(key: string, tail: string, status: string)
    requires SEP !in key && SEP !in tail
    ensures DecodeDetail(key + [SEP] + tail + [SEP] + status) == KeyExists(key, tail, status)
  {
    var more := tail + [SEP] + status;
    var detail := key + [SEP] + more;
    assert key + [SEP] + tail + [SEP] + status == detail;
    FirstAt(key, SEP, more);
    assert detail[..|key|] == key && detail[|key| + 1..] == more;
    FirstAt(tail, SEP, status);
    assert more[..|tail|] == tail && more[|tail| + 1..] == status;
  }

  /** The key, the tail and its status come back, whatever text without the marker stands in front. */
  lemma KeyExistsRoundTrip(prefix: string, key: string, tail: string, status: string)
    requires Index(prefix, Marker) < 0 && SEP !in key && SEP !in tail
    ensures DecodeError(prefix + EncodeKeyExists(key, tail, status)) == KeyExists(key, tail, status)
  {
    hide DecodeDetail, DecodeRest, First, Index;
    var body := EncodeKeyExists(key, tail, status);
    var detail := key + [SEP] + tail + [SEP] + status;
    var rest := "bk_exists:" + detail;
    assert body == Marker + rest;
    IndexAfter(prefix, body);
    assert (prefix + body)[|prefix| + 6..] == rest;
    CodeRoundTrip(detail);
    DetailRoundTrip(key, tail, status);
  }

  lemma CodeRoundTrip(detail: string)
    ensures DecodeRest("bk_exists:" + detail) == DecodeDetail(detail)
  {
    hide DecodeDetail;
    var code, rest := "bk_exists", "bk_exists:" + detail;
    assert rest == code + [':'] + detail;
    FirstAt(code, ':', detail);
    assert rest[..|code|] == code && rest[|code| + 1..] == detail;
  }
}
