// A record format that meets every law the ledger's proofs rest on: a marker, then
// each field as its length and its characters, all shifted away from whitespace. It
// shows intact ledgers that verify reports and intact ledgers that refuse every append.
module LedgerFormat {
  import opened Wrappers
  import opened SplitLines
  import opened Evidence

  const MARK := 99
  const SHIFT := 100

  function Chars(s: string): (b: Bytes)
    ensures |b| == |s| && forall i :: 0 <= i < |b| ==> b[i] == s[i] as int + SHIFT
  {
    if s == [] then [] else [s[0] as int + SHIFT] + Chars(s[1..])
  }

  // Nothing below the shift, so neither the marker nor whitespace.
  predicate High(b: Bytes) { forall i :: 0 <= i < |b| ==> b[i] >= SHIFT }

  function Field(s: string): (b: Bytes)
    ensures b != [] && High(b)
  {
    [|s| + SHIFT] + Chars(s)
  }

  function Maybe(o: Option<string>): (b: Bytes)
    ensures b != [] && High(b)
  {
    match o
    case None => [SHIFT]
    case Some(s) => [SHIFT + 1] + Field(s)
  }

  lemma FieldSplits(s: string, t: string, x: Bytes, y: Bytes)
    requires Field(s) + x == Field(t) + y
    ensures s == t && x == y
  {
    var l, r := Field(s) + x, Field(t) + y;
    assert l[0] == |s| + SHIFT && r[0] == |t| + SHIFT;
    forall i | 0 <= i < |s| ensures s[i] == t[i] {
      assert l[i + 1] == Chars(s)[i] && r[i + 1] == Chars(t)[i];
    }
    assert x == l[|s| + 1..] && y == r[|t| + 1..];
  }

  lemma HeadSplits(h: int, p: Bytes, x: Bytes)
    ensures (([h] + p) + x)[0] == h && (([h] + p) + x)[1..] == p + x
  {
  }

  lemma MaybeSplits(s: Option<string>, t: Option<string>, x: Bytes, y: Bytes)
    requires Maybe(s) + x == Maybe(t) + y
    ensures s == t && x == y
  {
    var p, q := (if s.Some? then Field(s.value) else []), (if t.Some? then Field(t.value) else []);
    var g, h := (if s.Some? then SHIFT + 1 else SHIFT), (if t.Some? then SHIFT + 1 else SHIFT);
    assert Maybe(s) == [g] + p && Maybe(t) == [h] + q;
    hide Field, Maybe, High;
    HeadSplits(g, p, x);
    HeadSplits(h, q, y);
    if s.Some? {
      FieldSplits(s.value, t.value, x, y);
    } else {
      assert p + x == x && q + y == y;
    }
  }

  function Fields(ss: seq<string>): (b: Bytes)
    ensures High(b) && (ss != [] ==> b != [])
  {
    if ss == [] then [] else Field(ss[0]) + Fields(ss[1..])
  }

  lemma {:induction false} FieldsSplit(ss: seq<string>, ts: seq<string>, x: Bytes, y: Bytes)
    requires |ss| == |ts| && Fields(ss) + x == Fields(ts) + y
    ensures ss == ts && x == y
  {
    hide Field, High;
    if ss == [] {
      assert Fields(ss) + x == x && Fields(ts) + y == y;
    } else {
      assert Field(ss[0]) + (Fields(ss[1..]) + x) == Fields(ss) + x;
      assert Field(ts[0]) + (Fields(ts[1..]) + y) == Fields(ts) + y;
      FieldSplits(ss[0], ts[0], Fields(ss[1..]) + x, Fields(ts[1..]) + y);
      FieldsSplit(ss[1..], ts[1..], x, y);
      assert ss == [ss[0]] + ss[1..] && ts == [ts[0]] + ts[1..];
    }
  }

  function Parts(b: Body): seq<string> { [b.recordId, b.createdAt, b.recordType, b.subjectId, b.payload, b.previousHash] }

  function Text(b: Body): (t: Bytes)
    ensures t != [] && High(t)
  {
    Fields(Parts(b))
  }

  lemma PartsDetermine(a: Body, b: Body)
    requires Parts(a) == Parts(b)
    ensures a == b
  {
    assert Parts(a)[0] == Parts(b)[0] && Parts(a)[1] == Parts(b)[1] && Parts(a)[2] == Parts(b)[2];
    assert Parts(a)[3] == Parts(b)[3] && Parts(a)[4] == Parts(b)[4] && Parts(a)[5] == Parts(b)[5];
  }

  lemma TextSplits(a: Body, b: Body, x: Bytes, y: Bytes)
    requires Text(a) + x == Text(b) + y
    ensures a == b && x == y
  {
    hide Fields;
    FieldsSplit(Parts(a), Parts(b), x, y);
    PartsDetermine(a, b);
  }

  // The fields after the body.
  function Rest(r: Record): (b: Bytes)
    ensures High(b)
  {
    Field(r.recordHash) + (Maybe(r.signature) + Maybe(r.keyId))
  }

  function Line(r: Record): (t: Bytes)
    ensures |t| > 1 && t[0] == MARK && High(t[1..])
  {
    var rest := Text(r.body) + Rest(r);
    assert ([MARK] + rest)[1..] == rest;
    [MARK] + rest
  }

  lemma LineDetermines(r: Record, s: Record)
    requires Line(r) == Line(s)
    ensures r == s
  {
    assert Text(r.body) + Rest(r) == Line(r)[1..] == Line(s)[1..] == Text(s.body) + Rest(s);
    hide Field, Text, Maybe, Line, High;
    TextSplits(r.body, s.body, Rest(r), Rest(s));
    FieldSplits(r.recordHash, s.recordHash, Maybe(r.signature) + Maybe(r.keyId), Maybe(s.signature) + Maybe(s.keyId));
    MaybeSplits(r.signature, s.signature, Maybe(r.keyId), Maybe(s.keyId));
    assert Maybe(r.keyId) + [] == Maybe(s.keyId) + [];
    MaybeSplits(r.keyId, s.keyId, [], []);
  }

  // No tail of a line is a line.
  lemma TailIsNoLine(r: Record, k: nat, s: Record)
    requires 0 < k <= |Line(r)|
    ensures Line(r)[k..] != Line(s)
  {
    var t := Line(r)[k..];
    hide Line;
    if t != [] { assert t[0] == Line(r)[1..][k - 1]; }
  }

  ghost function Parse(t: Bytes): (r: Option<Record>)
    ensures r.Some? ==> Line(r.value) == t
    ensures r.None? ==> forall s :: Line(s) != t
  {
    if r :| Line(r) == t then Some(r) else None
  }

  // No proper start of a line is a line.
  lemma StartIsNoLine(r: Record, k: nat, s: Record)
    requires k < |Line(r)|
    ensures Line(r)[..k] != Line(s)
  {
    if Line(r)[..k] == Line(s) { LineIsNoStart(s, r, Line(r)[k..]); }
  }

  lemma LineIsNoStart(s: Record, r: Record, z: Bytes)
    requires Line(r) == Line(s) + z
    ensures z == []
  {
    hide Text, Rest;
    assert Line(r)[1..] == Text(r.body) + Rest(r);
    assert (Line(s) + z)[1..] == Line(s)[1..] + z == (Text(s.body) + Rest(s)) + z == Text(s.body) + (Rest(s) + z);
    TextSplits(r.body, s.body, Rest(r), Rest(s) + z);
    RestSplits(r, s, z);
  }

  lemma RestSplits(r: Record, s: Record, z: Bytes)
    requires Rest(r) == Rest(s) + z
    ensures z == []
  {
    hide Field, Maybe;
    assert Rest(s) + z == Field(s.recordHash) + (Maybe(s.signature) + (Maybe(s.keyId) + z));
    FieldSplits(r.recordHash, s.recordHash, Maybe(r.signature) + Maybe(r.keyId), Maybe(s.signature) + (Maybe(s.keyId) + z));
    MaybeSplits(r.signature, s.signature, Maybe(r.keyId), Maybe(s.keyId) + z);
    assert Maybe(r.keyId) + [] == Maybe(r.keyId);
    MaybeSplits(r.keyId, s.keyId, [], z);
  }

  ghost function Plain(sha: Bytes -> Digest): Format { Format(b => Text(b), r => Line(r), t => Parse(t), sha) }

  // With any hash, this format is lawful.
  lemma LawfulFormat(sha: Bytes -> Digest)
    ensures Lawful(Plain(sha))
  {
    hide Text, Line, Parse;
    forall a, b | Text(a) == Text(b) ensures a == b {
      assert Text(a) + [] == Text(a) && Text(b) + [] == Text(b);
      TextSplits(a, b, [], []);
    }
    forall r ensures Parse(Line(r)) == Some(r) {
      assert Parse(Line(r)).Some?;
      LineDetermines(r, Parse(Line(r)).value);
    }
    forall r, b | b in Line(r) ensures b >= 32 { HighAfterMark(Line(r), b); }
    forall r ensures Line(r) != [] && !IsBlankByte(Line(r)[|Line(r)| - 1]) {
      assert Line(r)[|Line(r)| - 1] == Line(r)[1..][|Line(r)| - 2];
    }
    forall r, k | 0 < k <= |Line(r)| ensures Parse(Line(r)[k..]) == None {
      forall s ensures Line(r)[k..] != Line(s) { TailIsNoLine(r, k, s); }
    }
    forall r, k | 0 <= k < |Line(r)| ensures Parse(Line(r)[..k]) == None {
      forall s ensures Line(r)[..k] != Line(s) { StartIsNoLine(r, k, s); }
    }
  }

  lemma HighAfterMark(line: Bytes, b: int)
    requires line != [] && line[0] == MARK && High(line[1..]) && b in line
    ensures b >= 32
  {
    var i :| 0 <= i < |line| && line[i] == b;
    if i > 0 { assert line[1..][i - 1] == b; }
  }

  lemma LawsCanBeMet()
    ensures exists f :: Lawful(f)
  {
    LawfulFormat(_ => ZeroHash());
  }

  // ---------- Two intact ledgers in trouble ----------

  // The record the ledger would write next, with nothing but a payload.
  ghost function Next(sha: Bytes -> Digest, rs: seq<Record>, payload: string): Record {
    var body := Body("", "", "", "", payload, FinalHash(rs, ZeroHash()));
    Record(body, sha(Text(body)), None, None)
  }

  lemma NextIsLinked(sha: Bytes -> Digest, k: Keys, rs: seq<Record>, payload: string)
    requires ChainOk(Plain(sha), k, rs)
    ensures ChainOk(Plain(sha), k, rs + [Next(sha, rs, payload)])
  {
    hide Text, ChainFrom, ZeroHash, FinalHash;
    ChainSplitsLast(Plain(sha), k, rs, Next(sha, rs, payload), ZeroHash());
  }

  // The payload stands in the line as it is.
  lemma PayloadInLine(r: Record) returns (p: Bytes, s: Bytes)
    ensures Line(r) == p + Chars(r.body.payload) + s
  {
    hide Field, Chars, Rest;
    var b := r.body;
    var head := [b.recordId, b.createdAt, b.recordType, b.subjectId];
    assert Parts(b) == head + ([b.payload] + [b.previousHash]);
    FieldsJoin(head, [b.payload] + [b.previousHash]);
    var after := Fields([b.previousHash]);
    FieldsFirst(b.payload, [b.previousHash]);
    p, s := [MARK] + Fields(head) + [|b.payload| + SHIFT], after + Rest(r);
    hide Fields, Parts;
    assert Text(b) == Fields(head) + ([|b.payload| + SHIFT] + Chars(b.payload) + after);
  }

  lemma FieldsFirst(first: string, rest: seq<string>)
    ensures Fields([first] + rest) == [|first| + SHIFT] + Chars(first) + Fields(rest)
  {
    hide Chars;
    assert ([first] + rest)[1..] == rest;
  }

  lemma {:induction false} FieldsJoin(ss: seq<string>, ts: seq<string>)
    ensures Fields(ss + ts) == Fields(ss) + Fields(ts)
  {
    hide Field;
    if ss == [] {
      assert ss + ts == ts;
    } else {
      assert (ss + ts)[1..] == ss[1..] + ts;
      FieldsJoin(ss[1..], ts);
    }
  }

  // Every intact ledger has an intact extension that refuses all further appends: one more
  // record whose payload is as long as a chunk.
  lemma LongRecordWedges(sha: Bytes -> Digest, k: Keys, rs: seq<Record>, payload: string)
    requires ChainOk(Plain(sha), k, rs) && |payload| >= 4096
    ensures var all := rs + [Next(sha, rs, payload)];
            ChainOk(Plain(sha), k, all) && !Fits(Plain(sha), all)
            && LastHashFrom(Plain(sha), Render(Plain(sha), all), |Render(Plain(sha), all)|).Err?
  {
    var r := Next(sha, rs, payload);
    var p, s := PayloadInLine(r);
    NextIsLinked(sha, k, rs, payload);
    LawfulFormat(sha);
    hide Text, Line, Parse, ChainFrom, Lawful, Render, LastHashFrom, Next, Chars;
    LastHashExact(Plain(sha), rs + [r]);
  }

  // This format writes the two characters as the two bytes of U+0085.
  lemma BreakInLine(r: Record, before: string, after: string)
    requires r.body.payload == before + "^!" + after
    ensures !Unbroken(Line(r))
  {
    hide Line, Chars, Unbroken;
    var p, s := PayloadInLine(r);
    var mark := CharsBreak(before, after);
    Breaks(p + Chars(before), mark, Chars(after) + s);
    assert Line(r) == (p + Chars(before)) + mark + (Chars(after) + s);
  }

  lemma LastBroken(f: Format, rs: seq<Record>, r: Record)
    requires !Unbroken(f.dump(r))
    ensures !AllUnbroken(f, rs + [r])
  {
    hide Unbroken;
    assert (rs + [r])[|rs|] == r;
  }

  // Every intact ledger has an intact extension that verify reports: one more record with a
  // payload that is written with a line break of splitlines.
  lemma BreakIsReported(sha: Bytes -> Digest, k: Keys, rs: seq<Record>, before: string, after: string)
    requires ChainOk(Plain(sha), k, rs)
    ensures var all := rs + [Next(sha, rs, before + "^!" + after)];
            ChainOk(Plain(sha), k, all) && !Clean(Plain(sha), k, Render(Plain(sha), all))
  {
    var r := Next(sha, rs, before + "^!" + after);
    BreakInLine(r, before, after);
    LastBroken(Plain(sha), rs, r);
    NextIsLinked(sha, k, rs, before + "^!" + after);
    LawfulFormat(sha);
    hide Text, Line, Parse, ChainFrom, Lawful, Render, Clean, Next, AllUnbroken, Unbroken, Plain;
    VerifyExact(Plain(sha), k, rs + [r]);
  }

  lemma CharsBreak(before: string, after: string) returns (mark: Bytes)
    ensures IsBreak(mark) && Chars(before + "^!" + after) == Chars(before) + mark + Chars(after)
  {
    mark := [0xC2, 0x85];
  }
}
