// The append-only evidence ledger: newline-terminated records, each carrying the
// hash of the one before, and a reader that finds the last hash from the end.
module Evidence {
  import opened Wrappers
  import opened SplitLines

  type Digest = string

  const CHUNK := 4096

  // Sixty-four zeros: the hash before the first record.
  function ZeroHash(): Digest { seq(64, _ => '0') }

  datatype Body = Body(recordId: string, createdAt: string, recordType: string, subjectId: string,
                       payload: string, previousHash: Digest)

  datatype Record = Record(body: Body, recordHash: Digest, signature: Option<string>, keyId: Option<string>) {
    // A missing and an empty signature are both left unchecked.
    predicate IsSigned() { signature.Some? && signature.value != "" }
  }

  // Serialisation and hashing, as functions the ledger is handed.
  datatype Format = Format(canonical: Body -> Bytes, dump: Record -> Bytes, parse: Bytes -> Option<Record>, sha: Bytes -> Digest)

  datatype Keys = Keys(sign: Option<Digest -> string>, keyId: string, check: Option<(string, Digest) -> bool>)

  predicate IsBlankByte(b: int) { b == 32 || 9 <= b <= 13 }

  // Nothing but whitespace.
  predicate IsBlank(line: Bytes) { forall i :: 0 <= i < |line| ==> IsBlankByte(line[i]) }

  // What JSON gives: canonical text determines the body, parsing inverts dumping, control
  // characters are escaped, a dump ends in a brace, and no proper part from either end parses.
  ghost predicate Lawful(f: Format) {
    && (forall a, b :: f.canonical(a) == f.canonical(b) ==> a == b)
    && (forall r :: f.parse(f.dump(r)) == Some(r))
    && (forall r, b :: b in f.dump(r) ==> b >= 32)
    && (forall r :: f.dump(r) != [] && !IsBlankByte(f.dump(r)[|f.dump(r)| - 1]))
    && (forall r, k :: 0 < k <= |f.dump(r)| ==> f.parse(f.dump(r)[k..]) == None)
    && (forall r, k :: 0 <= k < |f.dump(r)| ==> f.parse(f.dump(r)[..k]) == None)
  }

  // A private key comes with a public key that accepts its signatures.
  ghost predicate KeysMatch(k: Keys) {
    k.sign.Some? ==> k.check.Some? && forall d :: k.check.value(k.sign.value(d), d)
  }

  // ---------- Pieces between newlines ----------

  // The bytes before the first newline, or all of them.
  function FirstLine(text: Bytes): (line: Bytes)
    ensures |line| <= |text| && line == text[..|line|] && NEWLINE !in line
    ensures |line| < |text| ==> text[|line|] == NEWLINE
  {
    if text == [] || text[0] == NEWLINE then [] else [text[0]] + FirstLine(text[1..])
  }

  // The pieces between newlines, without an empty piece after the last one.
  function Lines(text: Bytes): (r: seq<Bytes>)
    decreases |text|
  {
    if text == [] then [] else
      var line := FirstLine(text);
      [line] + (if |line| < |text| then Lines(text[|line| + 1..]) else [])
  }

  function NonBlank(lines: seq<Bytes>): seq<Bytes> {
    if lines == [] then []
    else if IsBlank(lines[0]) then NonBlank(lines[1..])
    else [lines[0]] + NonBlank(lines[1..])
  }

  lemma {:induction false} FirstLineOf(line: Bytes, rest: Bytes)
    requires NEWLINE !in line
    ensures FirstLine(line + [NEWLINE] + rest) == line
  {
    var text := line + [NEWLINE] + rest;
    if line == [] {
      assert text[0] == NEWLINE;
    } else {
      assert text[1..] == line[1..] + [NEWLINE] + rest;
      assert line == [line[0]] + line[1..];
      FirstLineOf(line[1..], rest);
    }
  }

  lemma LinesCons(line: Bytes, rest: Bytes)
    requires NEWLINE !in line
    ensures Lines(line + [NEWLINE] + rest) == [line] + Lines(rest)
  {
    FirstLineOf(line, rest);
    var text := line + [NEWLINE] + rest;
    assert text[|line| + 1..] == rest;
  }

  // Splitting a newline-terminated text after its first line.
  lemma SplitFirst(text: Bytes) returns (first: Bytes, rest: Bytes)
    requires text != [] && text[|text| - 1] == NEWLINE
    ensures NEWLINE !in first && text == first + [NEWLINE] + rest
    ensures rest == [] || rest[|rest| - 1] == NEWLINE
  {
    first := FirstLine(text);
    assert |first| < |text| by { assert NEWLINE in text; }
    rest := text[|first| + 1..];
  }

  lemma Regroup(first: Bytes, rest: Bytes, line: Bytes)
    ensures (first + [NEWLINE] + rest) + line + [NEWLINE] == first + [NEWLINE] + (rest + line + [NEWLINE])
  {
  }

  // A final line is the last piece when what comes before it ends in a newline.
  lemma {:induction false} LinesLast(before: Bytes, line: Bytes)
    requires before == [] || before[|before| - 1] == NEWLINE
    requires NEWLINE !in line
    ensures Lines(before + line + [NEWLINE]) == Lines(before) + [line]
    decreases |before|
  {
    if before == [] {
      assert before + line + [NEWLINE] == line + [NEWLINE] + [];
      LinesCons(line, []);
    } else {
      hide Lines;
      var first, rest := SplitFirst(before);
      LinesCons(first, rest);
      LinesLast(rest, line);
      LinesCons(first, rest + line + [NEWLINE]);
      Regroup(first, rest, line);
    }
  }

  lemma {:induction false} NonBlankLast(lines: seq<Bytes>, line: Bytes)
    requires !IsBlank(line)
    ensures NonBlank(lines + [line]) == NonBlank(lines) + [line]
  {
    if lines == [] {
      assert lines + [line] == [line];
    } else {
      assert (lines + [line])[1..] == lines[1..] + [line];
      NonBlankLast(lines[1..], line);
    }
  }

  // ---------- The file as a list of records ----------

  function Render(f: Format, rs: seq<Record>): Bytes {
    if rs == [] then [] else Render(f, rs[..|rs| - 1]) + f.dump(rs[|rs| - 1]) + [NEWLINE]
  }

  lemma DumpLaws(f: Format, r: Record)
    requires Lawful(f)
    ensures f.parse(f.dump(r)) == Some(r) && NEWLINE !in f.dump(r)
    ensures f.dump(r) != [] && !IsBlankByte(f.dump(r)[|f.dump(r)| - 1])
  {
  }

  lemma PrefixLaw(f: Format, r: Record, k: nat)
    requires Lawful(f) && k < |f.dump(r)|
    ensures f.parse(f.dump(r)[..k]) == None
  {
  }

  lemma TailLaw(f: Format, r: Record, k: nat)
    requires Lawful(f) && 0 < k <= |f.dump(r)|
    ensures f.parse(f.dump(r)[k..]) == None
  {
  }

  lemma RenderEndsInNewline(f: Format, rs: seq<Record>)
    ensures Render(f, rs) == [] || Render(f, rs)[|Render(f, rs)| - 1] == NEWLINE
  {
  }

  lemma RenderLast(f: Format, front: seq<Record>, last: Record)
    ensures Render(f, front + [last]) == Render(f, front) + f.dump(last) + [NEWLINE]
  {
    assert (front + [last])[..|front|] == front;
  }

  lemma {:induction false} RenderFirst(f: Format, first: Record, rest: seq<Record>)
    ensures Render(f, [first] + rest) == f.dump(first) + [NEWLINE] + Render(f, rest)
    decreases |rest|
  {
    var all := [first] + rest;
    if rest == [] {
      assert all == [] + [first];
      RenderLast(f, [], first);
    } else {
      var front, last := rest[..|rest| - 1], rest[|rest| - 1];
      assert all == ([first] + front) + [last] && rest == front + [last];
      RenderFirst(f, first, front);
      RenderLast(f, [first] + front, last);
      RenderLast(f, front, last);
      hide Render;
      assert f.dump(first) + [NEWLINE] + Render(f, front) + f.dump(last) + [NEWLINE]
          == f.dump(first) + [NEWLINE] + (Render(f, front) + f.dump(last) + [NEWLINE]);
    }
  }

  // ---------- Finding the last hash from the end ----------

  function ChunkStart(pos: nat): nat { if pos <= CHUNK then 0 else pos - CHUNK }

  // What the backwards walk returns once it has reached pos without a line.
  function LastHashFrom(f: Format, file: Bytes, pos: nat): Result<Digest, string>
    requires pos <= |file|
    decreases pos
  {
    if pos == 0 then Ok(ZeroHash()) else
      var start := ChunkStart(pos);
      var lines := NonBlank(Lines(file[start..]));
      if lines == [] then LastHashFrom(f, file, start)
      else match f.parse(lines[|lines| - 1])
           case Some(r) => Ok(r.recordHash)
           case None => Err("invalid record")
  }

  // The last line and its newline fit in one chunk.
  predicate Fits(f: Format, rs: seq<Record>) {
    rs == [] || |f.dump(rs[|rs| - 1])| + 1 <= CHUNK
  }

  // The last piece of a chunk that reaches back to a newline, or to the file's start.
  lemma ChunkEndsInLine(before: Bytes, line: Bytes)
    requires before == [] || before[|before| - 1] == NEWLINE
    requires NEWLINE !in line && line != [] && !IsBlankByte(line[|line| - 1])
    ensures var lines := NonBlank(Lines(before + line + [NEWLINE])); lines != [] && lines[|lines| - 1] == line
  {
    LinesLast(before, line);
    NonBlankLast(Lines(before), line);
  }

  lemma FirstChunk(front: Bytes, last: Bytes)
    requires last != []
    ensures var file := front + last + [NEWLINE];
            var start := ChunkStart(|file|);
            if |last| + 1 <= CHUNK
            then start <= |front| && file[start..] == front[start..] + last + [NEWLINE]
            else |front| < start < |front| + |last| && file[start..] == [] + last[start - |front|..] + [NEWLINE]
  {
  }

  // One chunk is enough as soon as it shows a line.
  lemma OneChunk(f: Format, file: Bytes)
    requires file != [] && NonBlank(Lines(file[ChunkStart(|file|)..])) != []
    ensures var lines := NonBlank(Lines(file[ChunkStart(|file|)..]));
            LastHashFrom(f, file, |file|) == match f.parse(lines[|lines| - 1])
                                             case Some(r) => Ok(r.recordHash)
                                             case None => Err("invalid record")
  {
  }

  // A whole last line in the first chunk is the line that gets parsed.
  lemma ShortLastLine(f: Format, front: Bytes, last: Bytes)
    requires front == [] || front[|front| - 1] == NEWLINE
    requires NEWLINE !in last && last != [] && !IsBlankByte(last[|last| - 1]) && |last| + 1 <= CHUNK
    ensures var file := front + last + [NEWLINE];
            LastHashFrom(f, file, |file|) == match f.parse(last)
                                             case Some(r) => Ok(r.recordHash)
                                             case None => Err("invalid record")
  {
    hide NonBlank, Lines, IsBlankByte, LastHashFrom;
    FirstChunk(front, last);
    var file := front + last + [NEWLINE];
    ChunkEndsInLine(front[ChunkStart(|file|)..], last);
    OneChunk(f, file);
  }

  // Of a longer last line the first chunk shows a proper tail.
  lemma LongLastLine(f: Format, front: Bytes, last: Bytes)
    requires NEWLINE !in last && last != [] && !IsBlankByte(last[|last| - 1]) && |last| + 1 > CHUNK
    ensures var file := front + last + [NEWLINE];
            var k := |last| + 1 - CHUNK;
            LastHashFrom(f, file, |file|) == match f.parse(last[k..])
                                             case Some(r) => Ok(r.recordHash)
                                             case None => Err("invalid record")
  {
    hide NonBlank, Lines, IsBlankByte, LastHashFrom;
    FirstChunk(front, last);
    var file := front + last + [NEWLINE];
    var k := ChunkStart(|file|) - |front|;
    assert last[k..][|last[k..]| - 1] == last[|last| - 1];
    ChunkEndsInLine([], last[k..]);
    OneChunk(f, file);
  }

  // The walk answers the hash of the last record exactly when its line fits; the
  // tail of a longer line does not parse and raises.
  lemma LastHashExact(f: Format, rs: seq<Record>)
    requires Lawful(f)
    ensures LastHashFrom(f, Render(f, rs), |Render(f, rs)|) ==
            if rs == [] then Ok(ZeroHash())
            else if Fits(f, rs) then Ok(rs[|rs| - 1].recordHash)
            else Err("invalid record")
  {
    if rs != [] {
      hide Lawful, Render, LastHashFrom, ZeroHash;
      var before, r := rs[..|rs| - 1], rs[|rs| - 1];
      assert rs == before + [r];
      RenderLast(f, before, r);
      RenderEndsInNewline(f, before);
      LastHashAfter(f, Render(f, before), r);
    }
  }

  lemma LastHashAfter(f: Format, front: Bytes, r: Record)
    requires Lawful(f) && (front == [] || front[|front| - 1] == NEWLINE)
    ensures var file := front + f.dump(r) + [NEWLINE];
            LastHashFrom(f, file, |file|) == if |f.dump(r)| + 1 <= CHUNK then Ok(r.recordHash) else Err("invalid record")
  {
    hide Lawful, IsBlankByte, LastHashFrom;
    DumpLaws(f, r);
    if |f.dump(r)| + 1 <= CHUNK {
      ShortLastLine(f, front, f.dump(r));
    } else {
      TailLaw(f, r, |f.dump(r)| + 1 - CHUNK);
      LongLastLine(f, front, f.dump(r));
    }
  }

  // ---------- Verification ----------

  datatype Problem = InvalidRecord(line: nat) | PreviousMismatch(line: nat) | HashMismatch(line: nat)
                   | NoPublicKey(line: nat) | BadSignature(line: nat)

  // The problems of one parsed record.
  function RecordProblems(f: Format, k: Keys, r: Record, line: nat, previous: Digest): seq<Problem> {
    (if r.body.previousHash != previous then [PreviousMismatch(line)] else [])
    + (if f.sha(f.canonical(r.body)) != r.recordHash then [HashMismatch(line)] else [])
    + (if !r.IsSigned() then []
       else if k.check.None? then [NoPublicKey(line)]
       else if !k.check.value(r.signature.value, r.recordHash) then [BadSignature(line)] else [])
  }

  // A line that does not parse is reported and leaves the expected hash alone.
  function Problems(f: Format, k: Keys, lines: seq<Bytes>, line: nat, previous: Digest): seq<Problem> {
    if lines == [] then []
    else match f.parse(lines[0])
         case None => [InvalidRecord(line)] + Problems(f, k, lines[1..], line + 1, previous)
         case Some(r) => RecordProblems(f, k, r, line, previous) + Problems(f, k, lines[1..], line + 1, r.recordHash)
  }

  // A record is good after a given hash.
  ghost predicate Linked(f: Format, k: Keys, r: Record, previous: Digest) {
    && r.body.previousHash == previous && f.sha(f.canonical(r.body)) == r.recordHash
    && (r.IsSigned() ==> k.check.Some? && k.check.value(r.signature.value, r.recordHash))
  }

  // Every record is good after the hash of the one before it.
  ghost predicate ChainFrom(f: Format, k: Keys, rs: seq<Record>, previous: Digest) {
    rs == [] || (Linked(f, k, rs[0], previous) && ChainFrom(f, k, rs[1..], rs[0].recordHash))
  }

  ghost predicate ChainOk(f: Format, k: Keys, rs: seq<Record>) { ChainFrom(f, k, rs, ZeroHash()) }

  // The hash the next record has to name.
  function FinalHash(rs: seq<Record>, previous: Digest): Digest {
    if rs == [] then previous else rs[|rs| - 1].recordHash
  }

  lemma {:induction false} ChainSplitsLast(f: Format, k: Keys, front: seq<Record>, last: Record, previous: Digest)
    ensures ChainFrom(f, k, front + [last], previous)
            <==> ChainFrom(f, k, front, previous) && Linked(f, k, last, FinalHash(front, previous))
    decreases |front|
  {
    var all := front + [last];
    if front == [] {
      assert all == [last] && all[1..] == [];
    } else {
      hide Linked;
      assert all[0] == front[0] && all[1..] == front[1..] + [last];
      ChainSplitsLast(f, k, front[1..], last, front[0].recordHash);
    }
  }

  lemma NoRecordProblems(f: Format, k: Keys, r: Record, line: nat, previous: Digest)
    ensures RecordProblems(f, k, r, line, previous) == [] <==> Linked(f, k, r, previous)
  {
  }

  // No dumped line holds a break.
  ghost predicate AllUnbroken(f: Format, rs: seq<Record>) { forall i :: 0 <= i < |rs| ==> Unbroken(f.dump(rs[i])) }

  // Of a line that breaks the first piece does not parse.
  lemma BrokenLine(f: Format, k: Keys, r: Record, rest: Bytes, line: nat, previous: Digest)
    requires Lawful(f) && !Unbroken(f.dump(r))
    ensures Problems(f, k, Pieces(f.dump(r) + [NEWLINE] + rest), line, previous) != []
  {
    hide Lawful, Unbroken, Pieces, RecordProblems;
    var pieces := Pieces(f.dump(r) + [NEWLINE] + rest);
    PiecesCons(f.dump(r), rest);
    var n :| 0 <= n < |f.dump(r)| && pieces[0] == f.dump(r)[..n];
    PrefixLaw(f, r, n);
    assert Problems(f, k, pieces, line, previous)[0] == InvalidRecord(line);
  }

  lemma WholeLine(f: Format, k: Keys, r: Record, rest: Bytes, line: nat, previous: Digest)
    requires Lawful(f) && Unbroken(f.dump(r))
    ensures Problems(f, k, Pieces(f.dump(r) + [NEWLINE] + rest), line, previous) == [] <==>
            Linked(f, k, r, previous) && Problems(f, k, Pieces(rest), line + 1, r.recordHash) == []
  {
    hide Lawful, Unbroken, Pieces, RecordProblems, Linked;
    PiecesCons(f.dump(r), rest);
    DumpLaws(f, r);
    NoRecordProblems(f, k, r, line, previous);
    var pieces := [f.dump(r)] + Pieces(rest);
    assert pieces[0] == f.dump(r) && pieces[1..] == Pieces(rest);
  }

  lemma FirstUnbroken(f: Format, first: Record, rest: seq<Record>)
    ensures AllUnbroken(f, [first] + rest) <==> Unbroken(f.dump(first)) && AllUnbroken(f, rest)
  {
    hide Unbroken;
    var all := [first] + rest;
    assert forall i :: 0 <= i < |rest| ==> all[i + 1] == rest[i];
    if AllUnbroken(f, all) {
      assert all[0] == first;
      forall i | 0 <= i < |rest| ensures Unbroken(f.dump(rest[i])) { assert Unbroken(f.dump(all[i + 1])); }
    }
  }

  // The written records have no problems exactly when no line breaks and the chain is intact.
  lemma {:induction false} NoProblemsIff(f: Format, k: Keys, rs: seq<Record>, line: nat, previous: Digest)
    requires Lawful(f)
    ensures Problems(f, k, Pieces(Render(f, rs)), line, previous) == [] <==> ChainFrom(f, k, rs, previous) && AllUnbroken(f, rs)
    decreases |rs|
  {
    hide Lawful, Linked, RecordProblems, Unbroken;
    if rs != [] {
      var first, rest := rs[0], rs[1..];
      assert rs == [first] + rest;
      RenderFirst(f, first, rest);
      FirstUnbroken(f, first, rest);
      NoProblemsIff(f, k, rest, line + 1, first.recordHash);
      hide Render, Pieces, AllUnbroken, Problems;
      if Unbroken(f.dump(first)) {
        WholeLine(f, k, first, Render(f, rest), line, previous);
      } else {
        BrokenLine(f, k, first, Render(f, rest), line, previous);
      }
    }
  }

  // The records of the lines that parse.
  function Parsed(f: Format, lines: seq<Bytes>): seq<Record> {
    if lines == [] then []
    else match f.parse(lines[0])
         case None => Parsed(f, lines[1..])
         case Some(r) => [r] + Parsed(f, lines[1..])
  }

  predicate AllParse(f: Format, lines: seq<Bytes>) { forall i :: 0 <= i < |lines| ==> f.parse(lines[i]).Some? }

  // Any lines at all verify exactly when each one parses and the parsed records form a chain.
  lemma {:induction false} CleanIffChain(f: Format, k: Keys, lines: seq<Bytes>, line: nat, previous: Digest)
    ensures Problems(f, k, lines, line, previous) == [] <==> AllParse(f, lines) && ChainFrom(f, k, Parsed(f, lines), previous)
    decreases |lines|
  {
    if lines != [] {
      assert AllParse(f, lines) <==> f.parse(lines[0]).Some? && AllParse(f, lines[1..]) by {
        assert forall i :: 0 < i < |lines| ==> lines[i] == lines[1..][i - 1];
      }
      hide Linked, RecordProblems, AllParse;
      match f.parse(lines[0])
      case None => assert Problems(f, k, lines, line, previous)[0] == InvalidRecord(line);
      case Some(r) =>
        NoRecordProblems(f, k, r, line, previous);
        CleanIffChain(f, k, lines[1..], line + 1, r.recordHash);
        assert Parsed(f, lines)[1..] == Parsed(f, lines[1..]);
    }
  }

  // A file verifies without problems.
  predicate Clean(f: Format, k: Keys, file: Bytes) { Problems(f, k, Pieces(file), 1, ZeroHash()) == [] }

  // What a verified file holds, whoever wrote it.
  function RecordsOf(f: Format, file: Bytes): seq<Record> { Parsed(f, Pieces(file)) }

  lemma CleanFile(f: Format, k: Keys, file: Bytes)
    ensures Clean(f, k, file) <==> AllParse(f, Pieces(file)) && ChainOk(f, k, RecordsOf(f, file))
  {
    hide Pieces, Problems, ChainFrom, AllParse, Parsed, ZeroHash;
    CleanIffChain(f, k, Pieces(file), 1, ZeroHash());
  }

  // A file of dumped records verifies exactly when its chain is intact and no line holds a break.
  lemma VerifyExact(f: Format, k: Keys, rs: seq<Record>)
    requires Lawful(f)
    ensures Clean(f, k, Render(f, rs)) <==> ChainOk(f, k, rs) && AllUnbroken(f, rs)
  {
    hide Lawful, Pieces, Render, ChainFrom, Problems, ZeroHash, AllUnbroken;
    NoProblemsIff(f, k, rs, 1, ZeroHash());
  }

  // ---------- Tamper evidence ----------

  function Canonicals(f: Format, rs: seq<Record>): (r: set<Bytes>)
    ensures forall i :: 0 <= i < |rs| ==> f.canonical(rs[i].body) in r
  {
    set r | r in rs :: f.canonical(r.body)
  }

  // Two hashed texts collide, or one of them hashes to the zero hash.
  ghost predicate HashBroken(f: Format, texts: set<Bytes>) {
    || (exists a, b :: a in texts && b in texts && a != b && f.sha(a) == f.sha(b))
    || (exists a :: a in texts && f.sha(a) == ZeroHash())
  }

  lemma HashBrokenGrows(f: Format, small: set<Bytes>, large: set<Bytes>)
    requires small <= large && HashBroken(f, small)
    ensures HashBroken(f, large)
  {
  }

  ghost predicate SameBodies(rs: seq<Record>, ss: seq<Record>) {
    |rs| == |ss| && forall i :: 0 <= i < |rs| ==> rs[i].body == ss[i].body && rs[i].recordHash == ss[i].recordHash
  }

  // Two good records with one hash have one body, or the hash is broken.
  lemma HashBinds(f: Format, k: Keys, a: Record, b: Record, p: Digest, q: Digest, texts: set<Bytes>)
    requires Lawful(f) && Linked(f, k, a, p) && Linked(f, k, b, q) && a.recordHash == b.recordHash
    requires f.canonical(a.body) in texts && f.canonical(b.body) in texts
    ensures a.body == b.body || HashBroken(f, texts)
  {
  }

  lemma ZeroIsBroken(f: Format, k: Keys, a: Record, p: Digest, texts: set<Bytes>)
    requires Linked(f, k, a, p) && a.recordHash == ZeroHash() && f.canonical(a.body) in texts
    ensures HashBroken(f, texts)
  {
    hide ZeroHash;
  }

  lemma SameBodiesExtend(rs: seq<Record>, ss: seq<Record>, a: Record, b: Record)
    requires SameBodies(rs, ss) && a.body == b.body && a.recordHash == b.recordHash
    ensures SameBodies(rs + [a], ss + [b])
  {
  }

  // Two verified ledgers with the same final hash hold the same hashed fields in
  // every record, or the hash is broken on one of their own texts.
  lemma {:induction false} FinalHashBinds(f: Format, k: Keys, rs: seq<Record>, ss: seq<Record>)
    requires Lawful(f) && ChainOk(f, k, rs) && ChainOk(f, k, ss)
    requires FinalHash(rs, ZeroHash()) == FinalHash(ss, ZeroHash())
    ensures SameBodies(rs, ss) || HashBroken(f, Canonicals(f, rs) + Canonicals(f, ss))
    decreases |rs|
  {
    hide HashBroken, ChainFrom, Canonicals, ZeroHash, Lawful, Linked;
    var texts := Canonicals(f, rs) + Canonicals(f, ss);
    if rs != [] { LastLinked(f, k, rs); }
    if ss != [] { LastLinked(f, k, ss); }
    if rs == [] || ss == [] {
      if rs != [] { ZeroIsBroken(f, k, rs[|rs| - 1], FinalHash(rs[..|rs| - 1], ZeroHash()), texts); }
      if ss != [] { ZeroIsBroken(f, k, ss[|ss| - 1], FinalHash(ss[..|ss| - 1], ZeroHash()), texts); }
    } else {
      var rs', ss', a, b := rs[..|rs| - 1], ss[..|ss| - 1], rs[|rs| - 1], ss[|ss| - 1];
      HashBinds(f, k, a, b, FinalHash(rs', ZeroHash()), FinalHash(ss', ZeroHash()), texts);
      if !HashBroken(f, texts) {
        hide SameBodies;
        FinalHashBinds(f, k, rs', ss');
        FrontTexts(f, rs, ss);
        if HashBroken(f, Canonicals(f, rs') + Canonicals(f, ss')) {
          HashBrokenGrows(f, Canonicals(f, rs') + Canonicals(f, ss'), texts);
        }
        SameBodiesExtend(rs', ss', a, b);
        assert rs == rs' + [a] && ss == ss' + [b];
      }
    }
  }

  // Two files that verify and end in one hash hold the same number of records with the same
  // hashed fields, whoever wrote them, or the hash is broken on texts of their records.
  lemma VerifiedFilesBind(f: Format, k: Keys, a: Bytes, b: Bytes)
    requires Lawful(f) && Clean(f, k, a) && Clean(f, k, b)
    requires FinalHash(RecordsOf(f, a), ZeroHash()) == FinalHash(RecordsOf(f, b), ZeroHash())
    ensures SameBodies(RecordsOf(f, a), RecordsOf(f, b))
         || HashBroken(f, Canonicals(f, RecordsOf(f, a)) + Canonicals(f, RecordsOf(f, b)))
  {
    hide Lawful, Clean, RecordsOf, ChainOk, HashBroken, Canonicals, SameBodies, ZeroHash, Pieces, AllParse;
    CleanFile(f, k, a);
    CleanFile(f, k, b);
    FinalHashBinds(f, k, RecordsOf(f, a), RecordsOf(f, b));
  }

  lemma FrontTexts(f: Format, rs: seq<Record>, ss: seq<Record>)
    requires rs != [] && ss != []
    ensures Canonicals(f, rs[..|rs| - 1]) + Canonicals(f, ss[..|ss| - 1]) <= Canonicals(f, rs) + Canonicals(f, ss)
  {
  }

  lemma LastLinked(f: Format, k: Keys, rs: seq<Record>)
    requires rs != [] && ChainOk(f, k, rs)
    ensures Linked(f, k, rs[|rs| - 1], FinalHash(rs[..|rs| - 1], ZeroHash()))
    ensures rs[|rs| - 1].body.previousHash == FinalHash(rs[..|rs| - 1], ZeroHash())
    ensures ChainOk(f, k, rs[..|rs| - 1])
    ensures f.canonical(rs[|rs| - 1].body) in Canonicals(f, rs)
  {
    hide Linked, ZeroHash, ChainFrom;
    assert rs == rs[..|rs| - 1] + [rs[|rs| - 1]];
    ChainSplitsLast(f, k, rs[..|rs| - 1], rs[|rs| - 1], ZeroHash());
    LinkedNames(f, k, rs[|rs| - 1], FinalHash(rs[..|rs| - 1], ZeroHash()));
  }

  lemma LinkedNames(f: Format, k: Keys, r: Record, previous: Digest)
    requires Linked(f, k, r, previous)
    ensures r.body.previousHash == previous
  {
  }

  // ---------- The ledger ----------

  lemma LastHashStep(f: Format, file: Bytes, pos: nat)
    requires pos <= |file|
    ensures pos == 0 ==> LastHashFrom(f, file, pos) == Ok(ZeroHash())
    ensures pos > 0 ==>
      var lines := NonBlank(Lines(file[ChunkStart(pos)..]));
      LastHashFrom(f, file, pos) ==
        if lines == [] then LastHashFrom(f, file, ChunkStart(pos))
        else match f.parse(lines[|lines| - 1])
             case Some(r) => Ok(r.recordHash)
             case None => Err("invalid record")
  {
    hide Lines, NonBlank;
  }

  class Ledger {
    const f: Format
    const k: Keys
    var file: Bytes
    // The records the file holds.
    ghost var records: seq<Record>

    ghost predicate Inv()
      reads this
    {
      Lawful(f) && KeysMatch(k) && file == Render(f, records) && ChainOk(f, k, records)
    }

    constructor (format: Format, keys: Keys)
      requires Lawful(format) && KeysMatch(keys)
      ensures f == format && k == keys && Inv() && records == []
    {
      f, k := format, keys;
      file, records := [], [];
    }

    // Reads backwards in chunks until a chunk shows a line.
    method LastHash() returns (r: Result<Digest, string>)
      ensures r == LastHashFrom(f, file, |file|)
    {
      hide Lines, NonBlank, LastHashFrom, ZeroHash;
      var pos := |file|;
      while pos > 0
        invariant 0 <= pos <= |file|
        invariant LastHashFrom(f, file, pos) == LastHashFrom(f, file, |file|)
      {
        LastHashStep(f, file, pos);
        var readSize := if pos < CHUNK then pos else CHUNK;
        pos := pos - readSize;
        var buf := file[pos..];
        var nonEmpty := NonBlank(Lines(buf));
        if nonEmpty != [] {
          match f.parse(nonEmpty[|nonEmpty| - 1])
          case Some(record) => return Ok(record.recordHash);
          case None => return Err("invalid record");
        }
      }
      LastHashStep(f, file, 0);
      return Ok(ZeroHash());
    }

    // Appends one record, or raises and leaves the file alone. It succeeds exactly
    // when the ledger is empty or its last line fits in one chunk, and it keeps the
    // chain intact.
    method Append(recordId: string, createdAt: string, recordType: string, subjectId: string, payload: string)
      returns (r: Result<Record, string>)
      requires Inv()
      modifies this
      ensures Inv()
      ensures r.Ok? <==> Fits(f, old(records))
      ensures r.Err? ==> file == old(file) && records == old(records)
      ensures r.Ok? ==>
        && records == old(records) + [r.value]
        && r.value.body == Body(recordId, createdAt, recordType, subjectId, payload, FinalHash(old(records), ZeroHash()))
      ensures r.Ok? ==>
        && r.value.recordHash == f.sha(f.canonical(r.value.body))
        && r.value.signature == (if k.sign.Some? then Some(k.sign.value(r.value.recordHash)) else None)
        && r.value.keyId == (if k.sign.Some? then Some(k.keyId) else None)
    {
      hide Lawful, LastHashFrom, ZeroHash, ChainFrom, Render;
      LastHashExact(f, records);
      var previous := LastHash();
      if previous.Err? { return Err(previous.error); }
      var body := Body(recordId, createdAt, recordType, subjectId, payload, previous.value);
      var hash := f.sha(f.canonical(body));
      var signature := match k.sign case Some(sign) => Some(sign(hash)) case None => None;
      var record := Record(body, hash, signature, if k.sign.Some? then Some(k.keyId) else None);
      RenderLast(f, records, record);
      ChainSplitsLast(f, k, records, record, ZeroHash());
      file := file + f.dump(record) + [NEWLINE];
      records := records + [record];
      return Ok(record);
    }

    // Reports every problem, line by line.
    method Verify() returns (errors: seq<Problem>)
      ensures errors == Problems(f, k, Pieces(file), 1, ZeroHash())
    {
      hide ZeroHash, Pieces, RecordProblems;
      errors := [];
      var previous := ZeroHash();
      var lines := Pieces(file);
      for i := 0 to |lines|
        invariant errors + Problems(f, k, lines[i..], i + 1, previous) == Problems(f, k, lines, 1, ZeroHash())
      {
        assert lines[i..][0] == lines[i] && lines[i..][1..] == lines[i + 1..];
        match f.parse(lines[i])
        case None => errors := errors + [InvalidRecord(i + 1)];
        case Some(r) =>
          errors := errors + RecordProblems(f, k, r, i + 1, previous);
          previous := r.recordHash;
      }
    }
  }

  // Any run of appends, whatever they answer, keeps the ledger intact, and verifying it reports
  // nothing exactly when no line written so far holds a break.
  method AppendAll(ledger: Ledger, entries: seq<(string, string, string, string, string)>) returns (errors: seq<Problem>)
    requires ledger.Inv()
    modifies ledger
    ensures ledger.Inv() && old(ledger.records) <= ledger.records
    ensures errors == [] <==> AllUnbroken(ledger.f, ledger.records)
  {
    hide Lawful, Render, ChainFrom, Problems, Pieces, ZeroHash, KeysMatch, AllUnbroken;
    for i := 0 to |entries|
      invariant ledger.Inv() && old(ledger.records) <= ledger.records
    {
      var e := entries[i];
      var _ := ledger.Append(e.0, e.1, e.2, e.3, e.4);
    }
    VerifyExact(ledger.f, ledger.k, ledger.records);
    errors := ledger.Verify();
  }
}
