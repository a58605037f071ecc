// What verification reports: every problem with its kind and its line, and nothing else.
module LedgerProblems {
  import opened Wrappers
  import opened Evidence

  // The hash that line i has to name: that of the nearest line before it that parses.
  function Expected(f: Format, lines: seq<Bytes>, i: nat, previous: Digest): Digest
    requires i <= |lines|
  {
    if i == 0 then previous
    else match f.parse(lines[i - 1])
         case Some(r) => r.recordHash
         case None => Expected(f, lines, i - 1, previous)
  }

  // What is wrong with line i.
  predicate WrongAt(f: Format, k: Keys, lines: seq<Bytes>, i: nat, previous: Digest, p: Problem)
    requires i < |lines|
  {
    match f.parse(lines[i])
    case None => p.InvalidRecord?
    case Some(r) =>
      match p
      case InvalidRecord(_) => false
      case PreviousMismatch(_) => r.body.previousHash != Expected(f, lines, i, previous)
      case HashMismatch(_) => f.sha(f.canonical(r.body)) != r.recordHash
      case NoPublicKey(_) => r.signature.Some? && r.signature.value != "" && k.check.None?
      case BadSignature(_) =>
        r.signature.Some? && r.signature.value != "" && k.check.Some? && !k.check.value(r.signature.value, r.recordHash)
  }

  lemma {:induction false} ExpectedTail(f: Format, lines: seq<Bytes>, i: nat, previous: Digest)
    requires 0 < i <= |lines|
    ensures Expected(f, lines, i, previous) ==
            Expected(f, lines[1..], i - 1, match f.parse(lines[0]) case Some(r) => r.recordHash case None => previous)
  {
    if i > 1 {
      assert lines[1..][i - 2] == lines[i - 1];
      ExpectedTail(f, lines, i - 1, previous);
    }
  }

  lemma WrongTail(f: Format, k: Keys, lines: seq<Bytes>, i: nat, previous: Digest, p: Problem)
    requires 0 < i < |lines|
    ensures WrongAt(f, k, lines, i, previous, p) <==>
            WrongAt(f, k, lines[1..], i - 1, match f.parse(lines[0]) case Some(r) => r.recordHash case None => previous, p)
  {
    ExpectedTail(f, lines, i, previous);
    hide Expected;
  }

  lemma FirstProblems(f: Format, k: Keys, lines: seq<Bytes>, line: nat, previous: Digest, p: Problem)
    requires lines != []
    ensures (match f.parse(lines[0])
             case None => p == InvalidRecord(line)
             case Some(r) => p in RecordProblems(f, k, r, line, previous))
            <==> p.line == line && WrongAt(f, k, lines, 0, previous, p)
  {
  }

  lemma HereOnly(f: Format, k: Keys, lines: seq<Bytes>, line: nat, previous: Digest, p: Problem)
    requires lines != []
    requires p in match f.parse(lines[0]) case None => [InvalidRecord(line)] case Some(r) => RecordProblems(f, k, r, line, previous)
    ensures p.line == line
  {
  }

  // A problem is reported for a line exactly when that is wrong with it.
  lemma {:induction false} ProblemsExact(f: Format, k: Keys, lines: seq<Bytes>, line: nat, previous: Digest, p: Problem)
    ensures p in Problems(f, k, lines, line, previous) <==>
            line <= p.line < line + |lines| && WrongAt(f, k, lines, p.line - line, previous, p)
    decreases |lines|
  {
    if lines != [] {
      var next := match f.parse(lines[0]) case Some(r) => r.recordHash case None => previous;
      hide WrongAt, RecordProblems;
      FirstProblems(f, k, lines, line, previous, p);
      ProblemsExact(f, k, lines[1..], line + 1, next, p);
      if line < p.line < line + |lines| { WrongTail(f, k, lines, p.line - line, previous, p); }
    }
  }

  ghost predicate InOrder(ps: seq<Problem>) { forall i, j :: 0 <= i < j < |ps| ==> ps[i].line <= ps[j].line }

  // The problems come in the order of their lines.
  lemma {:induction false} ProblemsInOrder(f: Format, k: Keys, lines: seq<Bytes>, line: nat, previous: Digest)
    ensures InOrder(Problems(f, k, lines, line, previous))
    decreases |lines|
  {
    if lines != [] {
      var next := match f.parse(lines[0]) case Some(r) => r.recordHash case None => previous;
      var rest := Problems(f, k, lines[1..], line + 1, next);
      var here := match f.parse(lines[0]) case None => [InvalidRecord(line)] case Some(r) => RecordProblems(f, k, r, line, previous);
      ProblemsInOrder(f, k, lines[1..], line + 1, next);
      assert Problems(f, k, lines, line, previous) == here + rest;
      forall p | p in here ensures p.line == line { HereOnly(f, k, lines, line, previous, p); }
      hide RecordProblems, Problems, WrongAt;
      forall p | p in rest ensures p.line > line { ProblemsExact(f, k, lines[1..], line + 1, next, p); }
      OrderJoins(here, rest, line);
    }
  }

  lemma OrderJoins(here: seq<Problem>, rest: seq<Problem>, line: nat)
    requires forall p :: p in here ==> p.line == line
    requires forall p :: p in rest ==> p.line > line
    requires InOrder(rest)
    ensures InOrder(here + rest)
  {
    var ps := here + rest;
    forall i, j | 0 <= i < j < |ps| ensures ps[i].line <= ps[j].line {
      assert ps[i] == (if i < |here| then here[i] else rest[i - |here|]);
      assert ps[j] == (if j < |here| then here[j] else rest[j - |here|]);
    }
  }
}
