/** A pattern compiled and searched for: what the compiler guarantees is what the matcher, the fastmap and the search
    need. */
module RegexPipeline {
  import opened Wrappers
  import opened RegexTree
  import opened RegexCode
  import opened RegexPaths
  import opened RegexLayout
  import opened RegexGrammar
  import opened RegexMachine
  import opened RegexSoundness
  import opened RegexMatcher
  import opened RegexFirst
  import opened RegexFastmap
  import opened RegexSearch
  import opened RegexCompiler
  import opened RegexGroups
  import opened RegexMarks
  import RegexBuffer
  import RegexTurns
  import Parts = RegexParts
  import Returns = RegexReturns
  import Decision = RegexDecision

  lemma {:induction false} RegexGrouped(syn: Syntax, r: Re, top: bool)
    requires IsRegex(syn, r, top)
    ensures AltsGrouped(r) && AtomLoops(r)
    decreases r, 1
  {
    if r.Alt? {
      RegexGrouped(syn, r.pre, top);
      BranchGrouped(syn, r.last, top);
    } else {
      BranchGrouped(syn, r, top);
    }
  }

  lemma {:induction false} BranchGrouped(syn: Syntax, r: Re, top: bool)
    requires IsBranch(syn, r, top)
    ensures AltsGrouped(r) && AtomLoops(r) && !r.Alt?
    decreases r, 0
  {
    if r.Cat? { BranchGrouped(syn, r.a, top); PieceGrouped(syn, r.b, NothingBefore(r.a), top); }
  }

  lemma {:induction false} PieceGrouped(syn: Syntax, r: Re, start: bool, top: bool)
    requires IsPiece(syn, r, start, top)
    ensures AltsGrouped(r) && AtomLoops(r) && !r.Alt?
    decreases r, 3
  {
    match r
    case ZeroOrMore(body, _) => AtomGrouped(syn, body, start, top);
    case OneOrMore(body, _) => AtomGrouped(syn, body, start, top);
    case Optional(body, _) => AtomGrouped(syn, body, start, top);
    case Group(_, _, body) => RegexGrouped(syn, body, false);
    case _ =>
  }

  lemma {:induction false} AtomGrouped(syn: Syntax, r: Re, start: bool, top: bool)
    requires IsAtom(syn, r, start, top)
    ensures AltsGrouped(r) && AtomLoops(r) && !r.Alt? && (r.Group? || GroupCount(r) == 0)
    decreases r, 2
  {
    if r.Group? { RegexGrouped(syn, r.body, false); }
  }

  /** Compiled code of a parse is what the rest of the proofs ask for. */
  lemma PatternOfParse(syn: Syntax, toks: seq<Token>, r: Re, code: seq<Byte>)
    requires Parses(syn, toks, r) && Program(code, r, syn) && |code| < MAX_OFFSET_CODE
    requires syn.dotNewline || !HasEscapedDotLine(toks)
    requires PlainDotLines(r) <==> syn.dotNewline || !HasEscapedDotLine(toks)
    ensures Pattern(code, syn, r, GroupCount(r)) && Decided(code, code, r) && Regular(r)
  {
    hide IsRegex, Numbered, Yield, Code, Pops;
    ParseShape(syn, toks, r);
    RegexGrouped(syn, r, true);
  }

  /** text[start..start + n] is matched by the pattern. */
  ghost predicate Member(syn: Syntax, r: Re, text: seq<Byte>, start: nat, n: nat) {
    start + n <= |text| && InLanguage(syn, r, text[start..start + n])
  }

  lemma FoundMember(t: Setting, r: Re, start: nat)
    requires Pattern(t.c0, t.g.syn, r, t.nsub) && MatchesAt(t, start)
    ensures exists n: nat :: Member(t.g.syn, r, t.g.text, start, n)
  {
    hide InLanguage, Match, Program, Sized, RegsWithin, PlainDotLines, AltsGrouped;
    MatchSound(Job(t.g, t.c0, start, t.limit), r, t.nsub, t.rounds);
    var n: nat := TryAt(t, start).n;
    assert Member(t.g.syn, r, t.g.text, start, n);
  }

  /** Room and rounds are enough for the matcher to return from every start. */
  ghost predicate Ample(t: Setting, r: Re)
    requires Parts.UnitLoops(r)
  {
    forall k: nat :: k <= |t.g.text| ==> AmpleAt(Job(t.g, t.c0, k, t.limit), r, t.rounds)
  }

  ghost predicate AmpleAt(job: Job, r: Re, rounds: nat)
    requires Parts.UnitLoops(r)
  {
    RegexTurns.CourseOk(Returns.CourseOf(job, r)) ==>
      Returns.Bound(job, r) <= rounds && Returns.Bound(job, r) <= job.limit
  }

  /** The pattern is one the longest rule is kept for, and there is room and time for it. */
  ghost predicate Complete(t: Setting, r: Re) {
    Parts.UnitLoops(r) && !t.g.syn.noBacktrack && Decision.WellFollowed(t.g.syn, Parts.Parts(r)) && Ample(t, r)
  }

  /** Where the matcher finds nothing, there is no member of the language. */
  lemma NoMember(t: Setting, r: Re, k: nat, n: nat)
    requires Pattern(t.c0, t.g.syn, r, t.nsub) && Complete(t, r) && k <= |t.g.text| && !MatchesAt(t, k)
    requires Regular(r) && GroupCount(r) <= t.nsub
    ensures !Member(t.g.syn, r, t.g.text, k, n)
  {
    hide Matches, Match, Program, Sized, RegsWithin, PlainDotLines, AltsGrouped, Decision.WellFollowed, Parts.Parts,
         Returns.CourseOf, Returns.Bound, RegexTurns.CourseOk, Returns.GroupLoops;
    var job := Job(t.g, t.c0, k, t.limit);
    assert AmpleAt(job, r, t.rounds);
    Returns.MatchReturns(job, r, t.nsub, t.rounds);
    Decision.LongestRule(job, r, t.nsub, t.rounds);
    if Member(t.g.syn, r, t.g.text, k, n) {
      MatchesSlice(Input(t.g.syn, t.g.text[k..k + n]), r, 0, n, t.g, k);
    }
  }

  /** No start in front of the one found, or none at all, has a member of the language. */
  ghost predicate NoneMissed(t: Setting, r: Re, startpos: int, range: int, a: Answer) {
    var last := LastStart(|t.g.text|, startpos, range);
    && (a.Found? ==> forall k: nat, n: nat :: Before(startpos, k, a.start) ==> !Member(t.g.syn, r, t.g.text, k, n))
    && (a.NotFound? ==> forall k: nat, n: nat :: Among(startpos, last, k) ==> !Member(t.g.syn, r, t.g.text, k, n))
  }

  lemma NothingMissed(t: Setting, r: Re, startpos: int, range: int, a: Answer)
    requires Pattern(t.c0, t.g.syn, r, t.nsub) && Complete(t, r) && 0 <= startpos <= |t.g.text|
    requires Regular(r) && GroupCount(r) <= t.nsub
    requires var last := LastStart(|t.g.text|, startpos, range);
             && (a.Found? ==> Among(startpos, last, a.start) && NoneBefore(t, startpos, a.start))
             && (a.NotFound? ==> NoneAmong(t, startpos, last))
    ensures NoneMissed(t, r, startpos, range, a)
  {
    hide Pattern, Complete, Member, MatchesAt, Regular;
    var last := LastStart(|t.g.text|, startpos, range);
    if a.Found? {
      forall k: nat, n: nat | Before(startpos, k, a.start) ensures !Member(t.g.syn, r, t.g.text, k, n) {
        NoMember(t, r, k, n);
      }
    }
    if a.NotFound? {
      forall k: nat, n: nat | Among(startpos, last, k)
        ensures !Member(t.g.syn, r, t.g.text, k, n)
      {
        NoMember(t, r, k, n);
      }
    }
  }

  /** The compiled code, on an array of its own. */
  method CodeArray(buf: RegexBuffer.CodeBuffer) returns (code: array<Byte>)
    requires buf.Valid()
    ensures fresh(code) && code[..] == buf.Bytes()
  {
    code := new Byte[buf.b];
    forall k | 0 <= k < buf.b { code[k] := buf.data[k]; }
  }

  /** Compile a pattern and search a text with it. When something is found, the text there has a member of the pattern's
      language at its front, and for patterns for which the longest rule is kept no start tried before it has; when
      nothing is found, none has. None means the code is too long for its jumps. Escaped dots starred before a newline
      are kept out, unless `.' takes newlines. */
  method CompileAndSearch(syn: Syntax, toks: seq<Token>, text: seq<Byte>, startpos: int, range: int,
                          room: nat, limit: nat, rounds: nat)
    returns (error: Error, a: Option<Answer>, ghost r: Re, ghost t: Setting)
    requires TokensOk(toks) && (syn.dotNewline || !HasEscapedDotLine(toks))
    ensures a.Some? ==> error == NoError
    ensures error == NoError && a.Some? ==>
      Parses(syn, toks, r) && t.g == Input(syn, text) && t.limit == limit && t.rounds == rounds && Program(t.c0, r, syn)
    ensures error == NoError && a.Some? && a.value.Found? ==> exists n: nat :: Member(syn, r, text, a.value.start, n)
    ensures error == NoError && a.Some? && Complete(t, r) && 0 <= startpos <= |text| ==>
      NoneMissed(t, r, startpos, range, a.value)
  {
    hide Parses, Program, Pattern, Decided, MatchesAt, HasEscapedDotLine, PlainDotLines, GroupCount, NoneBefore,
         NoneAmong, InLanguage, Complete, NoneMissed, Regular;
    t := Setting(Input(syn, text), [], limit, 0, rounds);
    var c := new Compiler(syn, toks);
    error, r := c.Compile(syn, toks);
    if error != NoError { return error, None, r, t; }
    var used := c.buf.b;
    if used >= MAX_OFFSET_CODE { return NoError, None, r, t; }
    ghost var c0 := c.buf.Bytes();
    PatternOfParse(syn, toks, r, c0);
    var code := CodeArray(c.buf);
    var fastmap := new bool[256];
    var setting := Setting(Input(syn, text), code[..], limit, c.regnum, rounds);
    t := setting;
    var answer := Search(code, startpos, range, fastmap, room, setting, r);
    if answer.Found? { FoundMember(t, r, answer.start); }
    if Complete(t, r) && 0 <= startpos <= |text| { NothingMissed(t, r, startpos, range, answer); }
    a := Some(answer);
  }
}
