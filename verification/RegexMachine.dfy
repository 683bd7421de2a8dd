/** The backtracking machine of re_match_2_internal as a step function on the original code, for one string and
    without register reporting. A maybe_pop_jump is decided each time it is reached; RegexMatcher has the version
    that overwrites it. */
module RegexMachine {
  import opened Wrappers
  import opened RegexTree
  import opened RegexCode

  const NO_HIGHEST_ACTIVE_REG := 256
  const NO_LOWEST_ACTIVE_REG := 257

  /** The part of register_info_type control depends on. */
  datatype RegInfo = RegInfo(active: bool, matched: bool)

  /** A failure point: registers low..high, and where to resume. `place' is None for a dummy; `str' is None when the
      position in the text is to be kept. */
  datatype FailPoint = FailPoint(place: Option<nat>, str: Option<nat>, low: nat, high: nat, info: seq<RegInfo>)

  datatype State = State(
    p: nat,
    d: nat,
    stack: seq<FailPoint>,
    low: nat,                 // lowest_active_reg
    high: nat,                // highest_active_reg
    info: seq<RegInfo>,
    done: bool,               // set_regs_matched_done
    justPast: nat,            // just_past_start_mem, 0 for null
    best: Option<nat>)        // match_end, once best_regs_set

  /** What is fixed during one call: input, code, start, and how many failure points memory has room for. */
  datatype Job = Job(g: Input, code: seq<Byte>, pos: nat, limit: nat)

  datatype Outcome = Running(s: State) | Finished(n: int) | Crashed

  // ---------- Registers ----------

  function SavedRegs(s: State): (info: seq<RegInfo>)
    ensures s.low <= s.high < |s.info| ==> |info| == s.high - s.low + 1
  {
    if s.low <= s.high < |s.info| then s.info[s.low..s.high + 1] else []
  }

  function RestoredRegs(info: seq<RegInfo>, pt: FailPoint): (r: seq<RegInfo>)
    ensures |r| == |info|
  {
    if pt.low <= pt.high < |info| && |pt.info| == pt.high - pt.low + 1 then
      info[..pt.low] + pt.info + info[pt.high + 1..]
    else info
  }

  /** SET_REGS_MATCHED. */
  function SetRegsMatched(s: State): State {
    if s.done then s
    else s.(done := true, info := seq(|s.info|, k requires 0 <= k < |s.info| =>
                                        if s.low <= k <= s.high then s.info[k].(matched := true) else s.info[k]))
  }

  function UpdateReg(info: seq<RegInfo>, r: nat, i: RegInfo): seq<RegInfo> {
    if r < |info| then info[r := i] else info
  }

  predicate IsMatched(info: seq<RegInfo>, r: nat) { r < |info| && info[r].matched }

  /** The highest register not above r that is active, or 0. */
  function HighestActive(info: seq<RegInfo>, r: nat): (h: nat)
    ensures h <= r
  {
    if r == 0 || (r < |info| && info[r].active) then r else HighestActive(info, r - 1)
  }

  // ---------- The failure stack ----------

  function Push(job: Job, s: State, place: Option<nat>, str: Option<nat>): Outcome {
    if |s.stack| >= job.limit then Finished(-2)
    else Running(s.(stack := s.stack + [FailPoint(place, str, s.low, s.high, SavedRegs(s))]))
  }

  predicate IsBackJump(op: Byte) { op == MAYBE_POP_JUMP || op == POP_FAILURE_JUMP || op == JUMP }

  /** Resume at the latest failure point that is not a dummy and not the closing jump of a loop. */
  function Fail(job: Job, s: State): Outcome
    decreases |s.stack|
  {
    if s.stack == [] then
      Finished(if s.best.Some? then s.best.value - job.pos else -1)
    else
      var pt := s.stack[|s.stack| - 1];
      var popped := s.(stack := s.stack[..|s.stack| - 1], d := if pt.str.Some? then pt.str.value else s.d,
                       low := pt.low, high := pt.high, info := RestoredRegs(s.info, pt), done := false);
      if pt.place.None? then Fail(job, popped)
      else
        var p := pt.place.value;
        var here := popped.(p := p);
        if p < |job.code| && IsBackJump(job.code[p]) && Get(job.code, Target(job.code, p)) == ON_FAILURE_JUMP
        then Fail(job, here)
        else Running(here)
  }

  // ---------- Deciding a maybe_pop_jump ----------

  predicate Bit(b: Byte, k: nat)
    requires k < 8
  {
    (b / Pow2(k)) % 2 == 1
  }

  predicate NoCommonBit(x: Byte, y: Byte) { forall k | 0 <= k < 8 :: !(Bit(x, k) && Bit(y, k)) }

  predicate BitsWithin(x: Byte, y: Byte) { forall k | 0 <= k < 8 :: Bit(x, k) ==> Bit(y, k) }

  /** Skip over open and close group commands, and over the start of a `+' construct. */
  function SkipGroups(code: seq<Byte>, p2: nat): (q: nat)
    ensures p2 <= q
    decreases |code| - p2
  {
    if p2 + 2 < |code| && (code[p2] == STOP_MEMORY || code[p2] == START_MEMORY) then SkipGroups(code, p2 + 3)
    else if p2 + 6 < |code| && code[p2] == DUMMY_FAILURE_JUMP then SkipGroups(code, p2 + 6)
    else p2
  }

  /** The loop body starting at p1 + 3 is followed by the literal c. */
  predicate CannotMatchChar(code: seq<Byte>, p1: int, c: Byte) {
    var body := Get(code, p1 + 3);
    if body == EXACTN then Get(code, p1 + 5) != c
    else if body == CHARSET || body == CHARSET_NOT then
      // The width of the map in bits is cut to one byte here, so a full map counts as empty.
      var listed := c < (Get(code, p1 + 4) * 8) % 256 && Bit(Get(code, p1 + 5 + c / 8), c % 8);
      listed == (body == CHARSET_NOT)
    else false
  }

  /** The loop body starting at p1 + 3 is followed by the charset at p2. */
  predicate CannotMatchSet(code: seq<Byte>, p1: int, p2: int) {
    var body := Get(code, p1 + 3);
    var width, width1 := Get(code, p2 + 1), Get(code, p1 + 4);
    if body == EXACTN then
      // The count byte of the exactn is looked up, not its character.
      !(width * 8 > width1 && Bit(Get(code, p2 + 2 + width1 / 8), width1 % 8))
    else if body == CHARSET_NOT then forall k | 0 <= k < width :: ByteExcluded(code, p1, p2, k)
    else if body == CHARSET then forall k | 0 <= k < width && k < width1 :: ByteDisjoint(code, p1, p2, k)
    else false
  }

  /** Every character in byte k of the bitmap at p2 is listed by the charset_not in the loop. */
  predicate ByteExcluded(code: seq<Byte>, p1: int, p2: int, k: nat) {
    || Get(code, p2 + 2 + k) == 0
    || (k < Get(code, p1 + 4) && BitsWithin(Get(code, p2 + 2 + k), Get(code, p1 + 5 + k)))
  }

  predicate ByteDisjoint(code: seq<Byte>, p1: int, p2: int, k: nat) {
    NoCommonBit(Get(code, p2 + 2 + k), Get(code, p1 + 5 + k))
  }

  /** Whether the maybe_pop_jump at pc becomes a pop_failure_jump; otherwise it becomes a jump. */
  predicate Pops(code: seq<Byte>, pc: nat) {
    var p2 := SkipGroups(code, pc + 3);
    var p1 := Target(code, pc);
    if p2 == |code| then true
    else if Get(code, p2) == EXACTN then CannotMatchChar(code, p1, Get(code, p2 + 2))
    else if Get(code, p2) == CHARSET then CannotMatchSet(code, p1, p2)
    else false
  }

  // ---------- Opcodes ----------

  /** The comparison loop of exactn: whether all n characters match, and how far it read. A mismatching character
      has been read too. */
  function Compare(g: Input, code: seq<Byte>, q: int, d: nat, n: nat): (bool, nat)
    decreases n
  {
    if n == 0 then (true, d)
    else if d >= |g.text| then (false, d)
    else if g.text[d] != Get(code, q) then (false, d + 1)
    else Compare(g, code, q + 1, d + 1, n - 1)
  }

  function JumpTo(job: Job, s: State): Outcome {
    var to := Target(job.code, s.p);
    if to < 0 then Crashed else Running(s.(p := to))
  }

  function StepExact(job: Job, s: State): Outcome {
    var n := Get(job.code, s.p + 1);
    var (ok, d) := Compare(job.g, job.code, s.p + 2, s.d, n);
    if ok then Running(SetRegsMatched(s.(p := s.p + 2 + n, d := d))) else Fail(job, s.(d := d))
  }

  function StepAny(job: Job, s: State): Outcome {
    if s.d < |job.g.text| && DotAccepts(job.g.syn, job.g.text[s.d])
    then Running(SetRegsMatched(s.(p := s.p + 1, d := s.d + 1)))
    else Fail(job, s)
  }

  function StepSet(job: Job, s: State): Outcome
    requires s.p < |job.code|
  {
    var negated := job.code[s.p] == CHARSET_NOT;
    if s.d < |job.g.text| && SetAccepts(negated, BitmapAt(job.code, s.p), job.g.text[s.d])
    then Running(SetRegsMatched(s.(p := s.p + 2 + Get(job.code, s.p + 1), d := s.d + 1)))
    else Fail(job, s)
  }

  function StepStart(job: Job, s: State): Outcome {
    var reg := Get(job.code, s.p + 1);
    Running(s.(info := UpdateReg(s.info, reg, RegInfo(true, false)), done := false, high := reg,
               low := if s.low == NO_LOWEST_ACTIVE_REG then reg else s.low,
               p := s.p + 3, justPast := s.p + 3))
  }

  /** The registers after a stop_memory for register `reg'. */
  function Stopped(s: State, reg: Byte): State {
    var info := if reg < |s.info| then s.info[reg := s.info[reg].(active := false)] else s.info;
    var r := if reg == 0 then 0 else HighestActive(info, reg - 1);
    var none := s.low == s.high || r == 0;
    s.(info := info, done := false,
       low := if none then NO_LOWEST_ACTIVE_REG else s.low,
       high := if none then NO_HIGHEST_ACTIVE_REG else r)
  }

  /** Where the jump after the stop_memory at pc goes back to, if what is there starts a loop around this group. */
  function LoopHead(code: seq<Byte>, pc: nat): Option<nat> {
    var op := Get(code, pc + 3);
    var p1 := Target(code, pc + 3);
    if (IsBackJump(op) || op == DUMMY_FAILURE_JUMP) && Offset(code, pc + 3) < 0 && p1 >= 0
       && Get(code, p1) == ON_FAILURE_JUMP && Get(code, p1 + 3) == START_MEMORY
          && Get(code, p1 + 4) == Get(code, pc + 1)
    then Some(p1) else None
  }

  function StepStop(job: Job, s: State): Outcome {
    var reg := Get(job.code, s.p + 1);
    var stopped := Stopped(s, reg);
    var head := LoopHead(job.code, s.p);
    if (!IsMatched(stopped.info, reg) || s.justPast == s.p) && s.p + 3 < |job.code| && head.Some? then
      // This time round the group matched nothing: leave the loop by way of a failure.
      var exit := Target(job.code, head.value);
      if exit < 0 then Crashed
      else
        var pushed := Push(job, stopped, Some(exit), Some(s.d));
        if pushed.Running? then Fail(job, pushed.s) else pushed
    else Running(stopped.(p := s.p + 3))
  }

  function SkipNoOps(code: seq<Byte>, p: nat): (q: nat)
    ensures p <= q
    decreases |code| - p
  {
    if p < |code| && code[p] == NO_OP then SkipNoOps(code, p + 1) else p
  }

  function StepOnFailure(job: Job, s: State): Outcome {
    var p1 := SkipNoOps(job.code, s.p + 3);
    var group := Get(job.code, p1) == START_MEMORY;
    var first := Get(job.code, p1 + 1);
    var entered := if group then
                     s.(high := first + Get(job.code, p1 + 2),
                        low := if s.low == NO_LOWEST_ACTIVE_REG then first else s.low)
                   else s;
    var to := Target(job.code, s.p);
    if to < 0 then Crashed else Push(job, entered.(p := s.p + 3), Some(to), Some(s.d))
  }

  function StepOnFailureKeepString(job: Job, s: State): Outcome {
    var to := Target(job.code, s.p);
    if to < 0 then Crashed else Push(job, s.(p := s.p + 3), Some(to), None)
  }

  function StepDummyFailureJump(job: Job, s: State): Outcome {
    var pushed := Push(job, s, None, None);
    if pushed.Running? then JumpTo(job, pushed.s) else pushed
  }

  /** Throw away the latest failure point, then jump. */
  function StepPopFailureJump(job: Job, s: State): Outcome {
    if s.stack == [] then Crashed else JumpTo(job, s.(stack := s.stack[..|s.stack| - 1], done := false))
  }

  /** At the end of the pattern: a longer match is looked for as long as there are failure points. */
  function StepEnd(job: Job, s: State): Outcome {
    if s.d != |job.g.text| && s.stack != [] then
      Fail(job, s.(best := if s.best.None? || s.d > s.best.value then Some(s.d) else s.best))
    else if s.d != |job.g.text| && s.best.Some? && s.d <= s.best.value then
      Finished(s.best.value - job.pos)
    else Finished(s.d - job.pos)
  }

  /** One round of the matching loop. */
  function Step(job: Job, s: State): Outcome {
    if s.p == |job.code| then StepEnd(job, s)
    else if s.p > |job.code| then Crashed
    else
      var op := job.code[s.p];
      if op == NO_OP then Running(s.(p := s.p + 1))
      else if op == SUCCEED then Finished(s.d - job.pos)
      else if op == EXACTN then StepExact(job, s)
      else if op == ANYCHAR then StepAny(job, s)
      else if op == CHARSET || op == CHARSET_NOT then StepSet(job, s)
      else if op == START_MEMORY then StepStart(job, s)
      else if op == STOP_MEMORY then StepStop(job, s)
      else if op == ON_FAILURE_JUMP then StepOnFailure(job, s)
      else if op == ON_FAILURE_KEEP_STRING_JUMP then StepOnFailureKeepString(job, s)
      else if op == MAYBE_POP_JUMP then (if Pops(job.code, s.p) then StepPopFailureJump(job, s) else JumpTo(job, s))
      else if op == POP_FAILURE_JUMP then StepPopFailureJump(job, s)
      else if op == JUMP || op == JUMP_PAST_ALT then JumpTo(job, s)
      else if op == DUMMY_FAILURE_JUMP then StepDummyFailureJump(job, s)
      else if op == PUSH_DUMMY_FAILURE then Push(job, s.(p := s.p + 1), None, None)
      else Crashed
  }

  function Run(job: Job, s: State, rounds: nat): Outcome
    decreases rounds
  {
    if rounds == 0 then Running(s)
    else
      var o := Step(job, s);
      if o.Running? then Run(job, o.s, rounds - 1) else o
  }

  function Initial(job: Job, nsub: nat): State {
    State(0, job.pos, [], NO_LOWEST_ACTIVE_REG, NO_HIGHEST_ACTIVE_REG, seq(nsub + 1, _ => RegInfo(false, false)),
      false, 0, None)
  }

  /** A whole call, stopped after `rounds' rounds if it has not returned by then. */
  function Match(job: Job, nsub: nat, rounds: nat): Outcome {
    if job.pos > |job.g.text| then Finished(-1) else Run(job, Initial(job, nsub), rounds)
  }
}
