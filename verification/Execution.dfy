/** One step of the whole machine: the architectural step, the clock beside it,
    and the two counters of the run loop. */
module Execution {
  import opened Words
  import opened Memory
  import opened Isa
  import opened Arch
  import opened Timing

  datatype Machine = Machine(a: State, c: Clock, clk: int, instrs: nat, breakPoint: nat)

  /** What the registered interrupt callback, if any, would answer when called:
      a bitmap of requests and the time of its next call. */
  datatype Answer = NoCallback | Answer(requests: Bits, wakeup: int)

  /** How execute_instruction ends.  `Ran` carries the instruction word. */
  datatype End = Ran(word: u32) | Terminated | Exited | Undefd

  predicate Sound(cfg: Config, m: Machine) {
    Placed(cfg.g, m.a.mem)
  }

  predicate Due(m: Machine, ans: Answer) {
    ans.Answer? && m.c.cycle >= m.c.wakeup
  }

  predicate Stops(m: Machine, ans: Answer) {
    Due(m, ans) && ans.wakeup < 0
  }

  /** The callback has been asked, if it was due. */
  function Polled(m: Machine, ans: Answer): (m': Machine)
    ensures m'.a.mem == m.a.mem
  {
    if !Due(m, ans) then m
    else if ans.wakeup < 0 then
      m.(a := m.a.(csr := m.a.csr.(ip := Requested(m.a, ans.requests))), c := m.c.(wakeup := ans.wakeup))
    else m.(a := Poll(m.a, ans.requests), c := m.c.(wakeup := ans.wakeup))
  }

  /** The exception that will be taken in state `a`, if any. */
  function Urgent(a: State): Option<nat> {
    if IsZero(a.flags) then None else Some(Highest(a.flags, 0))
  }

  /** Exception processing after the poll. */
  function Entered(cfg: Config, m: Machine): (m': Machine)
    ensures m'.a.mem == m.a.mem
  {
    match Urgent(m.a)
    case None => m
    case Some(id) =>
      if id == NUM_EXCEPTIONS then m
      else
        m.(a := Interrupt(cfg.g, m.a, id),
           c := if id == RESET then ResetTime(m.c) else m.c,
           breakPoint := if id == RESET then 0 else m.breakPoint)
  }

  predicate Unknown(a: State) {
    Urgent(a) == Some(NUM_EXCEPTIONS)
  }

  /** Fetch from the entered state: the word and the machine after the read. */
  function Fetched(cfg: Config, m: Machine): (r: (u32, Machine))
    requires Sound(cfg, m)
    ensures r.1.a.mem == m.a.mem
  {
    var (w, d) := FetchWord(cfg.g, m.a);
    (w, m.(a := d, c := ReadTime(cfg.waits, m.c, CheckBreakpoint(m.a), m.a.pc, Fetch)))
  }

  function Executed(cfg: Config, m: Machine, i: Instr): (r: (Machine, Outcome))
    requires Sound(cfg, m) && Fields(i)
    ensures Sound(cfg, r.0)
  {
    var Result(b, o) := Exec(cfg.g, m.a, i, CycleCounter(m.c));
    if o == Completes then (m.(a := b, c := ExecTime(cfg, m.c, m.a, i, b)), o) else (m, o)
  }

  datatype StepResult = StepResult(m: Machine, end: End)

  /** execute_instruction. */
  function Step(cfg: Config, m: Machine, ans: Answer): (r: StepResult)
    requires Sound(cfg, m)
    ensures Sound(cfg, r.m)
  {
    var m1 := Polled(m, ans);
    if Stops(m, ans) then StepResult(m1, Terminated)
    else if Unknown(m1.a) then StepResult(m1, Exited)
    else
      var (w, m2) := Fetched(cfg, Entered(cfg, m1));
      var (m3, o) := Executed(cfg, m2, Decode(w));
      StepResult(m3, match o case Completes => Ran(w) case Exits => Exited case Undefined => Undefd)
  }

  /** A run of executed instructions, one answer each; it ends early when a step
      does anything but execute an instruction. */
  function Steps(cfg: Config, m: Machine, script: seq<Answer>): (r: StepResult)
    requires Sound(cfg, m)
    ensures Sound(cfg, r.m)
    decreases |script|
  {
    hide Step;
    if script == [] then StepResult(m, Ran(0))
    else
      var r := Step(cfg, m, script[0]);
      if r.end.Ran? then Steps(cfg, r.m, script[1..]) else r
  }
}
