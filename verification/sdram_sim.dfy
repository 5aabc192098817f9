/**
 * The behavioural SDRAM model of the interactive simulator: a cycle-level
 * state machine on the memory arbiter's interface, with row activation,
 * CAS latency, single-word and burst transfers, burst cancel and
 * auto-refresh. The simulator object keeps its pins and private state in
 * fields and advances one clock per `eval`; here a `Sim` record holds the
 * state, the stored words and the output pins, and `Eval` maps a state and
 * the input pins of one clock to the next state.
 */
module SdramSim {
  import opened Bytes

  /** Cycle counts of the W9825G6KH timing the model follows. */
  const Trcd: int := 2
  const CasLatency: int := 3
  const TPrecharge: int := 2
  const RefreshInterval: int := 781
  const RefreshDuration: int := 6

  /** 32 MiB of 16-bit words. */
  const TotalWords: nat := 32 * 1024 * 1024 / 2

  /** Sparse storage: a word never written is absent. */
  type Memory = map<nat, U16>

  datatype Phase = Idle | Activate | ReadCas | ReadBurst | WriteBurst | Precharge | Refresh

  /** The input pins during one clock. */
  datatype Inputs = Inputs(
    req: bool,
    we: bool,
    addr: U32,          // byte address
    wdata: U32,         // single-word write data
    burstLen: U8,       // words in the burst; 0 selects a single 32-bit access
    burstWdata: U16,    // burst write data
    cancel: bool)

  /** The latched transfer: next word address, words left, direction, kind, and a cancel seen on the first read word. */
  datatype Burst = Burst(addr: U32, remaining: int, isWrite: bool, isSingle: bool, cancelPending: bool)

  /** The output pins. */
  datatype Pins = Pins(
    rdata: U16,
    rdata32: U32,
    ack: bool,
    ready: bool,
    dataValid: bool,
    wdataReq: bool,
    done: bool)

  /** The controller: phase, countdown, refresh counter, latched transfer, stored words and output pins. */
  datatype Sim = Sim(phase: Phase, delay: int, refresh: int, burst: Burst, mem: Memory, pins: Pins)

  /** `u32` increment. */
  function Inc32(a: U32): U32 {
    (a + 1) % 0x1_0000_0000
  }

  // ---------------------------------------------------------------------
  // Word storage

  /** read_word: 0 for an address past the end or a word never written. */
  function ReadWord(mem: Memory, a: nat): (r: U16)
    ensures a >= TotalWords || a !in mem ==> r == 0
  {
    if a >= TotalWords then 0 else if a in mem then mem[a] else 0
  }

  /** write_word: a write past the end is dropped. */
  function WriteWord(mem: Memory, a: nat, d: U16): (r: Memory)
    ensures a >= TotalWords ==> r == mem
  {
    if a >= TotalWords then mem else mem[a := d]
  }

  /** Only in-range addresses are ever stored. */
  ghost predicate InRange(mem: Memory) {
    forall a :: a in mem ==> a < TotalWords
  }

  /** A write changes the word it names, if in range, and nothing else. */
  lemma ReadAfterWrite(mem: Memory, a: nat, d: U16, b: nat)
    ensures ReadWord(WriteWord(mem, a, d), b) == if b == a && a < TotalWords then d else ReadWord(mem, b)
    ensures InRange(mem) ==> InRange(WriteWord(mem, a, d))
  {
  }

  /** read_word32: two consecutive words from the word under a byte address, low word first. */
  function ReadWord32(mem: Memory, byteAddr: U32): (r: U32)
    ensures r % 0x1_0000 == ReadWord(mem, byteAddr / 2)
    ensures r / 0x1_0000 == ReadWord(mem, byteAddr / 2 + 1)
  {
    var w := byteAddr / 2;
    ReadWord(mem, w) + 0x1_0000 * ReadWord(mem, Inc32(w))
  }

  /** The single-word write: the low half of `d` at `w`, the high half at the next word. */
  function Write32(mem: Memory, w: U32, d: U32): Memory {
    WriteWord(WriteWord(mem, w, d % 0x1_0000), Inc32(w), d / 0x1_0000)
  }

  /** A 32-bit write read back from the same byte address gives the value written. */
  lemma Write32Read32(mem: Memory, byteAddr: U32, d: U32)
    requires byteAddr / 2 + 1 < TotalWords
    ensures ReadWord32(Write32(mem, byteAddr / 2, d), byteAddr) == d
  {
    var w := byteAddr / 2;
    var m := Write32(mem, w, d);
    ReadAfterWrite(mem, w, d % 0x1_0000, w);
    ReadAfterWrite(WriteWord(mem, w, d % 0x1_0000), w + 1, d / 0x1_0000, w);
    ReadAfterWrite(WriteWord(mem, w, d % 0x1_0000), w + 1, d / 0x1_0000, w + 1);
    assert ReadWord(m, w) == d % 0x1_0000;
    assert ReadWord(m, w + 1) == d / 0x1_0000;
  }

  // ---------------------------------------------------------------------
  // Reset and the clock

  /** The pins after reset: mem_ready high, everything else low. */
  const ResetPins: Pins := Pins(0, 0, false, true, false, false, false)

  /** reset: every register and pin back to its idle value; stored words are kept. */
  function Reset(s: Sim): (r: Sim)
    ensures r.phase == Idle && r.pins.ready && r.mem == s.mem
    ensures !r.pins.ack && !r.pins.dataValid && !r.pins.wdataReq && !r.pins.done
    ensures InRange(s.mem) ==> Good(r)
  {
    Sim(Idle, 0, 0, Burst(0, 0, false, false, false), s.mem, ResetPins)
  }

  /** A newly built model: reset, with nothing stored. */
  function Fresh(): (r: Sim)
    ensures Good(r) && r.mem == map[]
  {
    Reset(Sim(Idle, 0, 0, Burst(0, 0, false, false, false), map[], ResetPins))
  }

  /**
   * eval: one clock. The four single-cycle pulses are cleared and the
   * refresh counter advances before the current phase acts.
   */
  function Eval(s: Sim, i: Inputs): Sim {
    var o := s.pins.(ack := false, dataValid := false, wdataReq := false, done := false);
    var c := s.(refresh := s.refresh + 1, pins := o);
    var b := s.burst;
    var d := s.delay - 1;
    match s.phase
    case Idle =>
      // A due refresh comes first; otherwise a request is latched and the row activated.
      if c.refresh >= RefreshInterval then
        c.(phase := Refresh, delay := RefreshDuration, refresh := 0, pins := o.(ready := false))
      else if i.req && o.ready then
        if i.burstLen == 0 then
          c.(phase := Activate, delay := Trcd, burst := b.(addr := i.addr / 2, remaining := 0, isWrite := i.we, isSingle := true))
        else
          c.(phase := Activate, delay := Trcd, burst := Burst(i.addr / 2, i.burstLen, i.we, false, false))
      else c
    case Activate =>
      // tRCD; then a single write stores both halves of the 32-bit data, a burst write asks for data, a read waits out CL.
      if d > 0 then c.(delay := d)
      else if b.isSingle && b.isWrite then
        c.(phase := Idle, delay := d, mem := Write32(c.mem, b.addr, i.wdata), pins := o.(ack := true))
      else if b.isWrite then c.(phase := WriteBurst, delay := d, pins := o.(wdataReq := true))
      else c.(phase := ReadCas, delay := CasLatency)
    case ReadCas =>
      // CL; then a single read returns 32 bits, a burst delivers its first word.
      if d > 0 then c.(delay := d)
      else if b.isSingle then
        var lo := ReadWord(c.mem, b.addr);
        var hi := ReadWord(c.mem, Inc32(b.addr));
        c.(phase := Idle, delay := d, pins := o.(rdata32 := lo + 0x1_0000 * hi, rdata := lo, ack := true))
      else
        var w := o.(rdata := ReadWord(c.mem, b.addr), dataValid := true);
        var nb := b.(addr := Inc32(b.addr), remaining := b.remaining - 1);
        if nb.remaining <= 0 then c.(phase := Idle, delay := d, burst := nb, pins := w.(done := true, ack := true))
        else if i.cancel then c.(phase := ReadBurst, delay := d, burst := nb.(cancelPending := true), pins := w)
        else c.(phase := ReadBurst, delay := d, burst := nb, pins := w)
    case ReadBurst =>
      // One word per clock; a cancel, now or pending, delivers nothing and precharges.
      if b.cancelPending || i.cancel then
        c.(phase := Precharge, delay := TPrecharge, burst := b.(cancelPending := false))
      else
        var w := o.(rdata := ReadWord(c.mem, b.addr), dataValid := true);
        var nb := b.(addr := Inc32(b.addr), remaining := b.remaining - 1);
        if nb.remaining <= 0 then c.(phase := Idle, burst := nb, pins := w.(done := true, ack := true))
        else c.(burst := nb, pins := w)
    case WriteBurst =>
      // One word per clock from the burst data pins; a cancel writes nothing and precharges.
      if b.cancelPending || i.cancel then
        c.(phase := Precharge, delay := TPrecharge, burst := b.(cancelPending := false))
      else
        var m := WriteWord(c.mem, b.addr, i.burstWdata);
        var nb := b.(addr := Inc32(b.addr), remaining := b.remaining - 1);
        if nb.remaining <= 0 then c.(phase := Idle, mem := m, burst := nb, pins := o.(done := true, ack := true))
        else c.(mem := m, burst := nb, pins := o.(wdataReq := true))
    case Precharge =>
      if d > 0 then c.(delay := d) else c.(phase := Idle, delay := d, pins := o.(ack := true))
    case Refresh =>
      if d > 0 then c.(delay := d) else c.(phase := Idle, delay := d, pins := o.(ready := true))
  }

  /** The states reset leads to: what each phase keeps true of its counters and pins. */
  ghost predicate Good(s: Sim) {
    var b := s.burst;
    && (s.pins.ready <==> s.phase != Refresh)
    && 0 <= s.refresh
    && InRange(s.mem)
    && (s.phase == Activate ==> 1 <= s.delay <= Trcd)
    && (s.phase == ReadCas ==> 1 <= s.delay <= CasLatency && !b.isWrite)
    && (s.phase == Precharge ==> 1 <= s.delay <= TPrecharge)
    && (s.phase == Refresh ==> 1 <= s.delay <= RefreshDuration)
    && ((s.phase == Activate || s.phase == ReadCas) && !b.isSingle ==> 1 <= b.remaining)
    && (s.phase == ReadBurst ==> !b.isSingle && !b.isWrite && 1 <= b.remaining)
    && (s.phase == WriteBurst ==> !b.isSingle && b.isWrite && 1 <= b.remaining)
    && (b.cancelPending ==> s.phase == ReadBurst)
  }

  /** Every clock keeps the invariant. */
  lemma EvalGood(s: Sim, i: Inputs)
    requires Good(s)
    ensures Good(Eval(s, i))
  {
    match s.phase
    case Idle => IdleGood(s, i);
    case Activate => ActivateGood(s, i);
    case ReadCas => ReadCasGood(s, i);
    case ReadBurst => ReadBurstGood(s, i);
    case WriteBurst => WriteBurstGood(s, i);
    case Precharge => CountGood(s, i);
    case Refresh => CountGood(s, i);
  }

  lemma IdleGood(s: Sim, i: Inputs)
    requires Good(s) && s.phase == Idle
    ensures Good(Eval(s, i))
  {
  }

  lemma ActivateGood(s: Sim, i: Inputs)
    requires Good(s) && s.phase == Activate
    ensures Good(Eval(s, i))
  {
    var b := s.burst;
    if s.delay - 1 <= 0 && b.isSingle && b.isWrite {
      ReadAfterWrite(s.mem, b.addr, i.wdata % 0x1_0000, 0);
      ReadAfterWrite(WriteWord(s.mem, b.addr, i.wdata % 0x1_0000), Inc32(b.addr), i.wdata / 0x1_0000, 0);
    }
  }

  lemma ReadCasGood(s: Sim, i: Inputs)
    requires Good(s) && s.phase == ReadCas
    ensures Good(Eval(s, i))
  {
  }

  lemma ReadBurstGood(s: Sim, i: Inputs)
    requires Good(s) && s.phase == ReadBurst
    ensures Good(Eval(s, i))
  {
  }

  lemma WriteBurstGood(s: Sim, i: Inputs)
    requires Good(s) && s.phase == WriteBurst
    ensures Good(Eval(s, i))
  {
    ReadAfterWrite(s.mem, s.burst.addr, i.burstWdata, 0);
  }

  lemma CountGood(s: Sim, i: Inputs)
    requires Good(s) && (s.phase == Precharge || s.phase == Refresh)
    ensures Good(Eval(s, i))
  {
  }

  // ---------------------------------------------------------------------
  // One clock

  /** The previous clock's pulses have no effect: eval clears them before anything reads them. */
  lemma EvalClearsPulses(s: Sim, i: Inputs, ack: bool, valid: bool, wreq: bool, done: bool)
    ensures Eval(s.(pins := s.pins.(ack := ack, dataValid := valid, wdataReq := wreq, done := done)), i) == Eval(s, i)
  {
    var s2 := s.(pins := s.pins.(ack := ack, dataValid := valid, wdataReq := wreq, done := done));
    assert Quiet(s2) == Quiet(s);
  }

  /** mem_ack is raised exactly when a transfer (not a refresh) returns to idle. */
  lemma AckMarksCompletion(s: Sim, i: Inputs)
    ensures Eval(s, i).pins.ack <==> s.phase != Idle && s.phase != Refresh && Eval(s, i).phase == Idle
  {
  }

  /** mem_burst_done is raised exactly when a burst, read or write, returns to idle. */
  lemma DoneMarksBurstEnd(s: Sim, i: Inputs)
    requires Good(s)
    ensures Eval(s, i).pins.done <==>
      !s.burst.isSingle && (s.phase == ReadCas || s.phase == ReadBurst || s.phase == WriteBurst) &&
      Eval(s, i).phase == Idle
  {
  }

  /** A valid read word is the one at the burst address, which then advances. */
  lemma DataValidDelivers(s: Sim, i: Inputs)
    ensures var r := Eval(s, i);
      r.pins.dataValid ==>
        (s.phase == ReadCas || s.phase == ReadBurst) && r.pins.rdata == ReadWord(s.mem, s.burst.addr) &&
        r.burst.addr == Inc32(s.burst.addr) && r.burst.remaining == s.burst.remaining - 1 && r.mem == s.mem
  {
  }

  /** Only a writing clock changes memory: a burst-write clock or a single write's last activation clock. */
  lemma MemoryChangesOnlyOnWrite(s: Sim, i: Inputs)
    ensures Eval(s, i).mem != s.mem ==>
      s.phase == WriteBurst || (s.phase == Activate && s.burst.isSingle && s.burst.isWrite)
  {
  }

  /**
   * A request is taken only in IDLE with mem_ready high and no refresh due,
   * and taking it latches the word address, direction and length.
   */
  lemma RequestAccepted(s: Sim, i: Inputs)
    ensures var r := Eval(s, i);
      (s.phase != Activate && r.phase == Activate) <==>
      (s.phase == Idle && s.pins.ready && i.req && s.refresh + 1 < RefreshInterval)
    ensures var r := Eval(s, i);
      s.phase != Activate && r.phase == Activate ==>
        r.delay == Trcd && r.burst.addr == i.addr / 2 && r.burst.isWrite == i.we &&
        r.burst.isSingle == (i.burstLen == 0) && r.burst.remaining == i.burstLen && r.mem == s.mem
  {
  }

  /** In IDLE the refresh takes precedence: once the counter reaches 781 the model refreshes, whatever is requested. */
  lemma RefreshStarts(s: Sim, i: Inputs)
    requires s.phase == Idle
    ensures var r := Eval(s, i);
      r.phase == Refresh <==> s.refresh + 1 >= RefreshInterval
    ensures var r := Eval(s, i);
      r.phase == Refresh ==> !r.pins.ready && r.delay == RefreshDuration && r.refresh == 0
  {
  }

  // ---------------------------------------------------------------------
  // The steps of a transfer, each as an explicit next state

  /** The bookkeeping of every clock: the counter advances and the pulses drop. */
  function Quiet(t: Sim): Sim {
    t.(refresh := t.refresh + 1, pins := t.pins.(ack := false, dataValid := false, wdataReq := false, done := false))
  }

  lemma AcceptSingle(s: Sim, i: Inputs)
    requires Accepting(s) && i.req && i.burstLen == 0
    ensures Eval(s, i) == Quiet(s).(phase := Activate, delay := Trcd,
      burst := s.burst.(addr := i.addr / 2, remaining := 0, isWrite := i.we, isSingle := true))
  {
  }

  lemma AcceptBurst(s: Sim, i: Inputs)
    requires Accepting(s) && i.req && i.burstLen >= 1
    ensures Eval(s, i) == Quiet(s).(phase := Activate, delay := Trcd, burst := Burst(i.addr / 2, i.burstLen, i.we, false, false))
  {
  }

  lemma CountDown(t: Sim, i: Inputs)
    requires (t.phase == Activate || t.phase == ReadCas || t.phase == Precharge || t.phase == Refresh) && t.delay > 1
    ensures Eval(t, i) == Quiet(t).(delay := t.delay - 1)
  {
  }

  lemma ActivateToCas(t: Sim, i: Inputs)
    requires t.phase == Activate && t.delay <= 1 && !t.burst.isWrite
    ensures Eval(t, i) == Quiet(t).(phase := ReadCas, delay := CasLatency)
  {
  }

  lemma ActivateToWriteBurst(t: Sim, i: Inputs)
    requires t.phase == Activate && t.delay <= 1 && t.burst.isWrite && !t.burst.isSingle
    ensures Eval(t, i) == Quiet(t).(phase := WriteBurst, delay := t.delay - 1, pins := Quiet(t).pins.(wdataReq := true))
  {
  }

  lemma ActivateWriteSingle(t: Sim, i: Inputs)
    requires t.phase == Activate && t.delay <= 1 && t.burst.isWrite && t.burst.isSingle
    ensures Eval(t, i) == Quiet(t).(phase := Idle, delay := t.delay - 1, mem := Write32(t.mem, t.burst.addr, i.wdata),
      pins := Quiet(t).pins.(ack := true))
  {
  }

  lemma CasReadSingle(t: Sim, i: Inputs)
    requires t.phase == ReadCas && t.delay <= 1 && t.burst.isSingle
    ensures var lo := ReadWord(t.mem, t.burst.addr);
      var hi := ReadWord(t.mem, Inc32(t.burst.addr));
      Eval(t, i) == Quiet(t).(phase := Idle, delay := t.delay - 1,
        pins := Quiet(t).pins.(rdata32 := lo + 0x1_0000 * hi, rdata := lo, ack := true))
  {
  }

  lemma CancelToPrecharge(t: Sim, i: Inputs)
    requires (t.phase == ReadBurst || t.phase == WriteBurst) && (i.cancel || t.burst.cancelPending)
    ensures Eval(t, i) == Quiet(t).(phase := Precharge, delay := TPrecharge, burst := t.burst.(cancelPending := false))
  {
  }

  lemma PrechargeDone(t: Sim, i: Inputs)
    requires t.phase == Precharge && t.delay <= 1
    ensures Eval(t, i) == Quiet(t).(phase := Idle, delay := t.delay - 1, pins := Quiet(t).pins.(ack := true))
  {
  }

  // ---------------------------------------------------------------------
  // Runs of clocks

  /** The state after one clock per input, in order. */
  function Run(s: Sim, ins: seq<Inputs>): Sim
    decreases |ins|
  {
    if ins == [] then s else Run(Eval(s, ins[0]), ins[1..])
  }

  /** A run from a reachable state stays among reachable states. */
  lemma {:induction false} RunGood(s: Sim, ins: seq<Inputs>)
    requires Good(s)
    ensures Good(Run(s, ins))
    decreases |ins|
  {
    if ins != [] {
      EvalGood(s, ins[0]);
      RunGood(Eval(s, ins[0]), ins[1..]);
    }
  }

  /** Running two input sequences back to back is running their concatenation. */
  lemma {:induction false} RunAppend(s: Sim, a: seq<Inputs>, b: seq<Inputs>)
    ensures Run(s, a + b) == Run(Run(s, a), b)
    decreases |a|
  {
    if a == [] {
      assert a + b == b;
    } else {
      assert (a + b)[1..] == a[1..] + b;
      RunAppend(Eval(s, a[0]), a[1..], b);
    }
  }

  /** One more clock at the end of a prefix. */
  lemma RunSnoc(s: Sim, ins: seq<Inputs>, j: nat)
    requires j < |ins|
    ensures Run(s, ins[..j + 1]) == Eval(Run(s, ins[..j]), ins[j])
  {
    assert ins[..j + 1] == ins[..j] + [ins[j]];
    RunAppend(s, ins[..j], [ins[j]]);
    assert [ins[j]][1..] == [];
  }

  lemma RunEmpty(s: Sim, ins: seq<Inputs>)
    ensures Run(s, ins[..0]) == s
  {
    assert ins[..0] == [];
  }

  // ---------------------------------------------------------------------
  // Auto-refresh

  /** Whatever the inputs, a refresh with `d` clocks to go holds mem_ready low for `d - 1` more clocks. */
  lemma {:induction false} RefreshCountdown(s: Sim, ins: seq<Inputs>)
    requires s.phase == Refresh && !s.pins.ready && |ins| < s.delay
    ensures var r := Run(s, ins);
      r.phase == Refresh && !r.pins.ready && r.delay == s.delay - |ins| && r.mem == s.mem
    decreases |ins|
  {
    if ins != [] {
      RefreshCountdown(Eval(s, ins[0]), ins[1..]);
    }
  }

  /** The last clock of a refresh, whatever the inputs: idle and ready again. */
  lemma RefreshEnds(s: Sim, ins: seq<Inputs>)
    requires s.phase == Refresh && !s.pins.ready && 1 <= s.delay && |ins| == s.delay
    ensures var r := Run(s, ins);
      r.phase == Idle && r.pins.ready && r.mem == s.mem
  {
    var k := |ins| - 1;
    assert ins == ins[..k] + [ins[k]];
    RefreshCountdown(s, ins[..k]);
    RunAppend(s, ins[..k], [ins[k]]);
    assert [ins[k]][1..] == [];
  }

  /**
   * Auto-refresh: the clock on which the counter reaches 781 in IDLE and
   * the five after it have mem_ready low; on the seventh the model is idle
   * and ready again.
   */
  lemma RefreshWindow(s: Sim, ins: seq<Inputs>)
    requires s.phase == Idle && s.refresh + 1 >= RefreshInterval && |ins| == 1 + RefreshDuration
    ensures forall m :: 1 <= m <= RefreshDuration ==>
      Run(s, ins[..m]).phase == Refresh && !Run(s, ins[..m]).pins.ready
    ensures Run(s, ins).phase == Idle && Run(s, ins).pins.ready && Run(s, ins).mem == s.mem
  {
    var t := Eval(s, ins[0]);
    assert ins[..1] == [ins[0]];
    assert Run(s, ins[..1]) == t;
    forall m | 1 <= m <= RefreshDuration
      ensures Run(s, ins[..m]).phase == Refresh && !Run(s, ins[..m]).pins.ready
    {
      assert ins[..m] == ins[..1] + ins[1..m];
      RunAppend(s, ins[..1], ins[1..m]);
      RefreshCountdown(t, ins[1..m]);
    }
    assert ins == ins[..1] + ins[1..];
    RunAppend(s, ins[..1], ins[1..]);
    RefreshEnds(t, ins[1..]);
  }

  /** With no requests, an idle model counts clocks and refreshes on the one that brings the count to 781. */
  lemma {:induction false} IdleCountsToRefresh(s: Sim, ins: seq<Inputs>)
    requires s.phase == Idle && 0 <= s.refresh && s.refresh + |ins| <= RefreshInterval
    requires forall j :: 0 <= j < |ins| ==> !ins[j].req
    ensures var r := Run(s, ins);
      s.refresh + |ins| < RefreshInterval ==> r.phase == Idle && r.refresh == s.refresh + |ins|
    ensures var r := Run(s, ins);
      s.refresh + |ins| == RefreshInterval && ins != [] ==> r.phase == Refresh && !r.pins.ready
    decreases |ins|
  {
    if ins != [] {
      assert forall j :: 0 <= j < |ins[1..]| ==> !ins[1..][j].req;
      if |ins| > 1 {
        IdleCountsToRefresh(Eval(s, ins[0]), ins[1..]);
      }
    }
  }

  // ---------------------------------------------------------------------
  // Single-word transfers

  /** The request pins of a single-word access. */
  predicate SingleRequest(i: Inputs, write: bool) {
    i.req && i.we == write && i.burstLen == 0
  }

  /** IDLE, ready, and no refresh due on the next clock: a request is taken. */
  predicate Accepting(s: Sim) {
    s.phase == Idle && s.pins.ready && 0 <= s.refresh && s.refresh + 1 < RefreshInterval
  }

  /**
   * A single write: two clocks of tRCD after the request clock, the 32-bit
   * data on the pins at that moment is stored and mem_ack pulses.
   */
  lemma SingleWrite(s: Sim, ins: seq<Inputs>)
    requires Accepting(s) && |ins| == 3 && SingleRequest(ins[0], true)
    ensures !Run(s, ins[..1]).pins.ack && !Run(s, ins[..2]).pins.ack
    ensures var r := Run(s, ins);
      r.phase == Idle && r.pins.ack && r.pins.ready && r.refresh == s.refresh + 3 &&
      r.mem == Write32(s.mem, ins[0].addr / 2, ins[2].wdata)
  {
    var t1 := Eval(s, ins[0]);
    var t2 := Eval(t1, ins[1]);
    AcceptSingle(s, ins[0]);
    CountDown(t1, ins[1]);
    ActivateWriteSingle(t2, ins[2]);
    RunEmpty(s, ins);
    RunSnoc(s, ins, 0);
    RunSnoc(s, ins, 1);
    RunSnoc(s, ins, 2);
    assert ins[..3] == ins;
  }

  /** Row activation and CAS latency of a single read: five clocks without mem_ack. */
  lemma SingleReadSetup(s: Sim, ins: seq<Inputs>)
    requires Accepting(s) && |ins| >= 5 && SingleRequest(ins[0], false)
    ensures forall m :: 1 <= m <= 5 ==> !Run(s, ins[..m]).pins.ack
    ensures var t := Run(s, ins[..5]);
      t.phase == ReadCas && t.delay == 1 && t.mem == s.mem && t.burst.isSingle && t.burst.addr == ins[0].addr / 2
  {
    var t1 := Eval(s, ins[0]);
    var t2 := Eval(t1, ins[1]);
    var t3 := Eval(t2, ins[2]);
    var t4 := Eval(t3, ins[3]);
    AcceptSingle(s, ins[0]);
    CountDown(t1, ins[1]);
    ActivateToCas(t2, ins[2]);
    CountDown(t3, ins[3]);
    CountDown(t4, ins[4]);
    RunEmpty(s, ins);
    RunSnoc(s, ins, 0);
    RunSnoc(s, ins, 1);
    RunSnoc(s, ins, 2);
    RunSnoc(s, ins, 3);
    RunSnoc(s, ins, 4);
    forall m | 1 <= m <= 5
      ensures !Run(s, ins[..m]).pins.ack
    {
      assert m == 1 || m == 2 || m == 3 || m == 4 || m == 5;
    }
  }

  /** A single read: after tRCD and CL, the 32 bits under the byte address appear with mem_ack. */
  lemma SingleRead(s: Sim, ins: seq<Inputs>)
    requires Accepting(s) && |ins| == 6 && SingleRequest(ins[0], false)
    ensures forall m :: 1 <= m < 6 ==> !Run(s, ins[..m]).pins.ack
    ensures var r := Run(s, ins);
      r.phase == Idle && r.pins.ack && r.mem == s.mem &&
      r.pins.rdata32 == ReadWord32(s.mem, ins[0].addr) && r.pins.rdata == ReadWord(s.mem, ins[0].addr / 2)
  {
    SingleReadSetup(s, ins);
    RunSnoc(s, ins, 5);
    CasReadSingle(Run(s, ins[..5]), ins[5]);
    assert ins[..6] == ins;
  }

  /** A single write followed by a single read of the same byte address returns the written word. */
  lemma SingleWriteThenRead(s: Sim, w: seq<Inputs>, rd: seq<Inputs>)
    requires Accepting(s) && s.refresh + 4 < RefreshInterval
    requires |w| == 3 && SingleRequest(w[0], true)
    requires |rd| == 6 && SingleRequest(rd[0], false) && rd[0].addr == w[0].addr
    requires w[0].addr / 2 + 1 < TotalWords
    ensures Run(s, w + rd).pins.ack && Run(s, w + rd).pins.rdata32 == w[2].wdata
  {
    SingleWrite(s, w);
    SingleRead(Run(s, w), rd);
    RunAppend(s, w, rd);
    Write32Read32(s.mem, w[0].addr, w[2].wdata);
  }

  // ---------------------------------------------------------------------
  // Burst reads

  /** The request pins of a burst. */
  predicate BurstRequest(i: Inputs, write: bool) {
    i.req && i.we == write && i.burstLen >= 1
  }

  /**
   * After `k` of the `n` words starting at word `base` have been
   * delivered: the last one is on the pins, and either the burst goes on
   * at the next word or, after the last word, it has ended with done and ack.
   */
  ghost predicate Streaming(t: Sim, base: nat, k: nat, n: nat, mem: Memory) {
    && 1 <= k <= n && base + n < 0x1_0000_0000
    && t.mem == mem && t.pins.dataValid && t.pins.rdata == ReadWord(mem, base + k - 1)
    && (k < n ==>
          t.phase == ReadBurst && t.burst.addr == base + k && t.burst.remaining == n - k &&
          !t.burst.cancelPending && !t.pins.done && !t.pins.ack)
    && (k == n ==> t.phase == Idle && t.pins.done && t.pins.ack)
  }

  /** Row activation and CAS latency of a burst read: five clocks with no data, ending in the last CL clock. */
  lemma ReadBurstSetup(s: Sim, ins: seq<Inputs>)
    requires Accepting(s) && |ins| >= 5 && BurstRequest(ins[0], false)
    ensures forall m :: 1 <= m <= 5 ==> !Run(s, ins[..m]).pins.dataValid
    ensures var t := Run(s, ins[..5]);
      t.phase == ReadCas && t.delay == 1 && t.mem == s.mem &&
      t.burst == Burst(ins[0].addr / 2, ins[0].burstLen, false, false, false)
  {
    var t1 := Eval(s, ins[0]);
    var t2 := Eval(t1, ins[1]);
    var t3 := Eval(t2, ins[2]);
    var t4 := Eval(t3, ins[3]);
    AcceptBurst(s, ins[0]);
    CountDown(t1, ins[1]);
    ActivateToCas(t2, ins[2]);
    CountDown(t3, ins[3]);
    CountDown(t4, ins[4]);
    RunEmpty(s, ins);
    RunSnoc(s, ins, 0);
    RunSnoc(s, ins, 1);
    RunSnoc(s, ins, 2);
    RunSnoc(s, ins, 3);
    RunSnoc(s, ins, 4);
    forall m | 1 <= m <= 5
      ensures !Run(s, ins[..m]).pins.dataValid
    {
      assert m == 1 || m == 2 || m == 3 || m == 4 || m == 5;
    }
  }

  /** Up to the first word: five quiet clocks after the request clock, then word 0. */
  lemma ReadBurstOpening(s: Sim, ins: seq<Inputs>)
    requires Accepting(s) && |ins| >= 6 && BurstRequest(ins[0], false) && !ins[5].cancel
    ensures forall m :: 1 <= m <= 5 ==> !Run(s, ins[..m]).pins.dataValid
    ensures Streaming(Run(s, ins[..6]), ins[0].addr / 2, 1, ins[0].burstLen, s.mem)
  {
    ReadBurstSetup(s, ins);
    RunSnoc(s, ins, 5);
    CasFirstWord(Run(s, ins[..5]), ins[5], ins[0].addr / 2, ins[0].burstLen, s.mem);
  }

  /** At the end of CL a burst delivers its first word. */
  lemma CasFirstWord(t: Sim, i: Inputs, base: nat, n: nat, mem: Memory)
    requires t.phase == ReadCas && t.delay <= 1 && !t.burst.isSingle && !t.burst.cancelPending && !i.cancel
    requires t.burst.addr == base && t.burst.remaining == n && 1 <= n && base + n < 0x1_0000_0000 && t.mem == mem
    ensures Streaming(Eval(t, i), base, 1, n, mem)
  {
  }

  /** Each further clock without a cancel delivers the next word. */
  lemma ReadBurstStep(t: Sim, i: Inputs, base: nat, k: nat, n: nat, mem: Memory)
    requires Streaming(t, base, k, n, mem) && k < n && !i.cancel
    ensures Streaming(Eval(t, i), base, k + 1, n, mem)
  {
  }

  lemma {:induction false} ReadBurstWords(s: Sim, ins: seq<Inputs>, k: nat)
    requires Accepting(s) && |ins| >= 6 && BurstRequest(ins[0], false)
    requires 1 <= k <= ins[0].burstLen && 5 + k <= |ins|
    requires forall j :: 5 <= j < |ins| ==> !ins[j].cancel
    ensures Streaming(Run(s, ins[..5 + k]), ins[0].addr / 2, k, ins[0].burstLen, s.mem)
  {
    if k == 1 {
      ReadBurstOpening(s, ins);
    } else {
      ReadBurstWords(s, ins, k - 1);
      RunSnoc(s, ins, 4 + k);
      ReadBurstStep(Run(s, ins[..4 + k]), ins[4 + k], ins[0].addr / 2, k - 1, ins[0].burstLen, s.mem);
    }
  }

  /**
   * A burst read of `n` words at byte address `a`: no data for five clocks
   * after the request clock (tRCD + CL), then one word per clock from word
   * `a / 2` upwards, with mem_burst_done and mem_ack on the last word only.
   */
  lemma BurstReadTimeline(s: Sim, ins: seq<Inputs>)
    requires Accepting(s) && |ins| >= 1 && BurstRequest(ins[0], false) && |ins| == 5 + ins[0].burstLen
    requires forall j :: 5 <= j < |ins| ==> !ins[j].cancel
    ensures forall m :: 1 <= m <= 5 ==> !Run(s, ins[..m]).pins.dataValid
    ensures forall m :: 6 <= m <= |ins| ==>
      Run(s, ins[..m]).pins.dataValid && Run(s, ins[..m]).pins.rdata == ReadWord(s.mem, ins[0].addr / 2 + m - 6)
    ensures forall m :: 6 <= m <= |ins| ==>
      (Run(s, ins[..m]).pins.done <==> m == |ins|) && (Run(s, ins[..m]).pins.ack <==> m == |ins|)
    ensures Run(s, ins).phase == Idle && Run(s, ins).mem == s.mem
  {
    ReadBurstOpening(s, ins);
    forall m | 6 <= m <= |ins|
      ensures Run(s, ins[..m]).pins.dataValid
      ensures Run(s, ins[..m]).pins.rdata == ReadWord(s.mem, ins[0].addr / 2 + m - 6)
      ensures Run(s, ins[..m]).pins.done <==> m == |ins|
      ensures Run(s, ins[..m]).pins.ack <==> m == |ins|
    {
      ReadBurstWords(s, ins, m - 5);
    }
    ReadBurstWords(s, ins, ins[0].burstLen);
    assert ins[..|ins|] == ins;
  }

  // ---------------------------------------------------------------------
  // Burst writes

  /** The words a burst stores: `ws[j]` at word `base + j`, in order. */
  function Writes(mem: Memory, base: nat, ws: seq<U16>): Memory
    decreases |ws|
  {
    if ws == [] then mem
    else WriteWord(Writes(mem, base, ws[..|ws| - 1]), base + |ws| - 1, ws[|ws| - 1])
  }

  /** Within range, the words a burst stored read back in order, and the rest of memory is as it was. */
  lemma {:induction false} WritesRead(mem: Memory, base: nat, ws: seq<U16>, a: nat)
    requires base + |ws| <= TotalWords
    ensures ReadWord(Writes(mem, base, ws), a) ==
      if base <= a < base + |ws| then ws[a - base] else ReadWord(mem, a)
    decreases |ws|
  {
    if ws != [] {
      var ws' := ws[..|ws| - 1];
      WritesRead(mem, base, ws', a);
      ReadAfterWrite(Writes(mem, base, ws'), base + |ws| - 1, ws[|ws| - 1], a);
    }
  }

  /** The burst write data on the pins of a run of clocks. */
  function WriteData(ins: seq<Inputs>): (ws: seq<U16>)
    ensures |ws| == |ins| && forall j :: 0 <= j < |ins| ==> ws[j] == ins[j].burstWdata
  {
    seq(|ins|, j requires 0 <= j < |ins| => ins[j].burstWdata)
  }

  /** After `k` of `n` words of a burst write: the first `k` data words are stored and the next is requested. */
  ghost predicate Storing(t: Sim, base: nat, k: nat, n: nat, mem: Memory, ws: seq<U16>) {
    && k < n && n == |ws| && base + n < 0x1_0000_0000
    && t.phase == WriteBurst && t.burst.addr == base + k && t.burst.remaining == n - k
    && !t.burst.cancelPending && t.pins.wdataReq && !t.pins.done && !t.pins.ack
    && t.mem == Writes(mem, base, ws[..k])
  }

  lemma WriteBurstStep(t: Sim, i: Inputs, base: nat, k: nat, n: nat, mem: Memory, ws: seq<U16>)
    requires Storing(t, base, k, n, mem, ws) && !i.cancel && i.burstWdata == ws[k]
    ensures var r := Eval(t, i);
      if k + 1 < n then Storing(r, base, k + 1, n, mem, ws)
      else r.phase == Idle && r.pins.done && r.pins.ack && r.mem == Writes(mem, base, ws)
  {
    assert ws[..k + 1][..k] == ws[..k];
    if k + 1 == n {
      assert ws[..k + 1] == ws;
    }
  }

  /** Up to the first data word: two clocks after the request clock, the first word is requested. */
  lemma WriteBurstOpening(s: Sim, ins: seq<Inputs>)
    requires Accepting(s) && |ins| >= 3 && BurstRequest(ins[0], true) && |ins| == 3 + ins[0].burstLen
    ensures Storing(Run(s, ins[..3]), ins[0].addr / 2, 0, ins[0].burstLen, s.mem, WriteData(ins[3..]))
  {
    var t1 := Eval(s, ins[0]);
    var t2 := Eval(t1, ins[1]);
    AcceptBurst(s, ins[0]);
    CountDown(t1, ins[1]);
    ActivateToWriteBurst(t2, ins[2]);
    RunEmpty(s, ins);
    RunSnoc(s, ins, 0);
    RunSnoc(s, ins, 1);
    RunSnoc(s, ins, 2);
    assert WriteData(ins[3..])[..0] == [];
  }

  lemma {:induction false} WriteBurstWords(s: Sim, ins: seq<Inputs>, k: nat)
    requires Accepting(s) && |ins| >= 3 && BurstRequest(ins[0], true) && |ins| == 3 + ins[0].burstLen
    requires forall j :: 3 <= j < |ins| ==> !ins[j].cancel
    requires k < ins[0].burstLen
    ensures Storing(Run(s, ins[..3 + k]), ins[0].addr / 2, k, ins[0].burstLen, s.mem, WriteData(ins[3..]))
  {
    if k == 0 {
      WriteBurstOpening(s, ins);
    } else {
      WriteBurstWords(s, ins, k - 1);
      RunSnoc(s, ins, 2 + k);
      WriteBurstStep(Run(s, ins[..2 + k]), ins[2 + k], ins[0].addr / 2, k - 1, ins[0].burstLen, s.mem, WriteData(ins[3..]));
    }
  }

  /**
   * A burst write of `n` words at byte address `a`: mem_burst_wdata_req
   * rises two clocks after the request clock, then each clock stores the
   * word on the data pins, from word `a / 2` upwards; the last one ends the
   * burst with done and ack.
   */
  lemma BurstWriteTimeline(s: Sim, ins: seq<Inputs>)
    requires Accepting(s) && |ins| >= 3 && BurstRequest(ins[0], true) && |ins| == 3 + ins[0].burstLen
    requires forall j :: 3 <= j < |ins| ==> !ins[j].cancel
    ensures Run(s, ins[..3]).phase == WriteBurst && Run(s, ins[..3]).pins.wdataReq
    ensures var r := Run(s, ins);
      r.phase == Idle && r.pins.done && r.pins.ack && r.mem == Writes(s.mem, ins[0].addr / 2, WriteData(ins[3..]))
  {
    var n: nat := ins[0].burstLen;
    WriteBurstWords(s, ins, 0);
    WriteBurstWords(s, ins, n - 1);
    RunSnoc(s, ins, 2 + n);
    WriteBurstStep(Run(s, ins[..2 + n]), ins[2 + n], ins[0].addr / 2, n - 1, n, s.mem, WriteData(ins[3..]));
    assert ins[..3 + n] == ins;
  }

  // ---------------------------------------------------------------------
  // Burst cancel

  /**
   * A cancel during a burst (raised now, or latched on the first read word)
   * moves no data and precharges; mem_ack follows two clocks later.
   */
  lemma BurstCancel(t: Sim, ins: seq<Inputs>)
    requires t.phase == ReadBurst || t.phase == WriteBurst
    requires |ins| == 3 && (ins[0].cancel || t.burst.cancelPending)
    ensures var r := Run(t, ins[..1]);
      r.phase == Precharge && !r.pins.ack && !r.pins.dataValid && !r.pins.done && r.mem == t.mem
    ensures var r := Run(t, ins[..2]);
      r.phase == Precharge && !r.pins.ack
    ensures var r := Run(t, ins);
      r.phase == Idle && r.pins.ack && !r.pins.done && r.mem == t.mem
  {
    var t1 := Eval(t, ins[0]);
    CancelToPrecharge(t, ins[0]);
    var t2 := Eval(t1, ins[1]);
    CountDown(t1, ins[1]);
    PrechargeDone(t2, ins[2]);
    RunEmpty(t, ins);
    RunSnoc(t, ins, 0);
    RunSnoc(t, ins, 1);
    RunSnoc(t, ins, 2);
    assert ins[..3] == ins;
  }
}
