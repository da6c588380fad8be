/** A model of the ICWS '94 draft core in src/mars/mod.rs: the instruction
    record, the bounded per-warrior task queue, the `fold` locality
    restriction, A-operand evaluation of the example interpreter `emi94`,
    and the builder that fills a fresh core.

    Addresses are the draft's `u32`; here they are `nat`, and the callers'
    obligations that keep the Rust arithmetic from underflowing or indexing
    out of range are stated as preconditions. */
module Mars {

  type Address = nat

  datatype Option<T> = None | Some(value: T)

  datatype Opcode =
    | DAT | MOV | ADD | SUB | MUL | DIV | MOD | JMP | JMZ | JMN
    | DJN | CMP | SLT | SPL | SEQ | SNE | NOP | LDP | STP

  datatype Modifier = A | B | AB | BA | F | X | I

  datatype Mode = IMMEDIATE | DIRECT | INDIRECT | DECREMENT | INCREMENT

  datatype Instruction = Instruction(
    opcode: Opcode,
    modifier: Modifier,
    a_mode: Mode,
    a_number: Address,
    b_mode: Mode,
    b_number: Address)

  // The `Default` implementations of the three enumerations.
  const DefaultOpcode: Opcode := DAT
  const DefaultModifier: Modifier := A
  const DefaultMode: Mode := IMMEDIATE

  /** The derived `Instruction::default()`: every field takes its own default
      (numbers are `u32`, whose default is 0). */
  function DefaultInstruction(): Instruction {
    Instruction(DefaultOpcode, DefaultModifier, DefaultMode, 0, DefaultMode, 0)
  }

  /** `Instruction::random()` is still a stub that returns the default. */
  function Random(): Instruction {
    DefaultInstruction()
  }

  lemma DefaultIsDatImmediate()
    ensures DefaultInstruction() == Instruction(DAT, A, IMMEDIATE, 0, IMMEDIATE, 0)
    ensures Random() == DefaultInstruction()
  {
  }

  // ---------------------------------------------------------------------
  // Task queue

  /** The effect of `TaskQueue::queue` on the pending program counters:
      the address is appended only while the queue is below its limit. */
  function Enqueue(tasks: seq<Address>, limit: nat, addr: Address): seq<Address> {
    if |tasks| < limit then tasks + [addr] else tasks
  }

  /** Queueing the addresses of `addrs` one after another. */
  function EnqueueAll(tasks: seq<Address>, limit: nat, addrs: seq<Address>): seq<Address>
    decreases |addrs|
  {
    if addrs == [] then tasks
    else EnqueueAll(Enqueue(tasks, limit, addrs[0]), limit, addrs[1..])
  }

  function Min(x: nat, y: nat): nat {
    if x <= y then x else y
  }

  /** FIFO with capacity drop: starting below the limit, a run of enqueues
      keeps exactly as many of the new addresses as there is room for, in
      the order they were offered, and drops the rest. */
  lemma {:induction false} EnqueueAllKeepsFirst(tasks: seq<Address>, limit: nat, addrs: seq<Address>)
    requires |tasks| <= limit
    ensures EnqueueAll(tasks, limit, addrs) == tasks + addrs[..Min(limit - |tasks|, |addrs|)]
    decreases |addrs|
  {
    if addrs != [] {
      var next := Enqueue(tasks, limit, addrs[0]);
      EnqueueAllKeepsFirst(next, limit, addrs[1..]);
      if |tasks| < limit {
        assert next == tasks + [addrs[0]];
        assert addrs[..Min(limit - |tasks|, |addrs|)]
            == [addrs[0]] + addrs[1..][..Min(limit - |next|, |addrs| - 1)];
      } else {
        assert next == tasks;
      }
    }
  }

  /** A warrior's bounded FIFO of process program counters. */
  class TaskQueue {
    var taskLimit: nat
    var taskPointer: seq<Address>

    /** The queue never holds more than its limit. */
    ghost predicate Valid()
      reads this
    {
      |taskPointer| <= taskLimit
    }

    constructor (limit: nat)
      ensures Valid()
      ensures taskLimit == limit && taskPointer == []
    {
      taskLimit := limit;
      taskPointer := [];
    }

    method Queue(addr: Address)
      requires Valid()
      modifies this
      ensures Valid()
      ensures taskLimit == old(taskLimit)
      ensures taskPointer == Enqueue(old(taskPointer), taskLimit, addr)
      ensures old(|taskPointer|) < taskLimit ==> taskPointer == old(taskPointer) + [addr]
      ensures old(|taskPointer|) >= taskLimit ==> taskPointer == old(taskPointer)
    {
      if |taskPointer| < taskLimit {
        taskPointer := taskPointer + [addr];
      }
    }

    method Next() returns (r: Option<Address>)
      requires Valid()
      modifies this
      ensures Valid()
      ensures taskLimit == old(taskLimit)
      ensures old(taskPointer) != [] ==>
                r == Some(old(taskPointer)[0]) && taskPointer == old(taskPointer)[1..]
      ensures old(taskPointer) == [] ==> r == None && taskPointer == old(taskPointer)
    {
      if |taskPointer| > 0 {
        r := Some(taskPointer[0]);
        taskPointer := taskPointer[1..];
      } else {
        r := None;
      }
    }
  }

  /** The `task_queue_simple` unit test. */
  method TaskQueueSimple() returns (first: Option<Address>, second: Option<Address>, third: Option<Address>)
    ensures first == Some(1) && second == Some(3) && third == None
  {
    var tq := new TaskQueue(2);
    tq.Queue(1);
    tq.Queue(3);
    first := tq.Next();
    second := tq.Next();
    third := tq.Next();
  }

  /** The `task_queue_limit` unit test: the fourth address is dropped. */
  method TaskQueueLimit() returns (results: seq<Option<Address>>)
    ensures results == [Some(100), Some(200), Some(300), None]
  {
    var tq := new TaskQueue(3);
    tq.Queue(100);
    tq.Queue(200);
    tq.Queue(300);
    tq.Queue(400);
    var a := tq.Next();
    var b := tq.Next();
    var c := tq.Next();
    var d := tq.Next();
    results := [a, b, c, d];
  }

  /** The `task_queue_empty` unit test. */
  method TaskQueueEmpty() returns (r: Option<Address>)
    ensures r == None
  {
    var tq := new TaskQueue(100);
    r := tq.Next();
  }

  // ---------------------------------------------------------------------
  // Fold

  /** `Core::fold`: reduce `pointer` modulo `limit` and move the upper half
      of that range to the top of the core, so that it stands for a
      negative offset. The core size is the `self` field the method reads. */
  function Fold(coreSize: Address, pointer: Address, limit: Address): (r: Address)
    requires 0 < limit <= coreSize
    ensures r < coreSize
  {
    var result := pointer % limit;
    if result > limit / 2 then result + (coreSize - limit) else result
  }

  /** The window of signed offsets a limit allows: `limit` consecutive
      integers centred on zero, the extra one (for an even limit) on the
      positive side. */
  ghost predicate InWindow(d: int, limit: nat) {
    -((limit - 1) / 2) <= d <= limit / 2
  }

  lemma ModOfSmall(x: int, m: int)
    requires 0 < m && 0 <= x < m
    ensures x % m == x
  {
  }

  lemma ModOfNegative(x: int, m: int)
    requires 0 < m && -m <= x < 0
    ensures x % m == x + m
  {
  }

  /** Fold is exact: it returns, as an address of the core, the one offset
      of the window that agrees with `pointer` modulo `limit`. */
  lemma FoldIsCenteredOffset(coreSize: Address, pointer: Address, limit: Address, d: int)
    requires 0 < limit <= coreSize
    requires InWindow(d, limit) && d % limit == pointer % limit
    ensures Fold(coreSize, pointer, limit) == d % coreSize
  {
    var r := pointer % limit;
    if d >= 0 {
      ModOfSmall(d, limit);
      ModOfSmall(d, coreSize);
      assert r == d;
    } else {
      ModOfNegative(d, limit);
      ModOfNegative(d, coreSize);
      assert r == d + limit;
      assert r > limit / 2;
    }
  }

  /** Every pointer has such an offset in the window. */
  lemma CenteredOffsetExists(pointer: Address, limit: Address) returns (d: int)
    requires 0 < limit
    ensures InWindow(d, limit) && d % limit == pointer % limit
  {
    var r := pointer % limit;
    if r > limit / 2 {
      d := r - limit;
      ModOfNegative(d, limit);
    } else {
      d := r;
      ModOfSmall(d, limit);
    }
  }

  /** With the limit equal to the core size the restriction vanishes: fold
      is plain reduction modulo the core size. */
  lemma FoldWholeCore(coreSize: Address, pointer: Address)
    requires 0 < coreSize
    ensures Fold(coreSize, pointer, coreSize) == pointer % coreSize
  {
  }

  /** The pre-decrement of `emi94` steps a reduced number down by one modulo
      the core size. */
  lemma PredecrementStepsDown(b: Address, coreSize: Address)
    requires b < coreSize
    ensures (b + coreSize - 1) % coreSize == if b == 0 then coreSize - 1 else b - 1
  {
  }

  // ---------------------------------------------------------------------
  // A-operand evaluation

  /** What evaluating an A-operand yields: the memory afterwards, the read
      and write offsets from the program counter, and the cell that a `>`
      operand is to increment later, if any. */
  datatype AOperand = AOperand(memory: seq<Instruction>, rpa: Address, wpa: Address, pip: Option<Address>)

  /** Every stored B-number is already reduced modulo the core size. */
  predicate BNumbersReduced(memory: seq<Instruction>, coreSize: Address) {
    forall i :: 0 <= i < |memory| ==> memory[i].b_number < coreSize
  }

  /** What `emi94` needs to evaluate the A-operand at `pc` without a panic:
      the cell exists, and an operand that is not immediate reaches `fold`,
      so both limits must lie within the core size. */
  predicate CanEvaluateA(memory: seq<Instruction>, pc: Address, coreSize: Address,
                         readLimit: Address, writeLimit: Address)
  {
    |memory| == coreSize && pc < coreSize &&
    (memory[pc].a_mode != IMMEDIATE ==>
       0 < readLimit <= coreSize && 0 < writeLimit <= coreSize)
  }

  /** The memory with the B-number of cell `d` stepped down modulo the core
      size, as a `<` operand does. */
  function Predecrement(memory: seq<Instruction>, d: Address, coreSize: Address): seq<Instruction>
    requires d < |memory| && d < coreSize
  {
    memory[d := memory[d].(b_number := (memory[d].b_number + coreSize - 1) % coreSize)]
  }

  /** The second fold of an indirect operand: the offset plus the B-number
      of the cell it points at, folded by the limit again. */
  function Refold(memory: seq<Instruction>, pc: Address, coreSize: Address,
                  limit: Address, offset: Address): Address
    requires |memory| == coreSize && 0 < limit <= coreSize
  {
    Fold(coreSize, offset + memory[(pc + offset) % coreSize].b_number, limit)
  }

  /** A-operand evaluation of `emi94` on a snapshot of the memory. */
  function EvaluateA(memory: seq<Instruction>, pc: Address, coreSize: Address,
                     readLimit: Address, writeLimit: Address): AOperand
    requires CanEvaluateA(memory, pc, coreSize, readLimit, writeLimit)
  {
    var ir := memory[pc];
    if ir.a_mode == IMMEDIATE then
      AOperand(memory, 0, 0, None)
    else
      var rpa := Fold(coreSize, ir.a_number, readLimit);
      var wpa := Fold(coreSize, ir.a_number, writeLimit);
      if ir.a_mode == DIRECT then
        AOperand(memory, rpa, wpa, None)
      else
        var after := if ir.a_mode == DECREMENT then Predecrement(memory, (pc + wpa) % coreSize, coreSize)
                     else memory;
        var pip := if ir.a_mode == INCREMENT then Some((pc + wpa) % coreSize) else None;
        AOperand(after, Refold(after, pc, coreSize, readLimit, rpa),
                 Refold(after, pc, coreSize, writeLimit, wpa), pip)
  }

  /** The last step of evaluating a `@`, `<` or `>` operand: once the
      memory has had its pre-decrement (if any) and both pointers have been
      refolded through it, the outcome is that of `EvaluateA`. */
  lemma IndirectModesStep(memory: seq<Instruction>, pc: Address, coreSize: Address,
                          readLimit: Address, writeLimit: Address,
                          after: seq<Instruction>, rpa: Address, wpa: Address, pip: Option<Address>)
    requires CanEvaluateA(memory, pc, coreSize, readLimit, writeLimit)
    requires memory[pc].a_mode in {INDIRECT, DECREMENT, INCREMENT}
    requires var w0 := Fold(coreSize, memory[pc].a_number, writeLimit);
             after == (if memory[pc].a_mode == DECREMENT then Predecrement(memory, (pc + w0) % coreSize, coreSize)
                       else memory) &&
             pip == (if memory[pc].a_mode == INCREMENT then Some((pc + w0) % coreSize) else None)
    requires |after| == coreSize
    requires rpa == Refold(after, pc, coreSize, readLimit, Fold(coreSize, memory[pc].a_number, readLimit))
    requires wpa == Refold(after, pc, coreSize, writeLimit, Fold(coreSize, memory[pc].a_number, writeLimit))
    ensures AOperand(after, rpa, wpa, pip) == EvaluateA(memory, pc, coreSize, readLimit, writeLimit)
  {
  }

  /** An immediate operand points at the instruction itself and touches no
      memory. */
  lemma ImmediateOperand(memory: seq<Instruction>, pc: Address, coreSize: Address,
                         readLimit: Address, writeLimit: Address)
    requires CanEvaluateA(memory, pc, coreSize, readLimit, writeLimit)
    requires memory[pc].a_mode == IMMEDIATE
    ensures EvaluateA(memory, pc, coreSize, readLimit, writeLimit) == AOperand(memory, 0, 0, None)
  {
  }

  /** A direct operand's offsets are its A-number folded by each limit; the
      memory is unchanged. */
  lemma DirectOperand(memory: seq<Instruction>, pc: Address, coreSize: Address,
                      readLimit: Address, writeLimit: Address)
    requires CanEvaluateA(memory, pc, coreSize, readLimit, writeLimit)
    requires memory[pc].a_mode == DIRECT
    ensures EvaluateA(memory, pc, coreSize, readLimit, writeLimit)
              == AOperand(memory, Fold(coreSize, memory[pc].a_number, readLimit),
                          Fold(coreSize, memory[pc].a_number, writeLimit), None)
  {
  }

  /** The `@`, `<` and `>` operands add the B-number found at each direct
      pointer, read from the memory after any pre-decrement, and fold again. */
  lemma IndirectModesRefold(memory: seq<Instruction>, pc: Address, coreSize: Address,
                            readLimit: Address, writeLimit: Address)
    requires CanEvaluateA(memory, pc, coreSize, readLimit, writeLimit)
    requires memory[pc].a_mode in {INDIRECT, DECREMENT, INCREMENT}
    ensures var r := EvaluateA(memory, pc, coreSize, readLimit, writeLimit);
            var r0 := Fold(coreSize, memory[pc].a_number, readLimit);
            var w0 := Fold(coreSize, memory[pc].a_number, writeLimit);
            |r.memory| == coreSize &&
            r.rpa == Fold(coreSize, r0 + r.memory[(pc + r0) % coreSize].b_number, readLimit) &&
            r.wpa == Fold(coreSize, w0 + r.memory[(pc + w0) % coreSize].b_number, writeLimit)
  {
  }

  /** A `<` operand changes exactly one field of one cell: the B-number of
      the cell at the direct write pointer steps down modulo the core size. */
  lemma DecrementOperand(memory: seq<Instruction>, pc: Address, coreSize: Address,
                         readLimit: Address, writeLimit: Address)
    requires CanEvaluateA(memory, pc, coreSize, readLimit, writeLimit)
    requires memory[pc].a_mode == DECREMENT
    ensures var r := EvaluateA(memory, pc, coreSize, readLimit, writeLimit);
            var d := (pc + Fold(coreSize, memory[pc].a_number, writeLimit)) % coreSize;
            |r.memory| == coreSize && r.pip == None &&
            r.memory[d] == memory[d].(b_number := (memory[d].b_number + coreSize - 1) % coreSize) &&
            forall i :: 0 <= i < coreSize && i != d ==> r.memory[i] == memory[i]
  {
  }

  /** A `@` operand touches no memory and leaves nothing to increment. */
  lemma IndirectOperand(memory: seq<Instruction>, pc: Address, coreSize: Address,
                        readLimit: Address, writeLimit: Address)
    requires CanEvaluateA(memory, pc, coreSize, readLimit, writeLimit)
    requires memory[pc].a_mode == INDIRECT
    ensures var r := EvaluateA(memory, pc, coreSize, readLimit, writeLimit);
            r.memory == memory && r.pip == None
  {
  }

  /** A `>` operand touches no memory yet; it records the cell at the
      direct write pointer for the increment after the instruction. */
  lemma IncrementOperand(memory: seq<Instruction>, pc: Address, coreSize: Address,
                         readLimit: Address, writeLimit: Address)
    requires CanEvaluateA(memory, pc, coreSize, readLimit, writeLimit)
    requires memory[pc].a_mode == INCREMENT
    ensures var r := EvaluateA(memory, pc, coreSize, readLimit, writeLimit);
            r.memory == memory &&
            r.pip == Some((pc + Fold(coreSize, memory[pc].a_number, writeLimit)) % coreSize)
  {
  }

  /** Whatever the mode, both offsets and the increment cell are addresses
      of the core, the memory keeps its size, and reduced B-numbers stay
      reduced. */
  lemma EvaluateAInCore(memory: seq<Instruction>, pc: Address, coreSize: Address,
                        readLimit: Address, writeLimit: Address)
    requires CanEvaluateA(memory, pc, coreSize, readLimit, writeLimit)
    ensures var r := EvaluateA(memory, pc, coreSize, readLimit, writeLimit);
            r.rpa < coreSize && r.wpa < coreSize && |r.memory| == coreSize &&
            (r.pip.Some? ==> r.pip.value < coreSize) &&
            (BNumbersReduced(memory, coreSize) ==> BNumbersReduced(r.memory, coreSize))
  {
  }

  // ---------------------------------------------------------------------
  // Core and its builder

  datatype InitialInstruction = Default | Random | Fixed(insn: Instruction)

  /** The instruction `build` pushes for each cell. */
  function InitialFill(init: InitialInstruction): Instruction {
    match init
    case Default => DefaultInstruction()
    case Random => Random()
    case Fixed(insn) => insn
  }

  /** The `for` loop of `CoreBuilder::build`: `coreSize` pushes of the
      selected initial instruction. */
  method FillInstructions(coreSize: Address, init: InitialInstruction) returns (instructions: seq<Instruction>)
    ensures |instructions| == coreSize
    ensures forall k :: 0 <= k < coreSize ==> instructions[k] == InitialFill(init)
  {
    instructions := [];
    for i := 0 to coreSize
      invariant |instructions| == i
      invariant forall k :: 0 <= k < i ==> instructions[k] == InitialFill(init)
    {
      instructions := instructions + [InitialFill(init)];
    }
  }

  class Core {
    var coreSize: Address
    var core: array<Instruction>
    var warrior: seq<TaskQueue>
    var pc: Address
    var readLimit: Address
    var writeLimit: Address

    /** The memory holds `coreSize` cells and there are two distinct,
        well-formed warrior queues. */
    ghost predicate Valid()
      reads this, warrior
    {
      core.Length == coreSize &&
      |warrior| == 2 && warrior[0] != warrior[1] &&
      warrior[0].Valid() && warrior[1].Valid()
    }

    /** The struct literal at the end of `build`. */
    constructor (coreSize: Address, instructions: seq<Instruction>, warrior: seq<TaskQueue>,
                 pc: Address, readLimit: Address, writeLimit: Address)
      ensures fresh(core)
      ensures this.coreSize == coreSize && core[..] == instructions
      ensures this.warrior == warrior && this.pc == pc
      ensures this.readLimit == readLimit && this.writeLimit == writeLimit
      ensures (|instructions| == coreSize && |warrior| == 2 && warrior[0] != warrior[1] &&
               warrior[0].Valid() && warrior[1].Valid()) ==> Valid()
    {
      this.coreSize := coreSize;
      this.core := new Instruction[|instructions|](i requires 0 <= i < |instructions| => instructions[i]);
      this.warrior := warrior;
      this.pc := pc;
      this.readLimit := readLimit;
      this.writeLimit := writeLimit;
    }

    /** `Core::queue`: enqueue onto one warrior's queue, nothing else. */
    method Queue(w: nat, taskPointer: Address)
      requires Valid() && w < 2
      modifies warrior[w]
      ensures Valid()
      ensures warrior[w].taskLimit == old(warrior[w].taskLimit)
      ensures warrior[w].taskPointer == Enqueue(old(warrior[w].taskPointer), warrior[w].taskLimit, taskPointer)
      ensures warrior[1 - w].taskPointer == old(warrior[1 - w].taskPointer)
      ensures core[..] == old(core[..])
    {
      warrior[w].Queue(taskPointer);
    }

    /** A-operand evaluation of `emi94` for the instruction at `pc`. The
        read and write offsets and the cell a `>` operand is to increment,
        locals of the source, are returned so that they can be stated. */
    method Emi94() returns (rpa: Address, wpa: Address, pip: Option<Address>)
      requires Valid()
      requires CanEvaluateA(core[..], pc, coreSize, readLimit, writeLimit)
      modifies core
      ensures Valid()
      ensures AOperand(core[..], rpa, wpa, pip)
                == EvaluateA(old(core[..]), pc, coreSize, readLimit, writeLimit)
    {
      ghost var before := core[..];
      var ir := core[pc];
      pip := None;

      if ir.a_mode == IMMEDIATE {
        rpa := 0;
        wpa := 0;
        ImmediateOperand(before, pc, coreSize, readLimit, writeLimit);
      } else {
        rpa := Fold(coreSize, ir.a_number, readLimit);
        wpa := Fold(coreSize, ir.a_number, writeLimit);

        if ir.a_mode != DIRECT {
          if ir.a_mode == DECREMENT {
            var d := (pc + wpa) % coreSize;
            core[d] := core[d].(b_number := (core[d].b_number + coreSize - 1) % coreSize);
            assert core[..] == Predecrement(before, d, coreSize);
          }
          ghost var after := core[..];

          if ir.a_mode == INCREMENT {
            pip := Some((pc + wpa) % coreSize);
          }

          rpa := Refold(core[..], pc, coreSize, readLimit, rpa);
          wpa := Refold(core[..], pc, coreSize, writeLimit, wpa);
          IndirectModesStep(before, pc, coreSize, readLimit, writeLimit, after, rpa, wpa, pip);
        } else {
          DirectOperand(before, pc, coreSize, readLimit, writeLimit);
        }
      }
    }
  }

  class CoreBuilder {
    var coreSize: Address
    var initialInstruction: InitialInstruction
    var taskLimit: nat

    /** `CoreBuilder::new`: 8192 cells of the default instruction, 64 tasks. */
    constructor ()
      ensures coreSize == 8192 && initialInstruction == Default && taskLimit == 64
    {
      coreSize := 8192;
      initialInstruction := Default;
      taskLimit := 64;
    }

    method Build() returns (c: Core)
      ensures c.Valid()
      ensures fresh(c) && fresh(c.core) && fresh(c.warrior[0]) && fresh(c.warrior[1])
      ensures c.coreSize == coreSize && c.core.Length == coreSize
      ensures forall i :: 0 <= i < coreSize ==> c.core[i] == InitialFill(initialInstruction)
      ensures c.warrior[0].taskLimit == taskLimit && c.warrior[0].taskPointer == []
      ensures c.warrior[1].taskLimit == taskLimit && c.warrior[1].taskPointer == []
      ensures c.pc == 0 && c.readLimit == 300 && c.writeLimit == 300
    {
      var instructions := FillInstructions(coreSize, initialInstruction);
      var w0 := new TaskQueue(taskLimit);
      var w1 := new TaskQueue(taskLimit);
      c := new Core(coreSize, instructions, [w0, w1], 0, 300, 300);
    }
  }
}
