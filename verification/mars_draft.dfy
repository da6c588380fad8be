/** A model of the older ICWS '94 draft in src/mars.rs. It diverges from
    src/mars/mod.rs: the instruction fields are `a_address`/`b_address`, the
    auto-modifying modes are named PREDECREMENT/POSTINCREMENT, there are no
    read or write limits in the core, and the task queue starts as `[0]`
    and never consults its limit. */
module MarsDraft {

  import Mars

  type Address = nat

  datatype Opcode =
    | DAT | MOV | ADD | SUB | MUL | DIV | MOD | JMP | JMZ | JMN
    | DJN | CMP | SLT | SPL | SEQ | SNE | NOP | LDP | STP

  datatype Modifier = A | B | AB | BA | F | X | I

  datatype Mode = IMMEDIATE | DIRECT | INDIRECT | PREDECREMENT | POSTINCREMENT

  datatype Instruction = Instruction(
    opcode: Opcode,
    modifier: Modifier,
    a_mode: Mode,
    a_address: Address,
    b_mode: Mode,
    b_address: Address)

  // The `Default` implementations of the three enumerations.
  const DefaultOpcode: Opcode := DAT
  const DefaultModifier: Modifier := A
  const DefaultMode: Mode := IMMEDIATE

  /** The derived `Instruction::default()` (the hand-written one with
      modifier F is commented out in this draft). */
  function DefaultInstruction(): Instruction {
    Instruction(DefaultOpcode, DefaultModifier, DefaultMode, 0, DefaultMode, 0)
  }

  /** `Instruction::random()` is a stub that returns the default. */
  function Random(): Instruction {
    DefaultInstruction()
  }

  // ---------------------------------------------------------------------
  // Task queue

  /** The draft's task queue: it starts with one process at address 0 and
      grows without bound. */
  class TaskQueue {
    var taskLimit: nat
    var taskPointer: seq<Address>

    constructor (limit: nat)
      ensures taskLimit == limit && taskPointer == [0]
    {
      taskLimit := limit;
      taskPointer := [0];
    }

    method Queue(addr: Address)
      modifies this
      ensures taskLimit == old(taskLimit)
      ensures taskPointer == old(taskPointer) + [addr]
    {
      taskPointer := taskPointer + [addr];
    }
  }

  /** The limit is stored but never consulted: a queue created with limit 1
      holds three addresses after two enqueues. */
  method LimitIgnored() returns (length: nat, limit: nat, contents: seq<Address>)
    ensures limit == 1 && length == 3 && contents == [0, 5, 7]
  {
    var tq := new TaskQueue(1);
    tq.Queue(5);
    tq.Queue(7);
    length, limit, contents := |tq.taskPointer|, tq.taskLimit, tq.taskPointer;
  }

  // ---------------------------------------------------------------------
  // Fold

  /** `Core::fold` of this draft. A residue above `limit / 2` is moved into
      the top `limit - limit / 2 - 1` cells of the core. */
  function Fold(coreSize: Address, pointer: Address, limit: Address): (r: Address)
    requires 0 < limit <= coreSize
    ensures r < coreSize
    ensures pointer % limit <= limit / 2 <==> r <= limit / 2
    ensures r <= limit / 2 ==> r == pointer % limit
    ensures r > limit / 2 ==> coreSize - limit + limit / 2 < r
  {
    var result := pointer % limit;
    if result > limit / 2 then result + (coreSize - limit) else result
  }

  /** The values fold can return are exactly the low window `[0, limit/2]`
      and the high window `(coreSize - limit + limit/2, coreSize - 1]`: each
      is reached by the pointer that is its own offset. */
  lemma FoldOnto(coreSize: Address, limit: Address, v: Address)
    requires 0 < limit <= coreSize && v < coreSize
    requires v <= limit / 2 || coreSize - limit + limit / 2 < v
    ensures v <= limit / 2 ==> Fold(coreSize, v, limit) == v
    ensures limit / 2 < v ==> Fold(coreSize, v - (coreSize - limit), limit) == v
  {
    if v <= limit / 2 {
      Mars.ModOfSmall(v, limit);
    } else {
      var p := v - (coreSize - limit);
      assert limit / 2 < p < limit;
      Mars.ModOfSmall(p, limit);
    }
  }

  /** The fold of this draft is the same function as that of
      src/mars/mod.rs. */
  lemma FoldMatchesMars(coreSize: Address, pointer: Address, limit: Address)
    requires 0 < limit <= coreSize
    ensures Fold(coreSize, pointer, limit) == Mars.Fold(coreSize, pointer, limit)
  {
  }

  /** So it is exact in the same sense: it returns, as an address of the
      core, the one offset of the limit's centred window that agrees with
      `pointer` modulo `limit`. */
  lemma FoldIsCenteredOffset(coreSize: Address, pointer: Address, limit: Address, d: int)
    requires 0 < limit <= coreSize
    requires Mars.InWindow(d, limit) && d % limit == pointer % limit
    ensures Fold(coreSize, pointer, limit) == d % coreSize
  {
    FoldMatchesMars(coreSize, pointer, limit);
    Mars.FoldIsCenteredOffset(coreSize, pointer, limit, d);
  }

  // ---------------------------------------------------------------------
  // Core and its builder

  datatype InitialInstruction = Default | Random | Fixed(insn: Instruction)

  /** The instruction `build` pushes for each cell. */
  function InitialFill(init: InitialInstruction): Instruction {
    match init
    case Default => DefaultInstruction()
    case Random => Random()
    case Fixed(insn) => insn
  }

  /** The `for` loop of `CoreBuilder::build`. */
  method FillInstructions(coreSize: Address, init: InitialInstruction) returns (instructions: seq<Instruction>)
    ensures |instructions| == coreSize
    ensures forall k :: 0 <= k < coreSize ==> instructions[k] == InitialFill(init)
  {
    instructions := [];
    for i := 0 to coreSize
      invariant |instructions| == i
      invariant forall k :: 0 <= k < i ==> instructions[k] == InitialFill(init)
    {
      instructions := instructions + [InitialFill(init)];
    }
  }

  class Core {
    var coreSize: Address
    var instructions: seq<Instruction>
    var warrior: seq<TaskQueue>
    var pc: Address

    ghost predicate Valid()
      reads this
    {
      |instructions| == coreSize && |warrior| == 2 && warrior[0] != warrior[1]
    }

    /** The struct literal at the end of `build`. */
    constructor (coreSize: Address, instructions: seq<Instruction>, warrior: seq<TaskQueue>, pc: Address)
      ensures this.coreSize == coreSize && this.instructions == instructions
      ensures this.warrior == warrior && this.pc == pc
      ensures |instructions| == coreSize && |warrior| == 2 && warrior[0] != warrior[1] ==> Valid()
    {
      this.coreSize := coreSize;
      this.instructions := instructions;
      this.warrior := warrior;
      this.pc := pc;
    }

    /** `Core::queue`: append to one warrior's queue, nothing else. */
    method Queue(w: nat, taskPointer: Address)
      requires Valid() && w < 2
      modifies warrior[w]
      ensures Valid()
      ensures warrior[w].taskLimit == old(warrior[w].taskLimit)
      ensures warrior[w].taskPointer == old(warrior[w].taskPointer) + [taskPointer]
      ensures warrior[1 - w].taskPointer == old(warrior[1 - w].taskPointer)
      ensures instructions == old(instructions)
    {
      warrior[w].Queue(taskPointer);
    }
  }

  class CoreBuilder {
    var coreSize: Address
    var initialInstruction: InitialInstruction
    var taskLimit: nat

    /** `CoreBuilder::new`: 8192 cells of the default instruction, 64 tasks. */
    constructor ()
      ensures coreSize == 8192 && initialInstruction == Default && taskLimit == 64
    {
      coreSize := 8192;
      initialInstruction := Default;
      taskLimit := 64;
    }

    method Build() returns (c: Core)
      ensures c.Valid()
      ensures fresh(c) && fresh(c.warrior[0]) && fresh(c.warrior[1])
      ensures c.coreSize == coreSize && |c.instructions| == coreSize
      ensures forall i :: 0 <= i < coreSize ==> c.instructions[i] == InitialFill(initialInstruction)
      ensures c.warrior[0].taskPointer == [0] && c.warrior[0].taskLimit == taskLimit
      ensures c.warrior[1].taskPointer == [0] && c.warrior[1].taskLimit == taskLimit
      ensures c.pc == 0
    {
      var instructions := FillInstructions(coreSize, initialInstruction);
      var w0 := new TaskQueue(taskLimit);
      var w1 := new TaskQueue(taskLimit);
      c := new Core(coreSize, instructions, [w0, w1], 0);
    }
  }
}
