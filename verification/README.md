# MARS drafts: task queue, fold, A-operand evaluation and core builder

This project models the core of an early Rust draft of a Core War MARS
(Memory Array Redcode Simulator) that follows the ICWS '94 draft standard,
and proves properties of the model in Dafny. The repository holds two
divergent drafts, so there are two modules:

- `Mars` (mars_mod.dfy) models src/mars/mod.rs:
  - the `Opcode`, `Modifier` and `Mode` enumerations, the `Instruction`
    record and their `Default`s. `Instruction::random` is the stub that
    returns the default;
  - `TaskQueue`, a class whose `taskPointer` sequence is the `Vec` that
    `queue` pushes onto and `next` pops from. Its limit is an invariant
    (`Valid`), and the three unit tests are client methods;
  - `Fold`, the locality restriction;
  - `Core`, a class. Its memory is an `array<Instruction>`, and its two
    warrior queues are `TaskQueue` objects. `Core.Queue` and `Core.Emi94`
    model `Core::queue` and the A-operand evaluation of `emi94`;
  - `CoreBuilder` with `new` and `build`. The `for` loop of `build` is the
    method `FillInstructions`.
- `MarsDraft` (mars_draft.dfy) models the older src/mars.rs. Its task
  queue starts as `[0]` and ignores its limit. Its core has no read or
  write limits. It has the same `fold` and the same kind of builder.

Addresses are the drafts' `u32`, modelled as `nat`. The obligations that
keep the Rust code from panicking are preconditions:
- `0 < limit <= core_size` for `fold`, which divides by `limit` and
  subtracts it from the core size;
- `pc < core_size` for `emi94`, and, when the A-mode is not immediate,
  both limits within the core size, since only then is `fold` reached;
- a warrior index below 2 for `Core::queue`.

The fold lemmas give an independent meaning to `fold`. The window of a
limit is the `limit` consecutive signed offsets from `-((limit-1)/2)` to
`limit/2`. Fold returns, reduced modulo the core size, the one offset of
that window that is congruent to the pointer modulo the limit.

Where the drafts' comments and their live code disagree, the model follows
the code:
- The default instruction is the derived `Default` of `Instruction`, which
  takes each field's own `Default`: modifier `A` and both modes
  `IMMEDIATE`. A hand-written `Default` with modifier `F` is kept, commented
  out, at src/mars.rs:83-94. The comment at src/mars/mod.rs:59 marks
  `DIRECT` as the default mode, but `Mode::default()` returns `IMMEDIATE`.

`emi94` stops after the A-operand. It has no opcode dispatch and no
B-operand, so neither does the model. The A-operand evaluation is given
twice: `EvaluateA` is a function on a snapshot of the memory, and
`Core.Emi94` is the method that updates the core array in place and is
proved to agree with it.

## Model

| member | source | states |
|---|---|---|
| `Mars.DefaultIsDatImmediate` | src/mars/mod.rs:34-84 | the default instruction is DAT, modifier A, both modes IMMEDIATE, both numbers 0, and `random()` returns that default |
| `Mars.TaskQueue.constructor` | src/mars/mod.rs:97-102 | a new queue stores its limit, is empty, and is within its limit |
| `Mars.TaskQueue.Queue` | src/mars/mod.rs:104-108 | appends the address at the tail iff the length is below the limit, else leaves the queue unchanged; the length never exceeds the limit |
| `Mars.TaskQueue.Next` | src/mars/mod.rs:110-116 | on a non-empty queue returns `Some` of the head and keeps the rest in order; on an empty queue returns `None` and changes nothing |
| `Mars.EnqueueAllKeepsFirst` | src/mars/mod.rs:104-108 | queueing a run of addresses onto a queue within its limit keeps exactly the first ones that fit, in order, and drops the rest |
| `Mars.TaskQueueSimple` | src/mars/mod.rs:268-276 | limit 2, queue 1 and 3: the dequeues give 1, 3, then `None` |
| `Mars.TaskQueueLimit` | src/mars/mod.rs:278-290 | limit 3, queue 100, 200, 300, 400: the dequeues give 100, 200, 300, then `None` |
| `Mars.TaskQueueEmpty` | src/mars/mod.rs:292-297 | a fresh queue dequeues `None` |
| `Mars.Fold` | src/mars/mod.rs:151-157 | for `0 < limit <= core_size` the folded pointer is an address of the core |
| `Mars.FoldIsCenteredOffset` | src/mars/mod.rs:151-157 | fold equals, modulo the core size, every offset in the limit's centred window that is congruent to the pointer modulo the limit; so fold is exact and that offset is unique |
| `Mars.CenteredOffsetExists` | src/mars/mod.rs:151-157 | every pointer has an offset in the centred window that is congruent to it modulo the limit |
| `Mars.FoldWholeCore` | src/mars/mod.rs:151-157 | with the limit equal to the core size, fold is plain reduction modulo the core size |
| `Mars.PredecrementStepsDown` | src/mars/mod.rs:186-190 | the pre-decrement formula maps a reduced number `b` to `b - 1`, and 0 to `core_size - 1` |
| `Mars.FillInstructions` | src/mars/mod.rs:244-252 | the loop yields exactly `core_size` instructions, each the selected initial instruction |
| `Mars.Core.constructor` | src/mars/mod.rs:254-261 | the core holds the given cells, queues, program counter and limits, in a fresh array; given as many cells as the core size and two distinct well-formed queues, the core is valid |
| `Mars.Core.Queue` | src/mars/mod.rs:147-149 | enqueues, with the capacity drop, onto the selected warrior's queue only; the other queue and the memory are unchanged |
| `Mars.Core.Emi94` | src/mars/mod.rs:159-203 | the new memory, the two offsets and `pip` are exactly what `EvaluateA` gives for the old memory; the core stays valid. The lemmas below state what that is, mode by mode |
| `Mars.ImmediateOperand` | src/mars/mod.rs:173-177 | an immediate A-operand gives offsets 0, leaves memory unchanged and records no `pip` |
| `Mars.DirectOperand` | src/mars/mod.rs:178-184 | a direct A-operand's offsets are its A-number folded by the read and by the write limit; memory unchanged, no `pip` |
| `Mars.IndirectModesRefold` | src/mars/mod.rs:185-200 | for `@`, `<` and `>`, each offset is refolded after adding the B-number of the cell at `pc + offset`, read from the memory after any pre-decrement |
| `Mars.DecrementOperand` | src/mars/mod.rs:186-190 | a `<` operand changes only the B-number of cell `(pc + wpa) % core_size`, to `(b + core_size - 1) % core_size`; every other cell is unchanged and no `pip` is recorded |
| `Mars.IndirectOperand` | src/mars/mod.rs:185-200 | a `@` operand leaves memory unchanged and records no `pip` |
| `Mars.IncrementOperand` | src/mars/mod.rs:192-194 | a `>` operand leaves memory unchanged and records `pip = (pc + wpa) % core_size` |
| `Mars.EvaluateAInCore` | src/mars/mod.rs:159-203 | both offsets and any `pip` are addresses of the core, the memory keeps its size, and B-numbers reduced modulo the core size stay reduced |
| `Mars.CoreBuilder.constructor` | src/mars/mod.rs:221-227 | the default builder has 8192 cells, the default initial instruction and a task limit of 64 |
| `Mars.CoreBuilder.Build` | src/mars/mod.rs:244-262 | a fresh core of exactly `core_size` cells, all equal to the selected initial instruction; two distinct empty queues with the task limit; `pc = 0`; read and write limits 300 |
| `MarsDraft.TaskQueue.constructor` | src/mars.rs:112-117 | a new queue holds exactly `[0]`, whatever the limit |
| `MarsDraft.TaskQueue.Queue` | src/mars.rs:119-121 | always appends the address at the tail, with no capacity check |
| `MarsDraft.LimitIgnored` | src/mars.rs:106-121 | a queue with limit 1 holds `[0, 5, 7]` after two enqueues, so the limit is never consulted |
| `MarsDraft.Fold` | src/mars.rs:137-145 | the result is an address of the core; when the residue is at most `limit / 2` the result is that residue, and exactly then is the result at most `limit / 2`; otherwise it lies above `core_size - limit + limit / 2` |
| `MarsDraft.FoldOnto` | src/mars.rs:137-145 | every address of the low window `[0, limit/2]` and of the high window `(core_size - limit + limit/2, core_size)` is a result of fold |
| `MarsDraft.FoldMatchesMars` | src/mars.rs:137-145 | the older draft's fold is the same function as the fold of src/mars/mod.rs |
| `MarsDraft.FoldIsCenteredOffset` | src/mars.rs:137-145 | so it too returns, modulo the core size, the one offset of the limit's centred window that is congruent to the pointer |
| `MarsDraft.FillInstructions` | src/mars.rs:186-194 | the loop yields exactly `core_size` instructions, each the selected initial instruction |
| `MarsDraft.Core.constructor` | src/mars.rs:196-201 | the core holds the given instructions, queues and program counter; given as many instructions as the core size and two distinct queues, the core is valid |
| `MarsDraft.Core.Queue` | src/mars.rs:133-135 | appends to the selected warrior's queue only and keeps its limit; the other queue and the instructions are unchanged |
| `MarsDraft.CoreBuilder.constructor` | src/mars.rs:163-169 | the default builder has 8192 cells, the default initial instruction and a task limit of 64 |
| `MarsDraft.CoreBuilder.Build` | src/mars.rs:186-202 | a fresh core of exactly `core_size` instructions, all equal to the selected initial instruction; both queues `[0]` with the task limit; `pc = 0` |

## Left out

- Opcode dispatch, B-operand evaluation, the post-increment commit, P-space (`LDP`/`STP`) and any scheduler or match outcome: `emi94` does not implement them. The model covers only what the code does.
- `Mars.Core.Emi94`: the locals `rpa`, `wpa` and `pip` are returned as out-parameters so the contract can state them. In the source they are discarded. `pip` is `None` when the source leaves it unassigned.
- `Mars.Core.Emi94`: when the A-mode is not immediate, its requires ask for both limits within the core size. `build` always sets them to 300, so for `core_size < 300` a built core can evaluate only immediate A-operands in the model. In the Rust code such a core underflows in `fold` only when the residue exceeds `limit / 2`.
- `Mars.Fold`, `MarsDraft.Fold`: they require `limit <= core_size` even when the residue is at most `limit / 2` and the subtraction is not reached. With nat arithmetic, a larger limit could otherwise give a result outside the core.
- `u32` wrap-around and debug-mode overflow panics are not modelled. Addresses are unbounded `nat`s, and the preconditions above rule out the underflows and out-of-range indexing.
- `CoreMemory`'s `Index`/`IndexMut` are the array's own indexing, which requires an index below its length. Like the source, they do no reduction modulo the core size; callers reduce with `% core_size` first.
- The builder setters `coresize`, `initial_instruction` and `task_limit` are plain field assignments and are not modelled.
- The `Debug` derives and the unused `Warrior(u32)` tuple struct are not modelled.
- `Instruction::random` is modelled as the default instruction it currently returns. No source of randomness is modelled.
- src/redcode.rs is not part of this model. It declares only an opcode enumeration and an empty test.
