/** The amd64 CORO_ASM backend of src/cs_coro.c: `coro_transfer`, `coro_init`
    and `coro_create` on a small machine. Memory is an array of 8-byte words,
    so addresses count words and a push moves `rsp` by one. */
module ContextSwitch {

  type Memory = int -> int

  /** The general registers a callee must preserve (section 3.2.1 of the System
      V AMD64 ABI), `rsp` apart. */
  datatype Regs = Regs(rbp: int, rbx: int, r12: int, r13: int, r14: int, r15: int)

  const NO_REGS := Regs(0, 0, 0, 0, 0, 0)

  datatype Reg = RBP | RBX | R12 | R13 | R14 | R15

  function SetReg(r: Regs, x: Reg, v: int): Regs {
    match x
    case RBP => r.(rbp := v)
    case RBX => r.(rbx := v)
    case R12 => r.(r12 := v)
    case R13 => r.(r13 := v)
    case R14 => r.(r14 := v)
    case R15 => r.(r15 := v)
  }

  /** `rdi` holds the argument of a call. */
  datatype Cpu = Cpu(mem: Memory, regs: Regs, rsp: int, pc: int, rdi: int)

  // Code addresses.
  const ABORT: int := 1
  const CORO_INIT: int := 2
  const INIT_RESUME: int := 3    // in coro_init, after its coro_transfer
  const CREATE_RETURN: int := 4  // in coro_create, after its coro_transfer

  // The four static variables of src/cs_coro.c.
  const INIT_FUNC: int := -1
  const INIT_ARG: int := -2
  const NEW_CORO: int := -3
  const CREATE_CORO: int := -4

  const NUM_SAVED: int := 6

  function Write(m: Memory, a: int, v: int): Memory {
    x => if x == a then v else m(x)
  }

  function Push(c: Cpu, v: int): Cpu {
    c.(rsp := c.rsp - 1, mem := Write(c.mem, c.rsp - 1, v))
  }

  function PushSaved(c: Cpu): Cpu {
    Push(Push(Push(Push(Push(Push(c, c.regs.rbp), c.regs.rbx), c.regs.r12), c.regs.r13), c.regs.r14), c.regs.r15)
  }

  function Pop(c: Cpu, x: Reg): Cpu {
    c.(regs := SetReg(c.regs, x, c.mem(c.rsp)), rsp := c.rsp + 1)
  }

  function PopSaved(c: Cpu): Cpu {
    Pop(Pop(Pop(Pop(Pop(Pop(c, R15), R14), R13), R12), RBX), RBP)
  }

  /** `coro_transfer(prev, next)`, from its first instruction to the jump. */
  function Transfer(c: Cpu, prev: int, next: int): Cpu {
    var c1 := PushSaved(c);
    var c2 := c1.(mem := Write(c1.mem, prev, c1.rsp));
    var c3 := PopSaved(c2.(rsp := c2.mem(next)));
    c3.(pc := c3.mem(c3.rsp), rsp := c3.rsp + 1)
  }

  /** What is left of a context that has switched away with stack pointer `rsp`
      (before the call) to come back to `ret`. */
  predicate FrameAt(m: Memory, rsp: int, regs: Regs, ret: int) {
    var sp := rsp - 1 - NUM_SAVED;
    && m(sp) == regs.r15 && m(sp + 1) == regs.r14 && m(sp + 2) == regs.r13 && m(sp + 3) == regs.r12
    && m(sp + 4) == regs.rbx && m(sp + 5) == regs.rbp && m(sp + 6) == ret
  }

  lemma PushSavedCells(c: Cpu)
    ensures var c' := PushSaved(c);
            && c'.rsp == c.rsp - NUM_SAVED && c'.pc == c.pc && c'.rdi == c.rdi
            && c'.mem(c.rsp - 1) == c.regs.rbp && c'.mem(c.rsp - 2) == c.regs.rbx && c'.mem(c.rsp - 3) == c.regs.r12
            && c'.mem(c.rsp - 4) == c.regs.r13 && c'.mem(c.rsp - 5) == c.regs.r14 && c'.mem(c.rsp - 6) == c.regs.r15
            && forall a :: !(c.rsp - NUM_SAVED <= a < c.rsp) ==> c'.mem(a) == c.mem(a)
  {
  }

  lemma PopSavedCells(c: Cpu)
    ensures var c', m, sp := PopSaved(c), c.mem, c.rsp;
            && c'.regs == Regs(m(sp + 5), m(sp + 4), m(sp + 3), m(sp + 2), m(sp + 1), m(sp))
            && c'.rsp == sp + NUM_SAVED && c'.mem == m
  {
  }

  lemma TransferParts(c: Cpu, prev: int, next: int)
    ensures var c' := Transfer(c, prev, next);
            var m, sp := c'.mem, c'.rsp - 1 - NUM_SAVED;
            && m == Write(PushSaved(c).mem, prev, c.rsp - NUM_SAVED) && sp == m(next)
            && c'.regs == Regs(m(sp + 5), m(sp + 4), m(sp + 3), m(sp + 2), m(sp + 1), m(sp))
            && c'.pc == m(sp + 6)
  {
    hide PushSaved, PopSaved, Write;
    var c1 := PushSaved(c);
    PushSavedCells(c);
    var c2 := c1.(mem := Write(c1.mem, prev, c1.rsp));
    PopSavedCells(c2.(rsp := c2.mem(next)));
  }

  /** `coro_transfer` takes registers, stack pointer and return address from a
      frame whose address is in `next`. */
  lemma TransferTakes(c: Cpu, prev: int, next: int)
    ensures var c' := Transfer(c, prev, next);
            c'.mem(next) == c'.rsp - 1 - NUM_SAVED && FrameAt(c'.mem, c'.rsp, c'.regs, c'.pc)
  {
    hide PushSaved, Transfer;
    TransferParts(c, prev, next);
  }

  /** `coro_transfer` leaves a frame below the return address its caller pushed,
      the frame's address in `prev`, and all other memory as it was. */
  lemma TransferLeaves(c: Cpu, prev: int, next: int)
    requires !(c.rsp - NUM_SAVED <= prev <= c.rsp)
    ensures var m' := Transfer(c, prev, next).mem;
            && FrameAt(m', c.rsp + 1, c.regs, c.mem(c.rsp))
            && m'(prev) == c.rsp - NUM_SAVED
            && forall a :: a != prev && !(c.rsp - NUM_SAVED <= a < c.rsp) ==> m'(a) == c.mem(a)
  {
    hide PushSaved, Transfer;
    PushSavedCells(c);
    TransferParts(c, prev, next);
  }

  /** The same of a call that is to return to `ret`. */
  lemma TransferSaves(c: Cpu, ret: int, prev: int, next: int)
    requires !(c.rsp - 1 - NUM_SAVED <= prev < c.rsp)
    ensures var m' := Transfer(Push(c, ret), prev, next).mem;
            && FrameAt(m', c.rsp, c.regs, ret)
            && m'(prev) == c.rsp - 1 - NUM_SAVED
            && forall a :: a != prev && !(c.rsp - 1 - NUM_SAVED <= a < c.rsp) ==> m'(a) == c.mem(a)
  {
    hide Transfer, FrameAt;
    TransferLeaves(Push(c, ret), prev, next);
  }

  /** It goes on from the frame that `next` leads to. */
  lemma TransferResumes(c: Cpu, prev: int, next: int, rsp: int, regs: Regs, ret: int)
    requires var m' := Transfer(c, prev, next).mem;
             m'(next) == rsp - 1 - NUM_SAVED && FrameAt(m', rsp, regs, ret)
    ensures var c' := Transfer(c, prev, next);
            c'.regs == regs && c'.rsp == rsp && c'.pc == ret
  {
    hide PushSaved, Transfer;
    TransferParts(c, prev, next);
  }

  // ------------------------------------------------------------------ creation

  /** `*--ctx->sp = v` */
  function PushOn(m: Memory, ctx: int, v: int): Memory {
    var m1 := Write(m, ctx, m(ctx) - 1);
    Write(m1, m1(ctx), v)
  }

  /** `memset (sp, 0, n * sizeof (*sp))` */
  function Zero(m: Memory, sp: int, n: int): Memory {
    a => if sp <= a < sp + n then 0 else m(a)
  }

  /** The stack that `coro_create` prepares: `abort`, the entry point and the
      saved registers, all zero. */
  function Prepare(m: Memory, ctx: int, top: int): Memory {
    var m1 := PushOn(PushOn(Write(m, ctx, top), ctx, ABORT), ctx, CORO_INIT);
    var m2 := Write(m1, ctx, m1(ctx) - NUM_SAVED);
    Zero(m2, m2(ctx), NUM_SAVED)
  }

  lemma PrepareCells(m: Memory, ctx: int, top: int)
    requires !(top - 2 - NUM_SAVED <= ctx < top)
    ensures var m' := Prepare(m, ctx, top);
            && m'(ctx) == top - 2 - NUM_SAVED
            && m'(top - 1) == ABORT && FrameAt(m', top - 1, NO_REGS, CORO_INIT)
            && forall a :: a != ctx && !(top - 2 - NUM_SAVED <= a < top) ==> m'(a) == m(a)
  {
  }

  function SetStatics(m: Memory, func: int, arg: int, ctx: int, nctx: int): Memory {
    Write(Write(Write(Write(m, INIT_FUNC, func), INIT_ARG, arg), NEW_CORO, ctx), CREATE_CORO, nctx)
  }

  /** `coro_create` up to and including its transfer to the new stack. */
  function CreateOut(c: Cpu, ctx: int, func: int, arg: int, top: int, nctx: int): Cpu {
    var c1 := c.(mem := Prepare(SetStatics(c.mem, func, arg, ctx, nctx), ctx, top));
    Transfer(Push(c1, CREATE_RETURN), c1.mem(CREATE_CORO), c1.mem(NEW_CORO))
  }

  /** `coro_init` up to and including its transfer back: the two locals go to
      its own stack first. */
  function InitOut(c: Cpu): Cpu {
    var c1 := Push(Push(c, c.mem(INIT_FUNC)), c.mem(INIT_ARG));
    Transfer(Push(c1, INIT_RESUME), c1.mem(NEW_CORO), c1.mem(CREATE_CORO))
  }

  /** `coro_init` after its transfer: it calls the function from its locals. */
  function InitCall(c: Cpu): Cpu {
    c.(pc := c.mem(c.rsp + 1), rdi := c.mem(c.rsp))
  }

  /** Words of its own stack that a new context uses before it first rests. */
  const INIT_WORDS: int := 10

  predicate Static(a: int) {
    a == INIT_FUNC || a == INIT_ARG || a == NEW_CORO || a == CREATE_CORO
  }

  /** What a creation writes to does not overlap: the static variables, the new
      context, its stack, the local context and the creator's frame. */
  predicate CreateApart(rsp: int, ctx: int, top: int, nctx: int) {
    && !Static(ctx) && !Static(nctx) && ctx != nctx
    && (top <= CREATE_CORO || INIT_FUNC < top - INIT_WORDS)
    && (rsp <= CREATE_CORO || INIT_FUNC < rsp - 1 - NUM_SAVED)
    && (top <= rsp - 1 - NUM_SAVED || rsp <= top - INIT_WORDS)
    && !(top - INIT_WORDS <= ctx < top) && !(top - INIT_WORDS <= nctx < top)
    && !(rsp - 1 - NUM_SAVED <= ctx < rsp) && !(rsp - 1 - NUM_SAVED <= nctx < rsp)
  }

  /** The words a creation writes to. */
  predicate CreateWrites(rsp: int, ctx: int, top: int, nctx: int, a: int) {
    Static(a) || a == ctx || a == nctx || top - INIT_WORDS <= a < top || rsp - 1 - NUM_SAVED <= a < rsp
  }

  lemma FrameKept(m: Memory, m': Memory, rsp: int, regs: Regs, ret: int)
    requires FrameAt(m, rsp, regs, ret) && forall a :: rsp - 1 - NUM_SAVED <= a < rsp ==> m'(a) == m(a)
    ensures FrameAt(m', rsp, regs, ret)
  {
    var sp := rsp - 1 - NUM_SAVED;
    assert sp <= sp + 1 < rsp;
  }

  /** The prepared stack and the static variables, before any transfer. */
  lemma PrepareEffect(m: Memory, rsp: int, ctx: int, func: int, arg: int, top: int, nctx: int)
    requires CreateApart(rsp, ctx, top, nctx)
    ensures var m' := Prepare(SetStatics(m, func, arg, ctx, nctx), ctx, top);
            && m'(INIT_FUNC) == func && m'(INIT_ARG) == arg && m'(NEW_CORO) == ctx && m'(CREATE_CORO) == nctx
            && m'(ctx) == top - 2 - NUM_SAVED
            && FrameAt(m', top - 1, NO_REGS, CORO_INIT)
            && forall a :: !CreateWrites(rsp, ctx, top, nctx, a) ==> m'(a) == m(a)
  {
    PrepareCells(SetStatics(m, func, arg, ctx, nctx), ctx, top);
    hide Prepare, FrameAt;
  }

  lemma CreateOutEffect(c: Cpu, ctx: int, func: int, arg: int, top: int, nctx: int)
    requires CreateApart(c.rsp, ctx, top, nctx)
    ensures var c' := CreateOut(c, ctx, func, arg, top, nctx);
            && c'.regs == NO_REGS && c'.rsp == top - 1 && c'.pc == CORO_INIT
            && c'.mem(INIT_FUNC) == func && c'.mem(INIT_ARG) == arg
            && c'.mem(NEW_CORO) == ctx && c'.mem(CREATE_CORO) == nctx
            && c'.mem(nctx) == c.rsp - 1 - NUM_SAVED && FrameAt(c'.mem, c.rsp, c.regs, CREATE_RETURN)
            && forall a :: !CreateWrites(c.rsp, ctx, top, nctx, a) ==> c'.mem(a) == c.mem(a)
  {
    hide Prepare, SetStatics, Transfer, Write, FrameAt;
    var c1 := c.(mem := Prepare(SetStatics(c.mem, func, arg, ctx, nctx), ctx, top));
    PrepareEffect(c.mem, c.rsp, ctx, func, arg, top, nctx);
    TransferSaves(c1, CREATE_RETURN, nctx, ctx);
    FrameKept(c1.mem, Transfer(Push(c1, CREATE_RETURN), nctx, ctx).mem, top - 1, NO_REGS, CORO_INIT);
    TransferResumes(Push(c1, CREATE_RETURN), nctx, ctx, top - 1, NO_REGS, CORO_INIT);
  }

  /** Where the locals and the frame of `coro_init` overwrite neither the context
      nor the static variables that it reads after its locals. */
  predicate InitApart(c: Cpu) {
    var bottom, ctx := c.rsp - 3 - NUM_SAVED, c.mem(NEW_CORO);
    && !(bottom <= ctx < c.rsp)
    && !(c.rsp - 2 <= NEW_CORO < c.rsp) && !(c.rsp - 2 <= CREATE_CORO < c.rsp)
  }

  /** `coro_init` puts function and argument on its own stack, rests below them,
      and goes on from the frame that the creator left. */
  lemma InitEffect(c: Cpu)
    requires InitApart(c)
    ensures var c', ctx, nctx := InitOut(c), c.mem(NEW_CORO), c.mem(CREATE_CORO);
            && c'.mem(c.rsp - 1) == c.mem(INIT_FUNC) && c'.mem(c.rsp - 2) == c.mem(INIT_ARG)
            && c'.mem(ctx) == c.rsp - 3 - NUM_SAVED && FrameAt(c'.mem, c.rsp - 2, c.regs, INIT_RESUME)
            && c'.mem(nctx) == c'.rsp - 1 - NUM_SAVED && FrameAt(c'.mem, c'.rsp, c'.regs, c'.pc)
            && forall a :: a != ctx && !(c.rsp - 3 - NUM_SAVED <= a < c.rsp) ==> c'.mem(a) == c.mem(a)
  {
    hide Transfer, FrameAt;
    var ctx, nctx := c.mem(NEW_CORO), c.mem(CREATE_CORO);
    var c1 := Push(Push(c, c.mem(INIT_FUNC)), c.mem(INIT_ARG));
    TransferSaves(c1, INIT_RESUME, ctx, nctx);
    TransferTakes(Push(c1, INIT_RESUME), ctx, nctx);
  }

  /** A creation gives control back to the creator, with its registers and
      stack pointer, and leaves the new context resting in `coro_init` with the
      function and the argument on its own stack. */
  lemma CreateEffect(c: Cpu, ctx: int, func: int, arg: int, top: int, nctx: int)
    requires CreateApart(c.rsp, ctx, top, nctx)
    ensures var c' := InitOut(CreateOut(c, ctx, func, arg, top, nctx));
            && c'.regs == c.regs && c'.rsp == c.rsp && c'.pc == CREATE_RETURN
            && c'.mem(ctx) == top - INIT_WORDS && FrameAt(c'.mem, top - 3, NO_REGS, INIT_RESUME)
            && c'.mem(top - 2) == func && c'.mem(top - 3) == arg
            && forall a :: !CreateWrites(c.rsp, ctx, top, nctx, a) ==> c'.mem(a) == c.mem(a)
  {
    hide CreateOut, InitOut;
    var c1 := CreateOut(c, ctx, func, arg, top, nctx);
    CreateOutEffect(c, ctx, func, arg, top, nctx);
    InitEffect(c1);
    FrameKept(c1.mem, InitOut(c1).mem, c.rsp, c.regs, CREATE_RETURN);
  }

  /** The processor as the source's functions drive it, instruction by
      instruction. */
  class Machine {
    var cpu: Cpu

    constructor (c: Cpu)
      ensures cpu == c
    {
      cpu := c;
    }

    method PushWord(v: int)
      modifies this
      ensures cpu == Push(old(cpu), v)
    {
      cpu := cpu.(rsp := cpu.rsp - 1);
      cpu := cpu.(mem := Write(cpu.mem, cpu.rsp, v));
    }

    method PopReg(x: Reg)
      modifies this
      ensures cpu == Pop(old(cpu), x)
    {
      cpu := cpu.(regs := SetReg(cpu.regs, x, cpu.mem(cpu.rsp)));
      cpu := cpu.(rsp := cpu.rsp + 1);
    }

    method PushRegisters()
      modifies this
      ensures cpu == PushSaved(old(cpu))
    {
      hide Write;
      PushWord(cpu.regs.rbp);
      PushWord(cpu.regs.rbx);
      PushWord(cpu.regs.r12);
      PushWord(cpu.regs.r13);
      PushWord(cpu.regs.r14);
      PushWord(cpu.regs.r15);
    }

    method PopRegisters()
      modifies this
      ensures cpu == PopSaved(old(cpu))
    {
      hide Pop;
      PopReg(R15);
      PopReg(R14);
      PopReg(R13);
      PopReg(R12);
      PopReg(RBX);
      PopReg(RBP);
    }

    /** `coro_transfer`, its return address pushed. It leaves a frame and goes on
        from the one `rsi` leads to. */
    method CoroTransfer(rdi: int, rsi: int)
      modifies this
      ensures cpu == Transfer(old(cpu), rdi, rsi)
      ensures cpu.mem(rsi) == cpu.rsp - 1 - NUM_SAVED && FrameAt(cpu.mem, cpu.rsp, cpu.regs, cpu.pc)
      ensures var c := old(cpu);
              !(c.rsp - NUM_SAVED <= rdi <= c.rsp) ==>
                && FrameAt(cpu.mem, c.rsp + 1, c.regs, c.mem(c.rsp))
                && cpu.mem(rdi) == c.rsp - NUM_SAVED
                && forall a :: a != rdi && !(c.rsp - NUM_SAVED <= a < c.rsp) ==> cpu.mem(a) == c.mem(a)
    {
      hide Write, PushSaved, PopSaved, FrameAt;
      TransferTakes(cpu, rdi, rsi);
      if !(cpu.rsp - NUM_SAVED <= rdi <= cpu.rsp) {
        TransferLeaves(cpu, rdi, rsi);
      }
      PushRegisters();
      cpu := cpu.(mem := Write(cpu.mem, rdi, cpu.rsp));
      cpu := cpu.(rsp := cpu.mem(rsi));
      PopRegisters();
      var rcx := cpu.mem(cpu.rsp);
      cpu := cpu.(rsp := cpu.rsp + 1);
      cpu := cpu.(pc := rcx);
    }

    /** `coro_init` from its entry point to its transfer back. */
    method CoroInit()
      modifies this
      ensures cpu == InitOut(old(cpu))
      ensures var c := old(cpu);
              var bottom, ctx, nctx := c.rsp - 3 - NUM_SAVED, c.mem(NEW_CORO), c.mem(CREATE_CORO);
              InitApart(c) ==>
                && cpu.mem(c.rsp - 1) == c.mem(INIT_FUNC) && cpu.mem(c.rsp - 2) == c.mem(INIT_ARG)
                && cpu.mem(ctx) == bottom && FrameAt(cpu.mem, c.rsp - 2, c.regs, INIT_RESUME)
                && cpu.mem(nctx) == cpu.rsp - 1 - NUM_SAVED && FrameAt(cpu.mem, cpu.rsp, cpu.regs, cpu.pc)
                && forall a :: a != ctx && !(bottom <= a < c.rsp) ==> cpu.mem(a) == c.mem(a)
    {
      hide Write, Transfer, FrameAt;
      if InitApart(cpu) {
        InitEffect(cpu);
      }
      var func, arg := cpu.mem(INIT_FUNC), cpu.mem(INIT_ARG);
      PushWord(func);
      PushWord(arg);
      var prev, next := cpu.mem(NEW_CORO), cpu.mem(CREATE_CORO);
      PushWord(INIT_RESUME);
      CoroTransfer(prev, next);
    }

    method PushOnStack(ctx: int, v: int)
      modifies this
      ensures cpu == old(cpu).(mem := PushOn(old(cpu).mem, ctx, v))
    {
      hide Write;
      cpu := cpu.(mem := Write(cpu.mem, ctx, cpu.mem(ctx) - 1));
      cpu := cpu.(mem := Write(cpu.mem, cpu.mem(ctx), v));
    }

    /** The new stack of `coro_create`, ready for a first transfer to it. */
    method PrepareStack(ctx: int, top: int)
      modifies this
      ensures cpu == old(cpu).(mem := Prepare(old(cpu).mem, ctx, top))
      ensures !(top - 2 - NUM_SAVED <= ctx < top) ==>
                && cpu.mem(ctx) == top - 2 - NUM_SAVED && cpu.mem(top - 1) == ABORT
                && FrameAt(cpu.mem, top - 1, NO_REGS, CORO_INIT)
                && forall a :: a != ctx && !(top - 2 - NUM_SAVED <= a < top) ==> cpu.mem(a) == old(cpu).mem(a)
    {
      hide Write, PushOn, Zero, FrameAt;
      if !(top - 2 - NUM_SAVED <= ctx < top) {
        PrepareCells(cpu.mem, ctx, top);
      }
      cpu := cpu.(mem := Write(cpu.mem, ctx, top));
      PushOnStack(ctx, ABORT);
      PushOnStack(ctx, CORO_INIT);
      cpu := cpu.(mem := Write(cpu.mem, ctx, cpu.mem(ctx) - NUM_SAVED));
      cpu := cpu.(mem := Zero(cpu.mem, cpu.mem(ctx), NUM_SAVED));
    }

    /** `coro_create`: a null function creates nothing. `nctx` is the address of
        the local context on the creator's stack, `top` is `sptr + ssize`. The
        transfer to the new stack enters `coro_init`, which transfers back. */
    method CoroCreate(ctx: int, func: int, arg: int, top: int, nctx: int)
      requires func != 0 ==> CreateApart(cpu.rsp, ctx, top, nctx)
      modifies this
      ensures func == 0 ==> cpu == old(cpu)
      ensures func != 0 ==>
                && cpu.regs == old(cpu).regs && cpu.rsp == old(cpu).rsp && cpu.pc == CREATE_RETURN
                && cpu.mem(ctx) == top - INIT_WORDS && FrameAt(cpu.mem, top - 3, NO_REGS, INIT_RESUME)
                && cpu.mem(top - 2) == func && cpu.mem(top - 3) == arg
                && forall a :: !CreateWrites(old(cpu).rsp, ctx, top, nctx, a) ==> cpu.mem(a) == old(cpu).mem(a)
      ensures func != 0 ==> cpu == InitOut(CreateOut(old(cpu), ctx, func, arg, top, nctx))
    {
      hide Write, Prepare, Transfer, InitOut, FrameAt, CreateApart, CreateWrites, InitApart;
      if func == 0 {
        return;
      }
      CreateOutEffect(cpu, ctx, func, arg, top, nctx);
      CreateEffect(cpu, ctx, func, arg, top, nctx);
      cpu := cpu.(mem := Write(cpu.mem, INIT_FUNC, func));
      cpu := cpu.(mem := Write(cpu.mem, INIT_ARG, arg));
      cpu := cpu.(mem := Write(cpu.mem, NEW_CORO, ctx));
      cpu := cpu.(mem := Write(cpu.mem, CREATE_CORO, nctx));
      PrepareStack(ctx, top);
      var prev, next := cpu.mem(CREATE_CORO), cpu.mem(NEW_CORO);
      PushWord(CREATE_RETURN);
      CoroTransfer(prev, next);
      assert cpu.pc == CORO_INIT;
      CoroInit();
    }
  }

  // ------------------------------------------------------- contexts over a run

  /** A context: the address of its `sp` field and the bounds of its stack. */
  datatype Context = Context(slot: int, lo: int, hi: int)

  predicate Owns(x: Context, a: int) {
    a == x.slot || x.lo <= a < x.hi
  }

  /** What a context was when it last switched away: its registers, its return
      address, its stack pointer, and memory just after the switch. */
  datatype Frozen = Frozen(regs: Regs, ret: int, rsp: int, mem: Memory)

  datatype System = System(cpu: Cpu, running: int, ctxs: map<int, Context>, frozen: map<int, Frozen>)

  datatype Label =
    | Work(cpu: Cpu)                                              // running code does anything allowed
    | Switch(to: int, ret: int)                                   // it transfers, to come back to ret
    | Create(id: int, x: Context, func: int, arg: int, nctx: int) // it creates a context
    | Drop(id: int)                                               // it frees a suspended one

  ghost predicate Layout(ctxs: map<int, Context>) {
    && (forall i, a :: i in ctxs && Owns(ctxs[i], a) ==> !Static(a))
    && (forall i, j, a :: i in ctxs && j in ctxs && Owns(ctxs[i], a) && Owns(ctxs[j], a) ==> i == j)
  }

  /** There is room on the stack for a call of `coro_transfer`. */
  predicate Room(x: Context, rsp: int) {
    x.lo <= rsp - 1 - NUM_SAVED && rsp <= x.hi && !(rsp - 1 - NUM_SAVED <= x.slot < rsp)
  }

  ghost predicate Suspended(m: Memory, x: Context, f: Frozen) {
    && Room(x, f.rsp)
    && m(x.slot) == f.rsp - 1 - NUM_SAVED
    && FrameAt(m, f.rsp, f.regs, f.ret)
    && forall a :: Owns(x, a) ==> m(a) == f.mem(a)
  }

  ghost predicate Inv(s: System) {
    && Layout(s.ctxs)
    && s.running in s.ctxs && s.running !in s.frozen
    && s.frozen.Keys <= s.ctxs.Keys
    && forall i :: i in s.frozen ==> Suspended(s.cpu.mem, s.ctxs[i], s.frozen[i])
  }

  /** Running code may change anything but what suspended contexts own. It may
      switch while its stack has room, and create a context whose memory nobody
      else owns, with the local context of `coro_create` on its own stack. */
  ghost predicate Enabled(s: System, l: Label) {
    s.running in s.ctxs && s.frozen.Keys <= s.ctxs.Keys &&
    var me := s.ctxs[s.running];
    match l
    case Work(c) => forall i, a :: i in s.frozen && Owns(s.ctxs[i], a) ==> c.mem(a) == s.cpu.mem(a)
    case Switch(to, _) => to in s.frozen && Room(me, s.cpu.rsp)
    case Create(id, x, func, _, nctx) =>
      && id !in s.ctxs && Layout(s.ctxs[id := x]) && func != 0
      && x.lo + INIT_WORDS <= x.hi && !(x.lo <= x.slot < x.hi)
      && Room(me, s.cpu.rsp) && s.cpu.rsp <= nctx < me.hi && me.lo <= nctx && nctx != me.slot
    case Drop(id) => id in s.frozen
  }

  ghost function Next(s: System, l: Label): System
    requires Enabled(s, l)
  {
    match l
    case Work(c) => s.(cpu := c)
    case Switch(to, ret) =>
      var c := Transfer(Push(s.cpu, ret), s.ctxs[s.running].slot, s.ctxs[to].slot);
      s.(cpu := c, running := to,
         frozen := (s.frozen - {to})[s.running := Frozen(s.cpu.regs, ret, s.cpu.rsp, c.mem)])
    case Create(id, x, func, arg, nctx) =>
      var c := InitOut(CreateOut(s.cpu, x.slot, func, arg, x.hi, nctx));
      s.(cpu := c, ctxs := s.ctxs[id := x],
         frozen := s.frozen[id := Frozen(NO_REGS, INIT_RESUME, x.hi - 3, c.mem)])
    case Drop(id) => s.(ctxs := s.ctxs - {id}, frozen := s.frozen - {id})
  }

  lemma SwitchKeeps(s: System, to: int, ret: int)
    requires Inv(s) && Enabled(s, Switch(to, ret))
    ensures Inv(Next(s, Switch(to, ret)))
    ensures var s' := Next(s, Switch(to, ret));
            var f := s.frozen[to];
            && s'.cpu.regs == f.regs && s'.cpu.rsp == f.rsp && s'.cpu.pc == f.ret
            && forall a :: Owns(s.ctxs[to], a) ==> s'.cpu.mem(a) == f.mem(a)
  {
    hide FrameAt, Transfer, Layout;
    var x, y, f := s.ctxs[s.running], s.ctxs[to], s.frozen[to];
    var c := Transfer(Push(s.cpu, ret), x.slot, y.slot);
    TransferSaves(s.cpu, ret, x.slot, y.slot);
    OthersUntouched(s, x.slot, s.cpu.rsp, c.mem);
    TransferResumes(Push(s.cpu, ret), x.slot, y.slot, f.rsp, f.regs, f.ret);
  }

  /** What the running context writes into its own memory leaves every
      suspended context as it was. */
  lemma OthersUntouched(s: System, slot: int, rsp: int, m': Memory)
    requires Inv(s) && var me := s.ctxs[s.running]; slot == me.slot && Room(me, rsp)
    requires forall a :: a != slot && !(rsp - 1 - NUM_SAVED <= a < rsp) ==> m'(a) == s.cpu.mem(a)
    ensures forall i :: i in s.frozen ==> Suspended(m', s.ctxs[i], s.frozen[i])
  {
    hide FrameAt;
    var me := s.ctxs[s.running];
    forall i | i in s.frozen
      ensures Suspended(m', s.ctxs[i], s.frozen[i])
    {
      forall a | Owns(s.ctxs[i], a)
        ensures m'(a) == s.cpu.mem(a)
      {
        assert !Owns(me, a);
      }
      StillSuspended(s.cpu.mem, m', s.ctxs[i], s.frozen[i]);
    }
  }

  lemma StillSuspended(m: Memory, m': Memory, x: Context, f: Frozen)
    requires Suspended(m, x, f) && forall a :: Owns(x, a) ==> m'(a) == m(a)
    ensures Suspended(m', x, f)
  {
    assert Owns(x, x.slot);
    forall a | f.rsp - 1 - NUM_SAVED <= a < f.rsp
      ensures m'(a) == m(a)
    {
      assert Owns(x, a);
    }
    FrameKept(m, m', f.rsp, f.regs, f.ret);
  }

  predicate In(k: int, lo: int, hi: int) {
    lo <= k < hi
  }

  /** Two intervals without a common point lie one after the other. */
  lemma IntervalsApart(a: int, b: int, c: int, d: int)
    requires a < b && c < d && forall k :: In(k, a, b) ==> !In(k, c, d)
    ensures b <= c || d <= a
  {
    assert In(a, a, b) && In(c, c, d);
    assert In(c, a, b) ==> !In(c, c, d);
  }

  lemma CreateIsApart(s: System, id: int, x: Context, func: int, arg: int, nctx: int)
    requires Inv(s) && Enabled(s, Create(id, x, func, arg, nctx))
    ensures CreateApart(s.cpu.rsp, x.slot, x.hi, nctx)
  {
    var me, ctxs, rsp := s.ctxs[s.running], s.ctxs[id := x], s.cpu.rsp;
    var bottom, frame, past := x.hi - INIT_WORDS, rsp - 1 - NUM_SAVED, INIT_FUNC + 1;
    OwnersApart(ctxs, id, s.running);
    OwnersApart(ctxs, s.running, id);
    assert Owns(x, x.slot) && Owns(me, nctx);
    hide Layout, Inv, Enabled;
    forall k | In(k, bottom, x.hi)
      ensures !In(k, CREATE_CORO, past) && !In(k, frame, rsp) && k != nctx
    {
      assert Owns(x, k);
      assert In(k, frame, rsp) ==> Owns(me, k);
    }
    forall k | In(k, frame, rsp)
      ensures !In(k, CREATE_CORO, past) && k != x.slot
    {
      assert Owns(me, k);
    }
    IntervalsApart(bottom, x.hi, CREATE_CORO, past);
    IntervalsApart(bottom, x.hi, frame, rsp);
    IntervalsApart(frame, rsp, CREATE_CORO, past);
    assert !In(nctx, bottom, x.hi) && !In(x.slot, frame, rsp);
  }

  lemma OwnersApart(ctxs: map<int, Context>, i: int, j: int)
    requires Layout(ctxs) && i in ctxs && j in ctxs && i != j
    ensures forall a :: Owns(ctxs[i], a) ==> !Static(a) && !Owns(ctxs[j], a)
  {
  }

  lemma CreateReturns(s: System, id: int, x: Context, func: int, arg: int, nctx: int)
    requires Inv(s) && Enabled(s, Create(id, x, func, arg, nctx))
    ensures var c := InitOut(CreateOut(s.cpu, x.slot, func, arg, x.hi, nctx));
            && c.regs == s.cpu.regs && c.rsp == s.cpu.rsp && c.pc == CREATE_RETURN
            && c.mem(x.hi - 2) == func && c.mem(x.hi - 3) == arg
            && Suspended(c.mem, x, Frozen(NO_REGS, INIT_RESUME, x.hi - 3, c.mem))
            && (forall i, a :: i in s.frozen && Owns(s.ctxs[i], a) ==> c.mem(a) == s.cpu.mem(a))
            && (forall a :: s.cpu.rsp <= a && Owns(s.ctxs[s.running], a) && a != nctx ==> c.mem(a) == s.cpu.mem(a))
  {
    hide InitOut, CreateOut, FrameAt, CreateApart, CreateWrites;
    CreateIsApart(s, id, x, func, arg, nctx);
    CreateEffect(s.cpu, x.slot, func, arg, x.hi, nctx);
    OnlyOwnWritten(s, id, x, nctx);
  }

  lemma CreateKeeps(s: System, id: int, x: Context, func: int, arg: int, nctx: int)
    requires Inv(s) && Enabled(s, Create(id, x, func, arg, nctx))
    ensures Inv(Next(s, Create(id, x, func, arg, nctx)))
    ensures var s' := Next(s, Create(id, x, func, arg, nctx));
            && s'.cpu.regs == s.cpu.regs && s'.cpu.rsp == s.cpu.rsp && s'.cpu.pc == CREATE_RETURN
            && s'.running == s.running
            && s'.cpu.mem(x.hi - 2) == func && s'.cpu.mem(x.hi - 3) == arg
            && forall a :: s.cpu.rsp <= a && Owns(s.ctxs[s.running], a) && a != nctx ==> s'.cpu.mem(a) == s.cpu.mem(a)
  {
    hide InitOut, CreateOut, FrameAt, Layout, Suspended;
    CreateReturns(s, id, x, func, arg, nctx);
    SuspendedKept(s, InitOut(CreateOut(s.cpu, x.slot, func, arg, x.hi, nctx)).mem);
  }

  lemma SuspendedKept(s: System, m': Memory)
    requires Inv(s)
    requires forall i, a :: i in s.frozen && Owns(s.ctxs[i], a) ==> m'(a) == s.cpu.mem(a)
    ensures forall i :: i in s.frozen ==> Suspended(m', s.ctxs[i], s.frozen[i])
  {
    forall i | i in s.frozen
      ensures Suspended(m', s.ctxs[i], s.frozen[i])
    {
      hide FrameAt, Layout;
      StillSuspended(s.cpu.mem, m', s.ctxs[i], s.frozen[i]);
    }
  }

  /** A creation writes only static variables, the new context's memory and the
      creator's. */
  lemma OnlyOwnWritten(s: System, id: int, x: Context, nctx: int)
    requires Inv(s) && id !in s.ctxs && Layout(s.ctxs[id := x])
    requires x.lo + INIT_WORDS <= x.hi && Room(s.ctxs[s.running], s.cpu.rsp)
    requires Owns(s.ctxs[s.running], nctx)
    ensures forall i, a :: i in s.frozen && Owns(s.ctxs[i], a) ==> !CreateWrites(s.cpu.rsp, x.slot, x.hi, nctx, a)
    ensures forall a :: s.cpu.rsp <= a && Owns(s.ctxs[s.running], a) && a != nctx ==>
              !CreateWrites(s.cpu.rsp, x.slot, x.hi, nctx, a)
  {
    var me, ctxs := s.ctxs[s.running], s.ctxs[id := x];
    forall i, a | i in s.frozen && Owns(s.ctxs[i], a)
      ensures !CreateWrites(s.cpu.rsp, x.slot, x.hi, nctx, a)
    {
      assert Owns(ctxs[i], a) && !Owns(ctxs[id], a) && !Owns(ctxs[s.running], a);
    }
    forall a | s.cpu.rsp <= a && Owns(me, a) && a != nctx
      ensures !CreateWrites(s.cpu.rsp, x.slot, x.hi, nctx, a)
    {
      assert Owns(ctxs[s.running], a) && !Owns(ctxs[id], a);
    }
  }

  /** At the start one context runs, and nobody is suspended. */
  lemma StartInv(c: Cpu, id: int, x: Context)
    requires forall a :: Owns(x, a) ==> !Static(a)
    ensures Inv(System(c, id, map[id := x], map[]))
  {
  }

  /** A context just created may be switched to at once, and its creator may be
      switched back to: the steps below are possible. */
  lemma CreatedIsRunnable(s: System, id: int, x: Context, func: int, arg: int, nctx: int, ret: int)
    requires Inv(s) && Enabled(s, Create(id, x, func, arg, nctx))
    ensures var s1 := Next(s, Create(id, x, func, arg, nctx));
            Enabled(s1, Switch(id, ret)) && s.running in Next(s1, Switch(id, ret)).frozen
  {
    hide InitOut, CreateOut, FrameAt, Layout, Suspended, Transfer;
    CreateKeeps(s, id, x, func, arg, nctx);
  }

  /** Every step keeps the invariant, and what it knows about contexts that
      stay suspended. */
  lemma StepKeeps(s: System, l: Label)
    requires Inv(s) && Enabled(s, l)
    ensures Inv(Next(s, l))
    ensures var s' := Next(s, l);
            forall i :: i in s.frozen && !(l.Switch? && l.to == i) && !(l.Drop? && l.id == i) ==>
              i in s'.frozen && s'.frozen[i] == s.frozen[i] && s'.ctxs[i] == s.ctxs[i]
  {
    hide InitOut, CreateOut, Transfer, FrameAt, Layout, Suspended;
    match l
    case Work(c) => SuspendedKept(s, c.mem);
    case Switch(to, ret) => SwitchKeeps(s, to, ret);
    case Create(id, x, func, arg, nctx) => CreateKeeps(s, id, x, func, arg, nctx);
    case Drop(id) => DropKeeps(s, id);
  }

  lemma DropKeeps(s: System, id: int)
    requires Inv(s) && Enabled(s, Drop(id))
    ensures Inv(Next(s, Drop(id)))
  {
    hide FrameAt, Suspended;
  }

  ghost predicate Runs(s: System, ls: seq<Label>)
    decreases |ls|
  {
    ls != [] ==> Enabled(s, ls[0]) && Runs(Next(s, ls[0]), ls[1..])
  }

  ghost function Exec(s: System, ls: seq<Label>): System
    requires Runs(s, ls)
    decreases |ls|
  {
    if ls == [] then s else Exec(Next(s, ls[0]), ls[1..])
  }

  /** The run neither resumes nor frees context `i`. */
  predicate LeavesAlone(ls: seq<Label>, i: int) {
    forall k :: 0 <= k < |ls| ==> !(ls[k].Switch? && ls[k].to == i) && !(ls[k].Drop? && ls[k].id == i)
  }

  lemma {:induction false} RunKeeps(s: System, ls: seq<Label>, i: int)
    requires Inv(s) && Runs(s, ls) && i in s.frozen && LeavesAlone(ls, i)
    ensures var s' := Exec(s, ls);
            Inv(s') && i in s'.frozen && s'.frozen[i] == s.frozen[i] && i in s'.ctxs && s'.ctxs[i] == s.ctxs[i]
    decreases |ls|
  {
    hide Enabled, Next, Suspended, Layout;
    if ls != [] {
      StepKeeps(s, ls[0]);
      RunKeeps(Next(s, ls[0]), ls[1..], i);
    }
  }

  /** However the run goes on after a context switches away, when it is next
      resumed it continues at its own return address, with its own stack
      pointer, its own six saved registers and its own memory. */
  lemma ResumedAsLeft(s: System, to: int, ret: int, ls: seq<Label>, ret2: int)
    requires Inv(s) && Enabled(s, Switch(to, ret))
    requires var s1 := Next(s, Switch(to, ret));
             && Runs(s1, ls) && LeavesAlone(ls, s.running)
             && Enabled(Exec(s1, ls), Switch(s.running, ret2))
    ensures var s2 := Exec(Next(s, Switch(to, ret)), ls);
            var s3 := Next(s2, Switch(s.running, ret2));
            var x := s.ctxs[s.running];
            && s3.running == s.running
            && s3.cpu.pc == ret && s3.cpu.rsp == s.cpu.rsp && s3.cpu.regs == s.cpu.regs
            && forall a :: Owns(x, a) && a != x.slot && !(s.cpu.rsp - 1 - NUM_SAVED <= a < s.cpu.rsp)
                 ==> s3.cpu.mem(a) == s.cpu.mem(a)
  {
    var me := s.running;
    var s1 := Next(s, Switch(to, ret));
    SwitchKeeps(s, to, ret);
    RunKeeps(s1, ls, me);
    var s2 := Exec(s1, ls);
    SwitchKeeps(s2, me, ret2);
    TransferSaves(s.cpu, ret, s.ctxs[me].slot, s.ctxs[to].slot);
  }

  /** A creation returns to its creator; however the run goes on, later
      creations included, the first resumption of the new context calls its own
      function with its own argument. */
  lemma FirstResumeCalls(s: System, id: int, x: Context, func: int, arg: int, nctx: int, ls: seq<Label>, ret: int)
    requires Inv(s) && Enabled(s, Create(id, x, func, arg, nctx))
    requires var s1 := Next(s, Create(id, x, func, arg, nctx));
             && Runs(s1, ls) && LeavesAlone(ls, id)
             && Enabled(Exec(s1, ls), Switch(id, ret))
    ensures var s1 := Next(s, Create(id, x, func, arg, nctx));
            && s1.running == s.running && s1.cpu.pc == CREATE_RETURN
            && s1.cpu.rsp == s.cpu.rsp && s1.cpu.regs == s.cpu.regs
    ensures var s1 := Next(s, Create(id, x, func, arg, nctx));
            var s2 := Next(Exec(s1, ls), Switch(id, ret));
            && s2.running == id && s2.cpu.pc == INIT_RESUME
            && InitCall(s2.cpu).pc == func && InitCall(s2.cpu).rdi == arg
  {
    hide InitOut, CreateOut, Transfer, FrameAt, Layout, Enabled;
    var s1 := Next(s, Create(id, x, func, arg, nctx));
    CreateKeeps(s, id, x, func, arg, nctx);
    RunKeeps(s1, ls, id);
    SwitchKeeps(Exec(s1, ls), id, ret);
    assert Owns(x, x.hi - 2) && Owns(x, x.hi - 3);
  }
}
