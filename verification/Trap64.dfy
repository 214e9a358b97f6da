// Traps on x86-64: abstract-machine/am/src/x86/qemu/trap64.S with __am_irq_handle and kcontext of
// abstract-machine/am/src/x86/qemu/cte.c, instruction by instruction on a memory of 8-byte words.

module Trap64 {
  // Words by byte address. Kernel stack pointers are multiples of 8, so words do not overlap.
  type Mem = map<nat, nat>
  function Rd(mem: Mem, a: nat): nat { if a in mem then mem[a] else 0 }

  const KCODE: nat := 8        // KSEL(SEG_KCODE)
  const UCODE: nat := 27       // USEL(SEG_UCODE)
  const FL_IF: nat := 0x200

  // What a context must bring back: the general registers in the order of struct Context, and
  // what iretq pops.
  datatype General = General(rax: nat, rbx: nat, rcx: nat, rdx: nat, rbp: nat, rsi: nat, rdi: nat, high: High)
  datatype High = High(r8: nat, r9: nat, r10: nat, r11: nat, r12: nat, r13: nat, r14: nat, r15: nat)
  datatype Regs = Regs(g: General, rip: nat, cs: nat, rflags: nat, rsp: nat, ss: nat)

  // struct Context: cr3, rax .. rdi, r8 .. r15, rip, cs, rflags, rsp, ss, rsp0
  const CONTEXT: nat := 176
  const FRAME: nat := 232      // struct trap_frame: then irq, errcode, rip, cs, rflags, rsp, ss

  ghost predicate HoldsLow(m: Mem, c: nat, g: General) {
    && Rd(m, c + 8) == g.rax && Rd(m, c + 16) == g.rbx && Rd(m, c + 24) == g.rcx && Rd(m, c + 32) == g.rdx
    && Rd(m, c + 40) == g.rbp && Rd(m, c + 48) == g.rsi && Rd(m, c + 56) == g.rdi
  }

  ghost predicate HoldsHigh(m: Mem, c: nat, h: High) {
    && Rd(m, c + 64) == h.r8 && Rd(m, c + 72) == h.r9 && Rd(m, c + 80) == h.r10 && Rd(m, c + 88) == h.r11
    && Rd(m, c + 96) == h.r12 && Rd(m, c + 104) == h.r13 && Rd(m, c + 112) == h.r14 && Rd(m, c + 120) == h.r15
  }

  ghost predicate HoldsTop(m: Mem, c: nat, x: Regs) {
    && Rd(m, c + 128) == x.rip && Rd(m, c + 136) == x.cs && Rd(m, c + 144) == x.rflags && Rd(m, c + 152) == x.rsp
    && Rd(m, c + 160) == x.ss
  }

  ghost predicate Holds(m: Mem, c: nat, x: Regs) {
    HoldsLow(m, c, x.g) && HoldsHigh(m, c, x.g.high) && HoldsTop(m, c, x)
  }

  // Everything in a context: what must come back, the address space, and the stack for the next trap.
  datatype Context = Context(r: Regs, cr3: nat, rsp0: nat)

  ghost predicate HoldsAll(m: Mem, c: nat, x: Context) {
    Holds(m, c, x.r) && Rd(m, c) == x.cr3 && Rd(m, c + 168) == x.rsp0
  }

  ghost predicate SameOutside(p: Mem, q: Mem, lo: nat, hi: nat) {
    forall a: nat {:trigger Rd(q, a)} :: a < lo || a >= hi ==> Rd(q, a) == Rd(p, a)
  }

  lemma SameTrans(p: Mem, q: Mem, r: Mem, lo: nat, mid: nat, hi: nat)
    requires SameOutside(p, q, mid, hi) && SameOutside(q, r, lo, mid) && lo <= mid <= hi
    ensures SameOutside(p, r, lo, hi)
  {
    forall a: nat | a < lo || a >= hi ensures Rd(r, a) == Rd(p, a) { assert Rd(q, a) == Rd(p, a); }
  }

  // ---- the instructions ----

  // The processor aligns the stack and pushes five words in either mode; the stub pushes two.
  function Top(r: Regs, rsp0: nat): nat {
    var top := if r.cs == UCODE then rsp0 else r.rsp;
    top - top % 16
  }

  // The first 16-byte boundary at or below the stack pointer of the mode.
  lemma TopIs(r: Regs, rsp0: nat)
    ensures Top(r, rsp0) % 16 == 0
    ensures if r.cs == 27 then rsp0 - 16 < Top(r, rsp0) <= rsp0
            else r.rsp - 16 < Top(r, rsp0) <= r.rsp
  {
  }

  method Interrupt(mem: Mem, r: Regs, rsp0: nat, irq: nat, errcode: nat) returns (m: Mem, rsp: nat)
    requires Top(r, rsp0) >= FRAME
    ensures rsp == Top(r, rsp0) - 56 && SameOutside(mem, m, rsp, rsp + 56)
    ensures Rd(m, rsp) == irq && Rd(m, rsp + 8) == errcode && Rd(m, rsp + 16) == r.rip && Rd(m, rsp + 24) == r.cs
    ensures Rd(m, rsp + 32) == r.rflags && Rd(m, rsp + 40) == r.rsp && Rd(m, rsp + 48) == r.ss
  {
    m, rsp := mem, r.rsp;
    if r.cs == UCODE { rsp := rsp0; }
    rsp := rsp / 16 * 16;
    rsp := rsp - 8; m := m[rsp := r.ss];
    rsp := rsp - 8; m := m[rsp := r.rsp];
    rsp := rsp - 8; m := m[rsp := r.rflags];
    rsp := rsp - 8; m := m[rsp := r.cs];
    rsp := rsp - 8; m := m[rsp := r.rip];
    rsp := rsp - 8; m := m[rsp := errcode];
    rsp := rsp - 8; m := m[rsp := irq];
  }

  method PushHigh(mem: Mem, top: nat, h: High) returns (m: Mem, rsp: nat)
    requires top >= 64
    ensures rsp == top - 64 && SameOutside(mem, m, rsp, top)
    ensures Rd(m, rsp) == h.r8 && Rd(m, rsp + 8) == h.r9 && Rd(m, rsp + 16) == h.r10 && Rd(m, rsp + 24) == h.r11
    ensures Rd(m, rsp + 32) == h.r12 && Rd(m, rsp + 40) == h.r13 && Rd(m, rsp + 48) == h.r14 && Rd(m, rsp + 56) == h.r15
  {
    m, rsp := mem, top;
    rsp := rsp - 8; m := m[rsp := h.r15];
    rsp := rsp - 8; m := m[rsp := h.r14];
    rsp := rsp - 8; m := m[rsp := h.r13];
    rsp := rsp - 8; m := m[rsp := h.r12];
    rsp := rsp - 8; m := m[rsp := h.r11];
    rsp := rsp - 8; m := m[rsp := h.r10];
    rsp := rsp - 8; m := m[rsp := h.r9];
    rsp := rsp - 8; m := m[rsp := h.r8];
  }

  method PushLow(mem: Mem, top: nat, g: General) returns (m: Mem, rsp: nat)
    requires top >= 64
    ensures rsp == top - 64 && SameOutside(mem, m, rsp, top) && HoldsLow(m, rsp, g)
  {
    m, rsp := mem, top;
    rsp := rsp - 8; m := m[rsp := g.rdi];
    rsp := rsp - 8; m := m[rsp := g.rsi];
    rsp := rsp - 8; m := m[rsp := g.rbp];
    rsp := rsp - 8; m := m[rsp := g.rdx];
    rsp := rsp - 8; m := m[rsp := g.rcx];
    rsp := rsp - 8; m := m[rsp := g.rbx];
    rsp := rsp - 8; m := m[rsp := g.rax];
    rsp := rsp - 8; m := m[rsp := 0];
  }

  // The first part of __am_irq_handle: the rest of the context.
  method Fill(mem: Mem, tf: nat, cr3: nat, rsp0: nat) returns (m: Mem)
    ensures SameOutside(mem, m, tf, tf + CONTEXT)
    ensures forall a: nat {:trigger Rd(m, a)} :: tf + 8 <= a < tf + 128 ==> Rd(m, a) == Rd(mem, a)
    ensures Rd(m, tf + 128) == Rd(mem, tf + 192) && Rd(m, tf + 136) == Rd(mem, tf + 200)
      && Rd(m, tf + 144) == Rd(mem, tf + 208)
    ensures Rd(m, tf + 152) == Rd(mem, tf + 216) && Rd(m, tf + 160) == Rd(mem, tf + 224)
    ensures Rd(m, tf) == cr3 && Rd(m, tf + 168) == rsp0
  {
    m := mem;
    m := m[tf + 128 := Rd(m, tf + 192)];
    m := m[tf + 136 := Rd(m, tf + 200)];
    m := m[tf + 144 := Rd(m, tf + 208)];
    m := m[tf + 152 := Rd(m, tf + 216)];
    m := m[tf + 168 := rsp0];
    m := m[tf + 160 := Rd(m, tf + 224)];
    m := m[tf := cr3];
  }

  // From the interrupt to the call of the handler: the context is complete.
  method Save(mem: Mem, r: Regs, cr3: nat, rsp0: nat, irq: nat, errcode: nat) returns (m: Mem, tf: nat)
    requires Top(r, rsp0) >= FRAME
    ensures tf == Top(r, rsp0) - FRAME && SameOutside(mem, m, tf, tf + FRAME) && HoldsAll(m, tf, Context(r, cr3, rsp0))
  {
    var m1, rsp := Interrupt(mem, r, rsp0, irq, errcode);
    rsp := rsp - 48;
    var m2, m3;
    m2, rsp := PushHigh(m1, rsp, r.g.high);
    m3, tf := PushLow(m2, rsp, r.g);
    assert HoldsHigh(m3, tf, r.g.high);
    m := Fill(m3, tf, cr3, rsp0);
    assert HoldsLow(m, tf, r.g) && HoldsHigh(m, tf, r.g.high);
    forall a: nat | a < tf || a >= tf + FRAME ensures Rd(m, a) == Rd(mem, a) {
      assert Rd(m3, a) == Rd(m2, a) == Rd(m1, a) == Rd(mem, a);
    }
  }

  // __am_iret: %ds and %es take the value of ss, everything else comes from the context.
  method Iret(mem: Mem, ctx: nat, ghost x: Regs) returns (r: Regs, ds: nat)
    requires Holds(mem, ctx, x)
    ensures r == x && ds == x.ss % 0x1_0000
  {
    var rsp := ctx;
    ds := Rd(mem, rsp + 160) % 0x1_0000;
    rsp := rsp + 8;
    var rax := Rd(mem, rsp); rsp := rsp + 8;
    var rbx := Rd(mem, rsp); rsp := rsp + 8;
    var rcx := Rd(mem, rsp); rsp := rsp + 8;
    var rdx := Rd(mem, rsp); rsp := rsp + 8;
    var rbp := Rd(mem, rsp); rsp := rsp + 8;
    var rsi := Rd(mem, rsp); rsp := rsp + 8;
    var rdi := Rd(mem, rsp); rsp := rsp + 8;
    var r8 := Rd(mem, rsp); rsp := rsp + 8;
    var r9 := Rd(mem, rsp); rsp := rsp + 8;
    var r10 := Rd(mem, rsp); rsp := rsp + 8;
    var r11 := Rd(mem, rsp); rsp := rsp + 8;
    var r12 := Rd(mem, rsp); rsp := rsp + 8;
    var r13 := Rd(mem, rsp); rsp := rsp + 8;
    var r14 := Rd(mem, rsp); rsp := rsp + 8;
    var r15 := Rd(mem, rsp); rsp := rsp + 8;
    var high := High(r8, r9, r10, r11, r12, r13, r14, r15);
    r := Regs(General(rax, rbx, rcx, rdx, rbp, rsi, rdi, high), Rd(mem, rsp), Rd(mem, rsp + 8), Rd(mem, rsp + 16),
      Rd(mem, rsp + 24), Rd(mem, rsp + 32));
  }

  // kcontext: a context at the end of a stack that starts a kernel thread.
  method KContext(mem: Mem, end: nat, start: nat, entry: nat, arg: nat) returns (m: Mem, ctx: nat)
    requires end >= CONTEXT
    ensures ctx == end - CONTEXT && SameOutside(mem, m, ctx, end)
    ensures HoldsAll(m, ctx, Context(Thread(end, start, entry, arg), 0, 0))
  {
    ctx := end - CONTEXT;
    var zeroed := ZeroContext(mem, ctx);
    m := FillThread(zeroed, ctx, start, entry, arg);
    forall a: nat | a < ctx || a >= end ensures Rd(m, a) == Rd(mem, a) { assert Rd(zeroed, a) == Rd(mem, a); }
  }

  method FillThread(mem: Mem, ctx: nat, start: nat, entry: nat, arg: nat) returns (m: Mem)
    requires Zeroed(mem, ctx)
    ensures HoldsAll(m, ctx, Context(Thread(ctx + CONTEXT, start, entry, arg), 0, 0))
    ensures SameOutside(mem, m, ctx, ctx + CONTEXT)
  {
    hide HoldsLow, HoldsHigh, HoldsTop, Zeroed;
    m := mem;
    m := m[ctx + 136 := KCODE];
    m := m[ctx + 128 := start];
    m := m[ctx + 144 := FL_IF];
    m := m[ctx + 152 := ctx + CONTEXT];
    m := m[ctx + 56 := arg];
    m := m[ctx + 48 := entry];
    LowHeld(mem, m, ctx, start, entry, arg);
    HighHeld(mem, m, ctx, start, entry, arg);
    TopHeld(mem, m, ctx, start, entry, arg);
  }

  // The six words in place, and zeros around them.
  ghost predicate Six(mem: Mem, m: Mem, ctx: nat, start: nat, entry: nat, arg: nat) {
    m == mem[ctx + 136 := KCODE][ctx + 128 := start][ctx + 144 := FL_IF][ctx + 152 := ctx + CONTEXT]
      [ctx + 56 := arg][ctx + 48 := entry]
  }

  lemma LowHeld(mem: Mem, m: Mem, ctx: nat, start: nat, entry: nat, arg: nat)
    requires Zeroed(mem, ctx) && Six(mem, m, ctx, start, entry, arg)
    ensures HoldsLow(m, ctx, General(0, 0, 0, 0, 0, entry, arg, High(0, 0, 0, 0, 0, 0, 0, 0)))
    ensures Rd(m, ctx) == 0 && Rd(m, ctx + 168) == 0
  {
  }

  lemma HighHeld(mem: Mem, m: Mem, ctx: nat, start: nat, entry: nat, arg: nat)
    requires Zeroed(mem, ctx) && Six(mem, m, ctx, start, entry, arg)
    ensures HoldsHigh(m, ctx, High(0, 0, 0, 0, 0, 0, 0, 0))
  {
  }

  lemma TopHeld(mem: Mem, m: Mem, ctx: nat, start: nat, entry: nat, arg: nat)
    requires Zeroed(mem, ctx) && Six(mem, m, ctx, start, entry, arg)
    ensures HoldsTop(m, ctx, Thread(ctx + CONTEXT, start, entry, arg))
  {
  }

  ghost predicate Zeroed(m: Mem, ctx: nat) {
    && Rd(m, ctx) == 0 && Rd(m, ctx + 168) == 0
    && Rd(m, ctx + 8) == 0 && Rd(m, ctx + 16) == 0 && Rd(m, ctx + 24) == 0 && Rd(m, ctx + 32) == 0
      && Rd(m, ctx + 40) == 0
    && Rd(m, ctx + 64) == 0 && Rd(m, ctx + 72) == 0 && Rd(m, ctx + 80) == 0 && Rd(m, ctx + 88) == 0
    && Rd(m, ctx + 96) == 0 && Rd(m, ctx + 104) == 0 && Rd(m, ctx + 112) == 0 && Rd(m, ctx + 120) == 0
      && Rd(m, ctx + 160) == 0
  }

  method ZeroContext(mem: Mem, ctx: nat) returns (m: Mem)
    ensures SameOutside(mem, m, ctx, ctx + CONTEXT)
    ensures Zeroed(m, ctx)
  {
    m := mem;
    var i := 0;
    while i < 22
      invariant 0 <= i <= 22 && SameOutside(mem, m, ctx, ctx + CONTEXT) && forall j: nat :: j < i ==>
        Rd(m, At(ctx, j)) == 0
    {
      ghost var was := m;
      m := m[At(ctx, i) := 0];
      forall a: nat | a < ctx || a >= ctx + CONTEXT ensures Rd(m, a) == Rd(mem, a) { assert Rd(was, a) == Rd(mem, a); }
      i := i + 1;
    }
    Zeros(m, ctx);
  }

  function At(a: nat, j: nat): nat { a + 8 * j }

  lemma Zeros(m: Mem, ctx: nat)
    requires forall j: nat :: j < 22 ==> Rd(m, At(ctx, j)) == 0
    ensures Zeroed(m, ctx)
  {
    assert At(ctx, 0) == ctx && At(ctx, 21) == ctx + 168;
    assert At(ctx, 1) == ctx + 8 && At(ctx, 2) == ctx + 16 && At(ctx, 3) == ctx + 24 && At(ctx, 4) == ctx + 32
      && At(ctx, 5) == ctx + 40;
    assert At(ctx, 8) == ctx + 64 && At(ctx, 9) == ctx + 72 && At(ctx, 10) == ctx + 80 && At(ctx, 11) == ctx + 88;
    assert At(ctx, 12) == ctx + 96 && At(ctx, 13) == ctx + 104 && At(ctx, 14) == ctx + 112 && At(ctx, 15) == ctx + 120
      && At(ctx, 20) == ctx + 160;
  }

  function Thread(end: nat, start: nat, entry: nat, arg: nat): Regs {
    Regs(General(0, 0, 0, 0, 0, entry, arg, High(0, 0, 0, 0, 0, 0, 0, 0)), start, KCODE, FL_IF, end, 0)
  }

  // __am_kcontext_start: a return address that panics is pushed, and the entry function is entered.
  method KContextStart(mem: Mem, r: Regs, onReturn: nat) returns (m: Mem, rsp: nat, rip: nat)
    requires r.rsp >= 8
    ensures rip == r.g.rsi && rsp == r.rsp - 8 && Rd(m, rsp) == onReturn && SameOutside(mem, m, rsp, r.rsp)
  {
    m, rsp := mem, r.rsp;
    rsp := rsp - 8; m := m[rsp := onReturn];
    rip := r.g.rsi;
  }

  // Whoever returns to the context of a new thread reaches it, and from there the entry function
  // with its argument in rdi, in ring 0, with interrupts on, on the stack of the thread.
  method FirstCall(mem: Mem, x: Regs, end: nat, start: nat, entry: nat, arg: nat, onReturn: nat)
      returns (m: Mem, rsp: nat, rip: nat)
    requires x == Thread(end, start, entry, arg) && end >= 8
    ensures x.rip == start && x.cs == 1 * 8 && x.rflags == 0x200 && x.g.rdi == arg
    ensures rip == entry && rsp == end - 8 && Rd(m, rsp) == onReturn
  {
    m, rsp, rip := KContextStart(mem, x, onReturn);
  }

  // ---- runs ----

  // The contexts that a change of memory leaves intact.
  ghost function Intact(mem: Mem, saved: map<nat, Context>): map<nat, Context> {
    map c | c in saved && HoldsAll(mem, c, saved[c]) :: saved[c]
  }

  lemma HoldsFrame(p: Mem, q: Mem, lo: nat, hi: nat, c: nat, x: Context)
    requires SameOutside(p, q, lo, hi) && HoldsAll(p, c, x) && (c + CONTEXT <= lo || c >= hi)
    ensures HoldsAll(q, c, x)
  {
  }

  class Cpu {
    var r: Regs
    var cr3: nat
    var rsp0: nat                    // CPU->tss.rsp0
    var mem: Mem
    ghost var saved: map<nat, Context> // the contexts that are still intact, with what they saved

    ghost predicate Inv() reads this { forall c :: c in saved ==> HoldsAll(mem, c, saved[c]) }

    constructor (start: Regs, m: Mem, kernelStack: nat)
      ensures Inv() && saved == map[] && mem == m && rsp0 == kernelStack && r == start
    {
      r, cr3, rsp0, mem, saved := start, 0, kernelStack, m, map[];
    }

    // Any computation between traps; contexts that it overwrites are lost.
    method Compute(m: Mem, x: Regs)
      requires Inv()
      modifies this
      ensures Inv() && mem == m && r == x && saved == Intact(m, old(saved))
    {
      r, mem, saved := x, m, Intact(m, saved);
    }

    // kcontext: the new context is one more that can be returned to.
    method NewContext(end: nat, start: nat, entry: nat, arg: nat) returns (ctx: nat)
      requires Inv() && end >= CONTEXT
      modifies this
      ensures Inv() && SameOutside(old(mem), mem, ctx, end)
      ensures saved == Intact(mem, old(saved))[ctx := Context(Thread(end, start, entry, arg), 0, 0)]
    {
      var m;
      m, ctx := KContext(mem, end, start, entry, arg);
      mem, saved := m, Intact(m, saved)[ctx := Context(Thread(end, start, entry, arg), 0, 0)];
    }

    // A trap: the context at tf holds what was interrupted, and every other one is as it was
    // unless it lay in the stretch of stack that is now in use.
    method Trap(irq: nat, errcode: nat) returns (tf: nat)
      requires Inv() && Top(r, rsp0) >= FRAME
      modifies this
      ensures Inv() && tf == old(Top(r, rsp0)) - FRAME && SameOutside(old(mem), mem, tf, tf + FRAME)
      ensures saved == Intact(mem, old(saved))[tf := Context(old(r), old(cr3), old(rsp0))]
      ensures forall c :: c in old(saved) && (c + CONTEXT <= tf || c >= tf + FRAME) ==>
        c in saved && saved[c] == old(saved[c])
    {
      var m;
      m, tf := Save(mem, r, cr3, rsp0, irq, errcode);
      forall c | c in saved && (c + CONTEXT <= tf || c >= tf + FRAME) ensures HoldsAll(m, c, saved[c]) {
        HoldsFrame(mem, m, tf, tf + FRAME, c, saved[c]);
      }
      mem, saved := m, Intact(m, saved)[tf := Context(r, cr3, rsp0)];
    }

    // __am_irq_handle once the handler has chosen ctx, and __am_iret: all registers are what they
    // were when this context was saved, and so are the address space and the stack for the next
    // trap, unless the context has none of its own. It reads memory only, so all contexts stay intact.
    method Return(ctx: nat)
      requires Inv() && ctx in saved
      modifies this`r, this`cr3, this`rsp0
      ensures Inv() && r == old(saved)[ctx].r
      ensures if saved[ctx].cr3 != 0 then cr3 == saved[ctx].cr3 && rsp0 == saved[ctx].rsp0
              else cr3 == old(cr3) && rsp0 == old(rsp0)
    {
      if Rd(mem, ctx) != 0 {
        cr3 := Rd(mem, ctx);
        rsp0 := Rd(mem, ctx + 168);
      }
      var ds;
      r, ds := Iret(mem, ctx, saved[ctx].r);
    }
  }
}
