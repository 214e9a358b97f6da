// Traps on 32-bit x86: abstract-machine/am/src/x86/qemu/trap32.S with __am_irq_handle and
// kcontext of abstract-machine/am/src/x86/qemu/cte.c, instruction by instruction on a memory of
// 4-byte words.

module Trap32 {
  // Words by byte address. Kernel stack pointers are multiples of 4, so words do not overlap.
  type Mem = map<nat, nat>
  function Rd(mem: Mem, a: nat): nat { if a in mem then mem[a] else 0 }
  predicate Aligned(a: nat) { a % 4 == 0 }

  const KCODE: nat := 8        // KSEL(SEG_KCODE)
  const KDATA: nat := 16       // KSEL(SEG_KDATA)
  const UCODE: nat := 27       // USEL(SEG_UCODE)
  const UDATA: nat := 35       // USEL(SEG_UDATA)
  const FL_IF: nat := 0x200

  // What a context must bring back.
  datatype Regs = Regs(eax: nat, ebx: nat, ecx: nat, edx: nat, esi: nat, edi: nat, ebp: nat, ds: nat,
                       eip: nat, cs: nat, eflags: nat, esp: nat)

  // struct Context: cr3, ds, eax, ebx, ecx, edx, esp0, esi, edi, ebp, eip, cs, eflags, esp, ss3
  const CONTEXT: nat := 60
  const FRAME: nat := 88       // struct trap_frame: then irq, errcode, eip, cs, eflags, esp, ss

  ghost predicate Holds(mem: Mem, c: nat, x: Regs) {
    && Rd(mem, c + 4) % 0x1_0000 == x.ds && Rd(mem, c + 8) == x.eax && Rd(mem, c + 12) == x.ebx
      && Rd(mem, c + 16) == x.ecx
    && Rd(mem, c + 20) == x.edx && Rd(mem, c + 28) == x.esi && Rd(mem, c + 32) == x.edi && Rd(mem, c + 36) == x.ebp
    && Rd(mem, c + 40) == x.eip && Rd(mem, c + 44) == x.cs && Rd(mem, c + 48) == x.eflags && Rd(mem, c + 52) == x.esp
  }

  // Everything in a context: what must come back, the address space, and the stacks for the next
  // trap and of the user.
  datatype Context = Context(r: Regs, cr3: nat, esp0: nat, ss3: nat)

  ghost predicate HoldsAll(mem: Mem, c: nat, x: Context) {
    Holds(mem, c, x.r) && Rd(mem, c) == x.cr3 && Rd(mem, c + 24) == x.esp0 && Rd(mem, c + 56) == x.ss3
  }

  // A kernel context's stack pointer lies where the copy on the way back works.
  predicate Returnable(c: nat, x: Regs) {
    Aligned(c) && (x.cs == KCODE || x.cs == UCODE) && x.ds < 0x1_0000 &&
    (x.cs == KCODE ==> Aligned(x.esp) && x.esp >= c + 52)
  }

  ghost predicate SameOutside(p: Mem, q: Mem, lo: nat, hi: nat) {
    forall a: nat {:trigger Rd(q, a)} :: a < lo || a >= hi ==> Rd(q, a) == Rd(p, a)
  }

  // ---- the overlapping copy ----

  // The copy of .kernel_iret: n words from f to d, highest first.
  function CopyDown(mem: Mem, f: nat, d: nat, n: nat): Mem
    decreases n
  {
    if n == 0 then mem else CopyDown(mem[d + 4 * (n - 1) := Rd(mem, f + 4 * (n - 1))], f, d, n - 1)
  }

  // The j-th word from a.
  function At(a: nat, j: nat): nat { a + 4 * j }

  // Every word of m from d on is the word of mem from f on.
  ghost predicate Moved(mem: Mem, f: nat, m: Mem, d: nat, n: nat) {
    forall j: nat :: j < n ==> Rd(m, At(d, j)) == Rd(mem, At(f, j))
  }

  ghost predicate Copies(mem: Mem, f: nat, d: nat, n: nat) { Moved(mem, f, CopyDown(mem, f, d, n), d, n) }

  lemma {:induction false} CopyKeeps(mem: Mem, f: nat, d: nat, n: nat, a: nat)
    requires a < d || a >= d + 4 * n
    ensures Rd(CopyDown(mem, f, d, n), a) == Rd(mem, a)
    decreases n
  {
    if n > 0 { CopyKeeps(mem[d + 4 * (n - 1) := Rd(mem, f + 4 * (n - 1))], f, d, n - 1, a); }
  }

  lemma CopyStays(mem: Mem, f: nat, d: nat, n: nat, lo: nat, hi: nat)
    requires lo <= d && d + 4 * n <= hi
    ensures SameOutside(mem, CopyDown(mem, f, d, n), lo, hi)
  {
    forall a: nat | a < lo || a >= hi
      ensures Rd(CopyDown(mem, f, d, n), a) == Rd(mem, a)
    {
      CopyKeeps(mem, f, d, n, a);
    }
  }

  // Going down, a word is overwritten before it is read only if the target lies below the source.
  lemma {:induction false} CopiedWord(mem: Mem, f: nat, d: nat, n: nat, j: nat)
    requires Aligned(f) && Aligned(d) && j < n && (d >= f || d + 4 * n <= f)
    ensures Rd(CopyDown(mem, f, d, n), d + 4 * j) == Rd(mem, f + 4 * j)
    decreases n
  {
    var m := mem[d + 4 * (n - 1) := Rd(mem, f + 4 * (n - 1))];
    if j < n - 1 {
      CopiedWord(m, f, d, n - 1, j);
    } else {
      CopyKeeps(m, f, d, n - 1, d + 4 * j);
    }
  }

  // With 24 bytes to copy: from a memory with 1 in the last word and 0 elsewhere, a target that
  // overlaps from below gets that 1 twice.
  lemma OverlapBelowFails(f: nat, d: nat)
    requires Aligned(f) && Aligned(d) && d < f < d + 24
    ensures !Copies(map[f + 20 := 1], f, d, 6)
  {
    var mem: Mem := map[f + 20 := 1];
    var j := 5 + d / 4 - f / 4;
    TwiceTheLast(mem, f, d, 6, j);
    FirstIsWrong(mem, f, CopyDown(mem, f, d, 6), d, 6, j);
  }

  lemma FirstIsWrong(mem: Mem, f: nat, m: Mem, d: nat, n: nat, j: nat)
    requires j < n && Rd(m, d + 4 * j) != Rd(mem, f + 4 * j)
    ensures !Moved(mem, f, m, d, n)
  {
    assert Rd(m, At(d, j)) != Rd(mem, At(f, j));
  }

  // Word j of the source is the last word of the target, which was written first.
  lemma {:induction false} TwiceTheLast(mem: Mem, f: nat, d: nat, n: nat, j: nat)
    requires f + 4 * j == d + 20 && j < 5 && j < n <= 6
    requires Rd(mem, if n == 6 then f + 20 else d + 20) == 1
    ensures Rd(CopyDown(mem, f, d, n), d + 4 * j) == 1
    decreases n
  {
    var m := mem[d + 4 * (n - 1) := Rd(mem, f + 4 * (n - 1))];
    if n - 1 == j {
      CopyKeeps(m, f, d, n - 1, d + 4 * j);
    } else {
      TwiceTheLast(m, f, d, n - 1, j);
    }
  }

  lemma SixCopies(mem: Mem, f: nat, d: nat)
    ensures var m5 := mem[d + 20 := Rd(mem, f + 20)];
      var m4 := m5[d + 16 := Rd(m5, f + 16)];
      var m3 := m4[d + 12 := Rd(m4, f + 12)];
      var m2 := m3[d + 8 := Rd(m3, f + 8)];
      var m1 := m2[d + 4 := Rd(m2, f + 4)];
      CopyDown(mem, f, d, 6) == m1[d := Rd(m1, f)]
  {
    var m5 := mem[d + 20 := Rd(mem, f + 20)];
    var m4 := m5[d + 16 := Rd(m5, f + 16)];
    var m3 := m4[d + 12 := Rd(m4, f + 12)];
    var m2 := m3[d + 8 := Rd(m3, f + 8)];
    var m1 := m2[d + 4 := Rd(m2, f + 4)];
    assert CopyDown(mem, f, d, 6) == CopyDown(m5, f, d, 5) == CopyDown(m4, f, d, 4);
    assert CopyDown(m4, f, d, 4) == CopyDown(m3, f, d, 3) == CopyDown(m2, f, d, 2);
    assert CopyDown(m2, f, d, 2) == CopyDown(m1, f, d, 1) == m1[d := Rd(m1, f)];
  }

  lemma CopiedAll(mem: Mem, f: nat, d: nat, n: nat)
    requires Aligned(f) && Aligned(d) && (d >= f || d + 4 * n <= f)
    ensures Copies(mem, f, d, n)
  {
    forall j: nat | j < n
      ensures Rd(CopyDown(mem, f, d, n), At(d, j)) == Rd(mem, At(f, j))
    {
      CopiedWord(mem, f, d, n, j);
    }
  }

  // The frame that .kernel_iret builds is right, whatever the memory holds, exactly when it does
  // not overlap the old one from below.
  lemma CopyWorksIff(f: nat, d: nat)
    requires Aligned(f) && Aligned(d)
    ensures (forall mem: Mem :: Copies(mem, f, d, 6)) <==> (d >= f || d + 24 <= f)
  {
    if d >= f || d + 24 <= f {
      forall mem: Mem ensures Copies(mem, f, d, 6) { CopiedAll(mem, f, d, 6); }
    } else {
      OverlapBelowFails(f, d);
    }
  }

  // ---- the instructions ----

  lemma Write(p: Mem, q: Mem, lo: nat, hi: nat, a: nat, v: nat)
    requires SameOutside(p, q, lo, hi) && lo <= a < hi
    ensures SameOutside(p, q[a := v], lo, hi)
  {
    forall b: nat | b < lo || b >= hi ensures Rd(q[a := v], b) == Rd(p, b) { assert Rd(q, b) == Rd(p, b); }
  }

  // The pushes of trap from %ebp down to %eax.
  method PushRegisters(mem: Mem, top: nat, r: Regs) returns (m: Mem, esp: nat)
    requires top >= 32
    ensures esp == top - 32 && SameOutside(mem, m, esp, top)
    ensures Rd(m, esp) == r.eax && Rd(m, esp + 4) == r.ebx && Rd(m, esp + 8) == r.ecx && Rd(m, esp + 12) == r.edx
    ensures Rd(m, esp + 20) == r.esi && Rd(m, esp + 24) == r.edi && Rd(m, esp + 28) == r.ebp
  {
    m, esp := mem, top;
    esp := esp - 4; m := m[esp := r.ebp];
    esp := esp - 4; m := m[esp := r.edi];
    esp := esp - 4; m := m[esp := r.esi];
    esp := esp - 4; m := m[esp := 0];
    esp := esp - 4; m := m[esp := r.edx];
    esp := esp - 4; m := m[esp := r.ecx];
    esp := esp - 4; m := m[esp := r.ebx];
    esp := esp - 4; m := m[esp := r.eax];
  }

  // Where a trap frame is built: on the stack in use, or on the kernel's for a trap from user mode.
  function Top(r: Regs, esp0: nat): nat { if r.cs == UCODE then esp0 else r.esp }

  function Frame(r: Regs, esp0: nat): int { if r.cs == UCODE then esp0 - FRAME else r.esp - (FRAME - 8) }

  // What the processor and the entry stub push.
  ghost predicate Pushed(m: Mem, tf: nat, r: Regs, irq: nat, errcode: nat) {
    && Rd(m, tf + 60) == irq && Rd(m, tf + 64) == errcode
    && Rd(m, tf + 68) == r.eip && Rd(m, tf + 72) == r.cs && Rd(m, tf + 76) == r.eflags
    && (r.cs == UCODE ==> Rd(m, tf + 80) == r.esp)
  }

  method Interrupt(mem: Mem, r: Regs, esp0: nat, ss: nat, irq: nat, errcode: nat) returns (m: Mem, esp: nat)
    requires (r.cs == KCODE || r.cs == UCODE) && Top(r, esp0) >= FRAME
    ensures esp == Frame(r, esp0) + 60 && SameOutside(mem, m, esp, Top(r, esp0))
      && Pushed(m, Frame(r, esp0), r, irq, errcode)
  {
    m, esp := mem, r.esp;
    if r.cs == UCODE {
      esp := esp0;
      esp := esp - 4; m := m[esp := ss];
      esp := esp - 4; m := m[esp := r.esp];
    }
    esp := esp - 4; m := m[esp := r.eflags];
    esp := esp - 4; m := m[esp := r.cs];
    esp := esp - 4; m := m[esp := r.eip];
    // the stub
    esp := esp - 4; m := m[esp := errcode];
    esp := esp - 4; m := m[esp := irq];
  }

  // trap, up to the call: below the stub's words, the general registers and %ds.
  method SaveRegisters(mem: Mem, top: nat, r: Regs) returns (m: Mem, tf: nat)
    requires top >= 60
    ensures tf == top - 60 && SameOutside(mem, m, tf, top)
    ensures General(m, tf, r)
  {
    var esp := top - 20;
    m, esp := PushRegisters(mem, esp, r);
    var eax := r.eax - r.eax % 0x1_0000 + r.ds;
    Write(mem, m, top - 60, top, esp - 4, eax);
    esp := esp - 4; m := m[esp := eax];
    Write(mem, m, top - 60, top, esp - 4, 0);
    esp := esp - 4; m := m[esp := 0];
    tf := esp;
    if r.ds < 0x1_0000 { LowHalf(r.eax, r.ds); }
  }

  lemma LowHalf(a: nat, b: nat)
    requires b < 0x1_0000
    ensures (a - a % 0x1_0000 + b) % 0x1_0000 == b
  {
  }

  // The words of a context that trap itself fills.
  ghost predicate General(m: Mem, c: nat, x: Regs) {
    && (x.ds < 0x1_0000 ==> Rd(m, c + 4) % 0x1_0000 == x.ds) && Rd(m, c + 8) == x.eax && Rd(m, c + 12) == x.ebx
    && Rd(m, c + 16) == x.ecx && Rd(m, c + 20) == x.edx && Rd(m, c + 28) == x.esi && Rd(m, c + 32) == x.edi
      && Rd(m, c + 36) == x.ebp
  }

  // The first part of __am_irq_handle: the rest of the context. A trap from the kernel pushes no
  // stack pointer; it is the end of the frame without its last two words.
  method Fill(mem: Mem, tf: nat, cr3: nat, esp0: nat) returns (m: Mem)
    ensures SameOutside(mem, m, tf, tf + CONTEXT)
    ensures forall x :: General(mem, tf, x) ==> General(m, tf, x)
    ensures Rd(m, tf + 40) == Rd(mem, tf + 68) && Rd(m, tf + 44) == Rd(mem, tf + 72)
      && Rd(m, tf + 48) == Rd(mem, tf + 76)
    ensures Rd(m, tf + 52) == if Rd(mem, tf + 72) % 4 != 0 then Rd(mem, tf + 80) else tf + FRAME - 8
    ensures Rd(m, tf) == cr3 && Rd(m, tf + 24) == esp0 && Rd(m, tf + 56) == UDATA
  {
    hide General, SameOutside;
    m := mem;
    var eip := Rd(m, tf + 68); m := m[tf + 40 := eip];
    var cs := Rd(m, tf + 72); m := m[tf + 44 := cs];
    var eflags := Rd(m, tf + 76); m := m[tf + 48 := eflags];
    m := m[tf + 24 := esp0];
    m := m[tf + 56 := UDATA];
    var esp: nat := if Rd(m, tf + 72) % 4 != 0 then Rd(m, tf + 80) else tf + FRAME - 8; m := m[tf + 52 := esp];
    m := m[tf := cr3];
    GeneralKept(mem, m, tf);
    FillStays(mem, tf, eip, cs, eflags, esp0, UDATA, esp, cr3);
  }

  lemma FillStays(p: Mem, c: nat, a: nat, b: nat, d: nat, e: nat, f: nat, g: nat, h: nat)
    ensures SameOutside(p, p[c + 40 := a][c + 44 := b][c + 48 := d][c + 24 := e][c + 56 := f][c + 52 := g][c := h], c,
      c + CONTEXT)
  {
  }

  lemma GeneralKept(p: Mem, q: Mem, c: nat)
    requires Rd(q, c + 4) == Rd(p, c + 4) && Rd(q, c + 8) == Rd(p, c + 8) && Rd(q, c + 12) == Rd(p, c + 12)
      && Rd(q, c + 16) == Rd(p, c + 16)
    requires Rd(q, c + 20) == Rd(p, c + 20) && Rd(q, c + 28) == Rd(p, c + 28) && Rd(q, c + 32) == Rd(p, c + 32)
      && Rd(q, c + 36) == Rd(p, c + 36)
    ensures forall x :: General(p, c, x) ==> General(q, c, x)
  {
  }

  // From the interrupt to the call of the handler: the context is complete.
  method Save(mem: Mem, r: Regs, cr3: nat, esp0: nat, ss: nat, irq: nat, errcode: nat) returns (m: Mem, tf: nat)
    requires (r.cs == KCODE || r.cs == UCODE) && Top(r, esp0) >= FRAME && r.ds < 0x1_0000
    ensures tf == Frame(r, esp0) && SameOutside(mem, m, tf, Top(r, esp0))
    ensures HoldsAll(m, tf, Context(r, cr3, esp0, UDATA))
  {
    var m1, esp := Interrupt(mem, r, esp0, ss, irq, errcode);
    var m2;
    m2, tf := SaveRegisters(m1, esp, r);
    assert Pushed(m2, tf, r, irq, errcode);
    m := Fill(m2, tf, cr3, esp0);
    assert General(m, tf, r);
  }

  // .user_iret
  method UserIret(mem: Mem, ctx: nat, ds: nat, ghost x: Regs) returns (r: Regs)
    requires Holds(mem, ctx, x)
    ensures r == x.(ds := ds)
  {
    var esp := ctx + 8;
    var eax := Rd(mem, esp); esp := esp + 4;
    var ebx := Rd(mem, esp); esp := esp + 4;
    var ecx := Rd(mem, esp); esp := esp + 4;
    var edx := Rd(mem, esp); esp := esp + 4;
    esp := esp + 4;
    var esi := Rd(mem, esp); esp := esp + 4;
    var edi := Rd(mem, esp); esp := esp + 4;
    var ebp := Rd(mem, esp); esp := esp + 4;
    // iret to ring 3 takes the stack pointer from the frame
    r := Regs(eax, ebx, ecx, edx, esi, edi, ebp, ds, Rd(mem, esp), Rd(mem, esp + 4), Rd(mem, esp + 8),
      Rd(mem, esp + 12));
  }

  // .kernel_iret: iret within ring 0 takes no stack pointer, so the frame is first moved to end
  // where the stack is to be.
  method KernelIret(mem: Mem, ctx: nat, ds: nat, ghost x: Regs) returns (m: Mem, r: Regs)
    requires Holds(mem, ctx, x) && Returnable(ctx, x) && x.cs == KCODE
    ensures r == x.(ds := ds) && SameOutside(mem, m, ctx + 28, x.esp)
  {
    var esp := ctx + 8;
    var eax := Rd(mem, esp); esp := esp + 4;
    var ebx := Rd(mem, esp); esp := esp + 4;
    var ecx := Rd(mem, esp); esp := esp + 4;
    var edx := Rd(mem, esp); esp := esp + 4;
    esp := esp + 4;
    m, esp := MoveFrame(mem, esp);
    assert Rd(m, esp) == Rd(mem, ctx + 28) && Rd(m, esp + 4) == Rd(mem, ctx + 32)
      && Rd(m, esp + 8) == Rd(mem, ctx + 36);
    var esi := Rd(m, esp); esp := esp + 4;
    var edi := Rd(m, esp); esp := esp + 4;
    var ebp := Rd(m, esp); esp := esp + 4;
    r := Regs(eax, ebx, ecx, edx, esi, edi, ebp, ds, Rd(m, esp), Rd(m, esp + 4), Rd(m, esp + 8), esp + 12);
  }

  // The six moves, highest word first.
  method MoveFrame(mem: Mem, frame: nat) returns (m: Mem, esp: nat)
    requires Aligned(frame) && Aligned(Rd(mem, frame + 24)) && Rd(mem, frame + 24) >= frame + 24
    ensures esp == Rd(mem, frame + 24) - 24 && SameOutside(mem, m, frame, esp + 24)
    ensures Rd(m, esp) == Rd(mem, frame) && Rd(m, esp + 4) == Rd(mem, frame + 4) && Rd(m, esp + 8) == Rd(mem, frame + 8)
    ensures Rd(m, esp + 12) == Rd(mem, frame + 12) && Rd(m, esp + 16) == Rd(mem, frame + 16)
      && Rd(m, esp + 20) == Rd(mem, frame + 20)
  {
    m := mem;
    var ebp := frame;
    var edi := Rd(m, ebp + 24);
    var esi := Rd(m, ebp + 20); m := m[edi - 4 := esi];
    esi := Rd(m, ebp + 16); m := m[edi - 8 := esi];
    esi := Rd(m, ebp + 12); m := m[edi - 12 := esi];
    esi := Rd(m, ebp + 8); m := m[edi - 16 := esi];
    esi := Rd(m, ebp + 4); m := m[edi - 20 := esi];
    esi := Rd(m, ebp); m := m[edi - 24 := esi];
    esp := edi - 24;
    hide Moved, CopyDown, SameOutside;
    assert m == CopyDown(mem, frame, esp, 6) by { SixCopies(mem, frame, esp); }
    CopyStays(mem, frame, esp, 6, frame, esp + 24);
    CopiedAll(mem, frame, esp, 6);
    MovedWords(mem, frame, m, esp);
  }

  lemma MovedWords(mem: Mem, f: nat, m: Mem, d: nat)
    requires Moved(mem, f, m, d, 6)
    ensures Rd(m, d) == Rd(mem, f) && Rd(m, d + 4) == Rd(mem, f + 4) && Rd(m, d + 8) == Rd(mem, f + 8)
    ensures Rd(m, d + 12) == Rd(mem, f + 12) && Rd(m, d + 16) == Rd(mem, f + 16) && Rd(m, d + 20) == Rd(mem, f + 20)
  {
    assert At(d, 0) == d && At(d, 1) == d + 4 && At(d, 2) == d + 8 && At(d, 3) == d + 12 && At(d, 4) == d + 16
      && At(d, 5) == d + 20;
  }

  // kcontext: a context at the end of a stack that starts a kernel thread.
  method KContext(mem: Mem, end: nat, start: nat, entry: nat, arg: nat) returns (m: Mem, ctx: nat)
    requires Aligned(end) && end >= CONTEXT
    ensures ctx == end - CONTEXT && SameOutside(mem, m, ctx, end)
    ensures HoldsAll(m, ctx, Context(Thread(end, start, entry, arg), 0, 0, 0))
    ensures Returnable(ctx, Thread(end, start, entry, arg))
  {
    hide HoldsAll, Zeroed;
    ctx := end - CONTEXT;
    var zeroed := ZeroContext(mem, ctx);
    m := FillThread(zeroed, ctx, start, entry, arg);
    forall a: nat | a < ctx || a >= end ensures Rd(m, a) == Rd(mem, a) { assert Rd(zeroed, a) == Rd(mem, a); }
  }

  method FillThread(mem: Mem, ctx: nat, start: nat, entry: nat, arg: nat) returns (m: Mem)
    requires Zeroed(mem, ctx)
    ensures SameOutside(mem, m, ctx, ctx + CONTEXT)
    ensures HoldsAll(m, ctx, Context(Thread(ctx + CONTEXT, start, entry, arg), 0, 0, 0))
  {
    m := mem;
    m := m[ctx + 4 := KDATA];
    m := m[ctx + 44 := KCODE];
    m := m[ctx + 40 := start];
    m := m[ctx + 48 := FL_IF];
    m := m[ctx + 52 := ctx + CONTEXT];
    m := m[ctx + 8 := arg];
    m := m[ctx + 12 := entry];
  }

  method ZeroContext(mem: Mem, ctx: nat) returns (m: Mem)
    ensures SameOutside(mem, m, ctx, ctx + CONTEXT) && Zeroed(m, ctx)
  {
    m := mem;
    var i := 0;
    while i < 15
      invariant 0 <= i <= 15 && SameOutside(mem, m, ctx, ctx + CONTEXT)
      invariant forall j: nat :: j < i ==> Rd(m, At(ctx, j)) == 0
    {
      Write(mem, m, ctx, ctx + CONTEXT, At(ctx, i), 0);
      m := m[At(ctx, i) := 0];
      i := i + 1;
    }
    Zeros(m, ctx);
  }

  // The words that the thread leaves at 0.
  ghost predicate Zeroed(m: Mem, ctx: nat) {
    && Rd(m, ctx) == 0 && Rd(m, ctx + 16) == 0 && Rd(m, ctx + 20) == 0 && Rd(m, ctx + 24) == 0 && Rd(m, ctx + 28) == 0
    && Rd(m, ctx + 32) == 0 && Rd(m, ctx + 36) == 0 && Rd(m, ctx + 56) == 0
  }

  lemma Zeros(m: Mem, ctx: nat)
    requires forall j: nat :: j < 15 ==> Rd(m, At(ctx, j)) == 0
    ensures Zeroed(m, ctx)
  {
    assert At(ctx, 0) == ctx && At(ctx, 4) == ctx + 16 && At(ctx, 5) == ctx + 20 && At(ctx, 6) == ctx + 24;
    assert At(ctx, 7) == ctx + 28 && At(ctx, 8) == ctx + 32 && At(ctx, 9) == ctx + 36 && At(ctx, 14) == ctx + 56;
  }

  function Thread(end: nat, start: nat, entry: nat, arg: nat): Regs {
    Regs(arg, entry, 0, 0, 0, 0, 0, KDATA, start, KCODE, FL_IF, end)
  }

  // __am_kcontext_start: the entry function is reached with arg as its argument, and its return
  // address is __am_panic_on_return.
  method KContextStart(mem: Mem, r: Regs, onReturn: nat) returns (m: Mem, esp: nat, eip: nat)
    requires r.esp >= 8
    ensures eip == r.ebx && Rd(m, esp) == onReturn && Rd(m, esp + 4) == r.eax && SameOutside(mem, m, esp, r.esp)
    ensures esp == r.esp - 8
  {
    m, esp := mem, r.esp;
    esp := esp - 4; m := m[esp := r.eax];
    esp := esp - 4; m := m[esp := onReturn];
    eip := r.ebx;
  }

  // Whoever returns to the context of a new thread reaches __am_kcontext_start, and from there the
  // entry function with its argument, in ring 0, with interrupts on, on the stack of the thread.
  method FirstCall(mem: Mem, x: Regs, end: nat, start: nat, entry: nat, arg: nat, onReturn: nat)
      returns (m: Mem, esp: nat, eip: nat)
    requires x == Thread(end, start, entry, arg) && end >= 8
    ensures x.eip == start && x.cs == 1 * 8 && x.ds == 2 * 8 && x.eflags == 0x200
    ensures eip == entry && esp == end - 8 && Rd(m, esp) == onReturn && Rd(m, esp + 4) == arg
  {
    m, esp, eip := KContextStart(mem, x, onReturn);
  }

  // ---- runs ----

  // The contexts that a change of memory leaves intact.
  ghost function Intact(mem: Mem, saved: map<nat, Context>): map<nat, Context> {
    map c | c in saved && HoldsAll(mem, c, saved[c]) :: saved[c]
  }

  lemma HoldsFrame(p: Mem, q: Mem, lo: nat, hi: nat, c: nat, x: Context)
    requires SameOutside(p, q, lo, hi) && HoldsAll(p, c, x) && (c + CONTEXT <= lo || c >= hi)
    ensures HoldsAll(q, c, x)
  {
  }

  class Cpu {
    var r: Regs
    var ss: nat
    var cr3: nat
    var esp0: nat                    // CPU->tss.esp0
    var mem: Mem
    ghost var saved: map<nat, Context> // the contexts that are still intact, with what they saved

    ghost predicate Inv() reads this {
      forall c :: c in saved ==> Returnable(c, saved[c].r) && HoldsAll(mem, c, saved[c])
    }

    constructor (start: Regs, m: Mem, kernelStack: nat)
      ensures Inv() && saved == map[] && mem == m && esp0 == kernelStack && r == start
    {
      r, ss, cr3, esp0, mem, saved := start, KDATA, 0, kernelStack, m, map[];
    }

    // Any computation between traps; contexts that it overwrites are lost.
    method Compute(m: Mem, x: Regs)
      requires Inv()
      modifies this
      ensures Inv() && mem == m && r == x && saved == Intact(m, old(saved))
    {
      r, mem, saved := x, m, Intact(m, saved);
    }

    // kcontext: the new context is one more that can be returned to.
    method NewContext(end: nat, start: nat, entry: nat, arg: nat) returns (ctx: nat)
      requires Inv() && Aligned(end) && end >= CONTEXT
      modifies this
      ensures Inv() && SameOutside(old(mem), mem, ctx, end)
      ensures saved == Intact(mem, old(saved))[ctx := Context(Thread(end, start, entry, arg), 0, 0, 0)]
    {
      var m;
      m, ctx := KContext(mem, end, start, entry, arg);
      mem, saved := m, Intact(m, saved)[ctx := Context(Thread(end, start, entry, arg), 0, 0, 0)];
    }

    // A trap: the context at tf holds what was interrupted, and every other one is as it was
    // unless it lay in the stretch of stack that is now in use.
    method Trap(irq: nat, errcode: nat) returns (tf: nat)
      requires Inv() && (r.cs == KCODE || r.cs ==
        UCODE) && Aligned(Top(r, esp0)) && Top(r, esp0) >= FRAME && r.ds < 0x1_0000
      modifies this
      ensures Inv() && tf == old(Frame(r, esp0)) && SameOutside(old(mem), mem, tf, old(Top(r, esp0)))
      ensures saved == Intact(mem, old(saved))[tf := Context(old(r), old(cr3), old(esp0), UDATA)]
      ensures forall c :: c in old(saved) && (c + CONTEXT <= tf || c >= old(Top(r, esp0))) ==>
        c in saved && saved[c] == old(saved[c])
    {
      var m;
      m, tf := Save(mem, r, cr3, esp0, ss, irq, errcode);
      forall c | c in saved && (c + CONTEXT <= tf || c >= Top(r, esp0)) ensures HoldsAll(m, c, saved[c]) {
        HoldsFrame(mem, m, tf, Top(r, esp0), c, saved[c]);
      }
      saved := Intact(m, saved)[tf := Context(r, cr3, esp0, UDATA)];
      mem := m;
      ss := KDATA;
    }

    // __am_irq_handle once the handler has chosen ctx, and __am_iret: all registers are what they
    // were when this context was saved, and so are the address space and the stack for the next
    // trap, unless the context has none of its own.
    method Return(ctx: nat)
      requires Inv() && ctx in saved
      modifies this
      ensures Inv() && r == old(saved)[ctx].r
      ensures if old(saved)[ctx].cr3 != 0 then cr3 == old(saved)[ctx].cr3 && esp0 == old(saved)[ctx].esp0
              else cr3 == old(cr3) && esp0 == old(esp0)
      ensures ss == if r.cs == UCODE then old(saved)[ctx].ss3 else old(ss)
      ensures if r.cs == KCODE then SameOutside(old(mem), mem, ctx + 28, r.esp) else mem == old(mem)
      ensures forall c :: c in old(saved) && (r.cs == UCODE || c + CONTEXT <= ctx || c >= r.esp) ==>
        c in saved && saved[c] == old(saved)[c]
    {
      ghost var x := saved[ctx].r;
      if Rd(mem, ctx) != 0 {
        cr3 := Rd(mem, ctx);
        esp0 := Rd(mem, ctx + 24);
      }
      var ds := Rd(mem, ctx + 4) % 0x1_0000;
      var back, m := r, mem;
      if Rd(mem, ctx + 44) == KCODE {
        m, back := KernelIret(mem, ctx, ds, x);
        forall c | c in saved && (c + CONTEXT <= ctx || c >= x.esp) ensures HoldsAll(m, c, saved[c]) {
          HoldsFrame(mem, m, ctx + 28, x.esp, c, saved[c]);
        }
      } else {
        back := UserIret(mem, ctx, ds, x);
        ss := Rd(mem, ctx + 56);
      }
      r, mem, saved := back, m, Intact(m, saved);
    }
  }
}
