/**
 The seccomp filter of src/security.c: the classic-BPF program that the BLK
 macro and the fixed head and tail build, and what it decides for any deny list.
 */
module Seccomp {
  import opened Base

  type Word = bv32

  // ---- Classic BPF ----

  /** The instruction forms the filter uses.  Jump offsets are 8-bit fields in
      the kernel's encoding and count from the next instruction. */
  datatype Instr =
    | LoadAbs(off: nat)
    | JumpEq(k: Word, jt: nat, jf: nat)
    | JumpSet(k: Word, jt: nat, jf: nat)
    | Return(k: Word)

  /** struct seccomp_data as 16 little-endian 32-bit words: nr, arch, the
      instruction pointer, and six 64-bit arguments, low word first. */
  datatype Data = Data(words: seq<Word>)

  const WORDS := 16
  const OFF_NR := 0
  const OFF_ARCH := 4
  const OFF_ARG0 := 16

  function Load(d: Data, off: nat): Option<Word> {
    if off % 4 == 0 && off / 4 < |d.words| then Some(d.words[off / 4]) else None
  }

  datatype Verdict = Returned(k: Word) | Fault

  function Offset(j: Instr, acc: Word): nat
    requires j.JumpEq? || j.JumpSet?
  {
    if j.JumpEq? then if acc == j.k then j.jt else j.jf
    else if acc & j.k != 0 then j.jt else j.jf
  }

  /** Executes what is left of a program: a jump drops a prefix of it.  Running
      past the end or loading outside the data is a fault. */
  function Execute(prog: seq<Instr>, acc: Word, d: Data): Verdict
    decreases |prog|, 0
  {
    if prog == [] then Fault
    else
      match prog[0]
      case LoadAbs(off) =>
        var w := Load(d, off);
        if w.Some? then Execute(prog[1..], w.value, d) else Fault
      case Return(k) => Returned(k)
      case _ => Jump(prog[1..], Offset(prog[0], acc), acc, d)
  }

  function Jump(rest: seq<Instr>, offset: nat, acc: Word, d: Data): Verdict
    decreases |rest|, 1
  {
    if offset <= |rest| then Execute(rest[offset..], acc, d) else Fault
  }

  /** What the kernel's checker asks of a program: every jump lands inside it,
      8-bit offsets, aligned loads inside the data, and a return at the end. */
  ghost predicate Acceptable(prog: seq<Instr>) {
    && prog != [] && prog[|prog| - 1].Return?
    && forall i :: 0 <= i < |prog| ==>
         match prog[i]
         case LoadAbs(off) => off % 4 == 0 && off / 4 < WORDS
         case JumpEq(_, jt, jf) => jt < 256 && jf < 256 && i + 1 + jt < |prog| && i + 1 + jf < |prog|
         case JumpSet(_, jt, jf) => jt < 256 && jf < 256 && i + 1 + jt < |prog| && i + 1 + jf < |prog|
         case Return(_) => true
  }

  // ---- The filter ----

  const KILL: Word := 0x80000000      // SECCOMP_RET_KILL_PROCESS
  const DENY: Word := 0x00050001      // SECCOMP_RET_ERRNO | EPERM
  const ALLOW: Word := 0x7fff0000     // SECCOMP_RET_ALLOW
  const CLONE_NEWUSER: Word := 0x10000000

  function Head(arch: Word): seq<Instr> {
    [LoadAbs(OFF_ARCH), JumpEq(arch, 1, 0), Return(KILL), LoadAbs(OFF_NR)]
  }

  /** BLK(nr) */
  function Block(nr: Word): seq<Instr> {
    [JumpEq(nr, 0, 1), Return(DENY)]
  }

  function Blocks(deny: seq<Word>): seq<Instr> {
    if deny == [] then [] else Block(deny[0]) + Blocks(deny[1..])
  }

  function Tail(clone: Word): seq<Instr> {
    [JumpEq(clone, 0, 3), LoadAbs(OFF_ARG0), JumpSet(CLONE_NEWUSER, 0, 1), Return(DENY), Return(ALLOW)]
  }

  function Filter(arch: Word, deny: seq<Word>, clone: Word): seq<Instr> {
    Head(arch) + Blocks(deny) + Tail(clone)
  }

  // ---- What it decides ----

  lemma StepReturn(k: Word, rest: seq<Instr>, acc: Word, d: Data)
    ensures Execute([Return(k)] + rest, acc, d) == Returned(k)
  {
  }

  lemma StepLoad(off: nat, rest: seq<Instr>, acc: Word, d: Data)
    requires Load(d, off).Some?
    ensures Execute([LoadAbs(off)] + rest, acc, d) == Execute(rest, Load(d, off).value, d)
  {
    assert ([LoadAbs(off)] + rest)[1..] == rest;
  }

  lemma StepJump(j: Instr, rest: seq<Instr>, acc: Word, d: Data)
    requires j.JumpEq? || j.JumpSet?
    requires Offset(j, acc) <= |rest|
    ensures Execute([j] + rest, acc, d) == Execute(rest[Offset(j, acc)..], acc, d)
  {
    var prog := [j] + rest;
    assert prog[1..] == rest && prog[0] == j;
    assert Execute(prog, acc, d) == Jump(rest, Offset(j, acc), acc, d);
  }

  /** Falling into a chain of blocks with the syscall number in the accumulator. */
  lemma {:induction false} BlocksDecide(deny: seq<Word>, rest: seq<Instr>, nr: Word, d: Data)
    ensures Execute(Blocks(deny) + rest, nr, d) ==
              if nr in deny then Returned(DENY) else Execute(rest, nr, d)
  {
    if deny == [] {
      assert Blocks(deny) + rest == rest;
    } else {
      var tail := Blocks(deny[1..]) + rest;
      var deniers := [Return(DENY)] + tail;
      assert Blocks(deny) + rest == [JumpEq(deny[0], 0, 1)] + deniers;
      StepJump(JumpEq(deny[0], 0, 1), deniers, nr, d);
      assert deniers[0..] == deniers && deniers[1..] == tail;
      StepReturn(DENY, tail, nr, d);
      BlocksDecide(deny[1..], rest, nr, d);
    }
  }

  lemma TailDecides(clone: Word, nr: Word, d: Data)
    requires |d.words| == WORDS
    ensures Execute(Tail(clone), nr, d) ==
              Returned(if nr == clone && d.words[4] & CLONE_NEWUSER != 0 then DENY else ALLOW)
  {
    var allow := [Return(ALLOW)] + [];
    var deny := [Return(DENY)] + allow;
    var test := [JumpSet(CLONE_NEWUSER, 0, 1)] + deny;
    var load := [LoadAbs(OFF_ARG0)] + test;
    var flags := d.words[4];
    assert Tail(clone) == [JumpEq(clone, 0, 3)] + load;
    StepJump(JumpEq(clone, 0, 3), load, nr, d);
    assert load[0..] == load && load[3..] == allow && deny[0..] == deny && deny[1..] == allow;
    StepLoad(OFF_ARG0, test, nr, d);
    StepJump(JumpSet(CLONE_NEWUSER, 0, 1), deny, flags, d);
    StepReturn(DENY, allow, flags, d);
    StepReturn(ALLOW, [], flags, d);
    StepReturn(ALLOW, [], nr, d);
  }

  /** The filter always returns, and it kills a foreign architecture, refuses a
      listed syscall and a clone that asks for a user namespace, and allows
      everything else. */
  lemma FilterDecides(arch: Word, deny: seq<Word>, clone: Word, d: Data)
    requires |d.words| == WORDS
    ensures var nr, flags := d.words[0], d.words[4];
            Execute(Filter(arch, deny, clone), 0, d) ==
              Returned(if d.words[1] != arch then 0x8000_0000
                       else if nr in deny || (nr == clone && flags & 0x1000_0000 != 0) then 0x0005_0001
                       else 0x7FFF_0000)
  {
    var rest := Blocks(deny) + Tail(clone);
    var load := [LoadAbs(OFF_NR)] + rest;
    var kill := [Return(KILL)] + load;
    var guard := [JumpEq(arch, 1, 0)] + kill;
    var found := d.words[1];
    assert Filter(arch, deny, clone) == [LoadAbs(OFF_ARCH)] + guard;
    StepLoad(OFF_ARCH, guard, 0, d);
    StepJump(JumpEq(arch, 1, 0), kill, found, d);
    assert kill[0..] == kill && kill[1..] == load;
    StepReturn(KILL, load, found, d);
    StepLoad(OFF_NR, rest, found, d);
    BlocksDecide(deny, Tail(clone), d.words[0], d);
    TailDecides(clone, d.words[0], d);
  }

  /** The kernel accepts the program, whatever the list. */
  lemma FilterAcceptable(arch: Word, deny: seq<Word>, clone: Word)
    ensures Acceptable(Filter(arch, deny, clone))
    ensures |Filter(arch, deny, clone)| == 9 + 2 * |deny|
  {
    BlocksShape(deny);
    var f, n := Filter(arch, deny, clone), 2 * |deny|;
    assert f[|f| - 1] == Tail(clone)[4];
    forall i | 0 <= i < |f|
      ensures f[i] == if i < 4 then Head(arch)[i] else if i < 4 + n then Blocks(deny)[i - 4] else Tail(clone)[i - 4 - n]
    {
    }
  }

  lemma {:induction false} BlocksShape(deny: seq<Word>)
    ensures |Blocks(deny)| == 2 * |deny|
    ensures forall i :: 0 <= i < 2 * |deny| ==>
              Blocks(deny)[i] == if i % 2 == 0 then JumpEq(deny[i / 2], 0, 1) else Return(DENY)
  {
    if deny != [] {
      BlocksShape(deny[1..]);
      forall i | 2 <= i < 2 * |deny| ensures Blocks(deny)[i] == Blocks(deny[1..])[i - 2] {
      }
    }
  }
}
