/** `FunctionState`: the code generator's view of one function under compilation. `FState` is its value,
    with one function per operation; the class `FunctionState` below performs the same operations by
    updating its fields in place and is proved against those functions. */
module FuncState {
  import opened Bytecode

  /** An entry of `_vlocals`: a named local variable, or an anonymous temporary. */
  datatype Slot = Temp | Named(name: string)

  datatype FState = FState(
    code: seq<Instr>,
    opt: bool,              // may the last instruction be rewritten?
    vlocals: seq<Slot>,
    targets: seq<int>,      // stack of registers holding expression results
    stacksize: int,
    lits: seq<Val>,
    breaks: seq<int>,       // jumps to patch at the end of the loop
    conts: seq<int>,
    loops: nat,             // enclosing loops
    ok: bool)               // false once a compile error was raised

  // --- the stack of targets

  function Top(fs: FState): int
    requires |fs.targets| > 0
  {
    fs.targets[|fs.targets| - 1]
  }

  function Pos(fs: FState): int {
    |fs.code| - 1
  }

  predicate IsLocal(vlocals: seq<Slot>, r: int) {
    0 <= r < |vlocals| && vlocals[r].Named?
  }

  /** Reserve the next register. Running out of them is noticed one allocation late. */
  function Alloc(fs: FState): FState {
    var size := |fs.vlocals| + 1;
    fs.(vlocals := fs.vlocals + [Temp],
        ok := fs.ok && !(size > fs.stacksize > MAX_FUNC_STACKSIZE),
        stacksize := if size > fs.stacksize then size else fs.stacksize)
  }

  function PushTemp(fs: FState): FState {
    Alloc(fs).(targets := fs.targets + [|fs.vlocals|])
  }

  function PushTarget(fs: FState, r: int): FState {
    fs.(targets := fs.targets + [r])
  }

  function Pop(fs: FState): FState
    requires |fs.targets| > 0 && 0 <= Top(fs) < |fs.vlocals|
  {
    fs.(targets := fs.targets[..|fs.targets| - 1],
        vlocals := if fs.vlocals[Top(fs)].Temp? then fs.vlocals[..|fs.vlocals| - 1] else fs.vlocals)
  }

  function PushLocal(fs: FState, name: string): FState {
    var size := |fs.vlocals| + 1;
    fs.(vlocals := fs.vlocals + [Named(name)],
        stacksize := if size > fs.stacksize then size else fs.stacksize)
  }

  function SetStackSize(fs: FState, n: nat): FState {
    fs.(vlocals := if |fs.vlocals| > n then fs.vlocals[..n] else fs.vlocals)
  }

  /** The innermost local variable called `name`, or -1. */
  function Lookup(vlocals: seq<Slot>, name: string): (r: int)
    ensures -1 <= r < |vlocals|
    ensures r >= 0 ==> vlocals[r] == Named(name) && forall j :: r < j < |vlocals| ==> vlocals[j] != Named(name)
    ensures r < 0 ==> Named(name) !in vlocals
  {
    if |vlocals| == 0 then -1
    else if vlocals[|vlocals| - 1] == Named(name) then |vlocals| - 1
    else Lookup(vlocals[..|vlocals| - 1], name)
  }

  // --- literals

  function IndexOf(lits: seq<Val>, v: Val): (k: nat)
    ensures k <= |lits|
    ensures k < |lits| ==> lits[k] == v
    ensures k == |lits| ==> v !in lits
  {
    if |lits| == 0 then 0
    else if lits[0] == v then 0
    else 1 + IndexOf(lits[1..], v)
  }

  /** The literal table after `v` was asked for; its number is `IndexOf(lits, v)`. */
  function AddLiteral(fs: FState, v: Val): FState {
    if v in fs.lits then fs else fs.(lits := fs.lits + [v])
  }

  // --- the peephole optimiser

  datatype Fused = Keep | Merge(i: Instr, opt: bool)

  /** Which kind of array element a load produces. */
  function ElementKind(op: Op): int {
    match op
    case LOAD => AAT_LITERAL
    case LOADINT => AAT_INT
    case LOADBOOL => AAT_BOOL
    case LOADFLOAT => AAT_FLOAT
    case _ => -1
  }

  predicate MoveFuses(op: Op) {
    op in {GET, ADD, SUB, MUL, DIV, MOD, BITW, LOADINT, LOADFLOAT, LOADBOOL, LOAD}
  }

  /** What becomes of the previous instruction `pi` when `i` is added after it; `local` says whether the
      destination of `pi` is a named variable. */
  function Fuse(pi: Instr, i: Instr, local: bool): Fused {
    match i.op
    case JZ =>
      if pi.op == CMP && pi.a1 < 0xFF then Merge(Instr(JCMP, Byte(pi.a1), i.a1, pi.a2, pi.a3), true) else Keep
    case GET =>
      if pi.op == LOAD && pi.a0 == i.a2
        && !local then Merge(Instr(GETK, i.a0, pi.a1, Byte(i.a1), pi.a3), true) else Keep
    case PREPCALL =>
      if pi.op == LOAD && pi.a0 == i.a1 && !local then Merge(Instr(PREPCALLK, i.a0, pi.a1, i.a2, i.a3), true) else Keep
    case APPENDARRAY =>
      if ElementKind(pi.op) != -1 && pi.a0 == i.a1 && !local
      then Merge(Instr(APPENDARRAY, i.a0, pi.a1, ElementKind(pi.op), MAX_FUNC_STACKSIZE), true) else Keep
    case MOVE =>
      if MoveFuses(pi.op) && pi.a0 == i.a1 then Merge(pi.(a0 := i.a0), false)
      else if pi.op == MOVE then Merge(Instr(DMOVE, pi.a0, pi.a1, i.a0, Byte(i.a1)), true)
      else Keep
    case LOAD =>
      if pi.op == LOAD && i.a1 < 256 then Merge(Instr(DLOAD, pi.a0, pi.a1, i.a0, Byte(i.a1)), true) else Keep
    case EQ =>
      if pi.op == LOAD && pi.a0 == i.a1
        && !local then Merge(Instr(EQ, i.a0, pi.a1, i.a2, MAX_FUNC_STACKSIZE), true) else Keep
    case NE =>
      if pi.op == LOAD && pi.a0 == i.a1
        && !local then Merge(Instr(NE, i.a0, pi.a1, i.a2, MAX_FUNC_STACKSIZE), true) else Keep
    case LOADNULLS =>
      if pi.op == LOADNULLS && pi.a0 + pi.a1 == i.a0 then Merge(pi.(a1 := pi.a1 + 1), true) else Keep
    case _ => Keep
  }

  /** A store whose result register already holds the stored value needs no result register. */
  function Trim(i: Instr): Instr {
    if i.op == SET && i.a0 == i.a3 then i.(a0 := NO_TARGET) else i
  }

  function Last(code: seq<Instr>): Instr
    requires |code| > 0
  {
    code[|code| - 1]
  }

  function FuseLast(fs: FState, i: Instr): Fused {
    if |fs.code| > 0 && fs.opt then Fuse(Last(fs.code), i, IsLocal(fs.vlocals, Last(fs.code).a0)) else Keep
  }

  function Add(fs: FState, i: Instr): FState {
    match FuseLast(fs, i)
    case Merge(i', opt') => fs.(code := fs.code[..|fs.code| - 1] + [i'], opt := opt')
    case Keep => fs.(code := fs.code + [if |fs.code| > 0 && fs.opt then Trim(i) else i], opt := true)
  }

  function Snooze(fs: FState): FState {
    fs.(opt := false)
  }

  /** Drop an expression's result; a store or call that only produced it no longer writes it. */
  function Discard(fs: FState): FState
    requires |fs.targets| > 0 && 0 <= Top(fs) < |fs.vlocals|
  {
    var fs' := Pop(fs);
    if |fs.code| > 0 && fs.opt && Last(fs.code).op in {SET, CALL} && Last(fs.code).a0 == Top(fs)
    then fs'.(code := fs.code[|fs.code| - 1 := Last(fs.code).(a0 := NO_TARGET)])
    else fs'
  }

  /** Overwrite the jump offset (or element count) of an emitted instruction. */
  function Patch(fs: FState, pos: int, offset: int): FState
    requires 0 <= pos < |fs.code|
  {
    fs.(code := fs.code[pos := fs.code[pos].(a1 := offset)])
  }

  /** Overwrite all operands but the opcode: how unresolved breaks and continues get their offset. */
  function PatchJump(fs: FState, pos: int, offset: int): FState
    requires 0 <= pos < |fs.code|
  {
    fs.(code := fs.code[pos := Instr(fs.code[pos].op, 0, offset, 0, 0)])
  }

  /** The object the compiler holds: every field of `FState`, updated in place. */
  class FunctionState {
    var instructions: seq<Instr>
    var optimization: bool
    var vlocals: seq<Slot>
    var targetstack: seq<int>
    var stacksize: int
    var literals: seq<Val>
    var unresolvedbreaks: seq<int>
    var unresolvedcontinues: seq<int>
    var breaktargets: nat
    var noerror: bool

    ghost function Abs(): FState
      reads this
    {
      FState(instructions, optimization, vlocals, targetstack, stacksize, literals,
             unresolvedbreaks, unresolvedcontinues, breaktargets, noerror)
    }

    constructor ()
      ensures Abs() == FState([], true, [], [], 0, [], [], [], 0, true)
    {
      instructions, optimization, vlocals, targetstack, stacksize := [], true, [], [], 0;
      literals, unresolvedbreaks, unresolvedcontinues, breaktargets, noerror := [], [], [], 0, true;
    }

    method AllocStackPos() returns (npos: int)
      modifies this
      ensures Abs() == Alloc(old(Abs())) && npos == |old(vlocals)|
    {
      npos := |vlocals|;
      vlocals := vlocals + [Temp];
      if |vlocals| > stacksize {
        if stacksize > MAX_FUNC_STACKSIZE {
          noerror := false;
        }
        stacksize := |vlocals|;
      }
    }

    method NewTarget() returns (n: int)
      modifies this
      ensures Abs() == PushTemp(old(Abs())) && n == |old(vlocals)|
    {
      n := AllocStackPos();
      targetstack := targetstack + [n];
    }

    method UseTarget(n: int)
      modifies this
      ensures Abs() == PushTarget(old(Abs()), n)
    {
      targetstack := targetstack + [n];
    }

    method PopTarget() returns (npos: int)
      requires |targetstack| > 0 && 0 <= Top(Abs()) < |vlocals|
      modifies this
      ensures Abs() == Pop(old(Abs())) && npos == old(Top(Abs()))
    {
      npos := targetstack[|targetstack| - 1];
      if vlocals[npos].Temp? {
        vlocals := vlocals[..|vlocals| - 1];
      }
      targetstack := targetstack[..|targetstack| - 1];
    }

    method TopTarget() returns (n: int)
      requires |targetstack| > 0
      ensures n == Top(Abs())
    {
      n := targetstack[|targetstack| - 1];
    }

    method PushLocalVariable(name: string)
      modifies this
      ensures Abs() == PushLocal(old(Abs()), name)
    {
      vlocals := vlocals + [Named(name)];
      if |vlocals| > stacksize {
        stacksize := |vlocals|;
      }
    }

    method ShrinkStack(n: nat)
      modifies this
      ensures Abs() == SetStackSize(old(Abs()), n)
    {
      var size := |vlocals|;
      while size > n
        invariant n <= size == |vlocals| || size == |vlocals| <= n
        invariant vlocals == old(vlocals)[..size]
        invariant |old(vlocals)| > n ==> size >= n
        invariant |old(vlocals)| <= n ==> vlocals == old(vlocals)
        invariant Abs() == old(Abs()).(vlocals := vlocals)
      {
        size := size - 1;
        vlocals := vlocals[..|vlocals| - 1];
      }
    }

    method GetLocalVariable(name: string) returns (pos: int)
      ensures pos == Lookup(vlocals, name)
    {
      var locals := |vlocals|;
      while locals >= 1
        invariant 0 <= locals <= |vlocals|
        invariant Lookup(vlocals, name) == Lookup(vlocals[..locals], name)
      {
        if vlocals[locals - 1] == Named(name) {
          return locals - 1;
        }
        assert vlocals[..locals][..locals - 1] == vlocals[..locals - 1];
        locals := locals - 1;
      }
      return -1;
    }

    method GetConstant(cons: Val) returns (k: int)
      modifies this
      ensures Abs() == AddLiteral(old(Abs()), cons)
      ensures k == IndexOf(old(literals), cons)
      ensures 0 <= k < |literals| && literals[k] == cons
    {
      k := IndexOf(literals, cons);
      if k == |literals| {
        literals := literals + [cons];
      }
    }

    /** Overwrite the previous instruction. */
    /** The last instruction is changed in place. */
    method Rewrite(i: Instr, pi: Instr, opt: bool)
      requires FuseLast(Abs(), i) == Merge(pi, opt)
      modifies this
      ensures Abs() == Add(old(Abs()), i)
    {
      hide Fuse;
      instructions := instructions[..|instructions| - 1] + [pi];
      optimization := opt;
    }

    method Append(i: Instr)
      modifies this
      ensures Abs() == old(Abs()).(code := old(instructions) + [i], opt := true)
    {
      optimization := true;
      instructions := instructions + [i];
    }

    method AddInstruction(i: Instr)
      modifies this
      ensures Abs() == Add(old(Abs()), i)
    {
      hide Fuse;
      if |instructions| > 0 && optimization {
        var done;
        if i.op in {MOVE, LOAD, EQ, NE, LOADNULLS} {
          done := MergeResult(i);
        } else {
          done := MergeOperand(i);
        }
        if done {
          return;
        }
        if i.op == SET && i.a0 == i.a3 {
          Append(i.(a0 := NO_TARGET));
          return;
        }
      }
      Append(i);
    }

    /** Instructions that take an operand of the last one, or test it. */
    method MergeOperand(i: Instr) returns (done: bool)
      requires |instructions| > 0 && optimization && i.op !in {MOVE, LOAD, EQ, NE, LOADNULLS}
      modifies this
      ensures if done then Abs() == Add(old(Abs()), i) else Abs() == old(Abs()) && FuseLast(Abs(), i) == Keep
    {
      hide Add, IsLocal;
      var pi := instructions[|instructions| - 1];
      var local := IsLocal(vlocals, pi.a0);
      var aat := ElementKind(pi.op);
      if i.op == JZ {
        if pi.op == CMP && pi.a1 < 0xFF {
          Rewrite(i, Instr(JCMP, Byte(pi.a1), i.a1, pi.a2, pi.a3), true);
          return true;
        }
      } else if i.op == GET {
        if pi.op == LOAD && pi.a0 == i.a2 && !local {
          Rewrite(i, pi.(op := GETK, a2 := Byte(i.a1), a0 := i.a0), true);
          return true;
        }
      } else if i.op == PREPCALL {
        if pi.op == LOAD && pi.a0 == i.a1 && !local {
          Rewrite(i, pi.(op := PREPCALLK, a0 := i.a0, a2 := i.a2, a3 := i.a3), true);
          return true;
        }
      } else if i.op == APPENDARRAY {
        if aat != -1 && pi.a0 == i.a1 && !local {
          Rewrite(i, pi.(op := APPENDARRAY, a0 := i.a0, a2 := aat, a3 := MAX_FUNC_STACKSIZE), true);
          return true;
        }
      }
      return false;
    }

    /** Instructions that pass on the result of the last one, or do more of the same. */
    method MergeResult(i: Instr) returns (done: bool)
      requires |instructions| > 0 && optimization && i.op in {MOVE, LOAD, EQ, NE, LOADNULLS}
      modifies this
      ensures if done then Abs() == Add(old(Abs()), i) else Abs() == old(Abs()) && FuseLast(Abs(), i) == Keep
    {
      hide Add, IsLocal;
      var pi := instructions[|instructions| - 1];
      var local := IsLocal(vlocals, pi.a0);
      if i.op == MOVE {
        if MoveFuses(pi.op) && pi.a0 == i.a1 {
          Rewrite(i, pi.(a0 := i.a0), false);
          return true;
        }
        if pi.op == MOVE {
          Rewrite(i, pi.(op := DMOVE, a2 := i.a0, a3 := Byte(i.a1)), true);
          return true;
        }
      } else if i.op == LOAD {
        if pi.op == LOAD && i.a1 < 256 {
          Rewrite(i, pi.(op := DLOAD, a2 := i.a0, a3 := Byte(i.a1)), true);
          return true;
        }
      } else if i.op == EQ || i.op == NE {
        if pi.op == LOAD && pi.a0 == i.a1 && !local {
          Rewrite(i, pi.(op := i.op, a0 := i.a0, a2 := i.a2, a3 := MAX_FUNC_STACKSIZE), true);
          return true;
        }
      } else if i.op == LOADNULLS {
        if pi.op == LOADNULLS && pi.a0 + pi.a1 == i.a0 {
          Rewrite(i, pi.(a1 := pi.a1 + 1), true);
          return true;
        }
      }
      return false;
    }

    method SnoozeOpt()
      modifies this
      ensures Abs() == Snooze(old(Abs()))
    {
      optimization := false;
    }

    method DiscardTarget()
      requires |targetstack| > 0 && 0 <= Top(Abs()) < |vlocals|
      modifies this
      ensures Abs() == Discard(old(Abs()))
    {
      var discarded := PopTarget();
      var size := |instructions|;
      if size > 0 && optimization {
        var pi := instructions[size - 1];
        if pi.op in {SET, CALL} && pi.a0 == discarded {
          instructions := instructions[size - 1 := pi.(a0 := NO_TARGET)];
        }
      }
    }

    method SetInstructionParam1(pos: int, val: int)
      requires 0 <= pos < |instructions|
      modifies this
      ensures Abs() == Patch(old(Abs()), pos, val)
    {
      instructions := instructions[pos := instructions[pos].(a1 := val)];
    }

    method SetJump(pos: int, val: int)
      requires 0 <= pos < |instructions|
      modifies this
      ensures Abs() == PatchJump(old(Abs()), pos, val)
    {
      instructions := instructions[pos := instructions[pos].(a0 := 0, a1 := val, a2 := 0, a3 := 0)];
    }
  }
}
