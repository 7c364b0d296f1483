/** `LVCompiler`: the methods that walk a program and update the `FunctionState` in place, in the order of
    the original. Each is proved to emit exactly the code that `CodeGen` and `StmtGen` describe as a
    function of the state it started from, so everything proved of that code holds of its result. */
module Compiler {
  import opened Bytecode
  import opened FuncState
  import opened Source
  import opened CodeGen
  import opened StmtGen

  class LVCompiler {
    const fs: FunctionState

    constructor (fs: FunctionState)
      ensures this.fs == fs
    {
      this.fs := fs;
    }

    // --- emitting

    /** PushTarget, then an instruction into the new register. */
    method Emit(op: Op, a1: int, a2: int, a3: int)
      modifies fs
      ensures fs.Abs() == Result(old(fs.Abs()), op, a1, a2, a3)
    {
      var target := fs.NewTarget();
      fs.AddInstruction(Ins(op, target, a1, a2, a3));
    }

    method EmitLoad(v: Val)
      modifies fs
      ensures fs.Abs() == LoadLiteral(old(fs.Abs()), v)
    {
      var k := fs.GetConstant(v);
      Emit(LOAD, k, 0, 0);
    }

    method EmitLoadConstInt(i: int)
      modifies fs
      ensures fs.Abs() == CompConst(Int(i), old(fs.Abs()))
    {
      if Immediate(i) {
        Emit(LOADINT, i, 0, 0);
      } else {
        EmitLoad(Int(i));
      }
    }

    method Constant(v: Val)
      modifies fs
      ensures fs.Abs() == CompConst(v, old(fs.Abs()))
    {
      match v {
        case Null => Emit(LOADNULLS, 1, 0, 0);
        case Int(i) => EmitLoadConstInt(i);
        case Bool(b) => Emit(LOADBOOL, if b then 1 else 0, 0, 0);
        case Float(bits) => Emit(LOADFLOAT, bits, 0, 0);
        case _ => EmitLoad(v);
      }
    }

    /** Two operands, source below key: into a fresh register. */
    method Emit2ArgsOP(op: Op, p3: int, ghost mid: FState, ghost a: FState)
      requires One(a, mid) && One(mid, fs.Abs())
      modifies fs
      ensures fs.Abs() == Result2(op, p3, mid, old(fs.Abs()), a)
    {
      PopTwo(a, mid, fs.Abs());
      var p2 := fs.PopTarget();
      var p1 := fs.PopTarget();
      Emit(op, p1, p2, p3);
    }

    method EmitDerefOp(ghost mid: FState, ghost fs2: FState, ghost a: FState)
      requires One(a, mid) && One(mid, fs2) && One(fs2, fs.Abs())
      modifies fs
      ensures fs.Abs() == Result3(SET, 0, mid, fs2, old(fs.Abs()), a)
    {
      hide Pop, Grown, Result;
      ghost var b := fs.Abs();
      PopThree(a, mid, fs2, b);
      var src, key, val := PopOperands(mid, fs2, a);
      Emit(SET, src, key, val);
    }

    method PopOperands(ghost mid: FState, ghost fs2: FState, ghost a: FState) returns (src: int, key: int, val: int)
      requires One(a, mid) && One(mid, fs2) && One(fs2, fs.Abs())
      modifies fs
      ensures fs.Abs() == old(fs.Abs()).(targets := a.targets, vlocals := a.vlocals)
      ensures src == Top(mid) && key == Top(fs2) && val == Top(old(fs.Abs()))
    {
      hide Pop, Grown;
      PopThree(a, mid, fs2, fs.Abs());
      val := fs.PopTarget();
      key := fs.PopTarget();
      src := fs.PopTarget();
    }

    method EmitCompoundArith(op: Op, ghost pc: PlaceCode, local: bool, ghost a: FState)
      requires PlacePushed(a, pc) && One(pc.fs, fs.Abs()) && local == pc.LocalCode?
      modifies fs
      ensures fs.Abs() == OpAssignEnd(op, old(fs.Abs()), pc, a)
    {
      hide Result3, Pop, Grown, Pushed;
      if local {
        UpdateLocal(op, pc.fs, a);
      } else {
        UpdateField(op, pc.mid, pc.fs, a);
      }
    }

    method UpdateLocal(op: Op, ghost fs0: FState, ghost a: FState)
      requires PlacePushed(a, LocalCode(fs0)) && One(fs0, fs.Abs())
      modifies fs
      ensures fs.Abs() == OpAssignEnd(op, old(fs.Abs()), LocalCode(fs0), a)
    {
      hide Add, Pop, Grown, Result3;
      PopTwo(a, fs0, fs.Abs());
      var p2 := fs.PopTarget();
      var p1 := fs.PopTarget();
      fs.UseTarget(p1);
      fs.AddInstruction(Ins(op, p1, p2, p1, 0));
      fs.SnoozeOpt();
    }

    method UpdateField(op: Op, ghost mid: FState, ghost fs2: FState, ghost a: FState)
      requires One(a, mid) && One(mid, fs2) && One(fs2, fs.Abs())
      modifies fs
      ensures fs.Abs() == Result3(COMPARITH, OpChar(op), mid, fs2, old(fs.Abs()), a)
    {
      hide Pop, Grown, Pushed, Result;
      ghost var b := fs.Abs();
      PopThree(a, mid, fs2, b);
      var src, key, val := PopOperands(mid, fs2, a);
      Emit(COMPARITH, src * 0x1_0000 + val, key, OpChar(op));
    }

    method MoveIfCurrentTargetIsLocal(ghost a: FState)
      requires One(a, fs.Abs())
      modifies fs
      ensures fs.Abs() == MoveIfLocal(old(fs.Abs()), a)
    {
      PopOne(a, fs.Abs());
      var trg := fs.TopTarget();
      if IsLocal(fs.vlocals, trg) {
        trg := fs.PopTarget();
        Emit(MOVE, trg, 0, 0);
      }
    }

    // --- expressions

    /** Operators, assignments and `?:`; what binds tighter is left to PrefixedExpr. */
    method Expression(e: Expr)
      requires Ready(fs.Abs())
      modifies fs
      ensures fs.Abs() == CompE(e, old(fs.Abs()))
      decreases e, 2
    {
      hide *;
      match e {
        case Const(v) => ConstantExp(v);
        case Unary(op, e1) => UnaryOP(op, e1);
        case Bin(op, imm, l, r) => BinExp(op, imm, l, r);
        case And(l, r) => LogicalAndExp(l, r);
        case Or(l, r) => LogicalOrExp(l, r);
        case Cond(c, t, f) => Conditional(c, t, f);
        case Load(p) => Reference(p);
        case Assign(p, e1) => Assignment(p, e1);
        case OpAssign(op, p, e1) => CompoundAssignment(op, p, e1);
        case IncDec(post, diff, p) => Increment(post, diff, p);
        case Array(es) => ArrayLiteral(es);
        case Invoke(p, args) => MethodCall(p, args);
        case CallValue(f, args) => ValueCall(f, args);
      }
    }

    method ConstantExp(v: Val)
      requires Ready(fs.Abs())
      modifies fs
      ensures fs.Abs() == CompE(Const(v), old(fs.Abs()))
    {
      hide CompConst;
      Constant(v);
    }

    method Reference(p: Place)
      requires Ready(fs.Abs())
      modifies fs
      ensures fs.Abs() == CompE(Load(p), old(fs.Abs()))
      decreases p, 3
    {
      hide CompPlace, Result2, One, Pop, Grown;
      ghost var a := fs.Abs();
      ghost var pc := CompPlace(p, a);
      var local := PrefixedExpr(p);
      if !local {
        Emit2ArgsOP(GET, 0, pc.mid, a);
      }
    }

    lemma AssignUnfold(p: Place, e: Expr, a: FState)
      requires Ready(a)
      ensures CompE(Assign(p, e), a) == AssignEnd(CompE(e, CompPlace(p, a).fs), CompPlace(p, a), a)
    {
      hide CompPlace, AssignEnd, One, Pop, Grown, Ready, PlacePushed;
    }

    lemma OpAssignUnfold(op: Op, p: Place, e: Expr, a: FState)
      requires Ready(a)
      ensures CompE(OpAssign(op, p, e), a) == OpAssignEnd(op, CompE(e, CompPlace(p, a).fs), CompPlace(p, a), a)
    {
      hide CompPlace, OpAssignEnd, One, Pop, Grown, Ready, PlacePushed;
    }

    method Assignment(p: Place, e: Expr)
      requires Ready(fs.Abs())
      modifies fs
      ensures fs.Abs() == CompE(Assign(p, e), old(fs.Abs()))
      decreases Assign(p, e), 1
    {
      hide *;
      ghost var a := fs.Abs();
      ghost var pc := CompPlace(p, a);
      var local := PrefixedExpr(p);
      Expression(e);
      AssignTo(local, pc, a);
      AssignUnfold(p, e, a);
    }

    method CompoundAssignment(op: Op, p: Place, e: Expr)
      requires Ready(fs.Abs())
      modifies fs
      ensures fs.Abs() == CompE(OpAssign(op, p, e), old(fs.Abs()))
      decreases OpAssign(op, p, e), 1
    {
      hide *;
      ghost var a := fs.Abs();
      ghost var pc := CompPlace(p, a);
      var local := PrefixedExpr(p);
      Expression(e);
      EmitCompoundArith(op, pc, local, a);
      OpAssignUnfold(op, p, e, a);
    }

    method Increment(post: bool, diff: int, p: Place)
      requires Ready(fs.Abs())
      modifies fs
      ensures fs.Abs() == CompE(IncDec(post, diff, p), old(fs.Abs()))
      decreases p, 3
    {
      hide CompPlace, CompConst, LoadEnd, UnaryEnd, BinEnd, Circuit, CircuitEnd, CondTest, CondElse, CondEnd,
        AssignEnd, OpAssignEnd, IncDecEnd, ArrayEnd, CompElements, CompMethod, CompFunction, CompCall,
        One, Pop, Grown, Result, PushTemp, Ready, PlacePushed, Add;
      ghost var a := fs.Abs();
      ghost var pc := CompPlace(p, a);
      var local := PrefixedExpr(p);
      IncDecrement(post, diff, local, pc, a);
    }

    method MethodCall(p: Place, args: seq<Expr>)
      requires Ready(fs.Abs())
      modifies fs
      ensures fs.Abs() == CompE(Invoke(p, args), old(fs.Abs()))
      decreases Invoke(p, args), 1
    {
      hide CompPlace, CompConst, LoadEnd, UnaryEnd, BinEnd, Circuit, CircuitEnd, CondTest, CondElse, CondEnd,
        AssignEnd, OpAssignEnd, IncDecEnd, ArrayEnd, CompElements, CompMethod, CompFunction, CompCall,
        One, Pop, Grown, Result, PushTemp, Ready, PlacePushed, Add;
      ghost var a := fs.Abs();
      ghost var pc := CompPlace(p, a);
      var local := PrefixedExpr(p);
      Callee(local, pc, a);
      MethodReady(CompMethod(pc, a), a);
      FunctionCallArgs(args, CompMethod(pc, a), a);
    }

    method ValueCall(f: Expr, args: seq<Expr>)
      requires Ready(fs.Abs())
      modifies fs
      ensures fs.Abs() == CompE(CallValue(f, args), old(fs.Abs()))
      decreases CallValue(f, args), 1
    {
      hide CompPlace, CompConst, LoadEnd, UnaryEnd, BinEnd, Circuit, CircuitEnd, CondTest, CondElse, CondEnd,
        AssignEnd, OpAssignEnd, IncDecEnd, ArrayEnd, CompElements, CompMethod, CompCall,
        One, Pop, Grown, Result, Ready, Add, PushTemp;
      ghost var a := fs.Abs();
      Expression(f);
      ghost var clo := fs.Abs();
      Emit(MOVE, 0, 0, 0);
      MethodReady(CompFunction(clo, a), a);
      FunctionCallArgs(args, CompFunction(clo, a), a);
    }

    method UnaryOP(op: Op, e: Expr)
      requires Ready(fs.Abs())
      modifies fs
      ensures fs.Abs() == CompE(Expr.Unary(op, e), old(fs.Abs()))
      decreases e, 3
    {
      hide CompPlace, CompConst, LoadEnd, UnaryEnd, BinEnd, Circuit, CircuitEnd, CondTest, CondElse, CondEnd,
        AssignEnd, OpAssignEnd, IncDecEnd, ArrayEnd, CompElements, CompMethod, CompFunction, CompCall,
        One, Pop, Grown, Result, PushTemp, Ready, PlacePushed, Add;
      ghost var a := fs.Abs();
      Expression(e);
      OperateOne(op, a);
    }

    method OperateOne(op: Op, ghost a: FState)
      requires One(a, fs.Abs())
      modifies fs
      ensures fs.Abs() == UnaryEnd(op, old(fs.Abs()), a)
    {
      hide Pop, Grown, Result;
      PopOne(a, fs.Abs());
      var src := fs.PopTarget();
      Emit(op, src, 0, 0);
    }

    method BinExp(op: Op, op3: int, l: Expr, r: Expr)
      requires Ready(fs.Abs())
      modifies fs
      ensures fs.Abs() == CompE(Bin(op, op3, l, r), old(fs.Abs()))
      decreases Bin(op, op3, l, r), 1
    {
      hide CompPlace, CompConst, LoadEnd, UnaryEnd, BinEnd, Circuit, CircuitEnd, CondTest, CondElse, CondEnd,
        AssignEnd, OpAssignEnd, IncDecEnd, ArrayEnd, CompElements, CompMethod, CompFunction, CompCall,
        One, Pop, Grown, Result, PushTemp, Ready, PlacePushed, Add;
      ghost var a := fs.Abs();
      Expression(l);
      ghost var b := fs.Abs();
      OneReady(a, b);
      Expression(r);
      Operate(op, op3, b, a);
    }

    method Operate(op: Op, op3: int, ghost b: FState, ghost a: FState)
      requires One(a, b) && One(b, fs.Abs())
      modifies fs
      ensures fs.Abs() == BinEnd(op, op3, old(fs.Abs()), b, a)
    {
      hide Pop, Grown, Result;
      PopTwo(a, b, fs.Abs());
      var op1 := fs.PopTarget();
      var op2 := fs.PopTarget();
      Emit(op, op1, op2, op3);
    }

    /** `&&` and `||`: one jump, patched when the second operand's code is known. */
    method LogicalAndExp(l: Expr, r: Expr)
      requires Ready(fs.Abs())
      modifies fs
      ensures fs.Abs() == CompE(Expr.And(l, r), old(fs.Abs()))
      decreases Expr.And(l, r), 1
    {
      hide CompPlace, CompConst, LoadEnd, UnaryEnd, BinEnd, Circuit, CircuitEnd, CondTest, CondElse, CondEnd,
        AssignEnd, OpAssignEnd, IncDecEnd, ArrayEnd, CompElements, CompMethod, CompFunction, CompCall,
        One, Pop, Grown, Result, PushTemp, Ready, PlacePushed, Add, Patch, Snooze, TestPushed;
      ghost var a := fs.Abs();
      Expression(l);
      ghost var t := Circuit(AND, fs.Abs(), a);
      var trg, jpos := FirstOperand(AND, a);
      TestReady(t, a);
      Expression(r);
      SecondOperand(trg, jpos, t, a);
    }

    method LogicalOrExp(l: Expr, r: Expr)
      requires Ready(fs.Abs())
      modifies fs
      ensures fs.Abs() == CompE(Expr.Or(l, r), old(fs.Abs()))
      decreases Expr.Or(l, r), 1
    {
      hide CompPlace, CompConst, LoadEnd, UnaryEnd, BinEnd, Circuit, CircuitEnd, CondTest, CondElse, CondEnd,
        AssignEnd, OpAssignEnd, IncDecEnd, ArrayEnd, CompElements, CompMethod, CompFunction, CompCall,
        One, Pop, Grown, Result, PushTemp, Ready, PlacePushed, Add, Patch, Snooze, TestPushed;
      ghost var a := fs.Abs();
      Expression(l);
      ghost var t := Circuit(OR, fs.Abs(), a);
      var trg, jpos := FirstOperand(OR, a);
      TestReady(t, a);
      Expression(r);
      SecondOperand(trg, jpos, t, a);
    }

    method FirstOperand(op: Op, ghost a: FState) returns (trg: int, jpos: int)
      requires One(a, fs.Abs())
      modifies fs
      ensures fs.Abs() == Circuit(op, old(fs.Abs()), a).after
      ensures trg == Top(fs.Abs()) && jpos == Pos(Circuit(op, old(fs.Abs()), a).jump)
    {
      PopOne(a, fs.Abs());
      var first := fs.PopTarget();
      trg := fs.NewTarget();
      fs.AddInstruction(Ins(op, trg, 0, first, 0));
      jpos := |fs.instructions| - 1;
      if trg != first {
        fs.AddInstruction(Ins(MOVE, trg, first));
      }
    }

    method SecondOperand(trg: int, jpos: int, ghost t: Test, ghost a: FState)
      requires TestPushed(a, t) && One(t.after, fs.Abs()) && trg == Top(t.after) && jpos == Pos(t.jump)
      modifies fs
      ensures fs.Abs() == CircuitEnd(old(fs.Abs()), t, a)
    {
      SnoozeOne(t.after, fs.Abs());
      fs.SnoozeOpt();
      MoveTo(trg, t.after);
      fs.SnoozeOpt();
      fs.SetInstructionParam1(jpos, |fs.instructions| - 1 - jpos);
    }

    method MoveTo(trg: int, ghost before: FState)
      requires |before.targets| > 0 && One(before, fs.Abs()) && trg == Top(before)
      modifies fs
      ensures fs.Abs() == MoveInto(old(fs.Abs()), before)
    {
      PopOne(before, fs.Abs());
      var src := fs.PopTarget();
      if trg != src {
        fs.AddInstruction(Ins(MOVE, trg, src));
      }
    }

    method Conditional(c: Expr, t: Expr, f: Expr)
      requires Ready(fs.Abs())
      modifies fs
      ensures fs.Abs() == CompE(Cond(c, t, f), old(fs.Abs()))
      decreases Cond(c, t, f), 1
    {
      hide CompE, CondTest, CondElse, CondEnd, One, Grown, ElsePushed, CondPushed, Ready, PushTemp, Result, Pushed;
      ghost var a := fs.Abs();
      Expression(c);
      TestCondition(a);
      Branches(c, t, f, a);
    }

    /** Both branches leave their value in the same register. */
    method Branches(ghost c: Expr, t: Expr, f: Expr, ghost a: FState)
      requires Ready(a) && fs.Abs() == CondTest(CompE(c, a), a)
      modifies fs
      ensures fs.Abs() == CompE(Cond(c, t, f), a)
      decreases Cond(c, t, f), 0
    {
      hide CompE, CondTest, CondElse, CondEnd, One, Grown, ElsePushed, Ready;
      ghost var jz := fs.Abs();
      var jzpos := |fs.instructions| - 1;
      CondReady(jz, a);
      var trg := fs.NewTarget();
      Expression(t);
      var endfirst := FirstBranch(trg, jz, a);
      ghost var jmp := fs.Abs();
      var jmppos := |fs.instructions| - 1;
      Expression(f);
      SecondBranch(trg, jzpos, jmppos, endfirst, jmp, jz, a);
      ConditionalIs(c, t, f, jmp, jz, a);
    }

    lemma ConditionalIs(c: Expr, t: Expr, f: Expr, jmp: FState, jz: FState, a: FState)
      requires Ready(a) && jz == CondTest(CompE(c, a), a) && Ready(PushTemp(jz))
        && jmp == CondElse(CompE(t, PushTemp(jz)), jz, a)
      ensures Ready(jmp) && CompE(Cond(c, t, f), a) == CondEnd(CompE(f, jmp), jmp, jz, a)
    {
      hide CompPlace, CompConst, LoadEnd, UnaryEnd, BinEnd, Circuit, CircuitEnd, CondTest, CondElse, CondEnd,
        AssignEnd, OpAssignEnd, IncDecEnd, ArrayEnd, CompElements, CompMethod, CompFunction, CompCall,
        One, Pop, Grown, Result, PushTemp, Add, Ready, CondPushed, ElsePushed;
      CondReady(jz, a);
    }

    method SecondBranch(trg: int, jzpos: int, jmppos: int, endfirst: int, ghost jmp: FState, ghost jz: FState,
        ghost a: FState)
      requires CondPushed(a, jz) && ElsePushed(jz, jmp) && One(jmp, fs.Abs())
      requires trg == Top(PushTemp(jz)) && jzpos == Pos(jz) && jmppos == Pos(jmp) && endfirst == Pos(jmp) - 1
      modifies fs
      ensures fs.Abs() == CondEnd(old(fs.Abs()), jmp, jz, a)
    {
      hide MoveInto, Add;
      MoveTo(trg, jmp);
      fs.SetInstructionParam1(jmppos, |fs.instructions| - 1 - jmppos);
      fs.SetInstructionParam1(jzpos, endfirst - jzpos + 1);
      fs.SnoozeOpt();
    }

    method TestCondition(ghost a: FState)
      requires One(a, fs.Abs())
      modifies fs
      ensures fs.Abs() == CondTest(old(fs.Abs()), a)
    {
      PopOne(a, fs.Abs());
      var trg := fs.PopTarget();
      fs.AddInstruction(Ins(JZ, trg));
    }

    method FirstBranch(trg: int, ghost jz: FState, ghost a: FState) returns (endfirst: int)
      requires Ready(a) && CondPushed(a, jz) && One(PushTemp(jz), fs.Abs()) && trg == Top(PushTemp(jz))
      modifies fs
      ensures fs.Abs() == CondElse(old(fs.Abs()), jz, a) && endfirst == Pos(fs.Abs()) - 1
    {
      MoveTo(trg, PushTemp(jz));
      endfirst := |fs.instructions| - 1;
      AddAppends(fs.Abs(), Ins(JMP));
      fs.AddInstruction(Ins(JMP));
    }

    method AssignTo(local: bool, ghost pc: PlaceCode, ghost a: FState)
      requires PlacePushed(a, pc) && One(pc.fs, fs.Abs()) && local == pc.LocalCode?
      modifies fs
      ensures fs.Abs() == AssignEnd(old(fs.Abs()), pc, a)
    {
      if local {
        PopOne(pc.fs, fs.Abs());
        var src := fs.PopTarget();
        var dst := fs.TopTarget();
        fs.AddInstruction(Ins(MOVE, dst, src));
      } else {
        EmitDerefOp(pc.mid, pc.fs, a);
      }
    }

    method IncDecrement(post: bool, diff: int, local: bool, ghost pc: PlaceCode, ghost a: FState)
      requires PlacePushed(a, pc) && pc.fs == fs.Abs() && local == pc.LocalCode?
      modifies fs
      ensures fs.Abs() == IncDecEnd(post, diff, pc, a)
    {
      if local {
        PopOne(a, fs.Abs());
        if post {
          var src := fs.PopTarget();
          Emit(PINCL, src, 0, diff);
        } else {
          var src := fs.TopTarget();
          fs.AddInstruction(Ins(INCL, src, src, 0, diff));
        }
      } else {
        Emit2ArgsOP(if post then PINC else INC, diff, pc.mid, a);
      }
    }

    /** Leave the place's register, or its object and key, on the stack of targets. */
    method PrefixedExpr(p: Place) returns (local: bool)
      requires Ready(fs.Abs())
      modifies fs
      ensures fs.Abs() == CompPlace(p, old(fs.Abs())).fs && local == CompPlace(p, old(fs.Abs())).LocalCode?
      decreases p, 2
    {
      ghost var a := fs.Abs();
      match p {
        case Name(x) =>
          var pos := fs.GetLocalVariable(x);
          local := pos >= 0;
          if local {
            fs.UseTarget(pos);
          } else {
            fs.UseTarget(0);
            EmitLoad(Str(x));
          }
        case Field(o, k) =>
          Expression(o);
          OneReady(a, fs.Abs());
          Expression(k);
          local := false;
      }
    }

    method ArrayLiteral(es: seq<Expr>)
      requires Ready(fs.Abs())
      modifies fs
      ensures fs.Abs() == CompE(Expr.Array(es), old(fs.Abs()))
      decreases es, 3
    {
      hide CompE, One, Grown, Result, AppendEnd, Pop;
      ghost var a := fs.Abs();
      Emit(NEWOBJ, 0, 0, NOT_ARRAY);
      ghost var b := fs.Abs();
      OneReady(a, b);
      var apos := |fs.instructions| - 1;
      Elements(es);
      ArrayIs(es, b, a);
      fs.SetInstructionParam1(apos, |es|);
    }

    lemma ArrayIs(es: seq<Expr>, b: FState, a: FState)
      requires Ready(a) && b == Result(a, NEWOBJ, 0, 0, NOT_ARRAY) && Ready(b)
      ensures |CompElements(es, b).code| >= |b.code| > 0
        && CompE(Expr.Array(es), a) == Patch(CompElements(es, b), Pos(b), |es|)
    {
      hide Result, CompElements;
    }

    method Elements(es: seq<Expr>)
      requires Ready(fs.Abs()) && |fs.Abs().targets| > 0
      modifies fs
      ensures fs.Abs() == CompElements(es, old(fs.Abs()))
      decreases es, 2
    {
      hide CompE, One, Grown, AppendEnd, Pop;
      ghost var b := fs.Abs();
      var key := 0;
      while key < |es|
        invariant 0 <= key <= |es| && Ready(fs.Abs()) && |fs.Abs().targets| > 0
        invariant CompElements(es[key..], fs.Abs()) == CompElements(es, b)
      {
        ghost var c := fs.Abs();
        Expression(es[key]);
        AppendElement(c);
        OneReady(c, fs.Abs());
        assert es[key..][1..] == es[key + 1..];
        key := key + 1;
      }
    }

    method AppendElement(ghost c: FState)
      requires |c.targets| > 0 && One(c, fs.Abs())
      modifies fs
      ensures fs.Abs() == AppendEnd(old(fs.Abs()), c)
    {
      PopOne(c, fs.Abs());
      var val := fs.PopTarget();
      var target := fs.TopTarget();
      fs.AddInstruction(Ins(APPENDARRAY, target, val, AAT_STACK));
    }

    /** The function to be called and its `this`. */
    method Callee(local: bool, ghost pc: PlaceCode, ghost a: FState)
      requires PlacePushed(a, pc) && pc.fs == fs.Abs() && local == pc.LocalCode?
      modifies fs
      ensures fs.Abs() == CompMethod(pc, a).self
    {
      if local {
        Emit(MOVE, 0, 0, 0);
      } else {
        PopTwo(a, pc.mid, fs.Abs());
        var key := fs.PopTarget();
        var table := fs.PopTarget();
        var closure := fs.NewTarget();
        var ttarget := fs.NewTarget();
        fs.AddInstruction(Ins(PREPCALL, closure, key, table, ttarget));
      }
    }

    method FunctionCallArgs(args: seq<Expr>, ghost mc: MethodCode, ghost a: FState)
      requires MethodPushed(a, mc) && fs.Abs() == mc.self && Ready(mc.self)
      modifies fs
      ensures fs.Abs() == CompCall(args, mc, a)
      decreases args, 3
    {
      var nargs := 0;
      while nargs < |args|
        invariant 0 <= nargs <= |args| && Ready(fs.Abs())
        invariant CompArgs(args[nargs..], fs.Abs()) == CompArgs(args, mc.self)
      {
        ghost var c := fs.Abs();
        Expression(args[nargs]);
        MoveIfCurrentTargetIsLocal(c);
        OneReady(c, fs.Abs());
        assert args[nargs..][1..] == args[nargs + 1..];
        nargs := nargs + 1;
      }
      PopArguments(nargs, mc.self);
      PopTwo(a, mc.clo, fs.Abs());
      var stackbase := fs.PopTarget();
      var closure := fs.PopTarget();
      Emit(CALL, closure, stackbase, nargs + 1);
    }

    method PopArguments(n: nat, ghost self: FState)
      requires Grown(self, fs.Abs()) && PushedMany(self, fs.Abs(), n)
      modifies fs
      ensures fs.Abs() == PopMany(old(fs.Abs()), self, n)
    {
      hide Grown, PushedMany, PopMany, Pop;
      var i := n;
      while i > 0
        invariant 0 <= i <= n && Grown(self, fs.Abs()) && PushedMany(self, fs.Abs(), i)
        invariant PopMany(fs.Abs(), self, i) == PopMany(old(fs.Abs()), self, n)
      {
        PopStep(fs.Abs(), self, i);
        var discarded := fs.PopTarget();
        i := i - 1;
      }
      PopNone(fs.Abs(), self);
    }

    lemma PopStep(b: FState, self: FState, i: nat)
      requires i > 0 && Grown(self, b) && PushedMany(self, b, i)
      ensures |b.targets| > 0 && 0 <= Top(b) < |b.vlocals| && Grown(self, Pop(b)) && PushedMany(self, Pop(b), i - 1)
      ensures PopMany(b, self, i) == PopMany(Pop(b), self, i - 1)
    {
      assert Pop(b).targets == self.targets + Registers(|self.vlocals|, i - 1);
      assert Pop(b).vlocals == self.vlocals + Temps(i - 1);
    }

    lemma PopNone(b: FState, self: FState)
      requires Grown(self, b) && PushedMany(self, b, 0)
      ensures PopMany(b, self, 0) == b
    {
    }

    // --- statements

    method Statement(s: Stmt)
      requires Legal(fs.Abs())
      modifies fs
      ensures fs.Abs() == CompS(s, old(fs.Abs()))
      decreases s, 4
    {
      hide CompBody, Legal, Stmts;
      StatementBody(s);
      fs.SnoozeOpt();
    }

    method StatementBody(s: Stmt)
      requires Legal(fs.Abs())
      modifies fs
      ensures fs.Abs() == CompBody(s, old(fs.Abs()))
      decreases s, 3
    {
      hide CompE, CompAll, ExprEnd, Jump, Stmts, EndScope, ReturnNull, ReturnEnd, DeclMove, DeclEnd, CondTest, IfEnd,
        IfElseEnd, ElseJump, IfBlock,
        WhileTest, WhileEnd, CompDoWhile, CompS, Result, One, Grown, Legal;
      match s {
        case Empty => StmtsSelf(fs.Abs());
        case ExprStmt(e) => ExpressionStatement(e);
        case VarDecl(x, init) => LocalDeclStatement(x, init);
        case Block(ss) => Scope(ss);
        case If(c, t, f) => IfStatement(c, t, f);
        case While(c, b) => WhileStatement(c, b);
        case DoWhile(b, c) => DoWhileStatement(b, c);
        case Break => UnresolvedJump(true);
        case Continue => UnresolvedJump(false);
        case Return(r) => ReturnStatement(r);
      }
    }

    method ExpressionStatement(e: Expr)
      requires Legal(fs.Abs())
      modifies fs
      ensures fs.Abs() == CompBody(ExprStmt(e), old(fs.Abs()))
      decreases ExprStmt(e), 1
    {
      hide CompE, Discard, Grown;
      ghost var a := fs.Abs();
      LegalReady(a);
      Expression(e);
      PopOne(a, fs.Abs());
      fs.DiscardTarget();
    }

    method LocalDeclStatement(x: string, init: Option<Expr>)
      requires Legal(fs.Abs())
      modifies fs
      ensures fs.Abs() == CompBody(VarDecl(x, init), old(fs.Abs()))
      decreases VarDecl(x, init), 1
    {
      hide CompE, Grown, Add, Stmts;
      ghost var a := fs.Abs();
      LegalReady(a);
      if init.Some? {
        Expression(init.value);
        ghost var fs1 := fs.Abs();
        PopOne(a, fs1);
        var src := fs.PopTarget();
        var dest := fs.NewTarget();
        if dest != src {
          fs.AddInstruction(Ins(MOVE, dest, src));
        }
        assert fs.Abs() == DeclMove(fs1, a);
      } else {
        Emit(LOADNULLS, 1, 0, 0);
      }
      PopOne(a, fs.Abs());
      var popped := fs.PopTarget();
      fs.PushLocalVariable(x);
    }

    /** A braced block: its variables are dropped at the end. */
    method Scope(ss: seq<Stmt>)
      requires Legal(fs.Abs())
      modifies fs
      ensures fs.Abs() == SetStackSize(CompAll(ss, old(fs.Abs())), |old(fs.Abs()).vlocals|)
      ensures fs.Abs() == CompBody(Block(ss), old(fs.Abs())) && fs.Abs() == IfBlock(Block(ss), old(fs.Abs()))
      decreases ss, 3
    {
      hide CompAll, Legal, Stmts;
      var stacksize := |fs.vlocals|;
      Statements(ss);
      fs.ShrinkStack(stacksize);
    }

    method Statements(ss: seq<Stmt>)
      requires Legal(fs.Abs())
      modifies fs
      ensures fs.Abs() == CompAll(ss, old(fs.Abs()))
      decreases ss, 2
    {
      hide CompS, Legal, Stmts;
      ghost var a := fs.Abs();
      var i := 0;
      while i < |ss|
        invariant 0 <= i <= |ss| && Legal(fs.Abs())
        invariant CompAll(ss[i..], fs.Abs()) == CompAll(ss, a)
      {
        ghost var b := fs.Abs();
        Statement(ss[i]);
        StmtsLegal(b, fs.Abs());
        assert ss[i..][1..] == ss[i + 1..];
        i := i + 1;
      }
    }

    method IfBranch(s: Stmt)
      requires Legal(fs.Abs())
      modifies fs
      ensures fs.Abs() == IfBlock(s, old(fs.Abs()))
      decreases s, 5
    {
      hide CompAll, CompS, Legal, Stmts, SetStackSize, CompBody;
      match s {
        case Block(ss) => Scope(ss);
        case _ => Statement(s);
      }
    }

    method IfStatement(c: Expr, t: Stmt, f: Option<Stmt>)
      requires Legal(fs.Abs())
      modifies fs
      ensures fs.Abs() == CompBody(If(c, t, f), old(fs.Abs()))
      decreases If(c, t, f), 1
    {
      hide CompE, CondTest, IfBlock, Legal, Stmts, One, CondPushed, IfElseEnd, IfEnd, ElseJump;
      ghost var a := fs.Abs();
      LegalReady(a);
      Expression(c);
      TestCondition(a);
      ghost var jz := fs.Abs();
      TestStmts(a, jz);
      var jnepos := |fs.instructions| - 1;
      IfBranch(t);
      ghost var t' := fs.Abs();
      var endifblock := |fs.instructions| - 1;
      if f.Some? {
        ElseBranch(jz, a);
        ghost var jmp := fs.Abs();
        var jmppos := |fs.instructions| - 1;
        IfBranch(f.value);
        PatchIfElse(jmppos, jnepos, endifblock, jmp, t', jz, a);
      } else {
        PatchIf(jnepos, endifblock, jz, a);
      }
    }

    method ElseBranch(ghost jz: FState, ghost a: FState)
      requires Legal(a) && CondPushed(a, jz) && Stmts(jz, fs.Abs())
      modifies fs
      ensures fs.Abs() == ElseJump(old(fs.Abs()), jz, a)
    {
      fs.AddInstruction(Ins(JMP));
    }

    method PatchIf(jnepos: int, endifblock: int, ghost jz: FState, ghost a: FState)
      requires Legal(a) && CondPushed(a, jz) && Stmts(jz, fs.Abs()) && jnepos == Pos(jz) && endifblock == Pos(fs.Abs())
      modifies fs
      ensures fs.Abs() == IfEnd(old(fs.Abs()), jz, a)
    {
      fs.SetInstructionParam1(jnepos, endifblock - jnepos);
    }

    method PatchIfElse(jmppos: int, jnepos: int, endifblock: int, ghost jmp: FState, ghost t': FState,
        ghost jz: FState, ghost a: FState)
      requires Legal(a) && CondPushed(a, jz) && Stmts(jz, t') && Stmts(t', jmp) && |jmp.code| == |t'.code| + 1
        && Stmts(jmp, fs.Abs())
      requires jmppos == Pos(jmp) && jnepos == Pos(jz) && endifblock == Pos(t')
      modifies fs
      ensures fs.Abs() == IfElseEnd(old(fs.Abs()), jmp, t', jz, a)
    {
      fs.SetInstructionParam1(jmppos, |fs.instructions| - 1 - jmppos);
      fs.SetInstructionParam1(jnepos, endifblock - jnepos + 1);
    }

    method WhileStatement(c: Expr, b: Stmt)
      requires Legal(fs.Abs())
      modifies fs
      ensures fs.Abs() == CompBody(While(c, b), old(fs.Abs()))
      decreases While(c, b), 1
    {
      hide *;
      ghost var a := fs.Abs();
      WhileUnfold(c, b, a);
      var jmppos := |fs.instructions| - 1;
      var nbreaks, nconts := |fs.unresolvedbreaks|, |fs.unresolvedcontinues|;
      var stacksize := |fs.vlocals|;
      AbsSizes(a);
      LoopHead(c);
      ghost var jz := fs.Abs();
      var jzpos := |fs.instructions| - 1;
      AbsSizes(jz);
      Statement(b);
      EndWhile(jmppos, jzpos, stacksize, nbreaks, nconts, jz, a);
    }

    lemma AbsSizes(a: FState)
      requires a == fs.Abs()
      ensures |fs.instructions| - 1 == Pos(a) && |fs.unresolvedbreaks| == |a.breaks|
        && |fs.unresolvedcontinues| == |a.conts| && |fs.vlocals| == |a.vlocals|
    {
    }

    lemma WhileUnfold(c: Expr, b: Stmt, a: FState)
      requires Legal(a)
      ensures Ready(a)
      ensures var jz := WhileTest(CompE(c, a), a); CompBody(While(c, b), a) == WhileEnd(CompS(b, jz), jz, a)
    {
      hide WhileTest, WhileEnd, CompE, CompS, Legal, Stmts, One, CondPushed;
      LegalReady(a);
    }

    /** The test of a loop; what follows is inside the loop. */
    method LoopHead(c: Expr)
      requires Legal(fs.Abs())
      modifies fs
      ensures Ready(old(fs.Abs())) && fs.Abs() == WhileTest(CompE(c, old(fs.Abs())), old(fs.Abs()))
      ensures Legal(fs.Abs()) && CondPushed(old(fs.Abs()).(loops := old(fs.Abs()).loops + 1), fs.Abs())
      decreases c, 3
    {
      hide CompE, CondTest, Legal, Stmts, One, CondPushed, Ready;
      ghost var a := fs.Abs();
      LegalReady(a);
      Expression(c);
      ghost var fs1 := fs.Abs();
      TestCondition(a);
      fs.breaktargets := fs.breaktargets + 1;
      WhileIs(fs1, fs.Abs(), a);
    }

    lemma WhileIs(fs1: FState, jz: FState, a: FState)
      requires Legal(a) && One(a, fs1) && jz == CondTest(fs1, a).(loops := CondTest(fs1, a).loops + 1)
      ensures jz == WhileTest(fs1, a) && Legal(jz) && jz.breaks == a.breaks && jz.conts == a.conts
        && jz.vlocals == a.vlocals && |jz.code| > 0
    {
    }

    method EndWhile(jmppos: int, jzpos: int, stacksize: nat, nbreaks: nat, nconts: nat, ghost jz: FState,
        ghost a: FState)
      requires Legal(a) && CondPushed(a.(loops := a.loops + 1), jz) && Stmts(jz, fs.Abs())
      requires jmppos == Pos(a) && jzpos == Pos(jz) && stacksize == |a.vlocals| && nbreaks == |a.breaks|
        && nconts == |a.conts|
      modifies fs
      ensures fs.Abs() == WhileEnd(old(fs.Abs()), jz, a)
    {
      hide EndLoop, Add;
      ghost var body := fs.Abs();
      ghost var back := LoopBack(body, jz, a);
      fs.ShrinkStack(stacksize);
      AddSame(fs.Abs(), Ins(JMP, 0, Pos(a) - Pos(body) - 1));
      fs.AddInstruction(Ins(JMP, 0, jmppos - (|fs.instructions| - 1) - 1));
      assert |fs.instructions| > jzpos;
      fs.SetInstructionParam1(jzpos, |fs.instructions| - 1 - jzpos);
      assert fs.Abs() == back;
      BackStmts(body, jz, a);
      ResolveJumps(nbreaks, nconts, jmppos, a);
    }

    lemma BackStmts(body: FState, jz: FState, a: FState)
      requires Legal(a) && CondPushed(a.(loops := a.loops + 1), jz) && Stmts(jz, body)
      ensures Stmts(a.(loops := a.loops + 1), LoopBack(body, jz, a))
    {
      hide LoopBack;
    }

    method DoWhileStatement(b: Stmt, c: Expr)
      requires Legal(fs.Abs())
      modifies fs
      ensures fs.Abs() == CompDoWhile(b, c, old(fs.Abs()))
      decreases DoWhile(b, c), 1
    {
      hide CompE, CompS, CompBody, Legal, Stmts, One, Ready, BeginLoop, EndScope, DoWhileEnd;
      ghost var a := fs.Abs();
      var jmptrg := |fs.instructions| - 1;
      var nbreaks, nconts := |fs.unresolvedbreaks|, |fs.unresolvedcontinues|;
      LoopBody(b);
      LoopTest(c, jmptrg, nbreaks, nconts, a);
    }

    method LoopTest(c: Expr, jmptrg: int, nbreaks: nat, nconts: nat, ghost a: FState)
      requires Legal(a) && Stmts(a.(loops := a.loops + 1), fs.Abs()) && fs.Abs().vlocals == a.vlocals && Ready(fs.Abs())
      requires jmptrg == Pos(a) && nbreaks == |a.breaks| && nconts == |a.conts|
      modifies fs
      ensures fs.Abs() == DoWhileEnd(CompE(c, old(fs.Abs())), old(fs.Abs()), a)
      decreases c, 3
    {
      hide CompE, Legal, Stmts, One, Ready, DoWhileEnd;
      ghost var body := fs.Abs();
      var continuetrg := |fs.instructions| - 1;
      Expression(c);
      EndDoWhile(jmptrg, continuetrg, nbreaks, nconts, body, a);
    }

    method LoopBody(b: Stmt)
      requires Legal(fs.Abs())
      modifies fs
      ensures var a := old(fs.Abs()); var start := BeginLoop(a);
        && fs.Abs() == EndScope(CompS(b, start), start, |a.vlocals|)
        && Stmts(a.(loops := a.loops + 1), fs.Abs()) && fs.Abs().vlocals == a.vlocals && Ready(fs.Abs())
      decreases b, 5
    {
      hide CompS, Legal, Stmts;
      ghost var start := BeginLoop(fs.Abs());
      fs.breaktargets := fs.breaktargets + 1;
      assert fs.Abs() == start;
      var stacksize := |fs.vlocals|;
      Statement(b);
      fs.ShrinkStack(stacksize);
      LegalReady(EndScope(CompS(b, start), start, stacksize));
    }

    method EndDoWhile(jmptrg: int, continuetrg: int, nbreaks: nat, nconts: nat, ghost body: FState, ghost a: FState)
      requires Legal(a) && Stmts(a.(loops := a.loops + 1), body) && body.vlocals == a.vlocals && One(body, fs.Abs())
      requires jmptrg == Pos(a) && continuetrg == Pos(body) && nbreaks == |a.breaks| && nconts == |a.conts|
      modifies fs
      ensures fs.Abs() == DoWhileEnd(old(fs.Abs()), body, a)
    {
      hide EndLoop, Add, Grown;
      ghost var fs1 := fs.Abs();
      ghost var back := DoTest(fs1, body, a);
      PopOne(body, fs1);
      var trg := fs.PopTarget();
      fs.AddInstruction(Ins(JZ, trg, 1));
      fs.AddInstruction(Ins(JMP, 0, jmptrg - (|fs.instructions| - 1) - 1));
      assert fs.Abs() == back;
      DoStmts(fs1, body, a);
      ResolveJumps(nbreaks, nconts, continuetrg, a);
    }

    lemma DoStmts(fs1: FState, body: FState, a: FState)
      requires Legal(a) && Stmts(a.(loops := a.loops + 1), body) && body.vlocals == a.vlocals && One(body, fs1)
      ensures Stmts(a.(loops := a.loops + 1), DoTest(fs1, body, a))
    {
    }

    /** The end of a loop: its continues, then its breaks. */
    method ResolveJumps(nbreaks: nat, nconts: nat, target: int, ghost a: FState)
      requires Legal(a) && Stmts(a.(loops := a.loops + 1), fs.Abs()) && nbreaks == |a.breaks| && nconts == |a.conts|
      modifies fs
      ensures fs.Abs() == EndLoop(old(fs.Abs()), nbreaks, nconts, target, a)
    {
      hide StmtGen.ResolveBreaks, ResolveConts, Grown, EndLoop, Stmts, Legal, JumpsValid;
      EndLoopUnfold(fs.Abs(), nbreaks, nconts, target, a);
      var continues := |fs.unresolvedcontinues| - nconts;
      var breaks := |fs.unresolvedbreaks| - nbreaks;
      if continues > 0 {
        ResolveContinues(continues, target);
      } else {
        NoContinues(fs.Abs(), target);
      }
      if breaks > 0 {
        ResolveBreaks(breaks);
      } else {
        NoBreaks(fs.Abs());
      }
      fs.breaktargets := fs.breaktargets - 1;
    }

    lemma EndLoopUnfold(back: FState, nbreaks: nat, nconts: nat, target: int, a: FState)
      requires Legal(a) && Stmts(a.(loops := a.loops + 1), back) && nbreaks == |a.breaks| && nconts == |a.conts|
      ensures nconts <= |back.conts| && nbreaks <= |back.breaks| && JumpsValid(back) && back.loops > 0
      ensures var c := ResolveConts(back, |back.conts| - nconts, target);
        && c.breaks == back.breaks && JumpsValid(c) && c.loops == back.loops
        && EndLoop(back, nbreaks, nconts, target, a)
        == StmtGen.ResolveBreaks(c, |c.breaks| - nbreaks).(loops := back.loops - 1)
    {
      hide StmtGen.ResolveBreaks, ResolveConts, Grown;
    }

    lemma NoContinues(f: FState, target: int)
      requires JumpsValid(f)
      ensures ResolveConts(f, 0, target) == f
    {
    }

    lemma NoBreaks(f: FState)
      requires JumpsValid(f)
      ensures StmtGen.ResolveBreaks(f, 0) == f
    {
    }

    lemma BreakStep(f: FState, n: nat)
      requires 0 < n <= |f.breaks| && JumpsValid(f)
      ensures var last := |f.breaks| - 1; var pos := f.breaks[last];
        && 0 <= pos < |f.code|
        && var f1 := PatchJump(f.(breaks := f.breaks[..last]), pos, Pos(f) - pos);
        JumpsValid(f1) && n - 1 <= |f1.breaks| && StmtGen.ResolveBreaks(f, n) == StmtGen.ResolveBreaks(f1, n - 1)
    {
      hide StmtGen.ResolveBreaks, Ready, ResolveConts;
      BreakUnwound(f, n);
    }

    lemma BreakUnwound(f: FState, n: nat)
      requires 0 < n <= |f.breaks| && JumpsValid(f) && 0 <= f.breaks[|f.breaks| - 1] < |f.code|
      requires JumpsValid(PatchJump(f.(breaks := f.breaks[..|f.breaks| - 1]), f.breaks[|f.breaks| - 1],
        Pos(f) - f.breaks[|f.breaks| - 1]))
      ensures var f1 := PatchJump(f.(breaks := f.breaks[..|f.breaks| - 1]), f.breaks[|f.breaks| - 1],
        Pos(f) - f.breaks[|f.breaks| - 1]);
        StmtGen.ResolveBreaks(f, n) == StmtGen.ResolveBreaks(f1, n - 1)
    {
      hide JumpsValid, PatchJump;
    }

    lemma ContinueStep(f: FState, n: nat, target: int)
      requires 0 < n <= |f.conts| && JumpsValid(f)
      ensures var last := |f.conts| - 1; var pos := f.conts[last];
        && 0 <= pos < |f.code|
        && var f1 := PatchJump(f.(conts := f.conts[..last]), pos, target - pos);
        JumpsValid(f1) && n - 1 <= |f1.conts| && ResolveConts(f, n, target) == ResolveConts(f1, n - 1, target)
    {
      hide ResolveConts, Ready, StmtGen.ResolveBreaks;
      ContinueUnwound(f, n, target);
    }

    lemma ContinueUnwound(f: FState, n: nat, target: int)
      requires 0 < n <= |f.conts| && JumpsValid(f) && 0 <= f.conts[|f.conts| - 1] < |f.code|
      requires JumpsValid(PatchJump(f.(conts := f.conts[..|f.conts| - 1]), f.conts[|f.conts| - 1],
        target - f.conts[|f.conts| - 1]))
      ensures var f1 := PatchJump(f.(conts := f.conts[..|f.conts| - 1]), f.conts[|f.conts| - 1],
        target - f.conts[|f.conts| - 1]);
        ResolveConts(f, n, target) == ResolveConts(f1, n - 1, target)
    {
      hide JumpsValid, PatchJump;
    }

    method ResolveBreaks(ntoresolve: nat)
      requires ntoresolve <= |fs.Abs().breaks| && JumpsValid(fs.Abs())
      modifies fs
      ensures fs.Abs() == StmtGen.ResolveBreaks(old(fs.Abs()), ntoresolve)
    {
      hide StmtGen.ResolveBreaks;
      var n := ntoresolve;
      while n > 0
        invariant 0 <= n <= |fs.Abs().breaks| && JumpsValid(fs.Abs())
        invariant StmtGen.ResolveBreaks(fs.Abs(), n) == StmtGen.ResolveBreaks(old(fs.Abs()), ntoresolve)
      {
        BreakStep(fs.Abs(), n);
        var last := |fs.unresolvedbreaks| - 1;
        var pos := fs.unresolvedbreaks[last];
        fs.unresolvedbreaks := fs.unresolvedbreaks[..last];
        fs.SetJump(pos, |fs.instructions| - 1 - pos);
        n := n - 1;
      }
      NoBreaks(fs.Abs());
    }

    method ResolveContinues(ntoresolve: nat, targetpos: int)
      requires ntoresolve <= |fs.Abs().conts| && JumpsValid(fs.Abs())
      modifies fs
      ensures fs.Abs() == ResolveConts(old(fs.Abs()), ntoresolve, targetpos)
    {
      hide ResolveConts;
      var n := ntoresolve;
      while n > 0
        invariant 0 <= n <= |fs.Abs().conts| && JumpsValid(fs.Abs())
        invariant ResolveConts(fs.Abs(), n, targetpos) == ResolveConts(old(fs.Abs()), ntoresolve, targetpos)
      {
        ContinueStep(fs.Abs(), n, targetpos);
        var last := |fs.unresolvedcontinues| - 1;
        var pos := fs.unresolvedcontinues[last];
        fs.unresolvedcontinues := fs.unresolvedcontinues[..last];
        fs.SetJump(pos, targetpos - pos);
        n := n - 1;
      }
      NoContinues(fs.Abs(), targetpos);
    }

    method UnresolvedJump(isBreak: bool)
      requires Legal(fs.Abs())
      modifies fs
      ensures fs.Abs() == Jump(old(fs.Abs()), isBreak)
    {
      if fs.breaktargets == 0 {
        fs.noerror := false;
      }
      fs.AddInstruction(Ins(JMP, 0, UNRESOLVED));
      if isBreak {
        fs.unresolvedbreaks := fs.unresolvedbreaks + [|fs.instructions| - 1];
      } else {
        fs.unresolvedcontinues := fs.unresolvedcontinues + [|fs.instructions| - 1];
      }
    }

    method ReturnStatement(r: Option<Expr>)
      requires Legal(fs.Abs())
      modifies fs
      ensures fs.Abs() == CompBody(Return(r), old(fs.Abs()))
      decreases Return(r), 1
    {
      hide CompE, Grown, Add, Stmts;
      ghost var a := fs.Abs();
      LegalReady(a);
      if r.Some? {
        Expression(r.value);
        PopOne(a, fs.Abs());
        var src := fs.PopTarget();
        fs.AddInstruction(Ins(RETURN, 1, src, |fs.vlocals|));
      } else {
        fs.AddInstruction(Ins(RETURN, 0xFF, 0, |fs.vlocals|));
      }
    }
  }

  /** Compile a whole program into a fresh function state. */
  method Compile(ss: seq<Stmt>) returns (fs: FunctionState)
    ensures fresh(fs) && fs.Abs() == CompProgram(ss)
  {
    hide CompAll, Add, Stmts;
    fs := new FunctionState();
    fs.PushLocalVariable("this");
    fs.PushLocalVariable("vargv");
    var compiler := new LVCompiler(fs);
    var stacksize := |fs.vlocals|;
    assert fs.Abs() == START;
    compiler.Statements(ss);
    fs.ShrinkStack(stacksize);
    fs.AddInstruction(Ins(RETURN, 0xFF));
    fs.ShrinkStack(0);
  }
}
