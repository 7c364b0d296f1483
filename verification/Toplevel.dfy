/** The compiler and the machine together: what `Compile` hands over runs as the program means. */
module Toplevel {
  import opened Bytecode
  import opened FuncState
  import opened Source
  import opened StmtGen
  import opened StmtLay
  import opened Program
  import opened Execute
  import opened Layout
  import Compiler

  /** A function prototype: its instructions and its literals. */
  datatype Compiled = Compiled(code: seq<Instr>, lits: seq<Val>)

  /** Under every meaning of the effects and from every state, on a steady run, the machine returns a value or
      raises an exception exactly when the program, given enough fuel, does; so one runs forever when the other
      does. */
  ghost predicate Implements(c: Compiled, ss: seq<Stmt>) {
    forall m: Machine, st: State, d: Conf :: Runs(m, c, st) && !d.At? ==>
      (Executes(m, At(0, st), d) <==> Ends(m.cx.prims, ss, st, d))
  }

  ghost predicate Runs(m: Machine, c: Compiled, st: State) {
    m.cx.code == c.code && m.cx.lits == c.lits && Steady(m, At(0, st))
  }

  ghost predicate Ends(prims: Prims, ss: seq<Stmt>, st: State, d: Conf) {
    exists fuel: nat :: StopsAs(Meaning(prims, ss, st, fuel), d)
  }

  lemma CompiledImplements(ss: seq<Stmt>)
    requires Compiles(ss)
    ensures Implements(Compiled(CompProgram(ss).code, CompProgram(ss).lits), ss)
  {
    hide Compiles, StopsAs, Meaning, Executes, Steady, CompProgram;
    var c := Compiled(CompProgram(ss).code, CompProgram(ss).lits);
    forall m: Machine, st: State, d: Conf | Runs(m, c, st) && !d.At?
      ensures Executes(m, At(0, st), d) <==> Ends(m.cx.prims, ss, st, d)
    {
      RunsAsMeant(ss, m, st, d);
    }
  }

  /** What comes of a program whose registers fit a byte. */
  lemma CompileMeans(ss: seq<Stmt>)
    requires Fits(CompProgram(ss))
    ensures CompProgram(ss).ok <==> ClosedAll(ss, false)
    ensures CompProgram(ss).ok && AdmissibleAll(ss, SCOPE) ==>
      Implements(Compiled(CompProgram(ss).code, CompProgram(ss).lits), ss)
  {
    hide Implements, ClosedAll, AdmissibleAll;
    ErrorIffStray(ss);
    if AdmissibleAll(ss, SCOPE) && CompProgram(ss).ok {
      CompiledImplements(ss);
    }
  }

  /** Compile a program. Nothing comes out exactly if a `break` or `continue` stands outside a loop; what comes
      out of an admissible program implements it. */
  method Compile(ss: seq<Stmt>) returns (r: Option<Compiled>)
    ensures Fits(CompProgram(ss)) ==> (r.Some? <==> ClosedAll(ss, false))
    ensures r.Some? && AdmissibleAll(ss, SCOPE) && Fits(CompProgram(ss)) ==> Implements(r.value, ss)
  {
    hide *;
    var fs := Compiler.Compile(ss);
    ghost var out := fs.Abs();
    AbsParts(fs);
    if Fits(CompProgram(ss)) {
      CompileMeans(ss);
    }
    if !fs.noerror {
      return None;
    }
    return Some(Compiled(fs.instructions, fs.literals));
  }

  lemma AbsParts(fs: FunctionState)
    ensures fs.Abs().code == fs.instructions && fs.Abs().lits == fs.literals && fs.Abs().ok == fs.noerror
  {
  }
}
