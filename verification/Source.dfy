/** The source language the compiler accepts, as syntax trees, and what it means. An operand that is a
    bare local variable is read when its operator runs, not when it is evaluated: `Operand` keeps the
    difference, so that `x + (x = 5)` means here what it means to the compiler. */
module Source {
  import opened Bytecode
  import opened FuncState

  datatype Option<+T> = None | Some(value: T)

  /** Something that can be read, assigned, incremented or called as a method. */
  datatype Place = Name(name: string) | Field(o: Expr, k: Expr)

  datatype Expr =
    | Const(v: Val)
    | Load(p: Place)
    | Unary(op: Op, e: Expr)
    | Bin(op: Op, imm: int, l: Expr, r: Expr)
    | And(l: Expr, r: Expr)
    | Or(l: Expr, r: Expr)
    | Cond(c: Expr, t: Expr, f: Expr)
    | Assign(p: Place, e: Expr)
    | OpAssign(op: Op, p: Place, e: Expr)
    | IncDec(post: bool, diff: int, p: Place)
    | Array(es: seq<Expr>)
    | Invoke(p: Place, args: seq<Expr>)
    | CallValue(f: Expr, args: seq<Expr>)

  datatype Stmt =
    | Empty
    | ExprStmt(e: Expr)
    | VarDecl(name: string, init: Option<Expr>)
    | Block(ss: seq<Stmt>)
    | If(c: Expr, t: Stmt, f: Option<Stmt>)
    | While(c: Expr, b: Stmt)
    | DoWhile(b: Stmt, c: Expr)
    | Break
    | Continue
    | Return(result: Option<Expr>)

  predicate Constant(v: Val) {
    !v.Obj? && (v.Float? ==> 0 <= v.bits < 0x1_0000_0000)
  }

  /** The opcodes that stand for an operator of each class. */
  predicate WellFormed(e: Expr)
    decreases e, 1
  {
    match e
    case Const(v) => Constant(v)
    case Load(p) => WellFormedPlace(p)
    case Unary(op, e) => (op == NOT || Bytecode.Unary(op)) && WellFormed(e)
    case Bin(op, imm, l, r) => (op in {EQ, NE} ==> imm == 0) && (op in {EQ, NE} || Binary(op)) && 0 <= imm < 256
      && WellFormed(l) && WellFormed(r)
    case And(l, r) => WellFormed(l) && WellFormed(r)
    case Or(l, r) => WellFormed(l) && WellFormed(r)
    case Cond(c, t, f) => WellFormed(c) && WellFormed(t) && WellFormed(f)
    case Assign(p, e) => WellFormedPlace(p) && WellFormed(e)
    case OpAssign(op, p, e) => op in {ADD, SUB, MUL, DIV, MOD} && WellFormedPlace(p) && WellFormed(e)
    case IncDec(_, diff, p) => diff in {-1, 1} && WellFormedPlace(p)
    case Array(es) => WellFormedAll(es)
    case Invoke(p, args) => |args| < 255 && WellFormedPlace(p) && WellFormedAll(args)
    case CallValue(f, args) => |args| < 255 && WellFormed(f) && WellFormedAll(args)
  }

  predicate WellFormedPlace(p: Place)
    decreases p, 1
  {
    p.Field? ==> WellFormed(p.o) && WellFormed(p.k)
  }

  predicate WellFormedAll(es: seq<Expr>)
    decreases es, 0
  {
    es == [] || (WellFormed(es[0]) && WellFormedAll(es[1..]))
  }

  // --- meaning of expressions

  datatype Operand = InLocal(r: int) | Value(v: Val)

  datatype EvalResult = EOk(o: Operand, env: seq<Val>, w: World) | EThrow(w: World)
  datatype PlaceResult =
    | LocalPlace(r: int)
    | FieldPlace(o: Operand, k: Operand, env: seq<Val>, w: World)
    | PThrow(w: World)
  datatype ArgsResult = AOk(vs: seq<Val>, env: seq<Val>, w: World) | AThrow(w: World)

  function Deref(o: Operand, env: seq<Val>): Val {
    match o
    case Value(v) => v
    case InLocal(r) => if 0 <= r < |env| then env[r] else Null
  }

  function SetLocal(env: seq<Val>, r: int, v: Val): (env': seq<Val>)
    ensures |env'| == |env|
  {
    if 0 <= r < |env| then env[r := v] else env
  }

  const This := InLocal(0)

  /** An effect whose result is a fresh value. */
  function Effect1(pr: Prims, p: Prim, args: seq<Val>, env: seq<Val>, w: World): EvalResult {
    match pr.apply(p, args, w)
    case Done(v, w') => EOk(Value(v), env, w')
    case Threw(w') => EThrow(w')
  }

  function EvalBin(pr: Prims, op: Op, imm: int, a: Val, b: Val, env: seq<Val>, w: World): EvalResult {
    if op == EQ then EOk(Value(Bool(IsEqual(pr, a, b))), env, w)
    else if op == NE then EOk(Value(Bool(!IsEqual(pr, a, b))), env, w)
    else Effect1(pr, Prim(op, imm, false), [a, b], env, w)
  }

  /** The literal character that names a compound assignment's operator. */
  function OpChar(op: Op): int {
    match op
    case ADD => '+' as int
    case SUB => '-' as int
    case MUL => '*' as int
    case DIV => '/' as int
    case _ => '%' as int
  }

  function Eval(pr: Prims, e: Expr, scope: seq<Slot>, env: seq<Val>, w: World): (res: EvalResult)
    ensures res.EOk? ==> |res.env| == |env|
    decreases e, 1
  {
    match e
    case Const(v) => EOk(Value(v), env, w)
    case Load(p) =>
      (match EvalPlace(pr, p, scope, env, w)
       case PThrow(w1) => EThrow(w1)
       case LocalPlace(r) => EOk(InLocal(r), env, w)
       case FieldPlace(o, k, env1, w1) => Effect1(pr, Prim(GET, 0, o == This), [Deref(o, env1), Deref(k, env1)], env1,
         w1))
    case Unary(op, e1) =>
      (match Eval(pr, e1, scope, env, w)
       case EThrow(w1) => EThrow(w1)
       case EOk(o, env1, w1) =>
         if op == NOT then EOk(Value(Bool(IsFalse(Deref(o, env1)))), env1, w1)
         else Effect1(pr, Prim(op, 0, false), [Deref(o, env1)], env1, w1))
    case Bin(op, imm, l, r) =>
      (match Eval(pr, l, scope, env, w)
       case EThrow(w1) => EThrow(w1)
       case EOk(a, env1, w1) =>
         match Eval(pr, r, scope, env1, w1)
         case EThrow(w2) => EThrow(w2)
         case EOk(b, env2, w2) => EvalBin(pr, op, imm, Deref(a, env2), Deref(b, env2), env2, w2))
    case And(l, r) =>
      (match Eval(pr, l, scope, env, w)
       case EThrow(w1) => EThrow(w1)
       case EOk(a, env1, w1) => if IsFalse(Deref(a, env1)) then EOk(Value(Deref(a, env1)), env1, w1) else EvalValue(pr,
         r, scope, env1, w1))
    case Or(l, r) =>
      (match Eval(pr, l, scope, env, w)
       case EThrow(w1) => EThrow(w1)
       case EOk(a, env1, w1) => if !IsFalse(Deref(a, env1)) then EOk(Value(Deref(a, env1)), env1,
         w1) else EvalValue(pr, r, scope, env1, w1))
    case Cond(c, t, f) =>
      (match Eval(pr, c, scope, env, w)
       case EThrow(w1) => EThrow(w1)
       case EOk(a, env1, w1) => EvalValue(pr, if IsFalse(Deref(a, env1)) then f else t, scope, env1, w1))
    case Assign(p, e1) =>
      (match EvalPlace(pr, p, scope, env, w)
       case PThrow(w1) => EThrow(w1)
       case LocalPlace(r) =>
         (match Eval(pr, e1, scope, env, w)
          case EThrow(w1) => EThrow(w1)
          case EOk(a, env1, w1) => EOk(InLocal(r), SetLocal(env1, r, Deref(a, env1)), w1))
       case FieldPlace(o, k, env1, w1) =>
         match Eval(pr, e1, scope, env1, w1)
         case EThrow(w2) => EThrow(w2)
         case EOk(a, env2, w2) =>
           match pr.apply(Prim(SET, 0, o == This), [Deref(o, env2), Deref(k, env2), Deref(a, env2)], w2)
           case Threw(w3) => EThrow(w3)
           case Done(_, w3) => EOk(Value(Deref(a, env2)), env2, w3))
    case OpAssign(op, p, e1) =>
      (match EvalPlace(pr, p, scope, env, w)
       case PThrow(w1) => EThrow(w1)
       case LocalPlace(r) =>
         (match Eval(pr, e1, scope, env, w)
          case EThrow(w1) => EThrow(w1)
          case EOk(a, env1, w1) =>
            match pr.apply(Prim(op, 0, false), [Deref(InLocal(r), env1), Deref(a, env1)], w1)
            case Threw(w2) => EThrow(w2)
            case Done(v, w2) => EOk(InLocal(r), SetLocal(env1, r, v), w2))
       case FieldPlace(o, k, env1, w1) =>
         match Eval(pr, e1, scope, env1, w1)
         case EThrow(w2) => EThrow(w2)
         case EOk(a, env2, w2) =>
           Effect1(pr, Prim(COMPARITH, OpChar(op), o == This), [Deref(o, env2), Deref(k, env2), Deref(a, env2)], env2,
             w2))
    case IncDec(post, diff, p) =>
      (match EvalPlace(pr, p, scope, env, w)
       case PThrow(w1) => EThrow(w1)
       case LocalPlace(r) =>
         (match pr.apply(Prim(ADD, 0, false), [Deref(InLocal(r), env), Int(diff)], w)
          case Threw(w1) => EThrow(w1)
          case Done(v, w1) => EOk(if post then Value(Deref(InLocal(r), env)) else InLocal(r), SetLocal(env, r, v), w1))
       case FieldPlace(o, k, env1, w1) =>
         Effect1(pr, Prim(if post then PINC else INC, diff, o == This), [Deref(o, env1), Deref(k, env1)], env1, w1))
    case Array(es) =>
      (match pr.apply(Prim(NEWOBJ, NOT_ARRAY, false), [], w)
       case Threw(w1) => EThrow(w1)
       case Done(arr, w1) => EvalElements(pr, es, arr, scope, env, w1))
    case Invoke(p, args) =>
      (match EvalPlace(pr, p, scope, env, w)
       case PThrow(w1) => EThrow(w1)
       case LocalPlace(r) => EvalCall(pr, InLocal(r), Deref(This, env), args, scope, env, w)
       case FieldPlace(o, k, env1, w1) =>
         match pr.apply(Prim(GET, 0, o == This), [Deref(o, env1), Deref(k, env1)], w1)
         case Threw(w2) => EThrow(w2)
         case Done(m, w2) => EvalCall(pr, Value(m), Deref(o, env1), args, scope, env1, w2))
    case CallValue(f, args) =>
      (match Eval(pr, f, scope, env, w)
       case EThrow(w1) => EThrow(w1)
       case EOk(a, env1, w1) => EvalCall(pr, a, Deref(This, env1), args, scope, env1, w1))
  }

  /** The value of `e`, read at once. */
  function EvalValue(pr: Prims, e: Expr, scope: seq<Slot>, env: seq<Val>, w: World): (res: EvalResult)
    ensures res.EOk? ==> |res.env| == |env|
    decreases e, 2
  {
    match Eval(pr, e, scope, env, w)
    case EThrow(w1) => EThrow(w1)
    case EOk(a, env1, w1) => EOk(Value(Deref(a, env1)), env1, w1)
  }

  /** A name that is no local variable is a field of `this`. */
  function EvalPlace(pr: Prims, p: Place, scope: seq<Slot>, env: seq<Val>, w: World): (res: PlaceResult)
    ensures res.FieldPlace? ==> |res.env| == |env|
    decreases p, 1
  {
    match p
    case Name(x) =>
      if Lookup(scope, x) >= 0 then LocalPlace(Lookup(scope, x)) else FieldPlace(This, Value(Str(x)), env, w)
    case Field(o, k) =>
      match Eval(pr, o, scope, env, w)
      case EThrow(w1) => PThrow(w1)
      case EOk(a, env1, w1) =>
        match Eval(pr, k, scope, env1, w1)
        case EThrow(w2) => PThrow(w2)
        case EOk(b, env2, w2) => FieldPlace(a, b, env2, w2)
  }

  /** Append each element as soon as it is computed. */
  function EvalElements(pr: Prims, es: seq<Expr>, arr: Val, scope: seq<Slot>, env: seq<Val>,
      w: World): (res: EvalResult)
    ensures res.EOk? ==> |res.env| == |env|
    decreases es, 0
  {
    if es == [] then EOk(Value(arr), env, w)
    else
      match Eval(pr, es[0], scope, env, w)
      case EThrow(w1) => EThrow(w1)
      case EOk(a, env1, w1) =>
        match pr.apply(Prim(APPENDARRAY, 0, false), [arr, Deref(a, env1)], w1)
        case Threw(w2) => EThrow(w2)
        case Done(_, w2) => EvalElements(pr, es[1..], arr, scope, env1, w2)
  }

  /** Arguments are values, in order; the function is read last. */
  function EvalCall(pr: Prims, f: Operand, self: Val, args: seq<Expr>, scope: seq<Slot>, env: seq<Val>,
      w: World): (res: EvalResult)
    ensures res.EOk? ==> |res.env| == |env|
    decreases args, 1
  {
    match EvalArgs(pr, args, scope, env, w)
    case AThrow(w1) => EThrow(w1)
    case AOk(vs, env1, w1) =>
      match pr.call(Deref(f, env1), [self] + vs, w1)
      case CallThrew(w2) => EThrow(w2)
      case Returns(v, w2, _) => EOk(Value(v), env1, w2)
  }

  function EvalArgs(pr: Prims, args: seq<Expr>, scope: seq<Slot>, env: seq<Val>, w: World): (res: ArgsResult)
    ensures res.AOk? ==> |res.env| == |env| && |res.vs| == |args|
    decreases args, 0
  {
    if args == [] then AOk([], env, w)
    else
      match Eval(pr, args[0], scope, env, w)
      case EThrow(w1) => AThrow(w1)
      case EOk(a, env1, w1) =>
        match EvalArgs(pr, args[1..], scope, env1, w1)
        case AThrow(w2) => AThrow(w2)
        case AOk(vs, env2, w2) => AOk([Deref(a, env1)] + vs, env2, w2)
  }

  // --- meaning of statements

  /** `Timeout` is not an outcome of a program: it says that the fuel, which bounds the iterations of
      every loop, did not suffice. */
  datatype Flow =
    | Fell(env: seq<Val>, w: World)
    | Broke(env: seq<Val>, w: World)
    | Continued(env: seq<Val>, w: World)
    | Left(v: Val, w: World)
    | Thrown(w: World)
    | Timeout

  function ScopeAfter(s: Stmt, scope: seq<Slot>): seq<Slot> {
    if s.VarDecl? then scope + [Named(s.name)] else scope
  }

  function Cut(env: seq<Val>, n: nat): seq<Val> {
    if |env| > n then env[..n] else env
  }

  predicate HasEnv(f: Flow) {
    f.Fell? || f.Broke? || f.Continued?
  }

  function Exec(pr: Prims, s: Stmt, scope: seq<Slot>, env: seq<Val>, w: World, fuel: nat): (res: Flow)
    requires |env| == |scope|
    ensures res.Fell? ==> |res.env| == |ScopeAfter(s, scope)|
    ensures HasEnv(res) ==> |res.env| >= |scope|
    decreases fuel, s, 1
  {
    match s
    case Empty => Fell(env, w)
    case ExprStmt(e) =>
      (match Eval(pr, e, scope, env, w)
       case EThrow(w1) => Thrown(w1)
       case EOk(_, env1, w1) => Fell(env1, w1))
    case VarDecl(x, init) =>
      if init.None? then Fell(env + [Null], w)
      else
        (match Eval(pr, init.value, scope, env, w)
         case EThrow(w1) => Thrown(w1)
         case EOk(a, env1, w1) => Fell(env1 + [Deref(a, env1)], w1))
    case Block(ss) =>
      (match ExecAll(pr, ss, scope, env, w, fuel)
       case Fell(env1, w1) => Fell(Cut(env1, |scope|), w1)
       case res => res)
    case If(c, t, f) =>
      (match Eval(pr, c, scope, env, w)
       case EThrow(w1) => Thrown(w1)
       case EOk(a, env1, w1) =>
         if !IsFalse(Deref(a, env1)) then Scoped(Exec(pr, t, scope, env1, w1, fuel), |scope|)
         else if f.Some? then Scoped(Exec(pr, f.value, scope, env1, w1, fuel), |scope|)
         else Fell(env1, w1))
    case While(c, b) =>
      if fuel == 0 then Timeout
      else
        (match Eval(pr, c, scope, env, w)
         case EThrow(w1) => Thrown(w1)
         case EOk(a, env1, w1) =>
           if IsFalse(Deref(a, env1)) then Fell(env1, w1)
           else
             match Exec(pr, b, scope, env1, w1, fuel)
             case Broke(env2, w2) => Fell(Cut(env2, |scope|), w2)
             case Left(v, w2) => Left(v, w2)
             case Thrown(w2) => Thrown(w2)
             case Timeout => Timeout
             case res => Exec(pr, s, scope, Cut(res.env, |scope|), res.w, fuel - 1))
    case DoWhile(b, c) =>
      if fuel == 0 then Timeout
      else
        (match Exec(pr, b, scope, env, w, fuel)
         case Broke(env1, w1) => Fell(Cut(env1, |scope|), w1)
         case Left(v, w1) => Left(v, w1)
         case Thrown(w1) => Thrown(w1)
         case Timeout => Timeout
         case res =>
           match Eval(pr, c, scope, Cut(res.env, |scope|), res.w)
           case EThrow(w2) => Thrown(w2)
           case EOk(a, env2, w2) =>
             if IsFalse(Deref(a, env2)) then Fell(env2, w2) else Exec(pr, s, scope, env2, w2, fuel - 1))
    case Break => Broke(env, w)
    case Continue => Continued(env, w)
    case Return(result) =>
      if result.None? then Left(Null, w)
      else
        match Eval(pr, result.value, scope, env, w)
        case EThrow(w1) => Thrown(w1)
        case EOk(a, env1, w1) => Left(Deref(a, env1), w1)
  }

  /** Variables declared inside go out of scope on falling out. */
  function Scoped(f: Flow, n: nat): Flow {
    if f.Fell? then Fell(Cut(f.env, n), f.w) else f
  }

  function ExecAll(pr: Prims, ss: seq<Stmt>, scope: seq<Slot>, env: seq<Val>, w: World, fuel: nat): (res: Flow)
    requires |env| == |scope|
    ensures HasEnv(res) ==> |res.env| >= |scope|
    decreases fuel, ss, 0
  {
    if ss == [] then Fell(env, w)
    else
      match Exec(pr, ss[0], scope, env, w, fuel)
      case Fell(env1, w1) => ExecAll(pr, ss[1..], ScopeAfter(ss[0], scope), env1, w1, fuel)
      case res => res
  }
}
