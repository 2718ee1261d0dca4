/** What the configuration grammar means, independently of the parser's tables: concrete syntax trees with
    the usual precedence (`+ -` below `* /` below the prefix operators, all left-associative), the tokens
    they stand for, and the configuration their statements build up. */
module ConfGrammar {
  import opened Basics
  import opened SensorExpr
  import opened ConfParse

  /** Expressions as written, parentheses included. */
  datatype Cst =
    | Num(value: real)
    | Id(name: string)
    | AtSign
    | Bin(op: BinOp, left: Cst, right: Cst)
    | Pre(uop: UnOp, arg: Cst)
    | Paren(inner: Cst)

  function BinToken(op: BinOp): Token {
    match op
    case Add => TPlus
    case Subtract => TMinus
    case Multiply => TTimes
    case Divide => TSlash
  }

  function PreToken(op: UnOp): Token {
    match op
    case Negate => TMinus
    case Exp => TCaret
    case Log => TBackquote
  }

  function Yield(c: Cst): (r: seq<Token>)
    ensures r != []
  {
    match c
    case Num(v) => [TFloat(v)]
    case Id(name) => [TName(name)]
    case AtSign => [TAt]
    case Bin(op, l, r) => Yield(l) + ([BinToken(op)] + Yield(r))
    case Pre(op, e) => [PreToken(op)] + Yield(e)
    case Paren(e) => [TOpen] + (Yield(e) + [TClose])
  }

  function Erase(c: Cst): Expr {
    match c
    case Num(v) => Val(v)
    case Id(name) => Var(name)
    case AtSign => Source
    case Bin(op, l, r) => Binary(op, Erase(l), Erase(r))
    case Pre(op, e) => Unary(op, Erase(e))
    case Paren(e) => Erase(e)
  }

  function OpLevel(op: BinOp): nat {
    if op == Add || op == Subtract then 0 else 1
  }

  /** How tightly an expression binds: 0 for sums, 1 for products, 2 for the rest. */
  function Level(c: Cst): nat {
    match c
    case Bin(op, _, _) => OpLevel(op)
    case _ => 2
  }

  /** Operands bind as tightly as their place requires. */
  predicate Wf(c: Cst) {
    match c
    case Bin(op, l, r) => Wf(l) && Wf(r) && OpLevel(op) <= Level(l) && OpLevel(op) < Level(r)
    case Pre(_, e) => Wf(e) && Level(e) == 2
    case Paren(e) => Wf(e)
    case _ => true
  }

  /** The most stack entries an expression takes while it is parsed. */
  function Peak(c: Cst): (p: nat)
    ensures p > 0
  {
    match c
    case Bin(_, l, r) => if Peak(l) < 2 + Peak(r) then 2 + Peak(r) else Peak(l)
    case Pre(_, e) => 1 + Peak(e)
    case Paren(e) => if 1 + Peak(e) < 3 then 3 else 1 + Peak(e)
    case _ => 1
  }

  datatype Stmt =
    | BusStmt(bus: string, adapter: string)
    | LabelStmt(name: string, text: string)
    | SetStmt(name: string, value: Cst)
    | ComputeStmt(name: string, fromProc: Cst, toProc: Cst)
    | IgnoreStmt(name: string)
    | ChipStmt(names: seq<string>)

  function NameTokens(names: seq<string>): seq<Token> {
    if names == [] then [] else NameTokens(names[..|names| - 1]) + [TName(names[|names| - 1])]
  }

  function YieldBody(s: Stmt): seq<Token> {
    match s
    case BusStmt(bus, adapter) => [TBus, TName(bus), TName(adapter)]
    case LabelStmt(name, text) => [TLabel, TName(name), TName(text)]
    case SetStmt(name, value) => [TSet, TName(name)] + Yield(value)
    case ComputeStmt(name, f, t) => [TCompute, TName(name)] + (Yield(f) + ([TComma] + Yield(t)))
    case IgnoreStmt(name) => [TIgnore, TName(name)]
    case ChipStmt(names) => [TChip] + NameTokens(names)
  }

  predicate WfStmt(s: Stmt) {
    match s
    case SetStmt(_, value) => Wf(value)
    case ComputeStmt(_, f, t) => Wf(f) && Wf(t)
    case ChipStmt(names) => names != []
    case _ => true
  }

  /** What a statement does to the configuration; None if it stands before the first chip section. */
  function Exec(c: Config, s: Stmt): Option<Config> {
    match s
    case BusStmt(bus, adapter) => Some(AddBus(c, bus, adapter))
    case LabelStmt(name, text) => AddLabel(c, name, text)
    case SetStmt(name, value) => AddSet(c, name, Erase(value))
    case ComputeStmt(name, f, t) => AddCompute(c, name, Erase(f), Erase(t))
    case IgnoreStmt(name) => AddIgnore(c, name)
    case ChipStmt(names) => Some(AddChip(c, names))
  }

  /** A file is its statements, each ended by an end of line. */
  function YieldAll(ss: seq<Stmt>): seq<Token> {
    if ss == [] then [] else YieldAll(ss[..|ss| - 1]) + (YieldBody(ss[|ss| - 1]) + [TEol])
  }

  predicate WfAll(ss: seq<Stmt>) {
    forall i | 0 <= i < |ss| :: WfStmt(ss[i])
  }

  function ExecAll(ss: seq<Stmt>): Option<Config> {
    if ss == [] then Some(Config([], []))
    else
      match ExecAll(ss[..|ss| - 1])
      case None => None
      case Some(c) => Exec(c, ss[|ss| - 1])
  }

  // ----- printing with as few parentheses as possible

  /** The expression as a tree that fits where `level` is required, with parentheses only where needed. */
  function Minimal(e: Expr, level: nat): Cst
    requires level <= 2
    decreases e
  {
    match e
    case Val(v) => Num(v)
    case Var(name) => Id(name)
    case Source => AtSign
    case Binary(op, l, r) =>
      var c := Bin(op, Minimal(l, OpLevel(op)), Minimal(r, OpLevel(op) + 1));
      if OpLevel(op) < level then Paren(c) else c
    case Unary(op, sub) => Pre(op, Minimal(sub, 2))
  }

  lemma {:induction false} MinimalIsWf(e: Expr, level: nat)
    requires level <= 2
    ensures Wf(Minimal(e, level)) && level <= Level(Minimal(e, level)) && Erase(Minimal(e, level)) == e
    decreases e
  {
    match e
    case Binary(op, l, r) =>
      MinimalIsWf(l, OpLevel(op));
      MinimalIsWf(r, OpLevel(op) + 1);
    case Unary(_, sub) =>
      MinimalIsWf(sub, 2);
    case _ =>
  }

  /** How the operators are written. */
  lemma OperatorsAsWritten(a: real, b: real)
    ensures var x, y := Val(a), Val(b);
            && Yield(Minimal(Binary(Add, x, y), 0)) == [TFloat(a), TPlus, TFloat(b)]
            && Yield(Minimal(Binary(Subtract, x, y), 0)) == [TFloat(a), TMinus, TFloat(b)]
            && Yield(Minimal(Binary(Multiply, x, y), 0)) == [TFloat(a), TTimes, TFloat(b)]
            && Yield(Minimal(Binary(Divide, x, y), 0)) == [TFloat(a), TSlash, TFloat(b)]
            && Yield(Minimal(Unary(Negate, x), 0)) == [TMinus, TFloat(a)]
            && Yield(Minimal(Unary(Exp, x), 0)) == [TCaret, TFloat(a)]
            && Yield(Minimal(Unary(Log, x), 0)) == [TBackquote, TFloat(a)]
            && Yield(Minimal(Source, 0)) == [TAt]
  {
  }
}
