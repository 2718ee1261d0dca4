/** What the parser accepts, the grammar has: the invariant of all error-free runs of the table-driven
    parser. Every stack entry stands for a grammar symbol whose tokens have been consumed, every reduction
    finds just its rule's right-hand side on top, and the precedence of operators is kept. */
module ConfSound {
  import opened Basics
  import opened ConfTables
  import opened SensorExpr
  import opened ConfParse
  import opened ConfGrammar
  import opened ConfComplete

  /** What a stack entry stands for. */
  datatype Sym =
    | SInput(ss: seq<Stmt>)
    | SLine(line: Stmt)
    | SStmt(stmt: Stmt)
    | SNames(names: seq<string>)
    | SExpr(cst: Cst)
    | SName(symbol: int, text: string)
    | STok(token: Token)
    | SEof

  function StmtSymbol(s: Stmt): int {
    match s
    case BusStmt(_, _) => 27
    case LabelStmt(_, _) => 28
    case SetStmt(_, _) => 29
    case ComputeStmt(_, _, _) => 30
    case IgnoreStmt(_) => 31
    case ChipStmt(_) => 32
  }

  function SymNumber(s: Sym): int {
    match s
    case SInput(_) => 25
    case SLine(_) => 26
    case SStmt(stmt) => StmtSymbol(stmt)
    case SNames(_) => 33
    case SExpr(_) => 34
    case SName(symbol, _) => symbol
    case STok(t) => Number(t)
    case SEof => 0
  }

  function SymValue(s: Sym): Value {
    match s
    case SNames(names) => Names(names)
    case SExpr(c) => Tree(Erase(c))
    case SName(_, text) => Text(text)
    case STok(t) => TokenValue(t)
    case _ => Nothing
  }

  predicate WfSym(s: Sym) {
    match s
    case SInput(ss) => WfAll(ss)
    case SLine(stmt) => WfStmt(stmt)
    case SStmt(stmt) => WfStmt(stmt)
    case SNames(names) => names != []
    case SExpr(c) => Wf(c)
    case SName(symbol, _) => 35 <= symbol <= 39
    case _ => true
  }

  function SymYield(s: Sym): seq<Token> {
    match s
    case SInput(ss) => YieldAll(ss)
    case SLine(stmt) => YieldBody(stmt) + [TEol]
    case SStmt(stmt) => YieldBody(stmt)
    case SNames(names) => NameTokens(names)
    case SExpr(c) => Yield(c)
    case SName(_, text) => [TName(text)]
    case STok(t) => [t]
    case SEof => []
  }

  /** The statements whose actions have been performed. */
  function SymStmts(s: Sym): seq<Stmt> {
    match s
    case SInput(ss) => ss
    case SLine(stmt) => [stmt]
    case SStmt(stmt) => [stmt]
    case _ => []
  }

  /** What the entries of a stack stand for, in step with them. */
  datatype Notes = Blank | Note(below: Notes, sym: Sym)

  function Words(ns: Notes): seq<Token> {
    if ns.Blank? then [] else Words(ns.below) + SymYield(ns.sym)
  }

  function Performed(ns: Notes): seq<Stmt> {
    if ns.Blank? then [] else Performed(ns.below) + SymStmts(ns.sym)
  }

  /** Which state may stand directly above which: the edges of the automaton that runs can take. */
  predicate Edge(p: int, q: int) {
    match q
    case 1 => p == 0
    case 2 => p == 1 case 4 => p == 1 case 5 => p == 1 case 6 => p == 1
    case 7 => p == 1 case 8 => p == 1 case 9 => p == 1 case 10 => p == 1
    case 11 => p == 1 case 12 => p == 1 case 13 => p == 1
    case 14 => p == 1 case 15 => p == 1 case 16 => p == 1
    case 18 => p == 4 case 19 => p == 4
    case 20 => p in {5, 6, 8, 9}
    case 21 => p == 5 case 22 => p == 6 case 26 => p == 8 case 27 => p == 9
    case 23 => p in {7, 24}
    case 24 => p == 7 case 25 => p == 7 case 46 => p == 24
    case 28 => p == 11 case 29 => p == 12 case 30 => p == 13
    case 31 => p == 14 case 32 => p == 15 case 33 => p == 16
    case 34 => p == 19 case 35 => p == 19 case 36 => p == 21 case 37 => p == 21
    case 38 => Begins(p) case 39 => Begins(p) case 40 => Begins(p) case 41 => Begins(p)
    case 42 => Begins(p) case 43 => Begins(p) case 44 => Begins(p)
    case 45 => p == 22 case 47 => p == 26 case 48 => p == 38 case 49 => p == 39 case 50 => p == 40
    case 51 => p == 44
    case 52 => p in {45, 47, 51, 62} case 53 => p in {45, 47, 51, 62}
    case 54 => p in {45, 47, 51, 62, 58, 59} case 55 => p in {45, 47, 51, 62, 58, 59}
    case 56 => p == 47 case 57 => p == 51
    case 58 => p == 52 case 59 => p == 53 case 60 => p == 54 case 61 => p == 55 case 62 => p == 56
    case _ => false
  }

  /** Where a state demands that operands bind tightly. */
  predicate Tight(q: int, below: Notes, s: Sym) {
    && (q in {58, 59} && s.SExpr? ==> Level(s.cst) >= 1)
    && (q in {48, 49, 50, 60, 61} && s.SExpr? ==> Level(s.cst) == 2)
    && (q in {54, 55} && below.Note? && below.sym.SExpr? ==> Level(below.sym.cst) >= 1)
  }

  predicate Shape(st: Stack, ns: Notes) {
    match st
    case Bottom => ns.Blank?
    case Push(b, q, v) =>
      && ns.Note?
      && Shape(b, ns.below)
      && Edge(b.State(), q) && YyStos(q) == SymNumber(ns.sym) && v == SymValue(ns.sym)
      && WfSym(ns.sym) && Tight(q, ns.below, ns.sym)
  }

  /** A sum that is complete where any operator may follow is not followed by one that binds tighter. */
  predicate LookAhead(m: Machine, ns: Notes) {
    && (m.stack.State() in {45, 47, 51, 62} && ns.Note? && ns.sym.SExpr? && Level(ns.sym.cst) == 0 ==>
        NextNumber(m.input) != 5 && NextNumber(m.input) != 6)
    && (m.stack.State() == 2 ==> m.input == [])
  }

  /** The machine's stack stands for `ns`, what it has consumed of `tokens` is what `ns` stands for, and its
      configuration is what the statements performed so far build. */
  predicate Sound(tokens: seq<Token>, m: Machine, ns: Notes) {
    && Shape(m.stack, ns)
    && Words(ns) + m.input == tokens
    && ExecAll(Performed(ns)) == Some(m.config)
    && LookAhead(m, ns)
  }

  // ----- termination

  function SymbolWeight(symbol: int): nat {
    if symbol == 0 then 0
    else if symbol < 24 then 4
    else if symbol >= 35 then 3
    else if symbol >= 33 then 2
    else 1
  }

  function Weight(st: Stack): nat {
    if st.Bottom? then 0 else Weight(st.below) + SymbolWeight(YyStos(st.top))
  }

  /** Every step brings the parser closer to its end by this measure. */
  function Measure(m: Machine): nat {
    5 * |m.input| + Weight(m.stack) + (if m.stack.State() == YYFINAL then 0 else 10) + if m.stack.Bottom? then 2 else 0
  }

  // ----- shifting

  /** Reading a row of the table that begins at a given place. */
  lemma ShiftReads(p: int, t: int, q: int)
    requires Decide(p, t) == Shift(q)
    ensures YyPact(p) != -27 && 0 <= YyPact(p) + t <= 58
    ensures YyCheck(YyPact(p) + t) == t && YyTable(YyPact(p) + t) == q
  {
    hide YyPact, YyCheck, YyTable, YyDefAct;
  }

  /** The states whose rows hold entries, by where the rows begin. */
  lemma Rows(p: int)
    requires 0 <= p < 63 && YyPact(p) != -27
    ensures YyPact(p) == 14 <==> Begins(p)
    ensures YyPact(p) == 36 <==> p in {45, 62}
    ensures YyPact(p) == 0 <==> p in {58, 59}
    ensures YyPact(p) == 37 <==> p == 1
    ensures YyPact(p) == 1 <==> p in {5, 6, 8, 9}
    ensures YyPact(p) == 6 <==> p in {7, 24}
    ensures YyPact(p) in {14, 36, 0, 37, 1, 6} || (p == 47 && YyPact(p) == 5) || (p == 51 && YyPact(p) == -2)
         || (p == 3 && YyPact(p) == -4) || (p == 4 && YyPact(p) == -3) || (p == 11 && YyPact(p) == 8)
         || (p == 12 && YyPact(p) == 13) || (p == 13 && YyPact(p) == 20) || (p == 14 && YyPact(p) == 23)
         || (p == 15 && YyPact(p) == 32) || (p == 16 && YyPact(p) == 34) || (p == 19 && YyPact(p) == 29)
         || (p == 21 && YyPact(p) == 39)
  {
  }

  /** The entries of the table that a token can select in a row of several entries. */
  lemma Entries(row: int, t: int)
    requires 0 <= t < 24 && t != 1 && 0 <= row + t <= 58 && YyCheck(row + t) == t
    ensures YyTable(row + t) > 0
    ensures row == 14 ==> YyTable(row + t) in {38, 39, 40, 41, 42, 43, 44} && YyStos(YyTable(row + t)) == t
    ensures row == 36 || row == 5 || row == -2 ==>
      YyTable(row + t) in {52, 53, 54, 55} || (row == 5 && YyTable(row + t) == 56)
          || (row == -2 && YyTable(row + t) == 57)
    ensures row == 36 || row == 5 || row == -2 ==> YyStos(YyTable(row + t)) == t
    ensures row == 0 ==> YyTable(row + t) in {54, 55} && YyStos(YyTable(row + t)) == t
    ensures row == 37 ==> YyTable(row + t) in {2, 4, 5, 6, 7, 8, 9} && YyStos(YyTable(row + t)) == t
  {
  }

  /** The entries of the rows that hold one. */
  lemma OneEntry(row: int, t: int)
    requires 0 <= t < 24 && t != 1 && 0 <= row + t <= 58 && YyCheck(row + t) == t
    ensures row != -4 || t == 11
    ensures row == -3 ==> t == 19 && YyTable(row + t) == 18
    ensures row == 1 ==> t == 19 && YyTable(row + t) == 20
    ensures row == 6 ==> t == 19 && YyTable(row + t) == 23
    ensures row == 29 ==> t == 19 && YyTable(row + t) == 34
    ensures row == 39 ==> t == 19 && YyTable(row + t) == 36
  {
  }

  lemma EolEntry(row: int, t: int)
    requires 0 <= t < 24 && t != 1 && 0 <= row + t <= 58 && YyCheck(row + t) == t
    ensures row == 8 ==> t == 11 && YyTable(row + t) == 28
    ensures row == 13 ==> t == 11 && YyTable(row + t) == 29
    ensures row == 20 ==> t == 11 && YyTable(row + t) == 30
    ensures row == 23 ==> t == 11 && YyTable(row + t) == 31
    ensures row == 32 ==> t == 11 && YyTable(row + t) == 32
    ensures row == 34 ==> t == 11 && YyTable(row + t) == 33
  {
  }

  /** The states in which an operand is complete. */
  predicate Complete(q: int) {
    q in {45, 47, 51, 58, 59, 62}
  }

  /** Every shift the tables allow is along an edge, to a state that its token accesses. */
  lemma ShiftEdge(p: int, t: int, q: int)
    requires 0 <= p < 63 && p != 3 && 0 <= t < 24 && t != 1 && Decide(p, t) == Shift(q)
    ensures Edge(p, q) && YyStos(q) == t && q != 0 && !(q in {58, 59, 48, 49, 50, 60, 61}) && q < 63
    ensures q in {54, 55} ==> Complete(p) && (t == 5 || t == 6)
    ensures q == 2 <==> t == 0
  {
    hide *;
    ShiftReads(p, t, q);
    if YyPact(p) in {14, 36, 0, 37, 5, -2} {
      ShiftMany(p, t, q);
    } else {
      ShiftOne(p, t, q);
    }
  }

  lemma ShiftMany(p: int, t: int, q: int)
    requires 0 <= p < 63 && 0 <= t < 24 && t != 1 && YyPact(p) in {14, 36, 0, 37, 5, -2} && 0 <= YyPact(p) + t <= 58
    requires YyCheck(YyPact(p) + t) == t && YyTable(YyPact(p) + t) == q
    ensures Edge(p, q) && YyStos(q) == t && q != 0 && !(q in {58, 59, 48, 49, 50, 60, 61}) && q < 63
    ensures q in {54, 55} ==> Complete(p) && (t == 5 || t == 6)
    ensures q == 2 <==> t == 0
  {
    Rows(p);
    Entries(YyPact(p), t);
    hide YyPact, YyTable, YyCheck;
  }

  lemma ShiftOne(p: int, t: int, q: int)
    requires 0 <= p < 63 && p != 3 && 0 <= t < 24 && t != 1 && !(YyPact(p) in {-27, 14, 36, 0, 37, 5, -2})
    requires 0 <= YyPact(p) + t <= 58 && YyCheck(YyPact(p) + t) == t && YyTable(YyPact(p) + t) == q
    ensures Edge(p, q) && YyStos(q) == t && q != 0 && !(q in {58, 59, 48, 49, 50, 60, 61}) && q < 63
    ensures q in {54, 55} ==> Complete(p) && (t == 5 || t == 6)
    ensures q == 2 <==> t == 0
  {
    Rows(p);
    OneEntry(YyPact(p), t);
    EolEntry(YyPact(p), t);
    hide YyPact, YyTable, YyCheck;
  }

  lemma PushShape(st: Stack, ns: Notes, q: int, v: Value, sym: Sym)
    requires Shape(st, ns) && Edge(st.State(), q) && YyStos(q) == SymNumber(sym) && v == SymValue(sym)
    requires WfSym(sym) && Tight(q, ns, sym)
    ensures Shape(Push(st, q, v), Note(ns, sym))
  {
    hide Edge, YyStos, SymNumber, SymValue, WfSym, Tight;
  }

  /** The symbol on top of a stack whose top state is accessed by `expression`. */
  lemma TopIsExpr(st: Stack, ns: Notes)
    requires Shape(st, ns) && (Complete(st.State()) || st.State() in {48, 49, 50, 60, 61})
    ensures st.Push? && ns.Note? && ns.sym.SExpr? && Wf(ns.sym.cst) && st.value == Tree(Erase(ns.sym.cst))
    ensures st.State() in {58, 59} ==> Level(ns.sym.cst) >= 1
    ensures st.State() in {48, 49, 50, 60, 61} ==> Level(ns.sym.cst) == 2
    ensures Shape(st.below, ns.below) && Edge(st.below.State(), st.State())
  {
    hide Edge, YyStos, Wf, Erase, Level, WfAll, WfStmt, YieldBody;
    ExprStates(st.State());
    assert ns.Note? && WfSym(ns.sym);
    OnlyExprIs34(ns.sym);
    hide SymNumber;
  }

  lemma ExprStates(q: int)
    requires Complete(q) || q in {48, 49, 50, 60, 61}
    ensures YyStos(q) == 34 && q != 0
  {
  }

  lemma OnlyExprIs34(s: Sym)
    requires WfSym(s)
    ensures SymNumber(s) == 34 ==> s.SExpr?
  {
  }

  /** The token on top of a stack whose top state is accessed by one. */
  lemma TopIsToken(st: Stack, ns: Notes, number: int)
    requires Shape(st, ns) && YyStos(st.State()) == number && 0 < number < 24
    ensures st.Push? && ns.Note? && ns.sym.STok? && Number(ns.sym.token) == number
        && st.value == TokenValue(ns.sym.token)
    ensures Shape(st.below, ns.below) && Edge(st.below.State(), st.State())
  {
    assert YyStos(0) == 0;
    hide Edge, YyStos, Wf, Erase, Level, WfAll, WfStmt;
  }

  lemma ShiftTight(m: Machine, ns: Notes, q: int, sym: Sym)
    requires Shape(m.stack, ns) && LookAhead(m, ns) && !sym.SExpr?
    requires q in {54, 55} ==> Complete(m.stack.State()) && NextNumber(m.input) in {5, 6}
    ensures Tight(q, ns, sym)
  {
    if q in {54, 55} {
      TopIsExpr(m.stack, ns);
    }
    hide Shape, NextNumber;
  }

  function ShiftedSym(input: seq<Token>): Sym {
    if input == [] then SEof else STok(input[0])
  }

  lemma ShiftWords(tokens: seq<Token>, m: Machine, ns: Notes, q: int)
    requires Words(ns) + m.input == tokens
    ensures var ns' := Note(ns, ShiftedSym(m.input));
            && DoShift(m, q).Running?
            && Words(ns') + DoShift(m, q).machine.input == tokens
            && Performed(ns') == Performed(ns)
            && ShiftedSym(m.input).SExpr? == false
            && SymNumber(ShiftedSym(m.input)) == NextNumber(m.input)
            && DoShift(m, q).machine.stack == Push(m.stack, q, SymValue(ShiftedSym(m.input)))
            && DoShift(m, q).machine.config == m.config
            && DoShift(m, q).machine.input == (if m.input == [] then [] else m.input[1..])
  {
    if m.input != [] {
      assert [m.input[0]] + m.input[1..] == m.input;
      Associate(Words(ns), [m.input[0]], m.input[1..]);
    }
  }

  lemma ShiftMeasure(m: Machine, q: int)
    requires m.stack.State() != YYFINAL && YyStos(q) == NextNumber(m.input) && (q == 2 <==> m.input == [])
    ensures DoShift(m, q).Running? && Measure(DoShift(m, q).machine) < Measure(m)
  {
    TokenRange(m.input);
    hide YyStos, NextNumber;
  }

  lemma ShiftKeeps(tokens: seq<Token>, m: Machine, ns: Notes, q: int) returns (ns': Notes)
    requires Sound(tokens, m, ns) && m.stack.State() != YYFINAL
    requires Decide(m.stack.State(), NextNumber(m.input)) == Shift(q)
    ensures DoShift(m, q).Running? && Sound(tokens, DoShift(m, q).machine, ns')
    ensures Measure(DoShift(m, q).machine) < Measure(m)
  {
    StateRange(m.stack, ns);
    TokenRange(m.input);
    hide Edge, Shape, YyStos, Decide, Tight, DoShift, ExecAll, Words, Performed, NextNumber, Measure, SymNumber,
      SymValue, ShiftedSym;
    ShiftEdge(m.stack.State(), NextNumber(m.input), q);
    var sym := ShiftedSym(m.input);
    ShiftWords(tokens, m, ns, q);
    ShiftMeasure(m, q);
    ShiftTight(m, ns, q, sym);
    assert WfSym(sym) by { ShiftedIsWf(m.input); }
    PushShape(m.stack, ns, q, SymValue(sym), sym);
    ns' := Note(ns, sym);
  }

  lemma ShiftedIsWf(input: seq<Token>)
    ensures WfSym(ShiftedSym(input))
  {
  }

  lemma StateRange(st: Stack, ns: Notes)
    requires Shape(st, ns)
    ensures 0 <= st.State() < 63 && st.State() != 3
  {
    if st.Push? {
      EdgeRange(st.below.State(), st.top);
    }
    hide Edge, YyStos, SymNumber, SymValue, WfSym, Tight;
  }

  lemma EdgeRange(p: int, q: int)
    requires Edge(p, q)
    ensures 0 < q < 63 && q != 3
  {
  }

  // ----- reducing

  /** Reductions come only from the default of a state, and a sum waits for a product. */
  lemma ReduceReads(p: int, t: int, r: int)
    requires 0 <= t < 24 && t != 1 && Decide(p, t) == Reduce(r)
    ensures r == YyDefAct(p) && r != 0
    ensures p in {58, 59} ==> t != 5 && t != 6
  {
    if YyPact(p) != -27 && 0 <= YyPact(p) + t <= 58 && YyCheck(YyPact(p) + t) == t {
      Entries(YyPact(p), t);
    }
    if p in {58, 59} {
      assert YyPact(p) == 0 && YyCheck(5) == 5 && YyCheck(6) == 6;
    }
    hide YyPact, YyCheck, YyTable, YyDefAct;
  }

  /** One entry of a stack that stands for something. */
  lemma Top(st: Stack, ns: Notes)
    requires Shape(st, ns) && st.State() != 0
    ensures st.Push? && ns.Note? && Shape(st.below, ns.below) && Edge(st.below.State(), st.top)
    ensures YyStos(st.top) == SymNumber(ns.sym) && st.value == SymValue(ns.sym)
    ensures WfSym(ns.sym) && Tight(st.top, ns.below, ns.sym)
  {
    hide Edge, YyStos, SymNumber, SymValue, WfSym, Tight;
  }

  /** What a symbol's number says about it. */
  lemma Kind(s: Sym)
    requires WfSym(s)
    ensures SymNumber(s) == 25 <==> s.SInput?
    ensures SymNumber(s) == 26 <==> s.SLine?
    ensures 27 <= SymNumber(s) <= 32 <==> s.SStmt?
    ensures SymNumber(s) == 33 <==> s.SNames?
    ensures SymNumber(s) == 34 <==> s.SExpr?
    ensures 35 <= SymNumber(s) <= 39 <==> s.SName?
    ensures 0 < SymNumber(s) < 24 <==> s.STok?
    ensures s.STok? ==> SymNumber(s) == Number(s.token)
  {
  }

  /** A reduction keeps the invariant and makes progress. */
  predicate KeepsSound(tokens: seq<Token>, m: Machine, rule: int, ns': Notes) {
    DoReduce(m, rule).Running? ==>
      Sound(tokens, DoReduce(m, rule).machine, ns') && Measure(DoReduce(m, rule).machine) < Measure(m)
  }

  /** A reduction that finds its right-hand side on top, the lower rest of the stack standing for `nb`. */
  lemma ReduceKeeps(tokens: seq<Token>, m: Machine, ns: Notes, rule: int, len: nat, below: Stack, nb: Notes, sym: Sym,
      q: int)
    requires Words(ns) + m.input == tokens && m.stack.State() != YYFINAL
    requires YyR2(rule) == len && m.stack.Pop(len) == below && Shape(below, nb)
    requires Words(ns) == Words(nb) + SymYield(sym)
    requires Effect(m.stack, rule, m.config) == ExecAll(Performed(nb) + SymStmts(sym))
    requires Reduced(m.stack, rule) == SymValue(sym) && WfSym(sym)
    requires q == GoTo(below.State(), YyR1(rule)) && q != YYFINAL
    requires Edge(below.State(), q) && YyStos(q) == SymNumber(sym) && Tight(q, nb, sym)
    requires q in {45, 47, 51, 62} && sym.SExpr? && Level(sym.cst) == 0
        ==> NextNumber(m.input) != 5 && NextNumber(m.input) != 6
    requires Weight(m.stack) + (if m.stack.Bottom? then 2 else 0) > Weight(below) + SymbolWeight(SymNumber(sym))
    ensures KeepsSound(tokens, m, rule, Note(nb, sym))
  {
    hide Edge, YyStos, SymNumber, SymValue, WfSym, Tight, GoTo, YyR1, YyR2, Effect, Reduced, ExecAll, SymYield,
      SymStmts, Level, NextNumber, Stack.Pop, SymbolWeight;
    PushShape(below, nb, q, SymValue(sym), sym);
    hide Shape;
  }

  // expressions

  lemma AfterExpr(q: int)
    requires Begins(q)
    ensures GoTo(q, 34) in {45, 47, 48, 49, 50, 51, 58, 59, 60, 61, 62}
    ensures Edge(q, GoTo(q, 34)) && YyStos(GoTo(q, 34)) == 34
    ensures forall g | Edge(q, g) && YyStos(g) == 34 :: g == GoTo(q, 34)
  {
  }

  /** The three entries of a binary expression, top first. */
  lemma BinEntries(st: Stack, ns: Notes)
    requires Shape(st, ns) && st.State() in {58, 59, 60, 61}
    ensures st.Push? && st.below.Push? && st.below.below.Push?
    ensures ns.Note? && ns.below.Note? && ns.below.below.Note?
    ensures ns.sym.SExpr? && ns.below.sym.STok? && ns.below.below.sym.SExpr?
    ensures var l, t, r := ns.below.below.sym.cst, ns.below.sym.token, ns.sym.cst;
            && Wf(l) && Wf(r) && Shape(st.below.below.below, ns.below.below.below)
            && st.value == Tree(Erase(r)) && st.below.below.value == Tree(Erase(l))
            && Number(t) == st.State() - 55
            && (if st.State() in {58, 59} then Level(r) >= 1 else Level(r) == 2 && Level(l) >= 1)
            && Complete(st.below.below.State()) && Edge(st.below.below.below.State(), st.below.below.State())
            && (st.below.below.State() in {58, 59} ==> st.State() in {60, 61})
            && st.below.State() == st.State() - 6
  {
    hide *;
    CompleteStates();
    TopIsExpr(st, ns);
    BinEdges(st.below.State(), st.State());
    var p := st.below.State();
    TopIsToken(st.below, ns.below, p - 49);
    var q := st.below.below.State();
    OperatorEdges(q, p);
    TopIsExpr(st.below.below, ns.below.below);
    OneDown(st.below, ns.below);
    TightLeft(p, ns.below.below, ns.below.sym);
  }

  lemma TightLeft(p: int, below: Notes, s: Sym)
    requires Tight(p, below, s)
    ensures p in {54, 55} && below.Note? && below.sym.SExpr? ==> Level(below.sym.cst) >= 1
  {
    hide Level;
  }

  lemma BinEdges(p: int, q: int)
    requires Edge(p, q) && q in {58, 59, 60, 61}
    ensures p == q - 6 && YyStos(p) == p - 49
  {
  }

  lemma OperatorEdges(q: int, p: int)
    requires Edge(q, p) && p in {52, 53, 54, 55}
    ensures Complete(q) && (q in {58, 59} ==> p in {54, 55})
  {
  }

  function OpOf(state: int): BinOp {
    match state case 58 => Subtract case 59 => Add case 60 => Multiply case _ => Divide
  }

  /** The words and statements of the three top entries. */
  lemma ThreeNotes(ns: Notes)
    requires ns.Note? && ns.below.Note? && ns.below.below.Note?
    ensures var nb := ns.below.below.below;
            && Words(ns) == Words(nb) + SymYield(ns.below.below.sym) + SymYield(ns.below.sym) + SymYield(ns.sym)
            && Performed(ns) == Performed(nb) + SymStmts(ns.below.below.sym) + SymStmts(ns.below.sym) + SymStmts(ns.sym)
  {
    hide SymYield, SymStmts;
    assert Words(ns.below) == Words(ns.below.below) + SymYield(ns.below.sym);
    assert Performed(ns.below) == Performed(ns.below.below) + SymStmts(ns.below.sym);
  }

  lemma ThreeWeights(st: Stack)
    requires st.Push? && st.below.Push? && st.below.below.Push?
    ensures var b := st.below.below.below;
            Weight(st) == Weight(b) + SymbolWeight(YyStos(st.below.below.top)) + SymbolWeight(YyStos(st.below.top))
                        + SymbolWeight(YyStos(st.top))
  {
    hide YyStos, SymbolWeight;
    assert Weight(st.below) == Weight(st.below.below) + SymbolWeight(YyStos(st.below.top));
  }

  lemma BinReduced(st: Stack, l: Cst, r: Cst)
    requires st.State() in {58, 59, 60, 61} && st.Push? && st.below.Push? && st.below.below.Push?
    requires st.value == Tree(Erase(r)) && st.below.below.value == Tree(Erase(l))
    ensures var rule := YyDefAct(st.State());
            && YyR2(rule) == 3 && YyR1(rule) == 34 && 22 <= rule <= 25
            && Reduced(st, rule) == Tree(Erase(Bin(OpOf(st.State()), l, r)))
    ensures st.Pop(3) == st.below.below.below
  {
    var st1, st2 := st.below, st.below.below;
    TopThree(st2.below, st2.top, st2.value, st1.top, st1.value, st.top, st.value);
    hide Stack.Pop, Stack.Peek;
  }

  lemma BinFacts(st: Stack, ns: Notes)
    requires Shape(st, ns) && st.State() in {58, 59, 60, 61}
    ensures st.Push? && st.below.Push? && st.below.below.Push?
    ensures ns.Note? && ns.below.Note? && ns.below.below.Note? && ns.sym.SExpr? && ns.below.below.sym.SExpr?
    ensures var c := Bin(OpOf(st.State()), ns.below.below.sym.cst, ns.sym.cst);
            && Wf(c) && Words(ns) == Words(ns.below.below.below) + Yield(c)
            && Performed(ns) == Performed(ns.below.below.below)
            && Reduced(st, YyDefAct(st.State())) == Tree(Erase(c))
    ensures var rule := YyDefAct(st.State()); YyR2(rule) == 3 && YyR1(rule) == 34 && 22 <= rule <= 25
    ensures st.Pop(3) == st.below.below.below
    ensures Weight(st) > Weight(st.below.below.below) + 2
  {
    hide Shape, Edge, Erase, Yield, Reduced, Stack.Pop, Words, Performed, YyDefAct, YyR1, YyR2, Weight, YyStos;
    BinEntries(st, ns);
    var l, t, r := ns.below.below.sym.cst, ns.below.sym.token, ns.sym.cst;
    ThreeNotes(ns);
    ThreeWeights(st);
    BinReduced(st, l, r);
    var nb := ns.below.below.below;
    assert Performed(nb) + [] + [] + [] == Performed(nb);
    BinWords(Words(nb), l, t, r, OpOf(st.State()));
    BinWeight(st);
  }

  lemma BinWeight(st: Stack)
    requires st.Push? && st.below.Push? && st.below.below.Push?
    requires st.State() in {58, 59, 60, 61} && st.below.State() == st.State() - 6 && Complete(st.below.below.State())
    ensures SymbolWeight(YyStos(st.below.below.top)) == SymbolWeight(YyStos(st.top)) == 2
    ensures SymbolWeight(YyStos(st.below.top)) == 4
  {
    ExprStates(st.State());
    ExprStates(st.below.below.State());
    assert YyStos(st.below.top) == st.below.top - 49;
  }

  lemma BinWords(w: seq<Token>, l: Cst, t: Token, r: Cst, op: BinOp)
    requires t == BinToken(op)
    ensures w + Yield(l) + [t] + Yield(r) == w + Yield(Bin(op, l, r))
  {
    Associate(w, Yield(l), [t] + Yield(r));
    Associate(w + Yield(l), [t], Yield(r));
  }

  lemma BinKeeps(tokens: seq<Token>, m: Machine, ns: Notes) returns (ns': Notes)
    requires Sound(tokens, m, ns) && m.stack.State() in {58, 59, 60, 61}
    requires m.stack.State() in {58, 59} ==> NextNumber(m.input) != 5 && NextNumber(m.input) != 6
    ensures KeepsSound(tokens, m, YyDefAct(m.stack.State()), ns')
  {
    hide *;
    SoundParts(tokens, m, ns);
    var st := m.stack;
    BinEntries(st, ns);
    BinFacts(st, ns);
    var below, nb, q := st.below.below.below, ns.below.below.below, st.below.below.State();
    var sym := SExpr(Bin(OpOf(st.State()), ns.below.below.sym.cst, ns.sym.cst));
    ExprStates(q);
    GoesBack(below.State(), q);
    BinPlace(q, nb, sym, st.State());
    ExprSym(sym.cst, nb);
    NotBottom(st);
    NoEffect(st, YyDefAct(st.State()), m.config);
    ReduceKeeps(tokens, m, ns, YyDefAct(st.State()), 3, below, nb, sym, q);
    ns' := Note(nb, sym);
  }

  lemma SoundParts(tokens: seq<Token>, m: Machine, ns: Notes)
    requires Sound(tokens, m, ns)
    ensures Shape(m.stack, ns) && Words(ns) + m.input == tokens && ExecAll(Performed(ns)) == Some(m.config)
    ensures LookAhead(m, ns)
  {
    hide Shape, Words, Performed, ExecAll, LookAhead;
  }

  lemma NotBottom(st: Stack)
    ensures st.State() != 0 ==> st.Push?
    ensures YYFINAL == 2
  {
  }

  /** An expression that replaces one in its place leads back to the state that was there. */
  lemma GoesBack(p: int, q: int)
    requires Edge(p, q) && YyStos(q) == 34
    ensures GoTo(p, 34) == q && q != 2 && Begins(p)
  {
    assert Begins(p);
    AfterExpr(p);
    hide GoTo, YyStos, Edge;
  }

  lemma ExprSym(c: Cst, nb: Notes)
    ensures var s := SExpr(c);
            && SymYield(s) == Yield(c) && SymStmts(s) == [] && Performed(nb) + SymStmts(s) == Performed(nb)
            && SymValue(s) == Tree(Erase(c)) && WfSym(s) == Wf(c) && SymNumber(s) == 34
            && SymbolWeight(SymNumber(s)) == 2
  {
    hide Yield, Erase, Wf, Performed;
  }

  /** Rules above 16 leave the configuration alone. */
  lemma NoEffect(st: Stack, rule: int, c: Config)
    requires 17 <= rule <= 34
    ensures Effect(st, rule, c) == Some(c)
  {
  }

  lemma BinPlace(q: int, nb: Notes, sym: Sym, p: int)
    requires p in {58, 59, 60, 61} && sym.SExpr? && sym.cst.Bin? && sym.cst.op == OpOf(p)
    requires Complete(q) && (q in {58, 59} ==> p in {60, 61})
    ensures Tight(q, nb, sym)
    ensures Level(sym.cst) == 0 ==> p in {58, 59}
  {
  }


  // ----- the automaton's edges, accessing symbols and rules, where the remaining rules need them

  lemma EdgesInto(p: int, q: int)
    requires Edge(p, q)
    ensures q in {48, 49, 50} ==> p == q - 10
    ensures q in {38, 39, 40, 41, 42, 43, 44} ==> Begins(p)
    ensures q == 57 ==> p == 51
    ensures q == 51 ==> p == 44
    ensures q in {18, 19} ==> p == 4
    ensures q == 20 ==> p in {5, 6, 8, 9}
    ensures q in {34, 35} ==> p == 19
    ensures q in {36, 37} ==> p == 21
    ensures q == 21 ==> p == 5
    ensures q == 22 ==> p == 6
    ensures q == 26 ==> p == 8
    ensures q == 27 ==> p == 9
    ensures q == 23 ==> p in {7, 24}
    ensures q in {24, 25} ==> p == 7
    ensures q == 46 ==> p == 24
    ensures 28 <= q <= 33 ==> p == q - 17
    ensures 4 <= q <= 16 ==> p == 1
    ensures q == 1 ==> p == 0
    ensures q == 45 ==> p == 22
    ensures q == 47 ==> p == 26
    ensures q == 62 ==> p == 56
    ensures q == 56 ==> p == 47
    ensures q != 0 && q != 3 && q != 17
  {
  }

  lemma Accessing(q: int)
    ensures 0 <= q < 63 && YyStos(q) == 34 <==> Complete(q) || q in {48, 49, 50, 60, 61}
    ensures q == 38 ==> YyStos(q) == 3
    ensures q == 39 ==> YyStos(q) == 8
    ensures q == 40 ==> YyStos(q) == 9
    ensures q == 41 ==> YyStos(q) == 18
    ensures q == 43 ==> YyStos(q) == 21
    ensures q == 44 ==> YyStos(q) == 22
    ensures q == 57 ==> YyStos(q) == 23
    ensures q == 56 ==> YyStos(q) == 10
    ensures q in {18, 20, 23, 34, 36, 42} ==> YyStos(q) == 19
    ensures q == 19 ==> YyStos(q) == 35
    ensures q == 35 ==> YyStos(q) == 36
    ensures q in {21, 22, 26, 27} ==> YyStos(q) == 37
    ensures q == 37 ==> YyStos(q) == 38
    ensures q in {25, 46} ==> YyStos(q) == 39
    ensures q == 24 ==> YyStos(q) == 33
    ensures 28 <= q <= 33 ==> YyStos(q) == 11
    ensures 4 <= q <= 9 ==> YyStos(q) == q + 8
    ensures q == 10 ==> YyStos(q) == 26
    ensures 11 <= q <= 16 ==> YyStos(q) == q + 16
    ensures q == 1 ==> YyStos(q) == 25
  {
  }

  // ----- entries from the top down

  lemma OneDown(st: Stack, ns: Notes)
    requires Shape(st, ns) && st.State() != 0
    ensures st.Push? && ns.Note? && Shape(st.below, ns.below) && Edge(st.below.State(), st.State())
    ensures YyStos(st.State()) == SymNumber(ns.sym) && st.value == SymValue(ns.sym) && st.Peek(0) == st.value
    ensures WfSym(ns.sym) && Tight(st.State(), ns.below, ns.sym)
    ensures Words(ns) == Words(ns.below) + SymYield(ns.sym) && Performed(ns) == Performed(ns.below) + SymStmts(ns.sym)
    ensures Weight(st) == Weight(st.below) + SymbolWeight(SymNumber(ns.sym)) && st.Pop(1) == st.below
  {
    hide Edge, YyStos, SymNumber, SymValue, WfSym, Tight, SymYield, SymStmts, SymbolWeight;
    assert st.below.Pop(0) == st.below;
  }

  lemma TwoDown(st: Stack, ns: Notes)
    requires Shape(st, ns) && st.State() != 0
    requires st.Push? && st.below.State() != 0
    ensures st.below.Push? && ns.Note? && ns.below.Note?
    ensures Shape(st.below.below, ns.below.below) && Edge(st.below.below.State(), st.below.State())
    ensures YyStos(st.below.State()) == SymNumber(ns.below.sym) && st.below.value == SymValue(ns.below.sym)
    ensures st.Peek(1) == st.below.value && WfSym(ns.below.sym) && Tight(st.below.State(), ns.below.below, ns.below.sym)
    ensures Words(ns) == Words(ns.below.below) + SymYield(ns.below.sym) + SymYield(ns.sym)
    ensures Performed(ns) == Performed(ns.below.below) + SymStmts(ns.below.sym) + SymStmts(ns.sym)
    ensures Weight(st)
         == Weight(st.below.below) + SymbolWeight(SymNumber(ns.below.sym)) + SymbolWeight(SymNumber(ns.sym))
    ensures st.Pop(2) == st.below.below
  {
    hide Edge, YyStos, SymNumber, SymValue, WfSym, Tight, SymYield, SymStmts, SymbolWeight, Shape, Words, Performed,
      Weight, Stack.State;
    OneDown(st, ns);
    OneDown(st.below, ns.below);
    assert st.Pop(2) == st.below.Pop(1);
    assert st.Peek(1) == st.below.Peek(0);
  }

  lemma ThreeDown(st: Stack, ns: Notes)
    requires Shape(st, ns) && st.State() != 0
    requires st.Push? && st.below.State() != 0 && st.below.Push? && st.below.below.State() != 0
    ensures st.below.below.Push? && ns.Note? && ns.below.Note? && ns.below.below.Note?
    ensures var b, nb := st.below.below, ns.below.below;
            && Shape(b.below, nb.below) && Edge(b.below.State(), b.State())
            && YyStos(b.State()) == SymNumber(nb.sym) && b.value == SymValue(nb.sym)
            && st.Peek(2) == b.value && WfSym(nb.sym) && Tight(b.State(), nb.below, nb.sym)
            && Words(ns) == Words(nb.below) + SymYield(nb.sym) + SymYield(ns.below.sym) + SymYield(ns.sym)
            && Performed(ns) == Performed(nb.below) + SymStmts(nb.sym) + SymStmts(ns.below.sym) + SymStmts(ns.sym)
            && Weight(st) == Weight(b.below) + SymbolWeight(SymNumber(nb.sym)) + SymbolWeight(SymNumber(ns.below.sym))
                           + SymbolWeight(SymNumber(ns.sym))
            && st.Pop(3) == b.below
  {
    hide Edge, YyStos, SymNumber, SymValue, WfSym, Tight, SymYield, SymStmts, SymbolWeight, Shape, Words, Performed,
      Weight, Stack.State;
    OneDown(st, ns);
    TwoDown(st.below, ns.below);
    assert st.Pop(3) == st.below.Pop(2);
    assert st.Peek(2) == st.below.Peek(1);
  }

  // ----- prefix operators, parentheses, atoms

  lemma PreRuleOf(q: int)
    ensures q in {48, 49, 50} ==> YyR2(YyDefAct(q)) == 2 && YyR1(YyDefAct(q)) == 34 && 17 <= YyDefAct(q) <= 34
    ensures q == 48 ==> YyDefAct(q) == 26
    ensures q == 49 ==> YyDefAct(q) == 28
    ensures q == 50 ==> YyDefAct(q) == 29
    ensures q == 57 ==> YyDefAct(q) == 27 && YyR2(27) == 3 && YyR1(27) == 34
    ensures q == 41 ==> YyDefAct(q) == 19
    ensures q == 42 ==> YyDefAct(q) == 20
    ensures q == 43 ==> YyDefAct(q) == 21
    ensures q in {41, 42, 43} ==> YyR2(YyDefAct(q)) == 1 && YyR1(YyDefAct(q)) == 34
  {
  }

  function UnOf(state: int): UnOp {
    match state case 48 => Negate case 49 => Exp case _ => Log
  }

  lemma PreSym(q: int, t: Token, e: Cst, w: seq<Token>, st: Stack)
    requires q in {48, 49, 50} && Number(t) == (if q == 48 then 3 else if q == 49 then 8 else 9)
    requires st.Peek(0) == Tree(Erase(e)) && Wf(e) && Level(e) == 2
    ensures var sym := SExpr(Pre(UnOf(q), e));
            && w + [t] + Yield(e) == w + SymYield(sym) && WfSym(sym) && Level(sym.cst) == 2
            && Reduced(st, YyDefAct(q)) == SymValue(sym)
  {
    PreRuleOf(q);
    hide YyDefAct, Yield, Erase, Wf, Level, Stack.Peek;
    assert t == PreToken(UnOf(q));
    Associate(w, [t], Yield(e));
    assert Yield(Pre(UnOf(q), e)) == [t] + Yield(e) by { YieldPre(UnOf(q), e); }
    assert Wf(Pre(UnOf(q), e)) && Erase(Pre(UnOf(q), e)) == Unary(UnOf(q), Erase(e)) && Level(Pre(UnOf(q), e)) == 2 by {
      YieldPre(UnOf(q), e);
    }
  }

  lemma YieldPre(op: UnOp, e: Cst)
    requires Wf(e) && Level(e) == 2
    ensures Yield(Pre(op, e)) == [PreToken(op)] + Yield(e)
    ensures Wf(Pre(op, e)) && Erase(Pre(op, e)) == Unary(op, Erase(e)) && Level(Pre(op, e)) == 2
  {
  }

  /** An expression that binds tightest fits wherever an expression may begin. */
  lemma TightPlace(q: int, nb: Notes, sym: Sym)
    requires sym.SExpr? && Level(sym.cst) == 2 && YyStos(q) == 34
    ensures Tight(q, nb, sym)
  {
    assert q != 54 && q != 55;
    hide YyStos, Level;
  }

  lemma ExprEdge(p: int)
    requires Begins(p)
    ensures Edge(p, GoTo(p, 34)) && YyStos(GoTo(p, 34)) == 34 && GoTo(p, 34) != 2
  {
    AfterExpr(p);
  }

  lemma PreKeeps(tokens: seq<Token>, m: Machine, ns: Notes) returns (ns': Notes)
    requires Sound(tokens, m, ns) && m.stack.State() in {48, 49, 50}
    ensures KeepsSound(tokens, m, YyDefAct(m.stack.State()), ns')
  {
    hide *;
    SoundParts(tokens, m, ns);
    var st := m.stack;
    NotBottom(st);
    TopIsExpr(st, ns);
    EdgesInto(st.below.State(), st.State());
    Accessing(st.below.State());
    TwoDown(st, ns);
    OneDown(st, ns);
    Kind(ns.below.sym);
    TokenFacts(ns.below.sym);
    EdgesInto(st.below.below.State(), st.below.State());
    var nb, t, e := ns.below.below, ns.below.sym.token, ns.sym.cst;
    PreSym(st.State(), t, e, Words(nb), st);
    var sym := SExpr(Pre(UnOf(st.State()), e));
    PreRuleOf(st.State());
    ExprSym(e, nb);
    ExprSym(sym.cst, nb);
    ExprEdge(st.below.below.State());
    TightPlace(GoTo(st.below.below.State(), 34), nb, sym);
    NoEffect(st, YyDefAct(st.State()), m.config);
    ReduceKeeps(tokens, m, ns, YyDefAct(st.State()), 2, st.below.below, nb, sym, GoTo(st.below.below.State(), 34));
    ns' := Note(nb, sym);
  }

  lemma TokenFacts(s: Sym)
    requires s.STok?
    ensures SymYield(s) == [s.token] && SymStmts(s) == [] && SymValue(s) == TokenValue(s.token)
    ensures SymNumber(s) == Number(s.token) && 0 < SymNumber(s) < 24 && SymbolWeight(SymNumber(s)) == 4
    ensures forall w: seq<Stmt> :: w + SymStmts(s) == w
  {
  }

  lemma ParenSym(t1: Token, e: Cst, t2: Token, w: seq<Token>, st: Stack)
    requires Number(t1) == 22 && Number(t2) == 23 && st.Peek(1) == Tree(Erase(e)) && Wf(e)
    ensures var sym := SExpr(Paren(e));
            && w + [t1] + Yield(e) + [t2] == w + SymYield(sym) && WfSym(sym) && Level(sym.cst) == 2
            && Reduced(st, 27) == SymValue(sym)
  {
    hide Yield, Erase, Wf, Stack.Peek;
    assert t1 == TOpen && t2 == TClose;
    Associate(w, [t1], Yield(e) + [t2]);
    Associate(w + [t1], Yield(e), [t2]);
    YieldParenIs(e);
  }

  lemma YieldParenIs(e: Cst)
    ensures Yield(Paren(e)) == [TOpen] + (Yield(e) + [TClose]) && Erase(Paren(e)) == Erase(e)
    ensures Wf(Paren(e)) == Wf(e) && Level(Paren(e)) == 2
  {
  }

  lemma ParenKeeps(tokens: seq<Token>, m: Machine, ns: Notes) returns (ns': Notes)
    requires Sound(tokens, m, ns) && m.stack.State() == 57
    ensures KeepsSound(tokens, m, YyDefAct(m.stack.State()), ns')
  {
    hide *;
    SoundParts(tokens, m, ns);
    var st := m.stack;
    NotBottom(st);
    OneDown(st, ns);
    EdgesInto(st.below.State(), 57);
    CompleteStates();
    TopIsExpr(st.below, ns.below);
    EdgesInto(st.below.below.State(), 51);
    TwoDown(st, ns);
    ThreeDown(st, ns);
    Accessing(57);
    Accessing(44);
    Kind(ns.sym);
    Kind(ns.below.below.sym);
    TokenFacts(ns.sym);
    TokenFacts(ns.below.below.sym);
    EdgesInto(st.below.below.below.State(), 44);
    var nb, e := ns.below.below.below, ns.below.sym.cst;
    var p := st.below.below.below.State();
    ParenSym(ns.below.below.sym.token, e, ns.sym.token, Words(nb), st);
    var sym := SExpr(Paren(e));
    PreRuleOf(57);
    ExprSym(e, nb);
    ExprSym(sym.cst, nb);
    ExprEdge(p);
    TightPlace(GoTo(p, 34), nb, sym);
    NoEffect(st, 27, m.config);
    ReduceKeeps(tokens, m, ns, 27, 3, st.below.below.below, nb, sym, GoTo(p, 34));
    ns' := Note(nb, sym);
  }

  lemma CompleteStates()
    ensures Complete(45) && Complete(47) && Complete(51) && Complete(58) && Complete(59) && Complete(62)
  {
  }

  function AtomOf(t: Token): Cst {
    match t case TFloat(v) => Num(v) case TName(text) => Id(text) case _ => AtSign
  }

  lemma AtomSym(q: int, t: Token, st: Stack)
    requires q in {41, 42, 43} && Number(t) == (if q == 41 then 18 else if q == 42 then 19 else 21)
    requires st.Peek(0) == TokenValue(t)
    ensures var sym := SExpr(AtomOf(t));
            && SymYield(sym) == [t] && WfSym(sym) && Level(sym.cst) == 2
            && Reduced(st, YyDefAct(q)) == SymValue(sym)
  {
    PreRuleOf(q);
    hide YyDefAct, Stack.Peek;
  }

  lemma AtomKeeps(tokens: seq<Token>, m: Machine, ns: Notes) returns (ns': Notes)
    requires Sound(tokens, m, ns) && m.stack.State() in {41, 42, 43}
    ensures KeepsSound(tokens, m, YyDefAct(m.stack.State()), ns')
  {
    hide *;
    SoundParts(tokens, m, ns);
    var st := m.stack;
    NotBottom(st);
    OneDown(st, ns);
    Accessing(st.State());
    Kind(ns.sym);
    TokenFacts(ns.sym);
    EdgesInto(st.below.State(), st.State());
    AtomSym(st.State(), ns.sym.token, st);
    var sym := SExpr(AtomOf(ns.sym.token));
    var p := st.below.State();
    PreRuleOf(st.State());
    ExprSym(sym.cst, ns.below);
    ExprEdge(p);
    TightPlace(GoTo(p, 34), ns.below, sym);
    NoEffect(st, YyDefAct(st.State()), m.config);
    ReduceKeeps(tokens, m, ns, YyDefAct(st.State()), 1, st.below, ns.below, sym, GoTo(p, 34));
    ns' := Note(ns.below, sym);
  }

  // ----- names

  lemma NameRule(q: int)
    requires q in {18, 20, 23, 34, 36}
    ensures var r := YyDefAct(q); YyR2(r) == 1 && 35 <= YyR1(r) <= 39 && 30 <= r <= 34
  {
  }

  lemma NameGoTo(p: int, q: int)
    requires Edge(p, q) && q in {18, 20, 23, 34, 36}
    ensures var g := GoTo(p, YyR1(YyDefAct(q)));
            Edge(p, g) && YyStos(g) == YyR1(YyDefAct(q)) && g in {19, 21, 22, 25, 26, 27, 35, 37, 46}
  {
    NamePlace(p, q);
    NameGoes();
    hide Edge, GoTo;
  }

  lemma NamePlace(p: int, q: int)
    requires Edge(p, q)
    ensures q == 18 ==> p == 4 && YyR1(YyDefAct(q)) == 35
    ensures q == 20 ==> p in {5, 6, 8, 9} && YyR1(YyDefAct(q)) == 37
    ensures q == 23 ==> p in {7, 24} && YyR1(YyDefAct(q)) == 39
    ensures q == 34 ==> p == 19 && YyR1(YyDefAct(q)) == 36
    ensures q == 36 ==> p == 21 && YyR1(YyDefAct(q)) == 38
  {
  }

  lemma NameGoes()
    ensures GoTo(4, 35) == 19 && GoTo(5, 37) == 21 && GoTo(6, 37) == 22 && GoTo(8, 37) == 26 && GoTo(9, 37) == 27
    ensures GoTo(7, 39) == 25 && GoTo(24, 39) == 46 && GoTo(19, 36) == 35 && GoTo(21, 38) == 37
    ensures Edge(4, 19) && Edge(5, 21) && Edge(6, 22) && Edge(8, 26) && Edge(9, 27) && Edge(7, 25) && Edge(24, 46)
    ensures Edge(19, 35) && Edge(21, 37)
  {
  }

  lemma NameSym(t: Token, symbol: int, st: Stack, rule: int)
    requires Number(t) == 19 && 35 <= symbol <= 39 && 30 <= rule <= 34 && YyR2(rule) == 1 && st.Peek(0) == TokenValue(t)
    ensures t.TName?
    ensures var sym := SName(symbol, t.text);
            && SymYield(sym) == [t] && SymStmts(sym) == [] && WfSym(sym) && Reduced(st, rule) == SymValue(sym)
            && SymNumber(sym) == symbol && SymbolWeight(SymNumber(sym)) == 3
            && forall w: seq<Stmt> :: w + SymStmts(sym) == w
  {
    hide Stack.Peek, YyR2;
  }

  lemma LoosePlace(q: int, nb: Notes, sym: Sym)
    requires !sym.SExpr? && q != 54 && q != 55
    ensures Tight(q, nb, sym)
  {
  }

  lemma NameKeeps(tokens: seq<Token>, m: Machine, ns: Notes) returns (ns': Notes)
    requires Sound(tokens, m, ns) && m.stack.State() in {18, 20, 23, 34, 36}
    ensures KeepsSound(tokens, m, YyDefAct(m.stack.State()), ns')
  {
    hide *;
    SoundParts(tokens, m, ns);
    var st := m.stack;
    NotBottom(st);
    OneDown(st, ns);
    Accessing(st.State());
    Kind(ns.sym);
    TokenFacts(ns.sym);
    var rule := YyDefAct(st.State());
    NameRule(st.State());
    NameGoTo(st.below.State(), st.State());
    NameSym(ns.sym.token, YyR1(rule), st, rule);
    var sym := SName(YyR1(rule), ns.sym.token.text);
    var q := GoTo(st.below.State(), YyR1(rule));
    LoosePlace(q, ns.below, sym);
    NoEffect(st, rule, m.config);
    ReduceKeeps(tokens, m, ns, rule, 1, st.below, ns.below, sym, q);
    ns' := Note(ns.below, sym);
  }

  lemma ChipRules()
    ensures YyDefAct(25) == 17 && YyR2(17) == 1 && YyR1(17) == 33 && GoTo(7, 33) == 24 && Edge(7, 24)
        && YyStos(24) == 33
    ensures YyDefAct(46) == 18 && YyR2(18) == 2 && YyR1(18) == 33
  {
  }

  lemma FirstNameSym(s: Sym, st: Stack)
    requires s.SName? && st.Peek(0) == SymValue(s)
    ensures var sym := SNames([s.text]);
            SymYield(sym) == SymYield(s) && WfSym(sym) && Reduced(st, 17) == SymValue(sym)
  {
    hide Stack.Peek;
    assert [s.text][..0] == [] && NameTokens([]) == [];
  }

  lemma NextNameSym(s: Sym, names: seq<string>, st: Stack, w: seq<Token>)
    requires s.SName? && st.Peek(0) == SymValue(s) && st.Peek(1) == Names(names)
    ensures var sym := SNames(names + [s.text]);
            && w + NameTokens(names) + SymYield(s) == w + SymYield(sym) && WfSym(sym)
            && Reduced(st, 18) == SymValue(sym)
  {
    hide *;
    NextNameTokens(names, s.text);
    NextNameValue(s, names, st);
    Associate(w, NameTokens(names), [TName(s.text)]);
  }

  lemma NextNameTokens(names: seq<string>, text: string)
    ensures NameTokens(names + [text]) == NameTokens(names) + [TName(text)]
  {
    assert (names + [text])[..|names|] == names;
  }

  lemma NextNameValue(s: Sym, names: seq<string>, st: Stack)
    requires s.SName? && st.Peek(0) == SymValue(s) && st.Peek(1) == Names(names)
    ensures var sym := SNames(names + [s.text]);
            && Reduced(st, 18) == SymValue(sym) && WfSym(sym) && SymYield(sym) == NameTokens(names + [s.text])
            && SymYield(s) == [TName(s.text)]
  {
    hide Stack.Peek, NameTokens;
  }

  lemma NamesFacts(names: seq<string>, p: seq<Stmt>)
    ensures var s := SNames(names);
            && p + SymStmts(s) == p && SymYield(s) == NameTokens(names) && SymValue(s) == Names(names)
            && SymNumber(s) == 33 && SymbolWeight(33) == 2
  {
  }

  lemma NameFacts(s: Sym, p: seq<Stmt>)
    requires s.SName?
    ensures p + SymStmts(s) == p && (35 <= SymNumber(s) <= 39 ==> SymbolWeight(SymNumber(s)) == 3)
  {
  }

  lemma ChipNameKeeps(tokens: seq<Token>, m: Machine, ns: Notes) returns (ns': Notes)
    requires Sound(tokens, m, ns) && m.stack.State() in {25, 46}
    ensures KeepsSound(tokens, m, YyDefAct(m.stack.State()), ns')
  {
    hide *;
    SoundParts(tokens, m, ns);
    var st := m.stack;
    NotBottom(st);
    OneDown(st, ns);
    Accessing(st.State());
    Kind(ns.sym);
    EdgesInto(st.below.State(), st.State());
    ChipRules();
    if st.State() == 25 {
      FirstNameSym(ns.sym, st);
      NameFacts(ns.sym, Performed(ns.below));
      NamesFacts([ns.sym.text], Performed(ns.below));
      var sym := SNames([ns.sym.text]);
      LoosePlace(24, ns.below, sym);
      NoEffect(st, 17, m.config);
      ReduceKeeps(tokens, m, ns, 17, 1, st.below, ns.below, sym, 24);
      ns' := Note(ns.below, sym);
    } else {
      TwoDown(st, ns);
      Accessing(24);
      Kind(ns.below.sym);
      var names := ns.below.sym.names;
      var nb := ns.below.below;
      NamesFacts(names, Performed(nb));
      NameFacts(ns.sym, Performed(nb));
      NamesFacts(names + [ns.sym.text], Performed(nb));
      assert ns.below.sym == SNames(names);
      NextNameSym(ns.sym, names, st, Words(nb));
      var sym := SNames(names + [ns.sym.text]);
      EdgesInto(st.below.below.State(), 24);
      LoosePlace(24, nb, sym);
      NoEffect(st, 18, m.config);
      ReduceKeeps(tokens, m, ns, 18, 2, st.below.below, nb, sym, 24);
      ns' := Note(nb, sym);
    }
  }

  // ----- lines

  lemma LineRules(q: int)
    ensures 28 <= q <= 33 ==> YyR2(YyDefAct(q)) == 2 && YyR1(YyDefAct(q)) == 26 && 4 <= YyDefAct(q) <= 9
    ensures YyDefAct(10) == 3 && YyR2(3) == 2 && YyR1(3) == 25
    ensures YyDefAct(0) == 2 && YyR2(2) == 0 && YyR1(2) == 25
    ensures GoTo(1, 26) == 10 && Edge(1, 10) && YyStos(10) == 26
    ensures GoTo(0, 25) == 1 && Edge(0, 1) && YyStos(1) == 25
  {
  }

  lemma EolSym(s: Sym, t: Token, w: seq<Token>, p: seq<Stmt>, st: Stack, rule: int, c: Config)
    requires s.SStmt? && WfSym(s) && Number(t) == 11 && st.Peek(1) == SymValue(s) && 4 <= rule <= 9 && YyR2(rule) == 2
    ensures var sym := SLine(s.stmt);
            && w + SymYield(s) + [t] == w + SymYield(sym) && WfSym(sym) && Reduced(st, rule) == SymValue(sym)
            && p + SymStmts(s) == p + SymStmts(sym) && Effect(st, rule, c) == Some(c)
            && SymNumber(sym) == 26 && SymbolWeight(26) == 1
            && SymbolWeight(SymNumber(s)) == 1
  {
    hide Stack.Peek, YyR2, YieldBody, WfStmt;
    Associate(w, SymYield(s), [t]);
  }

  lemma EolKeeps(tokens: seq<Token>, m: Machine, ns: Notes) returns (ns': Notes)
    requires Sound(tokens, m, ns) && 28 <= m.stack.State() <= 33
    ensures KeepsSound(tokens, m, YyDefAct(m.stack.State()), ns')
  {
    hide *;
    SoundParts(tokens, m, ns);
    var st := m.stack;
    NotBottom(st);
    OneDown(st, ns);
    Accessing(st.State());
    Kind(ns.sym);
    TokenFacts(ns.sym);
    EdgesInto(st.below.State(), st.State());
    TwoDown(st, ns);
    Accessing(st.below.State());
    Kind(ns.below.sym);
    EdgesInto(st.below.below.State(), st.below.State());
    var rule := YyDefAct(st.State());
    LineRules(st.State());
    var nb := ns.below.below;
    EolSym(ns.below.sym, ns.sym.token, Words(nb), Performed(nb), st, rule, m.config);
    var sym := SLine(ns.below.sym.stmt);
    LoosePlace(10, nb, sym);
    ReduceKeeps(tokens, m, ns, rule, 2, st.below.below, nb, sym, 10);
    ns' := Note(nb, sym);
  }

  lemma InputSym(ss: seq<Stmt>, s: Stmt, w: seq<Token>, p: seq<Stmt>, st: Stack, c: Config)
    requires WfAll(ss) && WfStmt(s) && st.Peek(1) == Nothing
    ensures var sym := SInput(ss + [s]);
            && w + SymYield(SInput(ss)) + SymYield(SLine(s)) == w + SymYield(sym) && WfSym(sym)
            && Reduced(st, 3) == SymValue(sym)
            && p + SymStmts(SInput(ss)) + SymStmts(SLine(s)) == p + SymStmts(sym) && Effect(st, 3, c) == Some(c)
            && SymNumber(sym) == 25 && SymbolWeight(25) == 1 && SymbolWeight(SymNumber(SLine(s))) == 1
            && SymbolWeight(SymNumber(SInput(ss))) == 1 && SymValue(SInput(ss)) == Nothing
  {
    hide Stack.Peek, YieldBody, WfStmt;
    assert (ss + [s])[..|ss|] == ss;
    Associate(w, YieldAll(ss), YieldBody(s) + [TEol]);
    Associate(p, ss, [s]);
  }

  lemma LineKeeps(tokens: seq<Token>, m: Machine, ns: Notes) returns (ns': Notes)
    requires Sound(tokens, m, ns) && m.stack.State() == 10
    ensures KeepsSound(tokens, m, YyDefAct(m.stack.State()), ns')
  {
    hide *;
    SoundParts(tokens, m, ns);
    var st := m.stack;
    NotBottom(st);
    OneDown(st, ns);
    Accessing(10);
    Kind(ns.sym);
    EdgesInto(st.below.State(), 10);
    TwoDown(st, ns);
    Accessing(1);
    Kind(ns.below.sym);
    EdgesInto(st.below.below.State(), 1);
    LineRules(10);
    var nb := ns.below.below;
    var ss, s := ns.below.sym.ss, ns.sym.line;
    assert ns.below.sym == SInput(ss) && ns.sym == SLine(s);
    WfOf(ns.below.sym);
    WfOf(ns.sym);
    InputValue(ss);
    InputSym(ss, s, Words(nb), Performed(nb), st, m.config);
    var sym := SInput(ss + [s]);
    LoosePlace(1, nb, sym);
    ReduceKeeps(tokens, m, ns, 3, 2, st.below.below, nb, sym, 1);
    ns' := Note(nb, sym);
  }

  lemma WfOf(s: Sym)
    requires WfSym(s)
    ensures s.SInput? ==> WfAll(s.ss)
    ensures s.SLine? ==> WfStmt(s.line)
    ensures s.SNames? ==> s.names != []
    ensures s.SExpr? ==> Wf(s.cst)
  {
  }

  lemma InputValue(ss: seq<Stmt>)
    ensures SymValue(SInput(ss)) == Nothing
  {
  }

  lemma StartKeeps(tokens: seq<Token>, m: Machine, ns: Notes) returns (ns': Notes)
    requires Sound(tokens, m, ns) && m.stack.State() == 0
    ensures KeepsSound(tokens, m, YyDefAct(0), ns')
  {
    hide *;
    SoundParts(tokens, m, ns);
    StateZero(m.stack, ns);
    LineRules(0);
    StartFacts(m.stack, ns, m.config);
    LoosePlace(1, ns, SInput([]));
    ReduceKeeps(tokens, m, ns, 2, 0, m.stack, ns, SInput([]), 1);
    ns' := Note(ns, SInput([]));
  }

  lemma StateZero(st: Stack, ns: Notes)
    requires Shape(st, ns) && st.State() == 0
    ensures st == Bottom && ns == Blank
  {
  }

  lemma StartFacts(st: Stack, ns: Notes, c: Config)
    requires st == Bottom && ns == Blank
    ensures var sym := SInput([]);
            && Words(ns) == Words(ns) + SymYield(sym) && Performed(ns) + SymStmts(sym) == Performed(ns)
            && WfSym(sym) && Reduced(st, 2) == SymValue(sym) && Effect(st, 2, c) == Some(c)
            && SymNumber(sym) == 25 && SymbolWeight(25) == 1 && st.Pop(0) == st && st.State() == 0 && YYFINAL == 2
  {
  }

  // ----- statements

  lemma StmtRules()
    ensures YyDefAct(35) == 11 && YyR2(11) == 3 && YyR1(11) == 27 && GoTo(1, 27) == 11
    ensures YyDefAct(37) == 12 && YyR2(12) == 3 && YyR1(12) == 28 && GoTo(1, 28) == 12
    ensures YyDefAct(45) == 13 && YyR2(13) == 3 && YyR1(13) == 29 && GoTo(1, 29) == 13
    ensures YyDefAct(62) == 14 && YyR2(14) == 5 && YyR1(14) == 30 && GoTo(1, 30) == 14
    ensures YyDefAct(27) == 15 && YyR2(15) == 2 && YyR1(15) == 31 && GoTo(1, 31) == 15
    ensures YyDefAct(24) == 16 && YyR2(16) == 2 && YyR1(16) == 32 && GoTo(1, 32) == 16
  {
  }

  lemma StmtEdges(q: int)
    requires 11 <= q <= 16
    ensures Edge(1, q) && YyStos(q) == q + 16
  {
  }

  lemma ExecAppend(p: seq<Stmt>, s: Stmt, c: Config)
    requires ExecAll(p) == Some(c)
    ensures ExecAll(p + [s]) == Exec(c, s)
  {
    hide Exec;
    assert (p + [s])[..|p|] == p;
  }

  lemma StmtFacts(s: Stmt)
    ensures var sym := SStmt(s);
            && SymYield(sym) == YieldBody(s) && SymStmts(sym) == [s] && SymValue(sym) == Nothing
            && SymNumber(sym) == StmtSymbol(s) && SymbolWeight(SymNumber(sym)) == 1
            && WfSym(sym) == WfStmt(s)
  {
    hide YieldBody, WfStmt;
  }

  lemma NameSymFacts(s: Sym, p: seq<Stmt>)
    requires s.SName?
    ensures SymYield(s) == [TName(s.text)] && SymValue(s) == Text(s.text) && p + SymStmts(s) == p
  {
  }

  lemma TokenSymFacts(s: Sym, p: seq<Stmt>)
    requires s.STok?
    ensures SymYield(s) == [s.token] && p + SymStmts(s) == p && SymNumber(s) == Number(s.token)
    ensures SymbolWeight(SymNumber(s)) == 4
  {
  }

  lemma ExprSymFacts(s: Sym, p: seq<Stmt>)
    requires s.SExpr?
    ensures SymYield(s) == Yield(s.cst) && SymValue(s) == Tree(Erase(s.cst)) && p + SymStmts(s) == p
  {
    hide Yield, Erase;
  }

  /** A statement's action, when it has performed, is a reduction to that statement. */
  lemma StmtKeeps(tokens: seq<Token>, m: Machine, ns: Notes, rule: int, len: nat, below: Stack, nb: Notes, s: Stmt)
    requires Sound(tokens, m, ns) && m.stack.State() != YYFINAL && m.stack.Push?
    requires YyR2(rule) == len && m.stack.Pop(len) == below && Shape(below, nb) && below.State() == 1
    requires Words(ns) == Words(nb) + YieldBody(s) && Performed(ns) == Performed(nb)
    requires Effect(m.stack, rule, m.config) == Exec(m.config, s) && Reduced(m.stack, rule) == Nothing && WfStmt(s)
    requires YyR1(rule) == StmtSymbol(s) && GoTo(1, YyR1(rule)) == StmtSymbol(s) - 16
    requires Weight(m.stack) > Weight(below) + 1
    ensures KeepsSound(tokens, m, rule, Note(nb, SStmt(s)))
  {
    hide *;
    SoundParts(tokens, m, ns);
    StmtFacts(s);
    ExecAppend(Performed(nb), s, m.config);
    StmtRange(s);
    StmtEdges(StmtSymbol(s) - 16);
    LoosePlace(StmtSymbol(s) - 16, nb, SStmt(s));
    ReduceKeeps(tokens, m, ns, rule, len, below, nb, SStmt(s), StmtSymbol(s) - 16);
  }

  lemma StmtRange(s: Stmt)
    ensures 27 <= StmtSymbol(s) <= 32 && YYFINAL == 2
  {
  }

  // The three statements with three symbols.

  lemma BusFacts(st: Stack, t: Token, a: string, b: string, w: seq<Token>, c: Config)
    requires Number(t) == 12 && st.Peek(1) == Text(a) && st.Peek(0) == Text(b) && st.Peek(2) == TokenValue(t)
    ensures var s := BusStmt(a, b);
            && w + [t] + [TName(a)] + [TName(b)] == w + YieldBody(s) && WfStmt(s) && StmtSymbol(s) == 27
            && Effect(st, 11, c) == Exec(c, s) && Reduced(st, 11) == Nothing
  {
    hide Stack.Peek, AddBus;
    assert YyR2(11) == 3;
    hide YyR2;
  }

  lemma LabelFacts(st: Stack, t: Token, a: string, b: string, w: seq<Token>, c: Config)
    requires Number(t) == 13 && st.Peek(1) == Text(a) && st.Peek(0) == Text(b) && st.Peek(2) == TokenValue(t)
    ensures var s := LabelStmt(a, b);
            && w + [t] + [TName(a)] + [TName(b)] == w + YieldBody(s) && WfStmt(s) && StmtSymbol(s) == 28
            && Effect(st, 12, c) == Exec(c, s) && Reduced(st, 12) == Nothing
  {
    hide Stack.Peek, AddLabel;
    assert YyR2(12) == 3;
    hide YyR2;
  }

  lemma TwoNamesKeeps(tokens: seq<Token>, m: Machine, ns: Notes) returns (ns': Notes)
    requires Sound(tokens, m, ns) && m.stack.State() in {35, 37}
    ensures KeepsSound(tokens, m, YyDefAct(m.stack.State()), ns')
  {
    hide *;
    SoundParts(tokens, m, ns);
    var st := m.stack;
    NotBottom(st);
    OneDown(st, ns);
    Accessing(st.State());
    Kind(ns.sym);
    EdgesInto(st.below.State(), st.State());
    TwoDown(st, ns);
    Accessing(st.below.State());
    Kind(ns.below.sym);
    EdgesInto(st.below.below.State(), st.below.State());
    ThreeDown(st, ns);
    var b, nb := st.below.below, ns.below.below;
    Accessing(b.State());
    Kind(nb.sym);
    EdgesInto(b.below.State(), b.State());
    var p := Performed(nb.below);
    NameSymFacts(ns.sym, p);
    NameSymFacts(ns.below.sym, p);
    TokenSymFacts(nb.sym, p);
    TokenFacts(nb.sym);
    StmtRules();
    if st.State() == 35 {
      BusFacts(st, nb.sym.token, ns.below.sym.text, ns.sym.text, Words(nb.below), m.config);
      var s := BusStmt(ns.below.sym.text, ns.sym.text);
      StmtKeeps(tokens, m, ns, 11, 3, b.below, nb.below, s);
      ns' := Note(nb.below, SStmt(s));
    } else {
      LabelFacts(st, nb.sym.token, ns.below.sym.text, ns.sym.text, Words(nb.below), m.config);
      var s := LabelStmt(ns.below.sym.text, ns.sym.text);
      StmtKeeps(tokens, m, ns, 12, 3, b.below, nb.below, s);
      ns' := Note(nb.below, SStmt(s));
    }
  }

  lemma SetFacts(st: Stack, t: Token, a: string, e: Cst, w: seq<Token>, c: Config)
    requires Number(t) == 14 && st.Peek(1) == Text(a) && st.Peek(0) == Tree(Erase(e))
    requires st.Peek(2) == TokenValue(t) && Wf(e)
    ensures var s := SetStmt(a, e);
            && w + [t] + [TName(a)] + Yield(e) == w + YieldBody(s) && WfStmt(s) && StmtSymbol(s) == 29
            && Effect(st, 13, c) == Exec(c, s) && Reduced(st, 13) == Nothing
  {
    hide Stack.Peek, AddSet, Yield, Erase, Wf;
    assert YyR2(13) == 3;
    hide YyR2;
    assert [t] + [TName(a)] == [TSet, TName(a)];
    Associate(w, [t], [TName(a)]);
    Associate(w, [t] + [TName(a)], Yield(e));
  }

  lemma SetKeeps(tokens: seq<Token>, m: Machine, ns: Notes) returns (ns': Notes)
    requires Sound(tokens, m, ns) && m.stack.State() == 45
    ensures KeepsSound(tokens, m, YyDefAct(45), ns')
  {
    hide *;
    SoundParts(tokens, m, ns);
    var st := m.stack;
    NotBottom(st);
    OneDown(st, ns);
    CompleteStates();
    TopIsExpr(st, ns);
    EdgesInto(st.below.State(), 45);
    TwoDown(st, ns);
    Accessing(22);
    Kind(ns.below.sym);
    EdgesInto(st.below.below.State(), 22);
    ThreeDown(st, ns);
    var b, nb := st.below.below, ns.below.below;
    Accessing(6);
    Kind(nb.sym);
    EdgesInto(b.below.State(), 6);
    var p := Performed(nb.below);
    ExprSymFacts(ns.sym, p);
    NameSymFacts(ns.below.sym, p);
    TokenSymFacts(nb.sym, p);
    TokenFacts(nb.sym);
    StmtRules();
    SetFacts(st, nb.sym.token, ns.below.sym.text, ns.sym.cst, Words(nb.below), m.config);
    var s := SetStmt(ns.below.sym.text, ns.sym.cst);
    StmtKeeps(tokens, m, ns, 13, 3, b.below, nb.below, s);
    ns' := Note(nb.below, SStmt(s));
  }

  lemma IgnoreFacts(st: Stack, t: Token, a: string, w: seq<Token>, c: Config)
    requires Number(t) == 17 && st.Peek(0) == Text(a) && st.Peek(1) == TokenValue(t)
    ensures var s := IgnoreStmt(a);
            && w + [t] + [TName(a)] == w + YieldBody(s) && WfStmt(s) && StmtSymbol(s) == 31
            && Effect(st, 15, c) == Exec(c, s) && Reduced(st, 15) == Nothing
  {
    hide Stack.Peek, AddIgnore;
    assert YyR2(15) == 2;
    hide YyR2;
  }

  lemma ChipFacts(st: Stack, t: Token, names: seq<string>, w: seq<Token>, c: Config)
    requires Number(t) == 15 && st.Peek(0) == Names(names) && st.Peek(1) == TokenValue(t) && names != []
    ensures var s := ChipStmt(names);
            && w + [t] + NameTokens(names) == w + YieldBody(s) && WfStmt(s) && StmtSymbol(s) == 32
            && Effect(st, 16, c) == Exec(c, s) && Reduced(st, 16) == Nothing
  {
    hide Stack.Peek, AddChip, NameTokens;
    assert YyR2(16) == 2;
    hide YyR2;
    Associate(w, [t], NameTokens(names));
  }

  lemma TwoSymbolsKeeps(tokens: seq<Token>, m: Machine, ns: Notes) returns (ns': Notes)
    requires Sound(tokens, m, ns) && m.stack.State() in {24, 27}
    ensures KeepsSound(tokens, m, YyDefAct(m.stack.State()), ns')
  {
    hide *;
    SoundParts(tokens, m, ns);
    var st := m.stack;
    NotBottom(st);
    OneDown(st, ns);
    Accessing(st.State());
    Kind(ns.sym);
    WfOf(ns.sym);
    EdgesInto(st.below.State(), st.State());
    TwoDown(st, ns);
    var b, nb := st.below, ns.below;
    Accessing(b.State());
    Kind(nb.sym);
    EdgesInto(b.below.State(), b.State());
    var p := Performed(nb.below);
    TokenSymFacts(nb.sym, p);
    TokenFacts(nb.sym);
    StmtRules();
    if st.State() == 27 {
      NameSymFacts(ns.sym, p);
      IgnoreFacts(st, nb.sym.token, ns.sym.text, Words(nb.below), m.config);
      var s := IgnoreStmt(ns.sym.text);
      StmtKeeps(tokens, m, ns, 15, 2, b.below, nb.below, s);
      ns' := Note(nb.below, SStmt(s));
    } else {
      NamesFacts(ns.sym.names, p);
      assert ns.sym == SNames(ns.sym.names);
      ChipFacts(st, nb.sym.token, ns.sym.names, Words(nb.below), m.config);
      var s := ChipStmt(ns.sym.names);
      StmtKeeps(tokens, m, ns, 16, 2, b.below, nb.below, s);
      ns' := Note(nb.below, SStmt(s));
    }
  }

  lemma ComputeFacts(st: Stack, t: Token, a: string, e: Cst, k: Token, f: Cst, w: seq<Token>, c: Config)
    requires Number(t) == 16 && Number(k) == 10 && Wf(e) && Wf(f)
    requires st.Peek(3) == Text(a) && st.Peek(2) == Tree(Erase(e)) && st.Peek(0) == Tree(Erase(f))
    requires st.Peek(4) == TokenValue(t)
    ensures var s := ComputeStmt(a, e, f);
            && w + [t] + [TName(a)] + Yield(e) + [k] + Yield(f) == w + YieldBody(s) && WfStmt(s) && StmtSymbol(s) == 30
            && Effect(st, 14, c) == Exec(c, s) && Reduced(st, 14) == Nothing
  {
    hide Stack.Peek, AddCompute, Yield, Erase, Wf;
    assert YyR2(14) == 5;
    hide YyR2;
    assert k == TComma;
    ComputeWords(t, a, Yield(e), Yield(f), w);
  }

  lemma ComputeWords(t: Token, a: string, e: seq<Token>, f: seq<Token>, w: seq<Token>)
    requires t == TCompute
    ensures w + [t] + [TName(a)] + e + [TComma] + f == w + ([TCompute, TName(a)] + (e + ([TComma] + f)))
  {
    assert [t] + [TName(a)] == [TCompute, TName(a)];
    Associate(w, [t], [TName(a)]);
    var v := w + [TCompute, TName(a)];
    Associate(w, [TCompute, TName(a)], e + ([TComma] + f));
    Associate(v, e, [TComma] + f);
    Associate(v + e, [TComma], f);
  }

  lemma FiveReach(st: Stack)
    requires st.Push? && st.below.Push? && st.below.below.Push?
    ensures var b := st.below.below.below;
            st.Pop(5) == b.Pop(2) && st.Peek(3) == b.Peek(0) && st.Peek(4) == b.Peek(1)
  {
    var s1, s2 := st.below, st.below.below;
    var b := s2.below;
    assert st.Pop(5) == s1.Pop(4) == s2.Pop(3) == b.Pop(2);
    assert st.Peek(3) == s1.Peek(2) == s2.Peek(1) == b.Peek(0);
    assert st.Peek(4) == s1.Peek(3) == s2.Peek(2) == b.Peek(1);
  }

  lemma ComputeKeeps(tokens: seq<Token>, m: Machine, ns: Notes) returns (ns': Notes)
    requires Sound(tokens, m, ns) && m.stack.State() == 62
    ensures KeepsSound(tokens, m, YyDefAct(62), ns')
  {
    hide *;
    SoundParts(tokens, m, ns);
    var st := m.stack;
    NotBottom(st);
    OneDown(st, ns);
    CompleteStates();
    TopIsExpr(st, ns);
    EdgesInto(st.below.State(), 62);
    TwoDown(st, ns);
    Accessing(56);
    Kind(ns.below.sym);
    EdgesInto(st.below.below.State(), 56);
    ThreeDown(st, ns);
    var b, nb := st.below.below, ns.below.below;
    TopIsExpr(b, nb);
    EdgesInto(b.below.State(), 47);
    var d, nd := b.below, nb.below;
    NotBottom(d);
    OneDown(d, nd);
    Accessing(26);
    Kind(nd.sym);
    EdgesInto(d.below.State(), 26);
    TwoDown(d, nd);
    Accessing(8);
    Kind(nd.below.sym);
    EdgesInto(d.below.below.State(), 8);
    FiveReach(st);
    var p := Performed(nd.below.below);
    ExprSymFacts(ns.sym, p);
    ExprSymFacts(nb.sym, p);
    NameSymFacts(nd.sym, p);
    TokenSymFacts(ns.below.sym, p);
    TokenSymFacts(nd.below.sym, p);
    TokenFacts(nd.below.sym);
    StmtRules();
    ComputeFacts(st, nd.below.sym.token, nd.sym.text, nb.sym.cst, ns.below.sym.token, ns.sym.cst,
      Words(nd.below.below), m.config);
    var s := ComputeStmt(nd.sym.text, nb.sym.cst, ns.sym.cst);
    StmtKeeps(tokens, m, ns, 14, 5, d.below.below, nd.below.below, s);
    ns' := Note(nd.below.below, SStmt(s));
  }

  // ----- every step, every run

  lemma ReducingStates(p: int)
    requires 0 <= p < 63 && YyDefAct(p) != 0 && p != 2 && p != 17
    ensures p in {0, 10, 18, 20, 23, 24, 25, 27, 28, 29, 30, 31, 32, 33, 34, 35, 36, 37, 41, 42, 43, 45, 46, 48, 49,
                  50, 57, 58, 59, 60, 61, 62}
  {
  }

  lemma NoErrorLine(st: Stack, ns: Notes)
    requires Shape(st, ns)
    ensures st.State() != 17 && st.State() != 3 && 0 <= st.State() < 63
  {
    hide YyStos, SymNumber, SymValue, WfSym, Tight;
  }

  lemma StepKeeps(tokens: seq<Token>, m: Machine, ns: Notes) returns (ns': Notes)
    requires Sound(tokens, m, ns) && Step(m).Running?
    ensures Sound(tokens, Step(m).machine, ns') && Measure(Step(m).machine) < Measure(m)
  {
    var action := Decide(m.stack.State(), NextNumber(m.input));
    assert m.stack.State() != YYFINAL && !action.Fail?;
    assert Step(m) == if action.Shift? then DoShift(m, action.state) else DoReduce(m, action.rule);
    if action.Shift? {
      ns' := ShiftKeeps(tokens, m, ns, action.state);
    } else {
      ns' := ReduceStepKeeps(tokens, m, ns, action.rule);
    }
  }

  lemma ReduceStepKeeps(tokens: seq<Token>, m: Machine, ns: Notes, rule: int) returns (ns': Notes)
    requires Sound(tokens, m, ns) && m.stack.State() != YYFINAL
    requires Decide(m.stack.State(), NextNumber(m.input)) == Reduce(rule)
    ensures KeepsSound(tokens, m, rule, ns')
  {
    hide *;
    var q := m.stack.State();
    SoundParts(tokens, m, ns);
    NoErrorLine(m.stack, ns);
    TokenRange(m.input);
    ReduceReads(q, NextNumber(m.input), rule);
    FinalIsTwo();
    ReducingStates(q);
    if q == 0 {
      ns' := StartKeeps(tokens, m, ns);
    } else if q == 10 {
      ns' := LineKeeps(tokens, m, ns);
    } else if q in {18, 20, 23, 34, 36} {
      ns' := NameKeeps(tokens, m, ns);
    } else if q in {24, 27} {
      ns' := TwoSymbolsKeeps(tokens, m, ns);
    } else if q in {25, 46} {
      ns' := ChipNameKeeps(tokens, m, ns);
    } else if 28 <= q <= 33 {
      ns' := EolKeeps(tokens, m, ns);
    } else if q in {35, 37} {
      ns' := TwoNamesKeeps(tokens, m, ns);
    } else if q in {41, 42, 43} {
      ns' := AtomKeeps(tokens, m, ns);
    } else if q == 45 {
      ns' := SetKeeps(tokens, m, ns);
    } else if q in {48, 49, 50} {
      ns' := PreKeeps(tokens, m, ns);
    } else if q == 57 {
      ns' := ParenKeeps(tokens, m, ns);
    } else if q == 62 {
      ns' := ComputeKeeps(tokens, m, ns);
    } else {
      ns' := BinKeeps(tokens, m, ns);
    }
  }

  lemma FinalIsTwo()
    ensures YYFINAL == 2
  {
  }
}
