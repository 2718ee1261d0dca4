/** The parser as a whole: it accepts exactly the files of the grammar, and the loop with its two stacks
    always comes to an end and computes the outcome. */
module ConfMain {
  import opened Basics
  import opened ConfTables
  import opened SensorExpr
  import opened ConfParse
  import opened ConfGrammar
  import opened ConfComplete
  import opened ConfFiles
  import opened ConfMeaning
  import opened ConfSound

  ghost predicate IsFile(tokens: seq<Token>, ss: seq<Stmt>, c: Config) {
    WfAll(ss) && YieldAll(ss) == tokens && Verdict(ss) == Accepted(c)
  }

  lemma AcceptingStack(tokens: seq<Token>, m: Machine, ns: Notes) returns (ss: seq<Stmt>)
    requires Sound(tokens, m, ns) && m.stack.State() == YYFINAL
    ensures WfAll(ss) && YieldAll(ss) == tokens && ExecAll(ss) == Some(m.config)
  {
    SoundParts(tokens, m, ns);
    FinalIsTwo();
    hide Words, Performed, ExecAll, WfSym, SymYield, SymStmts, YieldAll, WfStmt;
    Top(m.stack, ns);
    var st := m.stack.below;
    assert st.State() == 1;
    Top(st, ns.below);
    Kind(ns.below.sym);
    StateZero(st.below, ns.below.below);
    EofSym(ns.sym);
    WfOf(ns.below.sym);
    ss := ns.below.sym.ss;
    AcceptedWords(ns, ss);
    assert m.input == [] && Words(ns) + [] == Words(ns);
  }

  lemma EofSym(s: Sym)
    requires WfSym(s) && SymNumber(s) == 0
    ensures s == SEof
  {
  }

  lemma AcceptedWords(ns: Notes, ss: seq<Stmt>)
    requires ns == Note(Note(Blank, SInput(ss)), SEof)
    ensures Words(ns) == YieldAll(ss) && Performed(ns) == ss
  {
    hide YieldAll;
    var nb := ns.below;
    assert Words(nb.below) == [] && Performed(nb.below) == [];
    assert Words(nb) == [] + SymYield(nb.sym) == YieldAll(ss);
    assert Performed(nb) == [] + SymStmts(nb.sym) == ss;
    assert Words(ns) == Words(nb) + SymYield(ns.sym) && Performed(ns) == Performed(nb) + SymStmts(ns.sym);
  }

  lemma StepsUnfold(m: Machine, n: nat)
    ensures n == 0 ==> Steps(m, n) == Running(m)
    ensures n > 0 && Step(m).Running? ==> Steps(m, n) == Steps(Step(m).machine, n - 1)
    ensures n > 0 && !Step(m).Running? ==> Steps(m, n) == Step(m)
  {
    hide Step;
  }

  lemma {:induction false} AcceptedIsFile(tokens: seq<Token>, m: Machine, ns: Notes, n: nat, c: Config)
      returns (ss: seq<Stmt>)
    requires Sound(tokens, m, ns) && Steps(m, n) == Accepted(c)
    ensures WfAll(ss) && YieldAll(ss) == tokens && ExecAll(ss) == Some(c)
    decreases n
  {
    hide *;
    StepsUnfold(m, n);
    if Step(m).Running? {
      var ns' := StepKeeps(tokens, m, ns);
      ss := AcceptedIsFile(tokens, Step(m).machine, ns', n - 1, c);
    } else {
      AcceptedStep(m, c);
      ss := AcceptingStack(tokens, m, ns);
    }
  }

  lemma AcceptedStep(m: Machine, c: Config)
    requires Step(m) == Accepted(c)
    ensures m.stack.State() == YYFINAL && m.config == c
  {
    hide Decide, Effect, GoTo, Reduced, Stack.Pop, Stack.Size, YyR1, YyR2;
  }

  lemma StartIsSound(tokens: seq<Token>)
    ensures Sound(tokens, Start(tokens), Blank)
  {
  }

  /** The parser accepts a token sequence, with a given configuration, exactly if the sequence is the tokens
      of some file of the grammar whose statements build that configuration within the stack's limit. */
  lemma AcceptsExactlyTheGrammar(tokens: seq<Token>, c: Config)
    ensures Ends(tokens, Accepted(c)) <==> exists ss :: IsFile(tokens, ss, c)
  {
    if Ends(tokens, Accepted(c)) {
      var n: nat :| Steps(Start(tokens), n) == Accepted(c);
      StartIsSound(tokens);
      var ss := AcceptedIsFile(tokens, Start(tokens), Blank, n, c);
      FilesParse(ss);
      VerdictStops(ss);
      EndIsUnique(tokens, Accepted(c), Verdict(ss));
      assert IsFile(tokens, ss, c);
    }
    if exists ss :: IsFile(tokens, ss, c) {
      var ss :| IsFile(tokens, ss, c);
      FilesParse(ss);
    }
  }

  /** A file as its tokens, that the stack has room for. */
  ghost predicate Written(tokens: seq<Token>, ss: seq<Stmt>) {
    && WfAll(ss) && YieldAll(ss) == tokens
    && forall i | 0 <= i < |ss| :: 2 + PeakStmt(ss[i]) < 10000
  }

  lemma {:induction false} AcceptedFits(ss: seq<Stmt>)
    requires Verdict(ss).Accepted?
    ensures forall i | 0 <= i < |ss| :: 2 + PeakStmt(ss[i]) < YYMAXDEPTH
    decreases |ss|
  {
    hide Exec, PeakStmt;
    if ss != [] {
      AcceptedFits(ss[..|ss| - 1]);
      assert forall i | 0 <= i < |ss| - 1 :: ss[..|ss| - 1][i] == ss[i];
    }
  }

  /** The parser accepts a token sequence exactly if it is that of a file with no statement astray, and then
      leaves behind what the file's statements are, section by section and kind by kind. */
  lemma AcceptsExactlyWithMeaning(tokens: seq<Token>, c: Config)
    ensures Ends(tokens, Accepted(c)) <==> exists ss :: Written(tokens, ss) && !Stray(ss) && c == ConfigOf(ss)
  {
    hide *;
    AcceptsExactlyTheGrammar(tokens, c);
    if Ends(tokens, Accepted(c)) {
      var ss :| IsFile(tokens, ss, c);
      FileIs(tokens, ss, c);
      assert Written(tokens, ss) && !Stray(ss) && c == ConfigOf(ss);
    }
    if exists ss :: Written(tokens, ss) && !Stray(ss) && c == ConfigOf(ss) {
      var ss :| Written(tokens, ss) && !Stray(ss) && c == ConfigOf(ss);
      FileIs(tokens, ss, c);
      assert IsFile(tokens, ss, c);
    }
  }

  lemma FileIs(tokens: seq<Token>, ss: seq<Stmt>, c: Config)
    ensures IsFile(tokens, ss, c) <==> Written(tokens, ss) && !Stray(ss) && c == ConfigOf(ss)
  {
    if IsFile(tokens, ss, c) {
      AcceptedFits(ss);
    }
    ExecAllIs(ss);
    hide Verdict, ExecAll, Stray, ConfigOf, PeakStmt, YieldAll, WfStmt;
    if forall i | 0 <= i < |ss| :: 2 + PeakStmt(ss[i]) < YYMAXDEPTH {
      VerdictIsExec(ss);
    }
  }

  /** The grammar is unambiguous as far as configurations go: files with the same tokens end alike. */
  lemma SameTokensSameVerdict(a: seq<Stmt>, b: seq<Stmt>)
    requires WfAll(a) && WfAll(b) && YieldAll(a) == YieldAll(b)
    ensures Verdict(a) == Verdict(b)
  {
    FilesParse(a);
    FilesParse(b);
    VerdictStops(a);
    VerdictStops(b);
    EndIsUnique(YieldAll(a), Verdict(a), Verdict(b));
  }

  // ----- the loop

  /** The linked stack that a pair of stacks of equal height stands for. */
  function StackOf(yyss: seq<int>, yyvs: seq<Value>): Stack
    requires |yyss| == |yyvs| > 0
    decreases |yyss|
  {
    if |yyss| == 1 then Bottom
    else Push(StackOf(yyss[..|yyss| - 1], yyvs[..|yyvs| - 1]), yyss[|yyss| - 1], yyvs[|yyvs| - 1])
  }

  lemma {:induction false} StackOfSize(yyss: seq<int>, yyvs: seq<Value>)
    requires |yyss| == |yyvs| > 0
    ensures StackOf(yyss, yyvs).Size() == |yyss|
    decreases |yyss|
  {
    if |yyss| > 1 {
      StackOfSize(yyss[..|yyss| - 1], yyvs[..|yyvs| - 1]);
    }
  }

  /** Popping n entries is cutting both stacks; $k is an entry of the value stack. */
  lemma {:induction false} StackOfPop(yyss: seq<int>, yyvs: seq<Value>, n: nat)
    requires |yyss| == |yyvs| > n
    ensures StackOf(yyss, yyvs).Pop(n) == StackOf(yyss[..|yyss| - n], yyvs[..|yyvs| - n])
    decreases n
  {
    if n == 0 {
      assert yyss[..|yyss|] == yyss && yyvs[..|yyvs|] == yyvs;
    } else {
      var s, v := yyss[..|yyss| - 1], yyvs[..|yyvs| - 1];
      StackOfPop(s, v, n - 1);
      assert s[..|s| - (n - 1)] == yyss[..|yyss| - n] && v[..|v| - (n - 1)] == yyvs[..|yyvs| - n];
    }
  }

  lemma {:induction false} StackOfPeek(yyss: seq<int>, yyvs: seq<Value>, i: nat)
    requires |yyss| == |yyvs| > i + 1
    ensures StackOf(yyss, yyvs).Peek(i) == yyvs[|yyvs| - 1 - i]
    decreases i
  {
    if i > 0 {
      StackOfPeek(yyss[..|yyss| - 1], yyvs[..|yyvs| - 1], i - 1);
    }
  }

  lemma StackOfPush(yyss: seq<int>, yyvs: seq<Value>, q: int, v: Value)
    requires |yyss| == |yyvs| > 0
    ensures StackOf(yyss + [q], yyvs + [v]) == Push(StackOf(yyss, yyvs), q, v)
    ensures StackOf(yyss + [q], yyvs + [v]).State() == q
  {
    assert (yyss + [q])[..|yyss|] == yyss && (yyvs + [v])[..|yyvs|] == yyvs;
  }

  // ----- the right-hand sides on the stack

  /** The symbols that the n top states are accessed by, lowest first; fewer if the stack is not that high. */
  function Symbols(st: Stack, n: nat): seq<int>
    decreases n
  {
    if n == 0 || st.Bottom? then [] else Symbols(st.below, n - 1) + [YyStos(st.top)]
  }

  lemma SymbolsDown(st: Stack, n: nat)
    requires st.State() != 0 && n > 0
    ensures st.Push? && Symbols(st, n) == Symbols(st.below, n - 1) + [YyStos(st.State())]
  {
    hide YyStos;
  }

  lemma NoSymbols(st: Stack)
    ensures Symbols(st, 0) == []
  {
  }

  lemma RuleOne(q: int)
    requires q in {18, 20, 23, 25, 34, 36, 41, 42, 43}
    ensures YyR2(YyDefAct(q)) == 1 && YyRhs(YyDefAct(q)) == [YyStos(q)]
  {
  }

  lemma RuleTwo(p: int, q: int)
    requires Edge(p, q) && q in {10, 24, 27, 28, 29, 30, 31, 32, 33, 46, 48, 49, 50}
    ensures p != 0 && YyR2(YyDefAct(q)) == 2 && YyRhs(YyDefAct(q)) == [YyStos(p), YyStos(q)]
  {
  }

  lemma RuleThree(o: int, p: int, q: int)
    requires Edge(o, p) && Edge(p, q) && q in {35, 37, 45, 57, 58, 59, 60, 61}
    ensures o != 0 && p != 0 && YyR2(YyDefAct(q)) == 3 && YyRhs(YyDefAct(q)) == [YyStos(o), YyStos(p), YyStos(q)]
  {
    MiddleOfThree(p, q);
    FirstOfThree(o, p);
    hide Edge;
  }

  lemma MiddleOfThree(p: int, q: int)
    requires Edge(p, q)
    ensures q == 35 ==> p == 19
    ensures q == 37 ==> p == 21
    ensures q == 45 ==> p == 22
    ensures q == 57 ==> p == 51
    ensures q in {58, 59, 60, 61} ==> p == q - 6
  {
  }

  lemma FirstOfThree(o: int, p: int)
    requires Edge(o, p)
    ensures p == 19 ==> o == 4
    ensures p == 21 ==> o == 5
    ensures p == 22 ==> o == 6
    ensures p == 51 ==> o == 44
    ensures p in {52, 53, 54, 55} ==> o in {45, 47, 51, 62, 58, 59}
  {
  }

  lemma RuleFive(n: int, o: int)
    requires Edge(n, o) && Edge(o, 26)
    ensures n == 1 && o == 8
    ensures YyR2(YyDefAct(62)) == 5
    ensures YyRhs(YyDefAct(62)) == [YyStos(8), YyStos(26), YyStos(47), YyStos(56), YyStos(62)]
  {
  }

  lemma RuleZero()
    ensures YyR2(YyDefAct(0)) == 0 && YyRhs(YyDefAct(0)) == []
  {
  }

  lemma NotFirst(p: int, q: int)
    requires Edge(p, q)
    requires q in {10, 24, 27, 28, 29, 30, 31, 32, 33, 46, 48, 49, 50, 35, 37, 45, 57, 58, 59, 60, 61, 62, 56, 47, 26}
    ensures p != 0
  {
  }

  /** A reduction finds exactly its rule's right-hand side on top of a stack whose entries stand for symbols. */
  lemma ReductionFindsItsRule(tokens: seq<Token>, m: Machine, ns: Notes, rule: int)
    requires Sound(tokens, m, ns) && m.stack.State() != YYFINAL
    requires Decide(m.stack.State(), NextNumber(m.input)) == Reduce(rule)
    ensures Symbols(m.stack, |YyRhs(rule)|) == YyRhs(rule) && YyR2(rule) == |YyRhs(rule)|
  {
    hide *;
    var q := m.stack.State();
    SoundParts(tokens, m, ns);
    NoErrorLine(m.stack, ns);
    TokenRange(m.input);
    ReduceReads(q, NextNumber(m.input), rule);
    FinalIsTwo();
    ReducingStates(q);
    var st := m.stack;
    if q == 0 {
      RuleZero();
      NoSymbols(st);
    } else {
      OneDown(st, ns);
      SymbolsDown(st, 1);
      NoSymbols(st.below);
      if q in {18, 20, 23, 25, 34, 36, 41, 42, 43} {
        RuleOne(q);
      } else {
        NotFirst(st.below.State(), q);
        TwoDown(st, ns);
        SymbolsDown(st, 2);
        SymbolsDown(st.below, 1);
        NoSymbols(st.below.below);
        if q in {10, 24, 27, 28, 29, 30, 31, 32, 33, 46, 48, 49, 50} {
          RuleTwo(st.below.State(), q);
        } else {
          ThreeOrFive(st, ns, rule);
        }
      }
    }
  }

  lemma {:induction false} RunIsSound(tokens: seq<Token>, m: Machine, ns: Notes, n: nat, last: Machine)
    returns (notes: Notes)
    requires Sound(tokens, m, ns) && Steps(m, n) == Running(last)
    ensures Sound(tokens, last, notes)
    decreases n
  {
    hide Sound, Step;
    if n == 0 {
      notes := ns;
    } else {
      var next := StepKeeps(tokens, m, ns);
      notes := RunIsSound(tokens, Step(m).machine, next, n - 1, last);
    }
  }

  /** In every run on every token sequence, a reduction finds exactly its rule's right-hand side on top of the
      stack, above at least one more entry. */
  lemma EveryReductionFindsItsRule(tokens: seq<Token>, n: nat, m: Machine, rule: int)
    requires Steps(Start(tokens), n) == Running(m) && m.stack.State() != YYFINAL
    requires Decide(m.stack.State(), NextNumber(m.input)) == Reduce(rule)
    ensures Symbols(m.stack, |YyRhs(rule)|) == YyRhs(rule) && YyR2(rule) == |YyRhs(rule)| < m.stack.Size()
  {
    hide *;
    StartIsSound(tokens);
    var notes := RunIsSound(tokens, Start(tokens), Blank, n, m);
    ReductionFindsItsRule(tokens, m, notes, rule);
    ReductionFits(tokens, m, notes, rule);
  }

  lemma ThreeOrFive(st: Stack, ns: Notes, rule: int)
    requires Shape(st, ns) && st.State() in {35, 37, 45, 57, 58, 59, 60, 61, 62} && rule == YyDefAct(st.State())
    ensures Symbols(st, |YyRhs(rule)|) == YyRhs(rule) && YyR2(rule) == |YyRhs(rule)|
  {
    hide *;
    var q := st.State();
    OneDown(st, ns);
    NotFirst(st.below.State(), q);
    TwoDown(st, ns);
    var b, nb := st.below.below, ns.below.below;
    if q == 62 {
      EdgesInto(st.below.State(), 62);
      EdgesInto(b.State(), 56);
      ThreeDown(st, ns);
      EdgesInto(b.below.State(), 47);
      TwoDown(b, nb);
      var d, nd := b.below, nb.below;
      EdgesInto(d.below.State(), 26);
      TwoDown(d, nd);
      RuleFive(d.below.below.State(), d.below.State());
      SymbolsDown(st, 5);
      SymbolsDown(st.below, 4);
      SymbolsDown(b, 3);
      SymbolsDown(d, 2);
      SymbolsDown(d.below, 1);
      NoSymbols(d.below.below);
    } else {
      RuleThree(b.State(), st.below.State(), q);
      NotBottom(b);
      SymbolsDown(st, 3);
      SymbolsDown(st.below, 2);
      SymbolsDown(b, 1);
      NoSymbols(b.below);
    }
  }

  lemma {:induction false} SymbolsFit(st: Stack, n: nat)
    requires |Symbols(st, n)| == n
    ensures n < st.Size()
    decreases n
  {
    if n > 0 {
      assert st.Push?;
      hide YyStos;
      SymbolsFit(st.below, n - 1);
    }
  }

  /** So the entries an action reads are there. */
  lemma ReductionFits(tokens: seq<Token>, m: Machine, ns: Notes, rule: int)
    requires Sound(tokens, m, ns) && m.stack.State() != YYFINAL
    requires Decide(m.stack.State(), NextNumber(m.input)) == Reduce(rule)
    ensures 0 <= YyR2(rule) < m.stack.Size()
  {
    hide *;
    ReductionFindsItsRule(tokens, m, ns, rule);
    SymbolsFit(m.stack, YyR2(rule));
  }

  // ----- the loop of yyparse

  const YYEMPTY := -2
  const YYEOF := 0

  /** The switch of the actions: $$ and the new configuration, or an error (YYERROR). */
  method Act(ghost yyss: seq<int>, yyvs: seq<Value>, rule: int, config: Config)
      returns (yyval: Value, r: Option<Config>)
    requires |yyss| == |yyvs| && 0 <= YyR2(rule) < |yyvs|
    ensures yyval == Reduced(StackOf(yyss, yyvs), rule)
    ensures r == Effect(StackOf(yyss, yyvs), rule, config)
  {
    var yylen := YyR2(rule);
    var top := |yyvs| - 1;
    yyval := if yylen == 0 then Nothing else yyvs[top + 1 - yylen];
    r := Some(config);
    ghost var st := StackOf(yyss, yyvs);
    forall i: nat | i < yylen ensures st.Peek(i) == yyvs[top - i] {
      StackOfPeek(yyss, yyvs, i);
    }
    hide StackOf, Stack.Peek, AddBus, AddLabel, AddSet, AddCompute, AddIgnore, AddChip;
    match rule
    case 11 => r := Some(AddBus(config, yyvs[top - 1].AsText(), yyvs[top].AsText()));
    case 12 => r := AddLabel(config, yyvs[top - 1].AsText(), yyvs[top].AsText());
    case 13 => r := AddSet(config, yyvs[top - 1].AsText(), yyvs[top].AsTree());
    case 14 => r := AddCompute(config, yyvs[top - 3].AsText(), yyvs[top - 2].AsTree(), yyvs[top].AsTree());
    case 15 => r := AddIgnore(config, yyvs[top].AsText());
    case 16 => r := Some(AddChip(config, yyvs[top].AsNames()));
    case 17 => yyval := Names([yyvs[top].AsText()]);
    case 18 => yyval := Names(yyvs[top - 1].AsNames() + [yyvs[top].AsText()]);
    case 19 => yyval := Tree(Val(if yyvs[top].Numeral? then yyvs[top].number else 0.0));
    case 20 => yyval := Tree(Var(yyvs[top].AsText()));
    case 21 => yyval := Tree(Source);
    case 22 => yyval := Tree(Binary(Add, yyvs[top - 2].AsTree(), yyvs[top].AsTree()));
    case 23 => yyval := Tree(Binary(Subtract, yyvs[top - 2].AsTree(), yyvs[top].AsTree()));
    case 24 => yyval := Tree(Binary(Multiply, yyvs[top - 2].AsTree(), yyvs[top].AsTree()));
    case 25 => yyval := Tree(Binary(Divide, yyvs[top - 2].AsTree(), yyvs[top].AsTree()));
    case 26 => yyval := Tree(Unary(Negate, yyvs[top].AsTree()));
    case 27 => yyval := yyvs[top - 1];
    case 28 => yyval := Tree(Unary(Exp, yyvs[top].AsTree()));
    case 29 => yyval := Tree(Unary(Log, yyvs[top].AsTree()));
    case _ =>
  }

  /** What is still to be parsed: the token read but not shifted, then the rest. */
  function Unread(tokens: seq<Token>, pos: nat, yychar: int): seq<Token>
    requires pos <= |tokens|
  {
    if yychar == YYEMPTY || pos == 0 then tokens[pos..]
    else if yychar == YYEOF then [] else tokens[pos - 1..]
  }

  /** The variables of the loop between two tokens. */
  predicate Reading(tokens: seq<Token>, pos: nat, yychar: int, yylval: Value) {
    && pos <= |tokens|
    && (yychar != YYEMPTY ==>
        if yychar == YYEOF then pos == |tokens| && yylval == Nothing
        else pos > 0 && yychar == Number(tokens[pos - 1]) && yylval == TokenValue(tokens[pos - 1]))
  }

  lemma StepDecides(m: Machine, yyn: Action)
    requires m.stack.Size() < YYMAXDEPTH && m.stack.State() != YYFINAL
    requires yyn == Decide(m.stack.State(), NextNumber(m.input))
    ensures yyn.Fail? ==> Step(m) == SyntaxError
    ensures yyn.Shift? ==> Step(m) == DoShift(m, yyn.state)
    ensures yyn.Reduce? ==> Step(m) == DoReduce(m, yyn.rule)
  {
    hide Decide, DoShift, DoReduce, NextNumber, Stack.Size, Stack.State;
  }

  lemma OneMore(m: Machine, k: nat, next: Machine, o: Outcome)
    requires Steps(m, k) == Running(next) && Step(next) == o
    ensures Steps(m, k + 1) == o
  {
    hide Step;
    StepsCompose(m, k, 1);
    assert Steps(next, 1) == (match o case Running(n) => Steps(n, 0) case _ => o);
  }

  lemma TopState(yyss: seq<int>, yyvs: seq<Value>)
    requires |yyss| == |yyvs| > 0 && yyss[0] == 0
    ensures StackOf(yyss, yyvs).State() == yyss[|yyss| - 1]
  {
  }

  /** With a token read, the table is consulted for that token. */
  lemma Consults(tokens: seq<Token>, pos: nat, yychar: int, yylval: Value)
    requires Reading(tokens, pos, yychar, yylval) && yychar != YYEMPTY
    ensures NextNumber(Unread(tokens, pos, yychar)) == yychar
    ensures yychar == YYEOF ==> Unread(tokens, pos, yychar) == [] == Unread(tokens, pos, YYEMPTY) && yylval == Nothing
    ensures yychar != YYEOF ==>
      Unread(tokens, pos, yychar) == [tokens[pos - 1]] + Unread(tokens, pos, YYEMPTY)
          && yylval == TokenValue(tokens[pos - 1])
  {
    if yychar != YYEOF {
      NumberRange(tokens[pos - 1]);
    }
    hide Number, TokenValue;
  }

  /** YYLEX, when no token is at hand. */
  method ReadToken(tokens: seq<Token>, pos: nat, yychar: int, yylval: Value) returns (p: nat, c: int, v: Value)
    requires Reading(tokens, pos, yychar, yylval)
    ensures p <= |tokens| && Reading(tokens, p, c, v) && c != YYEMPTY
        && Unread(tokens, p, c) == Unread(tokens, pos, yychar)
  {
    p, c, v := pos, yychar, yylval;
    if yychar == YYEMPTY {
      if pos < |tokens| {
        NumberRange(tokens[pos]);
        hide Number, TokenValue;
        p, c, v := pos + 1, Number(tokens[pos]), TokenValue(tokens[pos]);
      } else {
        c, v := YYEOF, Nothing;
      }
    }
  }

  lemma EofValue(tokens: seq<Token>, m: Machine, pos: nat, yychar: int, yylval: Value, q: int)
    requires Reading(tokens, pos, yychar, yylval) && yychar != YYEMPTY && m.input == Unread(tokens, pos, yychar)
    ensures DoShift(m, q) == Running(Machine(Push(m.stack, q, yylval), Unread(tokens, pos, YYEMPTY), m.config))
  {
    Consults(tokens, pos, yychar, yylval);
    hide Reading, Number, TokenValue;
  }

  lemma DecideByDefault(m: Machine, state: int)
    requires state == m.stack.State()
    requires YyPact(state) == YYPACT_NINF || (var i := YyPact(state) + NextNumber(m.input);
               i < 0 || YYLAST < i || YyCheck(i) != NextNumber(m.input))
    ensures Decide(m.stack.State(), NextNumber(m.input)) == if YyDefAct(state) == 0 then Fail
        else Reduce(YyDefAct(state))
  {
    hide YyPact, YyCheck, YyTable, YyDefAct, NextNumber, Stack.State;
  }

  lemma DecideByTable(m: Machine, state: int)
    requires state == m.stack.State()
    requires YyPact(state) != YYPACT_NINF
    requires var i := YyPact(state) + NextNumber(m.input);
             0 <= i <= YYLAST && YyCheck(i) == NextNumber(m.input)
    ensures var yyn := YyTable(YyPact(state) + NextNumber(m.input));
            Decide(m.stack.State(), NextNumber(m.input)) == if yyn <= 0 then Reduce(-yyn) else Shift(yyn)
  {
    hide YyPact, YyCheck, YyTable, YyDefAct, NextNumber, Stack.State;
  }

  lemma ReduceResult(m: Machine, rule: int, below: Stack, yyval: Value, r: Option<Config>)
    requires r == Effect(m.stack, rule, m.config) && yyval == Reduced(m.stack, rule)
    requires 0 <= YyR2(rule) && below == m.stack.Pop(YyR2(rule))
    ensures DoReduce(m, rule) ==
      match r case None => SyntaxError
              case Some(config) => Running(Machine(Push(below, GoTo(below.State(), YyR1(rule)), yyval), m.input,
                  config))
  {
    hide Effect, Reduced, GoTo, YyR1, YyR2, Stack.Pop, Stack.State;
  }

  lemma TooHigh(m: Machine)
    ensures m.stack.Size() >= YYMAXDEPTH ==> Step(m) == Exhausted
    ensures m.stack.Size() < YYMAXDEPTH && m.stack.State() == YYFINAL ==> Step(m) == Accepted(m.config)
  {
    hide Decide, DoShift, DoReduce, Stack.Size, Stack.State;
  }

  /** The yyreduce part of the loop: pop the right-hand side, perform the action, push the result. */
  method DoReduction(yyss: seq<int>, yyvs: seq<Value>, rule: int, config: Config, ghost m: Machine)
    returns (ss: seq<int>, vs: seq<Value>, r: Option<Config>)
    requires |yyss| == |yyvs| > 0 && yyss[0] == 0 && 0 <= YyR2(rule) < |yyss|
    requires m.stack == StackOf(yyss, yyvs) && m.config == config
    ensures |ss| == |vs| > 0 && ss[0] == 0
    ensures DoReduce(m, rule) ==
      match r case None => SyntaxError case Some(c) => Running(Machine(StackOf(ss, vs), m.input, c))
  {
    hide *;
    var yylen := YyR2(rule);
    var yyval: Value;
    yyval, r := Act(yyss, yyvs, rule, config);
    ss, vs := yyss[..|yyss| - yylen], yyvs[..|yyvs| - yylen];
    StackOfPop(yyss, yyvs, yylen);
    TopState(ss, vs);
    ReduceResult(m, rule, StackOf(ss, vs), yyval, r);
    var yystate := GoTo(ss[|ss| - 1], YyR1(rule));
    StackOfPush(ss, vs, yystate, yyval);
    ss, vs := ss + [yystate], vs + [yyval];
  }

  /** The loop of yyparse ends on every token sequence, and the outcome is the one the steps lead to. */
  method YyParse(tokens: seq<Token>) returns (o: Outcome)
    ensures Ends(tokens, o)
  {
    hide *;
    var yyss, yyvs := [0], [Nothing];
    var yychar, yylval, pos: nat := YYEMPTY, Nothing, 0;
    var config := Config([], []);
    ghost var m, ns, k: nat := Start(tokens), Blank, 0;
    Starting(tokens);
    while true
      invariant |yyss| == |yyvs| > 0 && yyss[0] == 0 && Reading(tokens, pos, yychar, yylval)
      invariant pos <= |tokens| && m == Machine(StackOf(yyss, yyvs), Unread(tokens, pos, yychar), config)
      invariant Sound(tokens, m, ns) && Steps(Start(tokens), k) == Running(m)
      decreases Measure(m)
    {
      StackOfSize(yyss, yyvs);
      TopState(yyss, yyvs);
      TooHigh(m);
      OneMore(Start(tokens), k, m, Step(m));
      var yystate := yyss[|yyss| - 1];
      if |yyss| >= YYMAXDEPTH {
        EndsAt(tokens, k + 1, Exhausted);
        return Exhausted;
      }
      if yystate == YYFINAL {
        EndsAt(tokens, k + 1, Accepted(config));
        return Accepted(config);
      }
      StepDecides(m, Decide(m.stack.State(), NextNumber(m.input)));
      var yyn := YyPact(yystate);
      var byDefault := yyn == YYPACT_NINF;
      if !byDefault {
        pos, yychar, yylval := ReadToken(tokens, pos, yychar, yylval);
        Consults(tokens, pos, yychar, yylval);
        yyn := yyn + yychar;
        byDefault := yyn < 0 || YYLAST < yyn || YyCheck(yyn) != yychar;
      }
      if byDefault {
        DecideByDefault(m, yystate);
        yyn := YyDefAct(yystate);
        if yyn == 0 {
          EndsAt(tokens, k + 1, SyntaxError);
          return SyntaxError;
        }
      } else {
        DecideByTable(m, yystate);
        yyn := YyTable(yyn);
        if yyn > 0 {
          EofValue(tokens, m, pos, yychar, yylval, yyn);
          ns := StepKeeps(tokens, m, ns);
          m, k := Step(m).machine, k + 1;
          StackOfPush(yyss, yyvs, yyn, yylval);
          yyss, yyvs := yyss + [yyn], yyvs + [yylval];
          yychar := YYEMPTY;
          NothingRead(tokens, pos, yylval);
          continue;
        }
        yyn := -yyn;
      }
      ReductionFits(tokens, m, ns, yyn);
      var r: Option<Config>;
      yyss, yyvs, r := DoReduction(yyss, yyvs, yyn, config, m);
      if r.None? {
        EndsAt(tokens, k + 1, SyntaxError);
        return SyntaxError;
      }
      ns := StepKeeps(tokens, m, ns);
      m, k := Step(m).machine, k + 1;
      config := r.value;
    }
  }

  lemma Starting(tokens: seq<Token>)
    ensures Start(tokens) == Machine(StackOf([0], [Nothing]), Unread(tokens, 0, YYEMPTY), Config([], []))
    ensures Sound(tokens, Start(tokens), Blank) && Steps(Start(tokens), 0) == Running(Start(tokens))
    ensures Reading(tokens, 0, YYEMPTY, Nothing)
  {
    StartIsSound(tokens);
    hide Sound;
  }

  lemma NothingRead(tokens: seq<Token>, pos: nat, v: Value)
    ensures pos <= |tokens| ==> Reading(tokens, pos, YYEMPTY, v)
  {
  }
}
