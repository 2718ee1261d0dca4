/** Evaluating sensor values (arm/gator-daemon/libsensors/access.c): a reading may go through a compute
    statement, whose expression may name other readings, and so on; a bound on the depth stops cycles.

    The evaluator is proved against a semantics without any bound, given by evaluation trees. What a reading
    of the hardware yields, exp and log are parameters; numbers are reals. */
module SensorAccess {
  import opened Basics
  import opened SensorExpr

  const DEPTH_MAX := 8

  // Wildcards of chip names; a prefix that is not there is one, too.
  const SENSORS_BUS_TYPE_ANY := -1
  const SENSORS_BUS_NR_ANY := -1
  const SENSORS_CHIP_NAME_ADDR_ANY := -1

  datatype Error = Wildcards | NoEntry | AccessR | DivZero | Sysfs(code: int)

  /** `Recursion` is -SENSORS_ERR_RECURSION, kept apart from the errors that do not depend on the bound. */
  datatype Result = Ok(value: real) | Err(error: Error) | Recursion

  datatype Reading = Value(value: real) | Failed(code: int)

  datatype ChipName = ChipName(prefix: Option<string>, busType: int, busNr: int, addr: int)

  datatype Section = Section(fits: seq<ChipName>, computes: seq<Compute>)

  datatype Subfeature = Subfeature(name: string, number: int, mapping: int, readable: bool, computed: bool)

  datatype ChipFeatures = ChipFeatures(chip: ChipName, features: seq<string>, subfeatures: seq<Subfeature>)
  {
    /** Every computed subfeature belongs to a feature, as the scan of sysfs makes sure. */
    predicate Valid() {
      forall s <- subfeatures :: s.computed ==> 0 <= s.mapping < |features|
    }
  }

  datatype World = World(
    sections: seq<Section>,
    procChips: seq<ChipFeatures>,
    sysfs: (ChipName, Subfeature) -> Reading,
    exp: real -> real,
    log: real -> real)
  {
    predicate Valid() {
      forall c <- procChips :: c.Valid()
    }
  }

  // ----- chip names

  predicate Matches(a: ChipName, b: ChipName) {
    && (a.prefix == None || b.prefix == None || a.prefix == b.prefix)
    && (a.busType == SENSORS_BUS_TYPE_ANY || b.busType == SENSORS_BUS_TYPE_ANY || a.busType == b.busType)
    && (a.busNr == SENSORS_BUS_NR_ANY || b.busNr == SENSORS_BUS_NR_ANY || a.busNr == b.busNr)
    && (a.addr == b.addr || a.addr == SENSORS_CHIP_NAME_ADDR_ANY || b.addr == SENSORS_CHIP_NAME_ADDR_ANY)
  }

  predicate HasWildcards(c: ChipName) {
    c.prefix == None || c.busType == SENSORS_BUS_TYPE_ANY || c.busNr == SENSORS_BUS_NR_ANY
        || c.addr == SENSORS_CHIP_NAME_ADDR_ANY
  }

  /** Two names match exactly if some absolute name is an instance of both. */
  lemma MatchesIsCommonInstance(a: ChipName, b: ChipName)
    ensures Matches(a, b) <==> exists c :: !HasWildcards(c) && Matches(a, c) && Matches(b, c)
  {
    if Matches(a, b) {
      var prefix := if a.prefix != None then a.prefix else if b.prefix != None then b.prefix else Some("");
      var busType := if a.busType != -1 then a.busType else if b.busType != -1 then b.busType else 0;
      var busNr := if a.busNr != -1 then a.busNr else if b.busNr != -1 then b.busNr else 0;
      var addr := if a.addr != -1 then a.addr else if b.addr != -1 then b.addr else 0;
      var c := ChipName(prefix, busType, busNr, addr);
      assert !HasWildcards(c) && Matches(a, c) && Matches(b, c);
    }
  }

  // ----- looking things up

  function ChipIn(chips: seq<ChipFeatures>, name: ChipName): (r: Option<ChipFeatures>)
    ensures r.Some? ==> r.value in chips
  {
    if chips == [] then None
    else if Matches(chips[0].chip, name) then Some(chips[0]) else ChipIn(chips[1..], name)
  }

  method LookupChip(chips: seq<ChipFeatures>, name: ChipName) returns (r: Option<ChipFeatures>)
    ensures r == ChipIn(chips, name)
  {
    var i := 0;
    while i < |chips|
      invariant 0 <= i <= |chips| && ChipIn(chips, name) == ChipIn(chips[i..], name)
    {
      if Matches(chips[i].chip, name) {
        return Some(chips[i]);
      }
      i := i + 1;
    }
    r := None;
  }

  function SubfeatureNr(chip: ChipFeatures, nr: int): Option<Subfeature> {
    if nr < 0 || nr >= |chip.subfeatures| then None else Some(chip.subfeatures[nr])
  }

  function SubfeatureNamed(subfeatures: seq<Subfeature>, name: string): Option<Subfeature> {
    if subfeatures == [] then None
    else if subfeatures[0].name == name then Some(subfeatures[0]) else SubfeatureNamed(subfeatures[1..], name)
  }

  method LookupSubfeatureName(chip: ChipFeatures, name: string) returns (r: Option<Subfeature>)
    ensures r == SubfeatureNamed(chip.subfeatures, name)
  {
    var j := 0;
    while j < |chip.subfeatures|
      invariant 0 <= j <= |chip.subfeatures|
      invariant SubfeatureNamed(chip.subfeatures, name) == SubfeatureNamed(chip.subfeatures[j..], name)
    {
      if chip.subfeatures[j].name == name {
        return Some(chip.subfeatures[j]);
      }
      j := j + 1;
    }
    r := None;
  }

  predicate SectionFits(s: Section, name: ChipName) {
    exists i | 0 <= i < |s.fits| :: Matches(s.fits[i], name)
  }

  /** The section before `last` that fits a name, nearest to it; -1 if there is none. */
  method ForAllConfigChips(sections: seq<Section>, name: ChipName, last: nat) returns (nr: int)
    requires last <= |sections|
    ensures -1 <= nr < last && (nr >= 0 ==> SectionFits(sections[nr], name))
    ensures forall k | nr < k < last :: !SectionFits(sections[k], name)
  {
    nr := last - 1;
    while nr >= 0
      invariant -1 <= nr < last
      invariant forall k | nr < k < last :: !SectionFits(sections[k], name)
    {
      var fits := sections[nr].fits;
      var i := 0;
      while i < |fits|
        invariant 0 <= i <= |fits|
        invariant forall k | 0 <= k < i :: !Matches(fits[k], name)
      {
        if Matches(fits[i], name) {
          return;
        }
        i := i + 1;
      }
      nr := nr - 1;
    }
  }

  function ComputeIn(computes: seq<Compute>, feature: string): Option<Expr> {
    if computes == [] then None
    else if computes[0].name == feature then Some(computes[0].fromProc) else ComputeIn(computes[1..], feature)
  }

  /** The compute statement for a feature among the first sections. */
  function ComputeFor(sections: seq<Section>, name: ChipName, feature: string): Option<Expr> {
    if sections == [] then None
    else
      var s := sections[|sections| - 1];
      if SectionFits(s, name) && ComputeIn(s.computes, feature).Some? then ComputeIn(s.computes, feature)
      else ComputeFor(sections[..|sections| - 1], name, feature)
  }

  lemma {:induction false} SkipSections(sections: seq<Section>, name: ChipName, feature: string, n: nat)
    requires n <= |sections|
    requires forall k | n <= k < |sections| ::
               SectionFits(sections[k], name) ==> ComputeIn(sections[k].computes, feature) == None
    ensures ComputeFor(sections, name, feature) == ComputeFor(sections[..n], name, feature)
    decreases |sections|
  {
    if n < |sections| {
      var rest := sections[..|sections| - 1];
      SkipSections(rest, name, feature, n);
      assert rest[..n] == sections[..n];
    } else {
      assert sections[..n] == sections;
    }
  }

  method FindCompute(sections: seq<Section>, name: ChipName, feature: string) returns (expr: Option<Expr>)
    ensures expr == ComputeFor(sections, name, feature)
  {
    expr := None;
    var last := |sections|;
    assert sections[..last] == sections;
    while true
      invariant last <= |sections| && expr == None
      invariant ComputeFor(sections, name, feature) == ComputeFor(sections[..last], name, feature)
      decreases last
    {
      var chip := ForAllConfigChips(sections, name, last);
      SkipSections(sections[..last], name, feature, chip + 1);
      assert sections[..last][..chip + 1] == sections[..chip + 1];
      if chip < 0 {
        return;
      }
      assert sections[..chip + 1][..chip] == sections[..chip];
      var computes := sections[chip].computes;
      var i := 0;
      while i < |computes|
        invariant 0 <= i <= |computes| && ComputeIn(computes, feature) == ComputeIn(computes[i..], feature)
      {
        if computes[i].name == feature {
          expr := Some(computes[i].fromProc);
          return;
        }
        i := i + 1;
      }
      last := chip;
    }
  }

  /** The j-th statement is the first for this feature in its section. */
  predicate FirstFor(computes: seq<Compute>, feature: string, j: nat) {
    j < |computes| && computes[j].name == feature && forall k | 0 <= k < j :: computes[k].name != feature
  }

  lemma {:induction false} ComputeInIsFirst(computes: seq<Compute>, feature: string) returns (j: nat)
    ensures ComputeIn(computes, feature).Some? ==>
      FirstFor(computes, feature, j) && ComputeIn(computes, feature) == Some(computes[j].fromProc)
    ensures ComputeIn(computes, feature).None? ==> forall k | 0 <= k < |computes| :: computes[k].name != feature
    decreases |computes|
  {
    j := 0;
    if computes != [] && computes[0].name != feature {
      var i := ComputeInIsFirst(computes[1..], feature);
      j := i + 1;
    }
  }

  /** No section from the given one on both fits and has a statement for the feature. */
  predicate NoneLater(sections: seq<Section>, name: ChipName, feature: string, from: nat) {
    forall i, k | from <= i < |sections| && SectionFits(sections[i], name) && 0 <= k < |sections[i].computes| ::
      sections[i].computes[k].name != feature
  }

  /** Which statement applies: the first for the feature in the last section that fits the chip and has one. */
  lemma LastSectionFirstStatement(sections: seq<Section>, name: ChipName, feature: string, i: nat, j: nat)
    requires i < |sections| && SectionFits(sections[i], name) && FirstFor(sections[i].computes, feature, j)
    requires NoneLater(sections, name, feature, i + 1)
    ensures ComputeFor(sections, name, feature) == Some(sections[i].computes[j].fromProc)
  {
    forall k | i + 1 <= k < |sections| && SectionFits(sections[k], name)
      ensures ComputeIn(sections[k].computes, feature) == None
    {
      var l := ComputeInIsFirst(sections[k].computes, feature);
    }
    SkipSections(sections, name, feature, i + 1);
    assert sections[..i + 1][i] == sections[i];
    var l := ComputeInIsFirst(sections[i].computes, feature);
    assert l == j;
  }

  /** And no statement applies exactly if no section that fits has one. */
  lemma {:induction false} NoStatement(sections: seq<Section>, name: ChipName, feature: string)
    ensures ComputeFor(sections, name, feature) == None <==> NoneLater(sections, name, feature, 0)
    decreases |sections|
  {
    if sections != [] {
      var last := |sections| - 1;
      var rest := sections[..last];
      NoStatement(rest, name, feature);
      var j := ComputeInIsFirst(sections[last].computes, feature);
      if NoneLater(sections, name, feature, 0) {
        assert NoneLater(rest, name, feature, 0);
      }
    }
  }

  // ----- the evaluator

  function Apply2(op: BinOp, x: real, y: real): Result {
    match op
    case Add => Ok(x + y)
    case Subtract => Ok(x - y)
    case Multiply => Ok(x * y)
    case Divide => if y == 0.0 then Err(DivZero) else Ok(x / y)
  }

  function Apply1(w: World, op: UnOp, x: real): Result {
    match op
    case Negate => Ok(-x)
    case Exp => Ok(w.exp(x))
    case Log => if x < 0.0 then Err(DivZero) else Ok(w.log(x))
  }

  /** What reading a subfeature takes, apart from evaluating an expression. */
  datatype Plan = Fails(error: Error) | Raw(value: real) | Through(chip: ChipFeatures, expr: Expr, value: real)

  function Measured(w: World, name: ChipName, chip: ChipFeatures, s: Subfeature, expr: Option<Expr>): Plan {
    match w.sysfs(name, s)
    case Failed(code) => Fails(Sysfs(code))
    case Value(v) => if expr == None then Raw(v) else Through(chip, expr.value, v)
  }

  function PlanFor(w: World, name: ChipName, nr: int): Plan
    requires w.Valid()
  {
    if HasWildcards(name) then Fails(Wildcards)
    else
      match ChipIn(w.procChips, name)
      case None => Fails(NoEntry)
      case Some(chip) =>
        match SubfeatureNr(chip, nr)
        case None => Fails(NoEntry)
        case Some(s) =>
          if !s.readable then Fails(AccessR)
          else
            assert chip.Valid() && s in chip.subfeatures;
            Measured(w, name, chip, s,
              if s.computed then ComputeFor(w.sections, name, chip.features[s.mapping]) else None)
  }

  /** `__sensors_get_value` */
  function GetValue(w: World, name: ChipName, nr: int, depth: nat): Result
    requires w.Valid()
    decreases if depth < DEPTH_MAX then DEPTH_MAX - depth else 0, 1, Source
  {
    if depth >= DEPTH_MAX then Recursion
    else
      match PlanFor(w, name, nr)
      case Fails(e) => Err(e)
      case Raw(v) => Ok(v)
      case Through(chip, expr, v) => Eval(w, chip, expr, v, depth)
  }

  /** `sensors_eval_expr` */
  function Eval(w: World, chip: ChipFeatures, expr: Expr, val: real, depth: nat): Result
    requires w.Valid() && depth < DEPTH_MAX
    decreases DEPTH_MAX - depth, 0, expr
  {
    match expr
    case Val(v) => Ok(v)
    case Source => Ok(val)
    case Var(name) =>
      (match SubfeatureNamed(chip.subfeatures, name)
       case None => Err(NoEntry)
       case Some(s) => GetValue(w, chip.chip, s.number, depth + 1))
    case Unary(op, a) =>
      (match Eval(w, chip, a, val, depth)
       case Ok(x) => Apply1(w, op, x)
       case o => o)
    case Binary(op, a, b) =>
      (match Eval(w, chip, a, val, depth)
       case Ok(x) =>
         (match Eval(w, chip, b, val, depth)
          case Ok(y) => Apply2(op, x, y)
          case o => o)
       case o => o)
  }

  /** The recursion as the program has it, with its searches. */
  method SensorsGetValue(w: World, name: ChipName, nr: int, depth: nat) returns (r: Result)
    requires w.Valid()
    ensures r == GetValue(w, name, nr, depth)
    decreases if depth < DEPTH_MAX then DEPTH_MAX - depth else 0, 1, Source
  {
    if depth >= DEPTH_MAX {
      return Recursion;
    }
    if HasWildcards(name) {
      return Err(Wildcards);
    }
    var chip := LookupChip(w.procChips, name);
    if chip.None? {
      return Err(NoEntry);
    }
    var subfeature := SubfeatureNr(chip.value, nr);
    if subfeature.None? {
      return Err(NoEntry);
    }
    if !subfeature.value.readable {
      return Err(AccessR);
    }
    var expr: Option<Expr> := None;
    if subfeature.value.computed {
      assert chip.value.Valid() && subfeature.value in chip.value.subfeatures;
      expr := FindCompute(w.sections, name, chip.value.features[subfeature.value.mapping]);
    }
    match w.sysfs(name, subfeature.value)
    case Failed(code) => r := Err(Sysfs(code));
    case Value(v) =>
      if expr == None {
        r := Ok(v);
      } else {
        r := SensorsEvalExpr(w, chip.value, expr.value, v, depth);
      }
  }

  method SensorsEvalExpr(w: World, chip: ChipFeatures, expr: Expr, val: real, depth: nat) returns (r: Result)
    requires w.Valid() && depth < DEPTH_MAX
    ensures r == Eval(w, chip, expr, val, depth)
    decreases DEPTH_MAX - depth, 0, expr
  {
    match expr
    case Val(v) => r := Ok(v);
    case Source => r := Ok(val);
    case Var(name) =>
      var subfeature := LookupSubfeatureName(chip, name);
      if subfeature.None? {
        return Err(NoEntry);
      }
      r := SensorsGetValue(w, chip.chip, subfeature.value.number, depth + 1);
    case Unary(op, a) =>
      r := SensorsEvalExpr(w, chip, a, val, depth);
      if r.Ok? {
        r := Apply1(w, op, r.value);
      }
    case Binary(op, a, b) =>
      r := SensorsEvalExpr(w, chip, a, val, depth);
      if r.Ok? {
        var res1 := r.value;
        r := SensorsEvalExpr(w, chip, b, val, depth);
        if r.Ok? {
          r := Apply2(op, res1, r.value);
        }
      }
  }

  // ----- the semantics without a bound

  /** How an expression was evaluated: the outcomes of its operands, and how readings came about. */
  datatype Tree = Leaf | Variable(get: Get) | One(r: Result, t: Tree) | Two(r1: Result, t1: Tree, r2: Result, t2: Tree)

  datatype Get = Plain | Computed(t: Tree)

  ghost predicate Evaluates(w: World, chip: ChipFeatures, expr: Expr, val: real, o: Result, t: Tree)
    requires w.Valid()
    decreases t
  {
    match expr
    case Val(v) => o == Ok(v) && t == Leaf
    case Source => o == Ok(val) && t == Leaf
    case Var(name) =>
      (match SubfeatureNamed(chip.subfeatures, name)
       case None => o == Err(NoEntry) && t == Leaf
       case Some(s) => t.Variable? && Gets(w, chip.chip, s.number, o, t.get))
    case Unary(op, a) =>
      && t.One? && Evaluates(w, chip, a, val, t.r, t.t)
      && o == if t.r.Ok? then Apply1(w, op, t.r.value) else t.r
    case Binary(op, a, b) =>
      || (t.One? && !t.r.Ok? && Evaluates(w, chip, a, val, t.r, t.t) && o == t.r)
      || (&& t.Two? && t.r1.Ok? && Evaluates(w, chip, a, val, t.r1, t.t1) && Evaluates(w, chip, b, val, t.r2, t.t2)
          && o == if t.r2.Ok? then Apply2(op, t.r1.value, t.r2.value) else t.r2)
  }

  ghost predicate Gets(w: World, name: ChipName, nr: int, o: Result, g: Get)
    requires w.Valid()
    decreases g
  {
    match PlanFor(w, name, nr)
    case Fails(e) => o == Err(e) && g == Plain
    case Raw(v) => o == Ok(v) && g == Plain
    case Through(chip, expr, v) => g.Computed? && Evaluates(w, chip, expr, v, o, g.t)
  }

  /** How deep readings nest. */
  function Height(t: Tree): nat {
    match t
    case Leaf => 0
    case Variable(g) => Depth(g)
    case One(_, t1) => Height(t1)
    case Two(_, t1, _, t2) => if Height(t1) < Height(t2) then Height(t2) else Height(t1)
  }

  function Depth(g: Get): nat {
    match g
    case Plain => 1
    case Computed(t) => 1 + Height(t)
  }

  // ----- the bounded evaluator against it

  lemma {:induction false} EvalHasTree(w: World, chip: ChipFeatures, expr: Expr, val: real, depth: nat)
      returns (t: Tree)
    requires w.Valid() && depth < DEPTH_MAX && Eval(w, chip, expr, val, depth) != Recursion
    ensures Evaluates(w, chip, expr, val, Eval(w, chip, expr, val, depth), t) && depth + Height(t) < DEPTH_MAX
    decreases DEPTH_MAX - depth, 0, expr
  {
    hide Apply1, Apply2, PlanFor, SubfeatureNamed;
    match expr
    case Var(name) =>
      match SubfeatureNamed(chip.subfeatures, name) {
        case None =>
          t := Leaf;
        case Some(s) =>
          var g := GetHasTree(w, chip.chip, s.number, depth + 1);
          t := Variable(g);
      }
    case Unary(op, a) =>
      var t1 := EvalHasTree(w, chip, a, val, depth);
      t := One(Eval(w, chip, a, val, depth), t1);
    case Binary(op, a, b) =>
      var t1 := EvalHasTree(w, chip, a, val, depth);
      var r1 := Eval(w, chip, a, val, depth);
      if r1.Ok? {
        var t2 := EvalHasTree(w, chip, b, val, depth);
        t := Two(r1, t1, Eval(w, chip, b, val, depth), t2);
      } else {
        t := One(r1, t1);
      }
    case _ =>
      t := Leaf;
  }

  lemma {:induction false} GetHasTree(w: World, name: ChipName, nr: int, depth: nat) returns (g: Get)
    requires w.Valid() && GetValue(w, name, nr, depth) != Recursion
    ensures Gets(w, name, nr, GetValue(w, name, nr, depth), g) && depth + Depth(g) <= DEPTH_MAX
    decreases if depth < DEPTH_MAX then DEPTH_MAX - depth else 0, 1, Source
  {
    hide PlanFor, Eval, Evaluates;
    match PlanFor(w, name, nr)
    case Through(chip, expr, v) =>
      var t := EvalHasTree(w, chip, expr, v, depth);
      g := Computed(t);
    case _ =>
      g := Plain;
  }

  lemma {:induction false} TreeIsEval(w: World, chip: ChipFeatures, expr: Expr, val: real, o: Result, t: Tree,
      depth: nat)
    requires w.Valid() && Evaluates(w, chip, expr, val, o, t) && depth + Height(t) < DEPTH_MAX
    ensures Eval(w, chip, expr, val, depth) == o && o != Recursion
    decreases t
  {
    hide Apply1, Apply2, PlanFor, SubfeatureNamed;
    match expr
    case Var(name) =>
      match SubfeatureNamed(chip.subfeatures, name) {
        case None =>
        case Some(s) => TreeIsGet(w, chip.chip, s.number, o, t.get, depth + 1);
      }
    case Unary(op, a) =>
      TreeIsEval(w, chip, a, val, t.r, t.t, depth);
      NoRecursion(w);
    case Binary(op, a, b) =>
      NoRecursion(w);
      if t.One? {
        TreeIsEval(w, chip, a, val, t.r, t.t, depth);
      } else {
        TreeIsEval(w, chip, a, val, t.r1, t.t1, depth);
        TreeIsEval(w, chip, b, val, t.r2, t.t2, depth);
      }
    case _ =>
  }

  lemma NoRecursion(w: World)
    ensures forall op, x :: Apply1(w, op, x) != Recursion
    ensures forall op, x, y :: Apply2(op, x, y) != Recursion
  {
  }

  lemma {:induction false} TreeIsGet(w: World, name: ChipName, nr: int, o: Result, g: Get, depth: nat)
    requires w.Valid() && Gets(w, name, nr, o, g) && depth + Depth(g) <= DEPTH_MAX
    ensures GetValue(w, name, nr, depth) == o && o != Recursion
    decreases g
  {
    hide PlanFor, Evaluates;
    match PlanFor(w, name, nr)
    case Through(chip, expr, v) => TreeIsEval(w, chip, expr, v, o, g.t, depth);
    case _ =>
  }

  /** The bound only ever turns an outcome into -SENSORS_ERR_RECURSION, and it does so exactly if readings
      nest deeper than the bound allows. Any other outcome, value or error, is the one without a bound. */
  lemma BoundIsExact(w: World, name: ChipName, nr: int, depth: nat, o: Result)
    requires w.Valid() && o != Recursion
    ensures GetValue(w, name, nr, depth) == o <==> exists g :: Gets(w, name, nr, o, g) && depth + Depth(g) <= DEPTH_MAX
  {
    if GetValue(w, name, nr, depth) == o {
      var g := GetHasTree(w, name, nr, depth);
    }
    if g :| Gets(w, name, nr, o, g) && depth + Depth(g) <= DEPTH_MAX {
      TreeIsGet(w, name, nr, o, g, depth);
    }
  }

  lemma RecursionMeansDeep(w: World, name: ChipName, nr: int, depth: nat)
    requires w.Valid()
    ensures GetValue(w, name, nr, depth) == Recursion <==>
      forall o, g :: Gets(w, name, nr, o, g) ==> depth + Depth(g) > DEPTH_MAX
  {
    if GetValue(w, name, nr, depth) == Recursion {
      forall o, g | Gets(w, name, nr, o, g) ensures depth + Depth(g) > DEPTH_MAX {
        if depth + Depth(g) <= DEPTH_MAX {
          TreeIsGet(w, name, nr, o, g, depth);
        }
      }
    } else {
      var g := GetHasTree(w, name, nr, depth);
    }
  }

  // ----- the unbounded semantics has one outcome at most, and none on a cycle

  lemma {:induction false} OneTree(w: World, chip: ChipFeatures, expr: Expr, val: real, o: Result, t: Tree,
      o': Result, t': Tree)
    requires w.Valid() && Evaluates(w, chip, expr, val, o, t) && Evaluates(w, chip, expr, val, o', t')
    ensures o == o' && t == t'
    decreases t
  {
    hide Apply1, Apply2, PlanFor, SubfeatureNamed;
    match expr
    case Var(name) =>
      match SubfeatureNamed(chip.subfeatures, name) {
        case None =>
        case Some(s) => OneGet(w, chip.chip, s.number, o, t.get, o', t'.get);
      }
    case Unary(op, a) =>
      OneTree(w, chip, a, val, t.r, t.t, t'.r, t'.t);
    case Binary(op, a, b) =>
      var r1, s1 := if t.One? then t.r else t.r1, if t.One? then t.t else t.t1;
      var r2, s2 := if t'.One? then t'.r else t'.r1, if t'.One? then t'.t else t'.t1;
      OneTree(w, chip, a, val, r1, s1, r2, s2);
      if t.Two? {
        OneTree(w, chip, b, val, t.r2, t.t2, t'.r2, t'.t2);
      }
    case _ =>
  }

  lemma {:induction false} OneGet(w: World, name: ChipName, nr: int, o: Result, g: Get, o': Result, g': Get)
    requires w.Valid() && Gets(w, name, nr, o, g) && Gets(w, name, nr, o', g')
    ensures o == o' && g == g'
    decreases g
  {
    hide PlanFor, Evaluates;
    match PlanFor(w, name, nr)
    case Through(chip, expr, v) => OneTree(w, chip, expr, v, o, g.t, o', g'.t);
    case _ =>
  }

  predicate Mentions(e: Expr, name: string) {
    match e
    case Var(n) => n == name
    case Unary(_, a) => Mentions(a, name)
    case Binary(_, a, b) => Mentions(a, name) || Mentions(b, name)
    case _ => false
  }

  /** A reading: a chip name and the number of a subfeature. */
  datatype Node = Node(name: ChipName, nr: int)

  /** The compute statement of one reading names the other. */
  predicate Uses(w: World, a: Node, b: Node)
    requires w.Valid()
  {
    var plan := PlanFor(w, a.name, a.nr);
    plan.Through? && exists s <- plan.chip.subfeatures ::
      && Mentions(plan.expr, s.name) && SubfeatureNamed(plan.chip.subfeatures, s.name) == Some(s)
      && b == Node(plan.chip.chip, s.number)
  }

  /** A successful evaluation has read every variable, less deep. */
  lemma {:induction false} ReadsVariables(w: World, chip: ChipFeatures, expr: Expr, val: real, o: Result, t: Tree,
      s: Subfeature)
    returns (x: Result, g: Get)
    requires w.Valid() && Evaluates(w, chip, expr, val, o, t) && o.Ok?
    requires Mentions(expr, s.name) && SubfeatureNamed(chip.subfeatures, s.name) == Some(s)
    ensures x.Ok? && Gets(w, chip.chip, s.number, x, g) && Depth(g) <= Height(t)
    decreases t
  {
    hide Apply1, Apply2, PlanFor, SubfeatureNamed, Gets;
    match expr
    case Var(name) =>
      x, g := o, t.get;
    case Unary(op, a) =>
      x, g := ReadsVariables(w, chip, a, val, t.r, t.t, s);
    case Binary(op, a, b) =>
      if Mentions(a, s.name) {
        x, g := ReadsVariables(w, chip, a, val, t.r1, t.t1, s);
      } else {
        x, g := ReadsVariables(w, chip, b, val, t.r2, t.t2, s);
      }
  }

  lemma ReadsUsed(w: World, a: Node, b: Node, o: Result, g: Get) returns (x: Result, h: Get)
    requires w.Valid() && Gets(w, a.name, a.nr, o, g) && o.Ok? && Uses(w, a, b)
    ensures x.Ok? && Gets(w, b.name, b.nr, x, h) && Depth(h) < Depth(g)
  {
    hide PlanFor, Evaluates, Height, Mentions;
    var plan := PlanFor(w, a.name, a.nr);
    var s :| s in plan.chip.subfeatures && Mentions(plan.expr, s.name)
      && SubfeatureNamed(plan.chip.subfeatures, s.name) == Some(s) && b == Node(plan.chip.chip, s.number);
    x, h := ReadsVariables(w, plan.chip, plan.expr, plan.value, o, g.t, s);
  }

  predicate Chain(w: World, path: seq<Node>)
    requires w.Valid()
  {
    path != [] && forall i | 0 <= i < |path| - 1 :: Uses(w, path[i], path[i + 1])
  }

  lemma {:induction false} ReadsAlong(w: World, path: seq<Node>, o: Result, g: Get) returns (x: Result, h: Get)
    requires w.Valid() && Chain(w, path) && Gets(w, path[0].name, path[0].nr, o, g) && o.Ok?
    ensures var b := path[|path| - 1];
            x.Ok? && Gets(w, b.name, b.nr, x, h) && Depth(h) + |path| - 1 <= Depth(g)
    decreases |path|
  {
    hide Uses, Gets, Depth;
    if |path| == 1 {
      x, h := o, g;
    } else {
      x, h := ReadsUsed(w, path[0], path[1], o, g);
      x, h := ReadsAlong(w, path[1..], x, h);
    }
  }

  /** A reading that leads to a cycle of compute statements has no value, with or without a bound. */
  lemma CyclesNeverSucceed(w: World, path: seq<Node>, cycle: seq<Node>, depth: nat)
    requires w.Valid() && Chain(w, path) && Chain(w, cycle) && |cycle| > 1
    requires path[|path| - 1] == cycle[0] == cycle[|cycle| - 1]
    ensures !GetValue(w, path[0].name, path[0].nr, depth).Ok?
    ensures forall o, g :: Gets(w, path[0].name, path[0].nr, o, g) ==> !o.Ok?
  {
    hide Gets, GetValue, Uses;
    forall o, g | Gets(w, path[0].name, path[0].nr, o, g) ensures !o.Ok? {
      if o.Ok? {
        var x, h := ReadsAlong(w, path, o, g);
        var y, k := ReadsAlong(w, cycle, x, h);
        OneGet(w, cycle[0].name, cycle[0].nr, x, h, y, k);
      }
    }
    if GetValue(w, path[0].name, path[0].nr, depth).Ok? {
      var g := GetHasTree(w, path[0].name, path[0].nr, depth);
    }
  }

  /** Nor does one succeed from which compute statements lead on for as many readings as the bound. */
  lemma LongChainsNeverSucceed(w: World, path: seq<Node>, depth: nat)
    requires w.Valid() && Chain(w, path) && depth + |path| > DEPTH_MAX
    ensures !GetValue(w, path[0].name, path[0].nr, depth).Ok?
  {
    hide Gets, GetValue, Uses;
    var r := GetValue(w, path[0].name, path[0].nr, depth);
    if r.Ok? {
      var g := GetHasTree(w, path[0].name, path[0].nr, depth);
      var x, h := ReadsAlong(w, path, r, g);
    }
  }
}
