/** What readings and expressions are worth (arm/gator-daemon/libsensors/access.c:227-277, 438-497): the laws
    of arithmetic, and where a reading comes from. */
module SensorLaws {
  import opened Basics
  import opened SensorExpr
  import opened SensorAccess

  // ----- expressions

  ghost predicate Evals(w: World, chip: ChipFeatures, e: Expr, val: real, depth: nat, x: real) {
    w.Valid() && depth < 8 && Eval(w, chip, e, val, depth) == Ok(x)
  }

  lemma Both(w: World, chip: ChipFeatures, op: BinOp, a: Expr, b: Expr, val: real, depth: nat, x: real, y: real)
    requires Evals(w, chip, a, val, depth, x) && Evals(w, chip, b, val, depth, y)
    ensures Eval(w, chip, Binary(op, a, b), val, depth) == Apply2(op, x, y)
    ensures Apply2(op, x, y).Ok? ==> Evals(w, chip, Binary(op, a, b), val, depth, Apply2(op, x, y).value)
  {
    hide Apply2;
  }

  lemma Just(w: World, chip: ChipFeatures, val: real, depth: nat, v: real)
    requires w.Valid() && depth < 8
    ensures Evals(w, chip, Val(v), val, depth, v) && Evals(w, chip, Source, val, depth, val)
  {
  }

  /** Sums: the difference of a and b, and b again, is a; the order does not matter; 0 adds nothing; and the
      opposite undoes. */
  lemma Sums(w: World, chip: ChipFeatures, a: Expr, b: Expr, val: real, depth: nat, x: real, y: real)
    requires Evals(w, chip, a, val, depth, x) && Evals(w, chip, b, val, depth, y)
    ensures Evals(w, chip, Binary(Add, Binary(Subtract, a, b), b), val, depth, x)
    ensures Eval(w, chip, Binary(Add, a, b), val, depth) == Eval(w, chip, Binary(Add, b, a), val, depth)
    ensures Evals(w, chip, Binary(Add, a, Val(0.0)), val, depth, x)
    ensures Evals(w, chip, Binary(Add, Unary(Negate, a), a), val, depth, 0.0)
  {
    Just(w, chip, val, depth, 0.0);
    Both(w, chip, Subtract, a, b, val, depth, x, y);
    Both(w, chip, Add, Binary(Subtract, a, b), b, val, depth, Apply2(Subtract, x, y).value, y);
    Both(w, chip, Add, a, b, val, depth, x, y);
    Both(w, chip, Add, b, a, val, depth, y, x);
    Both(w, chip, Add, a, Val(0.0), val, depth, x, 0.0);
    Both(w, chip, Add, Unary(Negate, a), a, val, depth, Apply1(w, Negate, x).value, x);
  }

  /** Products: 1 changes nothing, they distribute over sums, and a quotient undoes them; division fails exactly
      if the divisor is 0. */
  lemma Products(w: World, chip: ChipFeatures, a: Expr, b: Expr, c: Expr, val: real, depth: nat,
      x: real, y: real, z: real)
    requires Evals(w, chip, a, val, depth, x) && Evals(w, chip, b, val, depth, y) && Evals(w, chip, c, val, depth, z)
    ensures Evals(w, chip, Binary(Multiply, a, Val(1.0)), val, depth, x)
    ensures Eval(w, chip, Binary(Multiply, a, Binary(Add, b, c)), val, depth)
         == Eval(w, chip, Binary(Add, Binary(Multiply, a, b), Binary(Multiply, a, c)), val, depth)
    ensures y != 0.0 ==> Evals(w, chip, Binary(Divide, Binary(Multiply, a, b), b), val, depth, x)
    ensures Eval(w, chip, Binary(Divide, a, b), val, depth) == Err(DivZero) <==> y == 0.0
    ensures y != 0.0 ==> Eval(w, chip, Binary(Divide, a, b), val, depth).Ok?
  {
    Just(w, chip, val, depth, 1.0);
    Both(w, chip, Multiply, a, Val(1.0), val, depth, x, 1.0);
    Both(w, chip, Add, b, c, val, depth, y, z);
    Both(w, chip, Multiply, a, Binary(Add, b, c), val, depth, x, y + z);
    Both(w, chip, Multiply, a, b, val, depth, x, y);
    Both(w, chip, Multiply, a, c, val, depth, x, z);
    Both(w, chip, Add, Binary(Multiply, a, b), Binary(Multiply, a, c), val, depth, x * y, x * z);
    Distributes(x, y, z);
    Both(w, chip, Divide, a, b, val, depth, x, y);
    Both(w, chip, Divide, Binary(Multiply, a, b), b, val, depth, x * y, y);
    hide Eval;
  }

  lemma Distributes(x: real, y: real, z: real)
    ensures x * (y + z) == x * y + x * z
    ensures y != 0.0 ==> (x * y) / y == x
  {
  }

  /** exp and log are those of the operand's value; log fails exactly below 0. */
  lemma Functions(w: World, chip: ChipFeatures, a: Expr, val: real, depth: nat, x: real)
    requires Evals(w, chip, a, val, depth, x)
    ensures Evals(w, chip, Unary(Exp, a), val, depth, w.exp(x))
    ensures Eval(w, chip, Unary(Log, a), val, depth) == if x < 0.0 then Err(DivZero) else Ok(w.log(x))
  {
  }

  /** An operand that fails makes the expression fail in the same way, the left one first. */
  lemma Failures(w: World, chip: ChipFeatures, a: Expr, b: Expr, op: BinOp, uop: UnOp, val: real, depth: nat)
    requires w.Valid() && depth < 8
    ensures var r := Eval(w, chip, a, val, depth);
            !r.Ok? ==> Eval(w, chip, Unary(uop, a), val, depth) == r == Eval(w, chip, Binary(op, a, b), val, depth)
    ensures Eval(w, chip, a, val, depth).Ok? && !Eval(w, chip, b, val, depth).Ok? ==>
              Eval(w, chip, Binary(op, a, b), val, depth) == Eval(w, chip, b, val, depth)
  {
    hide Apply1, Apply2;
  }

  /** Constants, the raw value, and variables: a variable is the reading of the first subfeature of its name,
      one deeper. */
  lemma Leaves(w: World, chip: ChipFeatures, v: real, name: string, val: real, depth: nat, j: nat)
    requires w.Valid() && depth < 8 && j <= |chip.subfeatures|
    requires forall k | 0 <= k < j :: chip.subfeatures[k].name != name
    requires j < |chip.subfeatures| ==> chip.subfeatures[j].name == name
    ensures Eval(w, chip, Val(v), val, depth) == Ok(v) && Eval(w, chip, Source, val, depth) == Ok(val)
    ensures Eval(w, chip, Var(name), val, depth)
         == if j < |chip.subfeatures| then GetValue(w, chip.chip, chip.subfeatures[j].number, depth + 1)
            else Err(NoEntry)
  {
    FirstNamed(chip.subfeatures, name, j);
    hide GetValue, SubfeatureNamed;
  }

  lemma {:induction false} FirstNamed(subfeatures: seq<Subfeature>, name: string, j: nat)
    requires j <= |subfeatures| && forall k | 0 <= k < j :: subfeatures[k].name != name
    requires j < |subfeatures| ==> subfeatures[j].name == name
    ensures SubfeatureNamed(subfeatures, name) == if j < |subfeatures| then Some(subfeatures[j]) else None
    decreases j
  {
    if j > 0 {
      FirstNamed(subfeatures[1..], name, j - 1);
    }
  }

  // ----- readings

  /** A name without wildcards matches another exactly if it has every part of it that is not one; and two such
      names, only if they are the same. */
  lemma AbsoluteNames(a: ChipName, c: ChipName)
    requires c.prefix != None && c.busType != -1 && c.busNr != -1 && c.addr != -1
    ensures Matches(a, c) <==>
      && (a.prefix == None || a.prefix == c.prefix) && (a.busType == -1 || a.busType == c.busType)
      && (a.busNr == -1 || a.busNr == c.busNr) && (a.addr == -1 || a.addr == c.addr)
    ensures Matches(a, c) <==> Matches(c, a)
    ensures a.prefix != None && a.busType != -1 && a.busNr != -1 && a.addr != -1 ==> (Matches(a, c) <==> a == c)
  {
  }

  /** The chip that a name is looked up as: the first that matches, None if there is none. */
  predicate FirstChip(w: World, name: ChipName, i: nat) {
    && i <= |w.procChips| && (forall k | 0 <= k < i :: !Matches(w.procChips[k].chip, name))
    && (i < |w.procChips| ==> Matches(w.procChips[i].chip, name))
  }

  lemma {:induction false} FirstChipFound(chips: seq<ChipFeatures>, name: ChipName, i: nat)
    requires i <= |chips| && forall k | 0 <= k < i :: !Matches(chips[k].chip, name)
    requires i < |chips| ==> Matches(chips[i].chip, name)
    ensures ChipIn(chips, name) == if i < |chips| then Some(chips[i]) else None
    decreases i
  {
    hide Matches;
    if i > 0 {
      FirstChipFound(chips[1..], name, i - 1);
    }
  }

  /** Readings that fail, and in what order the reasons are looked for. */
  lemma ReadingFails(w: World, name: ChipName, nr: int, depth: nat, i: nat)
    requires w.Valid() && FirstChip(w, name, i)
    ensures depth >= 8 ==> GetValue(w, name, nr, depth) == Recursion
    ensures depth < 8 && (name.prefix == None || name.busType == -1 || name.busNr == -1 || name.addr == -1) ==>
              GetValue(w, name, nr, depth) == Err(Wildcards)
    ensures depth < 8 && name.prefix != None && name.busType != -1 && name.busNr != -1 && name.addr != -1 ==>
      && (i == |w.procChips| ==> GetValue(w, name, nr, depth) == Err(NoEntry))
      && (i < |w.procChips| ==>
            var subfeatures := w.procChips[i].subfeatures;
            && (nr < 0 || nr >= |subfeatures| ==> GetValue(w, name, nr, depth) == Err(NoEntry))
            && (0 <= nr < |subfeatures| && !subfeatures[nr].readable ==> GetValue(w, name, nr, depth) == Err(AccessR))
            && (0 <= nr < |subfeatures| && subfeatures[nr].readable && w.sysfs(name, subfeatures[nr]).Failed? ==>
                  GetValue(w, name, nr, depth) == Err(Sysfs(w.sysfs(name, subfeatures[nr]).code))))
  {
    FirstChipFound(w.procChips, name, i);
    hide Matches, ChipIn, Eval, ComputeFor;
  }

  predicate Readable(w: World, name: ChipName, nr: int, i: nat, v: real) {
    && FirstChip(w, name, i) && i < |w.procChips|
    && name.prefix != None && name.busType != -1 && name.busNr != -1 && name.addr != -1
    && 0 <= nr < |w.procChips[i].subfeatures| && w.procChips[i].subfeatures[nr].readable
    && w.sysfs(name, w.procChips[i].subfeatures[nr]) == Value(v)
  }

  /** A reading without a compute statement is what the hardware gives. */
  lemma RawReading(w: World, name: ChipName, nr: int, depth: nat, i: nat, v: real)
    requires w.Valid() && depth < 8 && Readable(w, name, nr, i, v)
    requires var chip := w.procChips[i];
             var s := chip.subfeatures[nr];
             s.computed ==> 0 <= s.mapping < |chip.features| && NoneLater(w.sections, name, chip.features[s.mapping], 0)
    ensures GetValue(w, name, nr, depth) == Ok(v)
  {
    var chip := w.procChips[i];
    var s := chip.subfeatures[nr];
    FirstChipFound(w.procChips, name, i);
    if s.computed {
      NoStatement(w.sections, name, chip.features[s.mapping]);
    }
    hide Matches, ChipIn, Eval, ComputeFor, NoneLater;
  }

  /** A reading with one is the first expression of that statement, of what the hardware gives; the statement is
      the first for the feature in the last section that fits the chip and has one. */
  lemma ComputedReading(w: World, name: ChipName, nr: int, depth: nat, i: nat, v: real, k: nat, j: nat)
    requires w.Valid() && depth < 8 && Readable(w, name, nr, i, v) && w.procChips[i].subfeatures[nr].computed
    requires var s := w.procChips[i].subfeatures[nr];
             && 0 <= s.mapping < |w.procChips[i].features| && k < |w.sections| && SectionFits(w.sections[k], name)
             && FirstFor(w.sections[k].computes, w.procChips[i].features[s.mapping], j)
             && NoneLater(w.sections, name, w.procChips[i].features[s.mapping], k + 1)
    ensures GetValue(w, name, nr, depth)
         == Eval(w, w.procChips[i], w.sections[k].computes[j].fromProc, v, depth)
  {
    FirstChipFound(w.procChips, name, i);
    LastSectionFirstStatement(w.sections, name, w.procChips[i].features[w.procChips[i].subfeatures[nr].mapping], k, j);
    hide Matches, ChipIn, Eval, ComputeFor, NoneLater, SectionFits;
  }

  /** Eight readings may nest, and no more. */
  lemma EightReadings(w: World, name: ChipName, nr: int, o: Result)
    requires w.Valid() && o != Recursion
    ensures GetValue(w, name, nr, 0) == o <==> exists g :: Gets(w, name, nr, o, g) && Depth(g) <= 8
  {
    BoundIsExact(w, name, nr, 0, o);
    hide GetValue, Gets, Depth;
  }
}
