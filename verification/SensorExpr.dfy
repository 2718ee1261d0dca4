/** Expressions of sensor configuration files (arm/gator-daemon/libsensors/data.h:32-61) and what a parsed
    file leaves behind. Constants are real numbers. */
module SensorExpr {

  datatype BinOp = Add | Subtract | Multiply | Divide

  datatype UnOp = Negate | Exp | Log

  datatype Expr =
    | Val(value: real)
    | Source
    | Var(name: string)
    | Binary(op: BinOp, sub1: Expr, sub2: Expr)
    | Unary(uop: UnOp, sub: Expr)

  datatype Label = Label(name: string, value: string)
  datatype Setting = Setting(name: string, value: Expr)
  datatype Compute = Compute(name: string, fromProc: Expr, toProc: Expr)
  datatype Bus = Bus(bus: string, adapter: string)

  /** A chip section: the chip names it is for, as written, and the statements under it. */
  datatype Chip = Chip(
    chips: seq<string>,
    labels: seq<Label>,
    sets: seq<Setting>,
    computes: seq<Compute>,
    ignores: seq<string>)

  datatype Config = Config(busses: seq<Bus>, chips: seq<Chip>)
}
