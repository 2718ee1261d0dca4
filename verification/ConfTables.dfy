/** The tables of the configuration-file parser (arm/gator-daemon/libsensors/conf-parse.c:563-664), one
    function a table. Outside a table's index range the function has a value that no use depends on. */
module ConfTables {

  const YYFINAL := 2
  const YYLAST := 58
  const YYNTOKENS := 24
  const YYMAXDEPTH := 10000
  const YYPACT_NINF := -27

  /** The symbol a rule derives. */
  function YyR1(rule: int): int {
    match rule
    case 0 => 0 case 1 => 24 case 2 => 25 case 3 => 25 case 4 => 26 case 5 => 26 case 6 => 26 case 7 => 26
    case 8 => 26 case 9 => 26 case 10 => 26 case 11 => 27 case 12 => 28 case 13 => 29 case 14 => 30
    case 15 => 31 case 16 => 32 case 17 => 33 case 18 => 33 case 19 => 34 case 20 => 34 case 21 => 34
    case 22 => 34 case 23 => 34 case 24 => 34 case 25 => 34 case 26 => 34 case 27 => 34 case 28 => 34
    case 29 => 34 case 30 => 35 case 31 => 36 case 32 => 37 case 33 => 38 case 34 => 39
    case _ => 0
  }

  /** The length of a rule's right-hand side. */
  function YyR2(rule: int): int {
    match rule
    case 0 => 0 case 1 => 2 case 2 => 0 case 3 => 2 case 4 => 2 case 5 => 2 case 6 => 2 case 7 => 2
    case 8 => 2 case 9 => 2 case 10 => 2 case 11 => 3 case 12 => 3 case 13 => 3 case 14 => 5 case 15 => 2
    case 16 => 2 case 17 => 1 case 18 => 2 case 19 => 1 case 20 => 1 case 21 => 1 case 22 => 3 case 23 => 3
    case 24 => 3 case 25 => 3 case 26 => 2 case 27 => 3 case 28 => 2 case 29 => 2 case 30 => 1 case 31 => 1
    case 32 => 1 case 33 => 1 case 34 => 1
    case _ => 0
  }

  /** The symbols of a rule's right-hand side, first to last. */
  function YyRhs(rule: int): seq<int> {
    match rule
    case 1 => [25, 0] case 2 => [] case 3 => [25, 26] case 4 => [27, 11] case 5 => [28, 11] case 6 => [29, 11]
    case 7 => [32, 11] case 8 => [30, 11] case 9 => [31, 11] case 10 => [1, 11] case 11 => [12, 35, 36]
    case 12 => [13, 37, 38] case 13 => [14, 37, 34] case 14 => [16, 37, 34, 10, 34] case 15 => [17, 37]
    case 16 => [15, 33] case 17 => [39] case 18 => [33, 39] case 19 => [18] case 20 => [19] case 21 => [21]
    case 22 => [34, 4, 34] case 23 => [34, 3, 34] case 24 => [34, 5, 34] case 25 => [34, 6, 34]
    case 26 => [3, 34] case 27 => [22, 34, 23] case 28 => [8, 34] case 29 => [9, 34] case 30 => [19]
    case 31 => [19] case 32 => [19] case 33 => [19] case 34 => [19]
    case _ => []
  }

  /** The rule a state reduces by when its row says nothing else; 0 is a syntax error. */
  function YyDefAct(state: int): int {
    match state
    case 0 => 2 case 1 => 0 case 2 => 1 case 3 => 0 case 4 => 0 case 5 => 0 case 6 => 0 case 7 => 0
    case 8 => 0 case 9 => 0 case 10 => 3 case 11 => 0 case 12 => 0 case 13 => 0 case 14 => 0 case 15 => 0
    case 16 => 0 case 17 => 10 case 18 => 30 case 19 => 0 case 20 => 32 case 21 => 0 case 22 => 0
    case 23 => 34 case 24 => 16 case 25 => 17 case 26 => 0 case 27 => 15 case 28 => 4 case 29 => 5
    case 30 => 6 case 31 => 8 case 32 => 9 case 33 => 7 case 34 => 31 case 35 => 11 case 36 => 33
    case 37 => 12 case 38 => 0 case 39 => 0 case 40 => 0 case 41 => 19 case 42 => 20 case 43 => 21
    case 44 => 0 case 45 => 13 case 46 => 18 case 47 => 0 case 48 => 26 case 49 => 28 case 50 => 29
    case 51 => 0 case 52 => 0 case 53 => 0 case 54 => 0 case 55 => 0 case 56 => 0 case 57 => 27 case 58 => 23
    case 59 => 22 case 60 => 24 case 61 => 25 case 62 => 14
    case _ => 0
  }

  /** The default state to go to for a nonterminal. */
  function YyDefGoto(nonterminal: int): int {
    match nonterminal
    case 0 => -1 case 1 => 1 case 2 => 10 case 3 => 11 case 4 => 12 case 5 => 13 case 6 => 14 case 7 => 15
    case 8 => 16 case 9 => 24 case 10 => 45 case 11 => 19 case 12 => 35 case 13 => 21 case 14 => 37
    case 15 => 25
    case _ => -1
  }

  /** Where a state's row begins in YyTable. */
  function YyPact(state: int): int {
    match state
    case 0 => -27 case 1 => 37 case 2 => -27 case 3 => -4 case 4 => -3 case 5 => 1 case 6 => 1 case 7 => 6
    case 8 => 1 case 9 => 1 case 10 => -27 case 11 => 8 case 12 => 13 case 13 => 20 case 14 => 23
    case 15 => 32 case 16 => 34 case 17 => -27 case 18 => -27 case 19 => 29 case 20 => -27 case 21 => 39
    case 22 => 14 case 23 => -27 case 24 => 6 case 25 => -27 case 26 => 14 case 27 => -27 case 28 => -27
    case 29 => -27 case 30 => -27 case 31 => -27 case 32 => -27 case 33 => -27 case 34 => -27 case 35 => -27
    case 36 => -27 case 37 => -27 case 38 => 14 case 39 => 14 case 40 => 14 case 41 => -27 case 42 => -27
    case 43 => -27 case 44 => 14 case 45 => 36 case 46 => -27 case 47 => 5 case 48 => -27 case 49 => -27
    case 50 => -27 case 51 => -2 case 52 => 14 case 53 => 14 case 54 => 14 case 55 => 14 case 56 => 14
    case 57 => -27 case 58 => 0 case 59 => 0 case 60 => -27 case 61 => -27 case 62 => 36
    case _ => -27
  }

  /** Where a nonterminal's column begins in YyTable. */
  function YyPGoto(nonterminal: int): int {
    match nonterminal
    case 0 => -27 case 1 => -27 case 2 => -27 case 3 => -27 case 4 => -27 case 5 => -27 case 6 => -27
    case 7 => -27 case 8 => -27 case 9 => -27 case 10 => -26 case 11 => -27 case 12 => -27 case 13 => 38
    case 14 => -27 case 15 => 31
    case _ => -27
  }

  /** What to do: the state to shift to or go to. */
  function YyTable(index: int): int {
    match index
    case 0 => 47 case 1 => 52 case 2 => 53 case 3 => 54 case 4 => 55 case 5 => 54 case 6 => 55 case 7 => 17
    case 8 => 52 case 9 => 53 case 10 => 54 case 11 => 55 case 12 => 48 case 13 => 49 case 14 => 50
    case 15 => 56 case 16 => 18 case 17 => 38 case 18 => 51 case 19 => 28 case 20 => 20 case 21 => 57
    case 22 => 39 case 23 => 40 case 24 => 29 case 25 => 23 case 26 => 58 case 27 => 59 case 28 => 60
    case 29 => 61 case 30 => 62 case 31 => 30 case 32 => 41 case 33 => 42 case 34 => 31 case 35 => 43
    case 36 => 44 case 37 => 2 case 38 => 3 case 39 => 52 case 40 => 53 case 41 => 54 case 42 => 55
    case 43 => 32 case 44 => 22 case 45 => 33 case 46 => 26 case 47 => 27 case 48 => 34 case 49 => 4
    case 50 => 5 case 51 => 6 case 52 => 7 case 53 => 8 case 54 => 9 case 55 => 46 case 56 => 0 case 57 => 0
    case 58 => 36
    case _ => 0
  }

  /** The token or state an entry of YyTable is for. */
  function YyCheck(index: int): int {
    match index
    case 0 => 26 case 1 => 3 case 2 => 4 case 3 => 5 case 4 => 6 case 5 => 5 case 6 => 6 case 7 => 11
    case 8 => 3 case 9 => 4 case 10 => 5 case 11 => 6 case 12 => 38 case 13 => 39 case 14 => 40 case 15 => 10
    case 16 => 19 case 17 => 3 case 18 => 44 case 19 => 11 case 20 => 19 case 21 => 23 case 22 => 8
    case 23 => 9 case 24 => 11 case 25 => 19 case 26 => 52 case 27 => 53 case 28 => 54 case 29 => 55
    case 30 => 56 case 31 => 11 case 32 => 18 case 33 => 19 case 34 => 11 case 35 => 21 case 36 => 22
    case 37 => 0 case 38 => 1 case 39 => 3 case 40 => 4 case 41 => 5 case 42 => 6 case 43 => 11 case 44 => 6
    case 45 => 11 case 46 => 8 case 47 => 9 case 48 => 19 case 49 => 12 case 50 => 13 case 51 => 14
    case 52 => 15 case 53 => 16 case 54 => 17 case 55 => 24 case 56 => -1 case 57 => -1 case 58 => 19
    case _ => -1
  }

  /** The accessing symbol of a state. */
  function YyStos(state: int): int {
    match state
    case 0 => 0 case 1 => 25 case 2 => 0 case 3 => 1 case 4 => 12 case 5 => 13 case 6 => 14 case 7 => 15
    case 8 => 16 case 9 => 17 case 10 => 26 case 11 => 27 case 12 => 28 case 13 => 29 case 14 => 30
    case 15 => 31 case 16 => 32 case 17 => 11 case 18 => 19 case 19 => 35 case 20 => 19 case 21 => 37
    case 22 => 37 case 23 => 19 case 24 => 33 case 25 => 39 case 26 => 37 case 27 => 37 case 28 => 11
    case 29 => 11 case 30 => 11 case 31 => 11 case 32 => 11 case 33 => 11 case 34 => 19 case 35 => 36
    case 36 => 19 case 37 => 38 case 38 => 3 case 39 => 8 case 40 => 9 case 41 => 18 case 42 => 19
    case 43 => 21 case 44 => 22 case 45 => 34 case 46 => 39 case 47 => 34 case 48 => 34 case 49 => 34
    case 50 => 34 case 51 => 34 case 52 => 3 case 53 => 4 case 54 => 5 case 55 => 6 case 56 => 10
    case 57 => 23 case 58 => 34 case 59 => 34 case 60 => 34 case 61 => 34 case 62 => 34
    case _ => 0
  }
}
