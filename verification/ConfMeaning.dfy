/** What a configuration file leaves behind, said of its statements alone
    (arm/gator-daemon/libsensors/conf-parse.c:1497-1600): every chip section holds the statements between its
    chip statement and the next, sorted by kind. */
module ConfMeaning {
  import opened Basics
  import opened SensorExpr
  import opened ConfParse
  import opened ConfGrammar

  function BussesIn(ss: seq<Stmt>): seq<Bus> {
    if ss == [] then []
    else (if ss[0].BusStmt? then [Bus(ss[0].bus, ss[0].adapter)] else []) + BussesIn(ss[1..])
  }

  function LabelsIn(ss: seq<Stmt>): seq<Label> {
    if ss == [] then []
    else
      match ss[0]
      case LabelStmt(name, text) => [Label(name, text)] + LabelsIn(ss[1..])
      case _ => LabelsIn(ss[1..])
  }

  function SetsIn(ss: seq<Stmt>): seq<Setting> {
    if ss == [] then []
    else
      match ss[0]
      case SetStmt(name, value) => [Setting(name, Erase(value))] + SetsIn(ss[1..])
      case _ => SetsIn(ss[1..])
  }

  function ComputesIn(ss: seq<Stmt>): seq<Compute> {
    if ss == [] then []
    else
      match ss[0]
      case ComputeStmt(name, f, t) => [Compute(name, Erase(f), Erase(t))] + ComputesIn(ss[1..])
      case _ => ComputesIn(ss[1..])
  }

  function IgnoresIn(ss: seq<Stmt>): seq<string> {
    if ss == [] then []
    else
      match ss[0]
      case IgnoreStmt(name) => [name] + IgnoresIn(ss[1..])
      case _ => IgnoresIn(ss[1..])
  }

  /** Where the chip statements are. */
  function ChipPlaces(ss: seq<Stmt>): (r: seq<nat>)
    ensures forall k | 0 <= k < |r| :: r[k] < |ss| && ss[r[k]].ChipStmt?
    ensures forall j, k | 0 <= j < k < |r| :: r[j] < r[k]
  {
    if ss == [] then []
    else
      var rest, last := ChipPlaces(ss[..|ss| - 1]), |ss| - 1;
      if ss[last].ChipStmt? then rest + [last] else rest
  }

  /** The statements between the k-th chip statement and the next, or the end. */
  function Under(ss: seq<Stmt>, k: nat): seq<Stmt>
    requires k < |ChipPlaces(ss)|
  {
    var places := ChipPlaces(ss);
    ss[places[k] + 1..if k + 1 < |places| then places[k + 1] else |ss|]
  }

  function Section(names: seq<string>, ss: seq<Stmt>): Chip {
    Chip(names, LabelsIn(ss), SetsIn(ss), ComputesIn(ss), IgnoresIn(ss))
  }

  /** One for every chip statement, in order. */
  function Sections(ss: seq<Stmt>): seq<Chip> {
    seq(|ChipPlaces(ss)|, k requires 0 <= k < |ChipPlaces(ss)| => Section(ss[ChipPlaces(ss)[k]].names, Under(ss, k)))
  }

  function ConfigOf(ss: seq<Stmt>): Config {
    Config(BussesIn(ss), Sections(ss))
  }

  /** A statement that belongs to a chip section stands before the first. */
  predicate Stray(ss: seq<Stmt>) {
    exists i | 0 <= i < |ss| ::
      !ss[i].BusStmt? && !ss[i].ChipStmt? && forall j | 0 <= j < i :: !ss[j].ChipStmt?
  }

  lemma {:induction false} InSnoc(ss: seq<Stmt>, s: Stmt)
    ensures BussesIn(ss + [s]) == BussesIn(ss) + if s.BusStmt? then [Bus(s.bus, s.adapter)] else []
    ensures LabelsIn(ss + [s]) == LabelsIn(ss) + if s.LabelStmt? then [Label(s.name, s.text)] else []
    ensures SetsIn(ss + [s]) == SetsIn(ss) + if s.SetStmt? then [Setting(s.name, Erase(s.value))] else []
    ensures ComputesIn(ss + [s])
         == ComputesIn(ss) + if s.ComputeStmt? then [Compute(s.name, Erase(s.fromProc), Erase(s.toProc))] else []
    ensures IgnoresIn(ss + [s]) == IgnoresIn(ss) + if s.IgnoreStmt? then [s.name] else []
    decreases |ss|
  {
    hide *;
    var t := ss + [s];
    if ss == [] {
      assert t == [s];
      OneIn(s);
      NoneIn();
    } else {
      assert t[1..] == ss[1..] + [s] && t[0] == ss[0];
      FirstIn(ss);
      FirstIn(t);
      InSnoc(ss[1..], s);
    }
  }

  lemma NoneIn()
    ensures BussesIn([]) == [] && LabelsIn([]) == [] && SetsIn([]) == [] && ComputesIn([]) == [] && IgnoresIn([]) == []
  {
  }

  /** What one statement stands for by itself. */
  lemma OneIn(s: Stmt)
    ensures BussesIn([s]) == if s.BusStmt? then [Bus(s.bus, s.adapter)] else []
    ensures LabelsIn([s]) == if s.LabelStmt? then [Label(s.name, s.text)] else []
    ensures SetsIn([s]) == if s.SetStmt? then [Setting(s.name, Erase(s.value))] else []
    ensures ComputesIn([s])
         == if s.ComputeStmt? then [Compute(s.name, Erase(s.fromProc), Erase(s.toProc))] else []
    ensures IgnoresIn([s]) == if s.IgnoreStmt? then [s.name] else []
  {
    hide Erase;
    assert [s][1..] == [];
  }

  lemma FirstIn(ss: seq<Stmt>)
    requires ss != []
    ensures BussesIn(ss) == BussesIn([ss[0]]) + BussesIn(ss[1..])
    ensures LabelsIn(ss) == LabelsIn([ss[0]]) + LabelsIn(ss[1..])
    ensures SetsIn(ss) == SetsIn([ss[0]]) + SetsIn(ss[1..])
    ensures ComputesIn(ss) == ComputesIn([ss[0]]) + ComputesIn(ss[1..])
    ensures IgnoresIn(ss) == IgnoresIn([ss[0]]) + IgnoresIn(ss[1..])
  {
    OneIn(ss[0]);
    hide Erase;
  }

  lemma PlacesSnoc(ss: seq<Stmt>, s: Stmt)
    ensures ChipPlaces(ss + [s]) == ChipPlaces(ss) + if s.ChipStmt? then [|ss|] else []
  {
    var t := ss + [s];
    assert t[..|t| - 1] == ss && t[|t| - 1] == s;
  }

  lemma {:induction false} EveryPlace(ss: seq<Stmt>, i: nat)
    requires i < |ss| && ss[i].ChipStmt?
    ensures i in ChipPlaces(ss)
    decreases |ss|
  {
    var rest, last := ss[..|ss| - 1], ss[|ss| - 1];
    assert ss == rest + [last];
    PlacesSnoc(rest, last);
    if i < |rest| {
      EveryPlace(rest, i);
    }
  }

  /** One more statement: a chip statement opens a section, any other goes under the last. */
  lemma UnderSnoc(ss: seq<Stmt>, s: Stmt, k: nat)
    requires k < |ChipPlaces(ss)|
    ensures k < |ChipPlaces(ss + [s])| && (ss + [s])[ChipPlaces(ss + [s])[k]] == ss[ChipPlaces(ss)[k]]
    ensures Under(ss + [s], k)
         == if k + 1 == |ChipPlaces(ss)| && !s.ChipStmt? then Under(ss, k) + [s] else Under(ss, k)
  {
    PlacesSnoc(ss, s);
    hide ChipPlaces;
  }

  lemma UnderNew(ss: seq<Stmt>, s: Stmt)
    requires s.ChipStmt?
    ensures var k := |ChipPlaces(ss)|;
            && k < |ChipPlaces(ss + [s])| && (ss + [s])[ChipPlaces(ss + [s])[k]] == s && Under(ss + [s], k) == []
  {
    PlacesSnoc(ss, s);
    hide ChipPlaces;
  }

  lemma StraySnoc(ss: seq<Stmt>, s: Stmt)
    ensures Stray(ss + [s]) <==> Stray(ss) || (!s.BusStmt? && !s.ChipStmt? && ChipPlaces(ss) == [])
  {
    var t := ss + [s];
    assert forall i | 0 <= i < |ss| :: t[i] == ss[i];
    if Stray(ss) {
      var i :| 0 <= i < |ss| && !ss[i].BusStmt? && !ss[i].ChipStmt? && forall j | 0 <= j < i :: !ss[j].ChipStmt?;
      assert !t[i].BusStmt? && !t[i].ChipStmt?;
    }
    if ChipPlaces(ss) == [] && !s.BusStmt? && !s.ChipStmt? {
      forall i: nat | i < |ss|
        ensures !ss[i].ChipStmt?
      {
        if ss[i].ChipStmt? {
          EveryPlace(ss, i);
        }
      }
      assert !t[|ss|].BusStmt? && !t[|ss|].ChipStmt?;
      assert forall j | 0 <= j < |ss| :: ss[j] == t[j] && !ss[j].ChipStmt?;
    }
    if ChipPlaces(ss) != [] {
      assert ss[ChipPlaces(ss)[0]].ChipStmt?;
    }
  }

  lemma SectionSnoc(names: seq<string>, part: seq<Stmt>, s: Stmt)
    ensures var ch := Section(names, part);
            Section(names, part + [s])
            == match s
               case LabelStmt(name, text) => ch.(labels := ch.labels + [Label(name, text)])
               case SetStmt(name, value) => ch.(sets := ch.sets + [Setting(name, Erase(value))])
               case ComputeStmt(name, f, t) => ch.(computes := ch.computes + [Compute(name, Erase(f), Erase(t))])
               case IgnoreStmt(name) => ch.(ignores := ch.ignores + [name])
               case _ => ch
  {
    InSnoc(part, s);
    hide LabelsIn, SetsIn, ComputesIn, IgnoresIn, Erase;
  }

  lemma SectionAt(ss: seq<Stmt>, k: nat)
    requires k < |ChipPlaces(ss)|
    ensures |Sections(ss)| == |ChipPlaces(ss)|
    ensures Sections(ss)[k] == Section(ss[ChipPlaces(ss)[k]].names, Under(ss, k))
    ensures Sections(ss)[k].chips == ss[ChipPlaces(ss)[k]].names
  {
    hide ChipPlaces, Under, Section;
    SectionNames(ss[ChipPlaces(ss)[k]].names, Under(ss, k));
  }

  lemma SectionAtSnoc(ss: seq<Stmt>, s: Stmt, k: nat)
    requires k < |Sections(ss)|
    ensures |Sections(ss)| == |ChipPlaces(ss)| && k < |Sections(ss + [s])|
    ensures Sections(ss + [s])[k]
         == if k + 1 == |ChipPlaces(ss)| && !s.ChipStmt? then Section(Sections(ss)[k].chips, Under(ss, k) + [s])
            else Sections(ss)[k]
  {
    hide *;
    ConfigIs(ss);
    ConfigIs(ss + [s]);
    UnderSnoc(ss, s, k);
    SectionAt(ss, k);
    SectionAt(ss + [s], k);
  }

  lemma SectionsSnoc(ss: seq<Stmt>, s: Stmt)
    ensures s.ChipStmt? ==> Sections(ss + [s]) == Sections(ss) + [Chip(s.names, [], [], [], [])]
    ensures !s.ChipStmt? && Sections(ss) == [] ==> Sections(ss + [s]) == []
    ensures !s.ChipStmt? && Sections(ss) != [] ==>
      var last := |Sections(ss)| - 1;
      && last < |ChipPlaces(ss)| && Sections(ss)[last] == Section(Sections(ss)[last].chips, Under(ss, last))
      && Sections(ss + [s]) == Sections(ss)[last := Section(Sections(ss)[last].chips, Under(ss, last) + [s])]
  {
    hide *;
    ConfigIs(ss);
    ConfigIs(ss + [s]);
    PlacesSnoc(ss, s);
    forall k: nat | k < |Sections(ss)|
      ensures k < |Sections(ss + [s])|
      ensures Sections(ss + [s])[k]
           == if k + 1 == |ChipPlaces(ss)| && !s.ChipStmt? then Section(Sections(ss)[k].chips, Under(ss, k) + [s])
              else Sections(ss)[k]
    {
      SectionAtSnoc(ss, s, k);
    }
    if s.ChipStmt? {
      UnderNew(ss, s);
      SectionAt(ss + [s], |ChipPlaces(ss)|);
      EmptySection(s.names);
    } else if Sections(ss) != [] {
      SectionAt(ss, |Sections(ss)| - 1);
    }
  }

  lemma SectionNames(names: seq<string>, part: seq<Stmt>)
    ensures Section(names, part).chips == names
  {
  }

  lemma EmptySection(names: seq<string>)
    ensures Section(names, []) == Chip(names, [], [], [], [])
  {
  }

  lemma ExecIs(c: Config, s: Stmt)
    requires c.chips != [] || s.BusStmt? || s.ChipStmt?
    ensures s.BusStmt? ==> Exec(c, s) == Some(Config(c.busses + [Bus(s.bus, s.adapter)], c.chips))
    ensures s.ChipStmt? ==> Exec(c, s) == Some(Config(c.busses, c.chips + [Chip(s.names, [], [], [], [])]))
    ensures !s.BusStmt? && !s.ChipStmt? ==>
      var last := |c.chips| - 1;
      var ch := c.chips[last];
      Exec(c, s)
      == Some(Config(c.busses, c.chips[last :=
           match s
           case LabelStmt(name, text) => ch.(labels := ch.labels + [Label(name, text)])
           case SetStmt(name, value) => ch.(sets := ch.sets + [Setting(name, Erase(value))])
           case ComputeStmt(name, f, t) => ch.(computes := ch.computes + [Compute(name, Erase(f), Erase(t))])
           case IgnoreStmt(name) => ch.(ignores := ch.ignores + [name])
           case _ => ch]))
  {
    hide Erase;
  }

  /** What one statement adds to the configuration, in a file that has none astray. */
  lemma ConfigSnoc(ss: seq<Stmt>, s: Stmt)
    requires ChipPlaces(ss) != [] || s.BusStmt? || s.ChipStmt?
    ensures Exec(ConfigOf(ss), s) == Some(ConfigOf(ss + [s]))
  {
    hide *;
    ConfigIs(ss);
    ConfigIs(ss + [s]);
    InSnoc(ss, s);
    SectionsSnoc(ss, s);
    ExecIs(ConfigOf(ss), s);
    if !s.BusStmt? && !s.ChipStmt? {
      var last := |Sections(ss)| - 1;
      SectionSnoc(Sections(ss)[last].chips, Under(ss, last), s);
    } else if s.BusStmt? && Sections(ss) != [] {
      var last := |Sections(ss)| - 1;
      SectionSnoc(Sections(ss)[last].chips, Under(ss, last), s);
      assert Sections(ss)[last := Sections(ss)[last]] == Sections(ss);
    }
    assert BussesIn(ss) + [] == BussesIn(ss);
  }

  lemma ConfigIs(ss: seq<Stmt>)
    ensures ConfigOf(ss) == Config(BussesIn(ss), Sections(ss)) && |Sections(ss)| == |ChipPlaces(ss)|
  {
    hide BussesIn, ChipPlaces, Under, Section;
  }

  /** What a file's statements leave behind, and that it fails exactly if one of them is astray. */
  lemma {:induction false} ExecAllIs(ss: seq<Stmt>)
    ensures ExecAll(ss) == if Stray(ss) then None else Some(ConfigOf(ss))
    decreases |ss|
  {
    hide Exec, ConfigOf, Stray, ChipPlaces;
    if ss == [] {
      NothingIs();
    } else {
      var rest, s := ss[..|ss| - 1], ss[|ss| - 1];
      assert ss == rest + [s];
      ExecAllIs(rest);
      StraySnoc(rest, s);
      if !Stray(ss) {
        ConfigSnoc(rest, s);
      } else if !Stray(rest) {
        StrayFails(rest, s);
      }
    }
  }

  lemma NothingIs()
    ensures !Stray([]) && ConfigOf([]) == Config([], [])
  {
  }

  lemma StrayFails(ss: seq<Stmt>, s: Stmt)
    requires !s.BusStmt? && !s.ChipStmt? && ChipPlaces(ss) == []
    ensures Exec(ConfigOf(ss), s) == None
  {
    hide Erase, BussesIn;
  }
}
