/** What the turns of the counters thread do to the block-counter buffer (arm/gator-daemon/Child.cpp:176-190
    with arm/gator-daemon/Hwmon.cpp:270-277). */
module CounterTurns {
  import opened Basics
  import opened Leb128
  import opened Ring
  import opened GatorBuffer
  import opened GatorFraming
  import opened GatorBufferRuns

  /** What the clock and the enabled counters give at one turn. */
  datatype Sample = Sample(time: Int64, readings: seq<Reading>, now: nat)
  datatype Reading = Reading(key: Int32, value: Int32)

  /** Between two turns, before `setDone`. */
  ghost predicate Idle(r: Run) {
    Inv(r) && !r.ticking && !r.buffer.done
  }

  /** The counters of one turn, after its header. */
  ghost function Read(r: Run, readings: seq<Reading>): (t: Run)
    requires Inv(r) && r.ticking
    ensures Inv(t) && t.ticking && t.buffer.done == r.buffer.done
  {
    if readings == [] then r else
      var s := Read(r, readings[..|readings| - 1]);
      var last := readings[|readings| - 1];
      CallKeeps(s, Event(last.key, last.value));
      Apply(s, Event(last.key, last.value))
  }

  ghost function Turn(r: Run, sample: Sample): (t: Run)
    requires Idle(r)
    ensures Idle(t)
  {
    CallKeeps(r, Header(sample.time));
    var h := Apply(r, Header(sample.time));
    if !h.ticking then h else
      var s := Read(h, sample.readings);
      CallKeeps(s, Check(sample.now));
      Apply(s, Check(sample.now))
  }

  lemma CallKeeps(r: Run, c: Call)
    requires Inv(r) && Allowed(r, c) && !c.Write? && !c.SetDone?
    ensures Inv(Apply(r, c)) && Apply(r, c).buffer.done == r.buffer.done
    ensures !c.Header? ==> Apply(r, c).ticking == (r.ticking && !c.Check?)
  {
    ApplyKeepsInv(r, c);
    hide Inv;
  }

  function Records(readings: seq<Reading>): (rs: seq<Record>)
    ensures |rs| == |readings|
    ensures forall i :: 0 <= i < |readings| ==> rs[i] == Counter(readings[i].key, readings[i].value)
  {
    seq(|readings|, i requires 0 <= i < |readings| => Counter(readings[i].key, readings[i].value))
  }

  /** The ring has refused a counter, and will refuse every other. */
  ghost predicate Refusing(s: State) {
    s.Placed() && !s.available && s.BytesAvailable() < 2 * MAXSIZE_PACK32
  }

  lemma EventRecords(r: Run, key: Int32, value: Int32)
    requires Inv(r) && r.ticking
    ensures r.buffer.Placed()
    ensures var t := Apply(r, Event(key, value));
            if t.buffer.available
            then !Refusing(r.buffer) && t.history == r.history.(open := r.history.open + [Counter(key, value)])
            else Refusing(t.buffer) && t.history == r.history
  {
    hide Put, Pack32, Committed, OpenPart, OpenFrame;
  }

  /** Of the counters a prefix is recorded, all of them unless the ring runs full. */
  lemma {:induction false} ReadRecordsPrefix(r: Run, readings: seq<Reading>) returns (k: nat)
    requires Inv(r) && r.ticking
    ensures k <= |readings|
    ensures var t := Read(r, readings);
            && t.history == r.history.(open := r.history.open + Records(readings[..k]))
            && (k < |readings| ==> Refusing(t.buffer))
  {
    hide Inv, Apply, Refusing;
    if readings == [] {
      k := 0;
    } else {
      var rest, last := readings[..|readings| - 1], readings[|readings| - 1];
      k := ReadRecordsPrefix(r, rest);
      assert rest[..k] == readings[..k];
      EventRecords(Read(r, rest), last.key, last.value);
      if k == |rest| && Apply(Read(r, rest), Event(last.key, last.value)).buffer.available {
        k := |readings|;
        assert readings[..k] == rest[..|rest|] + [last];
        assert Records(readings[..k]) == Records(rest[..|rest|]) + [Counter(last.key, last.value)];
      }
    }
  }

  /** What a turn adds to the history: nothing if the header is refused; otherwise the time and a prefix
      of the counters, all of them in one frame, which may be committed behind them. */
  ghost predicate Adds(before: History, after: History, records: seq<Record>) {
    var open := before.open + records;
    || after == before.(open := open)
    || after == before.(frames := before.frames + [open], open := [])
  }

  /** A time and the counters read for it are never apart: one turn records both in the same frame. It
      leaves out counters only at the end, and only when the ring has no room. */
  lemma TurnStaysInOneFrame(r: Run, sample: Sample) returns (k: nat)
    requires Idle(r)
    ensures k <= |sample.readings|
    ensures var t := Turn(r, sample);
            if Apply(r, Header(sample.time)).ticking
            then && Adds(r.history, t.history, [Timestamp(sample.time)] + Records(sample.readings[..k]))
                 && (k < |sample.readings| ==> !t.buffer.available)
            else t.history == r.history && !t.buffer.available
  {
    hide *;
    HeaderRecords(r, sample.time);
    TurnIs(r, sample);
    var h := Apply(r, Header(sample.time));
    k := 0;
    if h.ticking {
      k := ReadRecordsPrefix(h, sample.readings);
      CheckCloses(Read(h, sample.readings), sample.now);
      RefusingIs(Read(h, sample.readings).buffer);
      AddsIs(r.history, Apply(Read(h, sample.readings), Check(sample.now)).history, [Timestamp(sample.time)],
             Records(sample.readings[..k]));
    }
  }

  lemma TurnIs(r: Run, sample: Sample)
    requires Idle(r)
    ensures r.buffer.Placed()
    ensures var h := Apply(r, Header(sample.time));
            if h.ticking
            then && Inv(h) && Inv(Read(h, sample.readings)) && Read(h, sample.readings).buffer.Placed()
                 && Turn(r, sample) == Apply(Read(h, sample.readings), Check(sample.now))
            else Turn(r, sample) == h
  {
    CallKeeps(r, Header(sample.time));
    hide Apply, Read, Committed, OpenPart, OpenFrame;
  }

  lemma RefusingIs(s: State)
    ensures Refusing(s) ==> !s.available
  {
  }

  lemma AddsIs(before: History, after: History, a: seq<Record>, b: seq<Record>)
    requires var open := (before.open + a) + b;
             || after == before.(open := open)
             || after == before.(frames := before.frames + [open], open := [])
    ensures Adds(before, after, a + b)
  {
    assert before.open + (a + b) == (before.open + a) + b;
  }

  lemma HeaderRecords(r: Run, time: Int64)
    requires Idle(r)
    ensures r.buffer.Placed()
    ensures var t := Apply(r, Header(time));
            && t.ticking == t.buffer.available
            && t.history == if t.ticking then r.history.(open := r.history.open + [Timestamp(time)]) else r.history
  {
    hide Put, Pack32, Pack64, Committed, OpenPart, OpenFrame;
  }

  lemma CheckCloses(r: Run, now: nat)
    requires Inv(r)
    ensures r.buffer.Placed()
    ensures var t := Apply(r, Check(now));
            && (t.history == r.history
                  || t.history == r.history.(frames := r.history.frames + [r.history.open], open := []))
            && t.buffer.available == r.buffer.available
  {
    hide Put, Pack32, Committed, OpenPart, OpenFrame;
  }

  // ----- turns with steps of other threads in between

  /** What a turn records: its time, and of its counters those for which there was room. */
  datatype Group = Group(time: Int64, counters: seq<Record>)
  {
    function All(): seq<Record> {
      [Timestamp(time)] + counters
    }
  }

  /** a is b with some elements left out. */
  predicate Subsequence(a: seq<Record>, b: seq<Record>)
    decreases |b|
  {
    a == []
    || (b != []
        && (Subsequence(a, b[..|b| - 1])
            || (a[|a| - 1] == b[|b| - 1] && Subsequence(a[..|a| - 1], b[..|b| - 1]))))
  }

  predicate Belongs(g: Group, sample: Sample) {
    g.time == sample.time && Subsequence(g.counters, Records(sample.readings))
  }

  lemma SubsequenceGrows(a: seq<Record>, readings: seq<Reading>, i: nat)
    requires i < |readings| && Subsequence(a, Records(readings[..i]))
    ensures Subsequence(a, Records(readings[..i + 1]))
    ensures Subsequence(a + [Counter(readings[i].key, readings[i].value)], Records(readings[..i + 1]))
  {
    var b, r := Records(readings[..i + 1]), Counter(readings[i].key, readings[i].value);
    assert b == Records(readings[..i]) + [r];
    assert b[..|b| - 1] == Records(readings[..i]) && (a + [r])[..|a + [r]| - 1] == a;
  }

  /** A step of the thread: a call, or ending the session. */
  datatype Own = Made(call: Call) | Ended

  function EventsOf(readings: seq<Reading>): (steps: seq<Own>)
    ensures |steps| == |readings|
  {
    seq(|readings|, i requires 0 <= i < |readings| => Made(Event(readings[i].key, readings[i].value)))
  }

  /** The steps of one turn. */
  function Script(sample: Sample, accepted: bool, full: bool): seq<Own> {
    [Made(Header(sample.time))]
    + (if accepted then EventsOf(sample.readings) + [Made(Check(sample.now))] else [])
    + (if full then [Ended] else [])
  }

  function Scripts(samples: seq<Sample>, accepted: seq<bool>, full: seq<bool>): seq<Own>
    requires |accepted| == |full| == |samples|
  {
    if samples == [] then []
    else
      var last := |samples| - 1;
      Scripts(samples[..last], accepted[..last], full[..last]) + Script(samples[last], accepted[last], full[last])
  }

  /** The groups in every frame, and in the one under way. */
  datatype Layout = Layout(frames: seq<seq<Group>>, open: seq<Group>)
  {
    function Add(g: Group): Layout {
      this.(open := open + [g])
    }

    function Close(): Layout {
      Layout(frames + [open], [])
    }

    function Groups(): seq<Group> {
      AllGroups(frames) + open
    }
  }

  function AllGroups(frames: seq<seq<Group>>): seq<Group> {
    if frames == [] then [] else AllGroups(frames[..|frames| - 1]) + frames[|frames| - 1]
  }

  function Flat(groups: seq<Group>): seq<Record> {
    if groups == [] then [] else Flat(groups[..|groups| - 1]) + groups[|groups| - 1].All()
  }

  /** The frames are made of whole groups. */
  predicate Lays(l: Layout, h: History) {
    && |h.frames| == |l.frames| && (forall i | 0 <= i < |h.frames| :: h.frames[i] == Flat(l.frames[i]))
    && h.open == Flat(l.open)
  }

  /** The groups are those of the turns that were accepted, in order. */
  predicate Ordered(groups: seq<Group>, samples: seq<Sample>, accepted: seq<bool>)
    requires |accepted| == |samples|
    decreases |samples|
  {
    if samples == [] then groups == []
    else
      var last := |samples| - 1;
      if accepted[last] then
        groups != [] && Belongs(groups[|groups| - 1], samples[last])
        && Ordered(groups[..|groups| - 1], samples[..last], accepted[..last])
      else Ordered(groups, samples[..last], accepted[..last])
  }

  /** What a turn does to the frames: its group is added to the one under way, which may be closed behind it. */
  predicate TurnAdds(before: History, after: History, group: Option<Group>) {
    match group
    case None => after.frames == before.frames && after.open == before.open
    case Some(g) =>
      || (after.frames == before.frames && after.open == before.open + g.All())
      || (after.frames == before.frames + [before.open + g.All()] && after.open == [])
  }

  /** The layout after a turn. */
  function AfterTurn(l: Layout, before: History, after: History, group: Option<Group>): Layout {
    match group
    case None => l
    case Some(g) =>
      if after.frames == before.frames && after.open == before.open + g.All() then l.Add(g) else l.Add(g).Close()
  }

  lemma FlatSnoc(groups: seq<Group>, g: Group)
    ensures Flat(groups + [g]) == Flat(groups) + g.All()
  {
    assert (groups + [g])[..|groups|] == groups;
  }

  lemma GroupsAfter(l: Layout, g: Group)
    ensures l.Add(g).Groups() == l.Groups() + [g]
    ensures l.Close().Groups() == l.Groups()
  {
    assert (l.frames + [l.open])[..|l.frames|] == l.frames;
    Associate(AllGroups(l.frames), l.open, [g]);
    assert l.Groups() + [] == l.Groups();
  }

  /** A turn keeps its group together. */
  lemma TurnLays(l: Layout, before: History, after: History, group: Option<Group>)
    requires Lays(l, before) && TurnAdds(before, after, group)
    ensures var t := AfterTurn(l, before, after, group);
            Lays(t, after) && t.Groups() == l.Groups() + if group.Some? then [group.value] else []
  {
    hide AllGroups, Flat, Layout.Groups;
    if group.Some? {
      FlatSnoc(l.open, group.value);
      GroupsAfter(l, group.value);
      GroupsAfter(l.Add(group.value), group.value);
      NothingFlat();
    } else {
      assert l.Groups() + [] == l.Groups();
    }
  }

  lemma NothingFlat()
    ensures Flat([]) == [] && AllGroups([]) == [] && Layout([], []).Groups() == []
    ensures Lays(Layout([], []), History([], [], []))
  {
  }

  lemma TurnIsOrdered(groups: seq<Group>, samples: seq<Sample>, accepted: seq<bool>, full: seq<bool>, i: nat,
      group: Option<Group>, ended: bool)
    requires i < |samples| && |accepted| == |full| == i && Ordered(groups, samples[..i], accepted)
    requires group.Some? ==> Belongs(group.value, samples[i])
    ensures var more := if group.Some? then [group.value] else [];
            Ordered(groups + more, samples[..i + 1], accepted + [group.Some?])
    ensures Scripts(samples[..i + 1], accepted + [group.Some?], full + [ended])
         == Scripts(samples[..i], accepted, full) + Script(samples[i], group.Some?, ended)
  {
    hide Belongs, Script;
    var s, a, f := samples[..i + 1], accepted + [group.Some?], full + [ended];
    assert s[..i] == samples[..i] && a[..i] == accepted && f[..i] == full && s[i] == samples[i];
    if group.Some? {
      assert (groups + [group.value])[..|groups|] == groups;
    } else {
      assert groups + [] == groups;
    }
  }
}
