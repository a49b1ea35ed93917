/**
 The system values that the HUD retains (HudTelemetryAggregator.cpp): eleven quantities from two
 sources, each kept over at most two missing polls, and each forgotten when its source is reset.
 */
module HudTelemetryAggregator {
  import opened Options
  import opened TelemetryRetention

  const MISSING_THRESHOLD := 3

  datatype Quantity =
    | CpuTemperature | Fan1 | Fan2 | CpuPackagePower
    | CpuUsage | CpuClock | GpuUsage | GpuClock | GpuMemory | SystemMemory | GpuPower

  predicate FromEc(q: Quantity) {
    q.CpuTemperature? || q.Fan1? || q.Fan2? || q.CpuPackagePower?
  }

  datatype EcPoll = EcPoll(temperature: Option<real>, fan1: Option<real>, fan2: Option<real>, power: Option<real>)

  datatype SystemInput = SystemInput(
    cpuUsage: Option<real>, cpuClock: Option<real>, gpuUsage: Option<real>, gpuClock: Option<real>,
    gpuMemory: Option<real>, systemMemory: Option<real>, gpuPower: Option<real>)

  datatype Event = Ec(poll: EcPoll) | System(input: SystemInput) | ResetEc | ResetSystem

  /** What a poll of the right source says about a quantity. */
  function Reported(e: Event, q: Quantity): Option<real>
    requires e.Ec? || e.System?
  {
    match q
    case CpuTemperature => if e.Ec? then e.poll.temperature else None
    case Fan1 => if e.Ec? then e.poll.fan1 else None
    case Fan2 => if e.Ec? then e.poll.fan2 else None
    case CpuPackagePower => if e.Ec? then e.poll.power else None
    case SystemMemory => if e.System? then e.input.systemMemory else None
    case CpuUsage => if e.System? then e.input.cpuUsage else None
    case CpuClock => if e.System? then e.input.cpuClock else None
    case GpuUsage => if e.System? then e.input.gpuUsage else None
    case GpuClock => if e.System? then e.input.gpuClock else None
    case GpuMemory => if e.System? then e.input.gpuMemory else None
    case GpuPower => if e.System? then e.input.gpuPower else None
  }

  /** The polls of a quantity since its source was last reset. */
  function PollsOf(events: seq<Event>, q: Quantity): seq<Option<real>> {
    if events == [] then [] else
      var n := |events| - 1;
      var e := events[n];
      if e == (if FromEc(q) then ResetEc else ResetSystem) then []
      else if (if FromEc(q) then e.Ec? else e.System?) then PollsOf(events[..n], q) + [Reported(e, q)]
      else PollsOf(events[..n], q)
  }

  /** What an event does to the field of a quantity. */
  function AfterEvent(f: Field<real>, e: Event, q: Quantity): Field<real> {
    if e == (if FromEc(q) then ResetEc else ResetSystem) then NOTHING
    else if (if FromEc(q) then e.Ec? else e.System?) then AfterPoll(f, Reported(e, q), MISSING_THRESHOLD)
    else f
  }

  /** What the polls of a quantity since the last reset of its source leave. */
  ghost function Kept(events: seq<Event>, q: Quantity): Field<real> {
    AfterPolls(PollsOf(events, q), MISSING_THRESHOLD)
  }

  lemma KeptNext(events: seq<Event>, e: Event, q: Quantity)
    ensures Kept(events + [e], q) == AfterEvent(Kept(events, q), e, q)
  {
    assert (events + [e])[..|events|] == events;
    var polls := PollsOf(events, q);
    if e.Ec? || e.System? {
      assert (polls + [Reported(e, q)])[..|polls|] == polls;
    }
  }

  const NOTHING: Field<real> := Field(None, 0)

  datatype Retained = Retained(
    temperature: Field<real>, fan1: Field<real>, fan2: Field<real>, power: Field<real>,
    cpuUsage: Field<real>, cpuClock: Field<real>, gpuUsage: Field<real>, gpuClock: Field<real>,
    gpuMemory: Field<real>, systemMemory: Field<real>, gpuPower: Field<real>)

  function FieldOf(r: Retained, q: Quantity): Field<real> {
    match q
    case CpuTemperature => r.temperature
    case Fan1 => r.fan1
    case Fan2 => r.fan2
    case CpuPackagePower => r.power
    case CpuUsage => r.cpuUsage
    case CpuClock => r.cpuClock
    case GpuUsage => r.gpuUsage
    case GpuClock => r.gpuClock
    case GpuMemory => r.gpuMemory
    case SystemMemory => r.systemMemory
    case GpuPower => r.gpuPower
  }

  function Polled(f: Field<real>, current: Option<real>): Field<real> {
    AfterPoll(f, current, MISSING_THRESHOLD)
  }

  /** All fields after an event. */
  function Step(r: Retained, e: Event): Retained {
    match e
    case Ec(p) => r.(temperature := Polled(r.temperature, p.temperature), fan1 := Polled(r.fan1, p.fan1),
      fan2 := Polled(r.fan2, p.fan2), power := Polled(r.power, p.power))
    case System(i) => r.(cpuUsage := Polled(r.cpuUsage, i.cpuUsage), cpuClock := Polled(r.cpuClock, i.cpuClock),
      gpuUsage := Polled(r.gpuUsage, i.gpuUsage), gpuClock := Polled(r.gpuClock, i.gpuClock),
      gpuMemory := Polled(r.gpuMemory, i.gpuMemory), systemMemory := Polled(r.systemMemory, i.systemMemory),
      gpuPower := Polled(r.gpuPower, i.gpuPower))
    case ResetEc => r.(temperature := NOTHING, fan1 := NOTHING, fan2 := NOTHING, power := NOTHING)
    case ResetSystem => r.(cpuUsage := NOTHING, cpuClock := NOTHING, gpuUsage := NOTHING, gpuClock := NOTHING,
      gpuMemory := NOTHING, systemMemory := NOTHING, gpuPower := NOTHING)
  }

  /** Every event reaches every field of its source with the right value, and no other field. */
  lemma StepReachesFields(r: Retained, e: Event, q: Quantity)
    ensures FieldOf(Step(r, e), q) == AfterEvent(FieldOf(r, q), e, q)
  {
    match q {
      case CpuTemperature =>
      case Fan1 =>
      case Fan2 =>
      case CpuPackagePower =>
      case CpuUsage =>
      case CpuClock =>
      case GpuUsage =>
      case GpuClock =>
      case GpuMemory =>
      case SystemMemory =>
      case GpuPower =>
    }
  }

  /** Every field is what its own polls since the last reset of its source leave. */
  ghost predicate AllKept(r: Retained, events: seq<Event>) {
    forall q: Quantity :: FieldOf(r, q) == Kept(events, q)
  }

  lemma AllKeptNext(r: Retained, events: seq<Event>, e: Event)
    requires AllKept(r, events)
    ensures AllKept(Step(r, e), events + [e])
  {
    forall q: Quantity ensures FieldOf(Step(r, e), q) == Kept(events + [e], q) {
      StepReachesFields(r, e, q);
      KeptNext(events, e, q);
    }
  }

  const EMPTY := Retained(NOTHING, NOTHING, NOTHING, NOTHING, NOTHING, NOTHING, NOTHING, NOTHING, NOTHING, NOTHING, NOTHING)

  function AfterEvents(events: seq<Event>): Retained {
    if events == [] then EMPTY else Step(AfterEvents(events[..|events| - 1]), events[|events| - 1])
  }

  lemma {:induction false} AllKeptOverRun(events: seq<Event>)
    ensures AllKept(AfterEvents(events), events)
  {
    if events != [] {
      var n := |events| - 1;
      AllKeptOverRun(events[..n]);
      AllKeptNext(AfterEvents(events[..n]), events[..n], events[n]);
      assert events[..n] + [events[n]] == events;
    }
  }

  class Aggregator {
    var cpuTemperature: Field<real>
    var fan1: Field<real>
    var fan2: Field<real>
    var cpuPackagePower: Field<real>
    var cpuUsage: Field<real>
    var cpuClock: Field<real>
    var gpuUsage: Field<real>
    var gpuClock: Field<real>
    var gpuMemory: Field<real>
    var systemMemory: Field<real>
    var gpuPower: Field<real>
    ghost var history: seq<Event>

    function Now(): Retained
      reads this
    {
      Retained(cpuTemperature, fan1, fan2, cpuPackagePower, cpuUsage, cpuClock, gpuUsage, gpuClock, gpuMemory,
        systemMemory, gpuPower)
    }

    ghost predicate Valid()
      reads this
    {
      AllKept(Now(), history)
    }

    constructor ()
      ensures Valid() && history == []
    {
      cpuTemperature, fan1, fan2, cpuPackagePower := NOTHING, NOTHING, NOTHING, NOTHING;
      cpuUsage, cpuClock, gpuUsage, gpuClock := NOTHING, NOTHING, NOTHING, NOTHING;
      gpuMemory, systemMemory, gpuPower := NOTHING, NOTHING, NOTHING;
      history := [];
    }

    method IngestEc(poll: EcPoll)
      requires Valid()
      modifies this
      ensures Valid() && history == old(history) + [Ec(poll)] && Now() == Step(old(Now()), Ec(poll))
    {
      AllKeptNext(Now(), history, Ec(poll));
      cpuTemperature := Polled(cpuTemperature, poll.temperature);
      fan1 := Polled(fan1, poll.fan1);
      fan2 := Polled(fan2, poll.fan2);
      cpuPackagePower := Polled(cpuPackagePower, poll.power);
      history := history + [Ec(poll)];
    }

    method IngestSystem(input: SystemInput)
      requires Valid()
      modifies this
      ensures Valid() && history == old(history) + [System(input)] && Now() == Step(old(Now()), System(input))
    {
      AllKeptNext(Now(), history, System(input));
      cpuUsage := Polled(cpuUsage, input.cpuUsage);
      cpuClock := Polled(cpuClock, input.cpuClock);
      gpuUsage := Polled(gpuUsage, input.gpuUsage);
      gpuClock := Polled(gpuClock, input.gpuClock);
      gpuMemory := Polled(gpuMemory, input.gpuMemory);
      systemMemory := Polled(systemMemory, input.systemMemory);
      gpuPower := Polled(gpuPower, input.gpuPower);
      history := history + [System(input)];
    }

    method ClearEc()
      requires Valid()
      modifies this
      ensures Valid() && history == old(history) + [ResetEc] && Now() == Step(old(Now()), ResetEc)
    {
      AllKeptNext(Now(), history, ResetEc);
      cpuTemperature, fan1, fan2, cpuPackagePower := NOTHING, NOTHING, NOTHING, NOTHING;
      history := history + [ResetEc];
    }

    method ClearSystem()
      requires Valid()
      modifies this
      ensures Valid() && history == old(history) + [ResetSystem] && Now() == Step(old(Now()), ResetSystem)
    {
      AllKeptNext(Now(), history, ResetSystem);
      cpuUsage, cpuClock, gpuUsage, gpuClock := NOTHING, NOTHING, NOTHING, NOTHING;
      gpuMemory, systemMemory, gpuPower := NOTHING, NOTHING, NOTHING;
      history := history + [ResetSystem];
    }

    method Reset()
      requires Valid()
      modifies this
      ensures Valid() && forall q: Quantity :: FieldOf(Now(), q) == NOTHING
    {
      ClearEc();
      ClearSystem();
    }
  }

  /** Each retained value is the newest of its last three polls since the reset of its source. */
  lemma ShownIsRecent(r: Retained, events: seq<Event>, q: Quantity)
    requires AllKept(r, events)
    ensures FieldOf(r, q).cached.Some? ==> exists i :: IsRecent(PollsOf(events, q), i)
    ensures FieldOf(r, q).cached == None ==> forall i :: !IsRecent(PollsOf(events, q), i)
    ensures forall i :: IsRecent(PollsOf(events, q), i) ==> FieldOf(r, q).cached == PollsOf(events, q)[i]
  {
    var polls := PollsOf(events, q);
    RetainedIsNewestOfLast(polls, MISSING_THRESHOLD);
    var shown := FieldOf(r, q).cached;
    assert shown == AfterPolls(polls, MISSING_THRESHOLD).cached;
    if shown.Some? {
      var i :| IsNewest(polls, i) && (MISSING_THRESHOLD == 0 || |polls| - i <= MISSING_THRESHOLD);
      assert IsRecent(polls, i);
      assert exists j :: IsRecent(polls, j);
    }
    forall i | IsRecent(polls, i) ensures shown == polls[i] && shown.Some? {
      assert IsNewest(polls, i);
    }
  }

  /** Poll `i` is the newest one with a value, and at most two polls have come after it. */
  ghost predicate IsRecent(polls: seq<Option<real>>, i: int) {
    IsNewest(polls, i) && |polls| - i <= 3
  }
}
