/** One sampling step of the PECI driver, and what holds over whole runs of it
    under any pattern of transfer failures. */
module PeciSampling {
  import opened Common
  import opened PowerArithmetic
  import opened PeciDecode

  /** The device tree's Tjmax, an int8; negative when it is to be read. */
  datatype Config = Config(tjmax: int)

  /** One power rail: the last energy reading with its time, and the watts. */
  datatype Rail = Rail(valid: bool, energyPrev: Word, timePrev: int, watts: int)

  datatype Data = Data(dts: int, margin: int, dimmA: int, dimmB: int, tjmax: int,
                       units: Units, pkg: Rail, dram: Rail)

  /** Everything the outside supplies to one sample_fetch. */
  datatype Bus = Bus(tjmax: Reply, temp: TempReply, units: Reply, nowMs: int,
                     pkg: Reply, dram: Reply, dimm: Reply)

  const IDLE := Rail(false, 0, 0, 0)

  /** intel_peci_init */
  function Initial(cfg: Config): Data {
    Data(0, 0, 0, 0, if cfg.tjmax > 0 then cfg.tjmax else 0, Units(0, 0, 0), IDLE, IDLE)
  }

  function TjmaxStep(cfg: Config, tjmax: int, r: Reply): Result<int> {
    if tjmax > 0 then Ok(tjmax)
    else if cfg.tjmax < 0 then ReadTjmax(r)
    else Ok(cfg.tjmax)
  }

  function TempStep(d: Data, r: TempReply): Data {
    var (dts, ret) := ReadDts(r, d.tjmax);
    if ret == 0 || ret == -EAGAIN then d.(dts := dts, margin := d.tjmax - dts) else d
  }

  function UnitsStep(u: Units, r: Reply): Units {
    if u.eu > 0 then u
    else match ReadUnits(r)
      case None => Units(0, 0, 0)
      case Some(v) => v
  }

  /** One reading of a rail: watts are computed from the second one on. */
  function RailStep(r: Rail, eu: nat, reading: Option<Word>, nowMs: int): Rail {
    match reading
    case None => r
    case Some(e) =>
      var w := if r.valid then EnergyDeltaToWatts(r.energyPrev, e, nowMs - r.timePrev, eu) else None;
      Rail(true, e, nowMs, if w.Some? then w.value else r.watts)
  }

  function DimmStep(d: Data, r: Reply): Data {
    match ReadDimm(r)
    case None => d
    case Some((a, b)) => d.(dimmA := a, dimmB := b)
  }

  /** intel_peci_sample_fetch: the new data and the return code. */
  function Fetch(cfg: Config, d: Data, bus: Bus): (Data, int) {
    match TjmaxStep(cfg, d.tjmax, bus.tjmax)
    case Err(ret) => (d, ret as int)
    case Ok(tj) =>
      var d1 := TempStep(d.(tjmax := tj), bus.temp);
      var u := UnitsStep(d1.units, bus.units);
      var d2 := d1.(units := u);
      var d3 := if u.eu > 0 then
                  d2.(pkg := RailStep(d2.pkg, u.eu, ReadEnergy(bus.pkg), bus.nowMs),
                      dram := RailStep(d2.dram, u.eu, ReadEnergy(bus.dram), bus.nowMs))
                else d2;
      (DimmStep(d3, bus.dimm), 0 as int)
  }

  // ---- sensor channels ----

  datatype Channel = AmbientTemp | Power | OtherChannel

  /** intel_peci_channel_get: the value published for a channel and rail number. */
  function ChannelGet(d: Data, chan: Channel, rail: int): int {
    match chan
    case AmbientTemp =>
      if rail == 0 then d.dts else if rail == 1 then d.margin
      else if rail == 2 then d.dimmA else if rail == 3 then d.dimmB else 0
    case Power => if rail == 0 then d.pkg.watts else if rail == 1 then d.dram.watts else 0
    case OtherChannel => 0
  }

  // ---- runs ----

  /** The state after the fetches `xs`, oldest first. */
  function Run(cfg: Config, d: Data, xs: seq<Bus>): Data {
    if xs == [] then d else Fetch(cfg, Run(cfg, d, xs[..|xs| - 1]), xs[|xs| - 1]).0
  }

  predicate Blocked(cfg: Config, d: Data, bus: Bus) {
    TjmaxStep(cfg, d.tjmax, bus.tjmax).Err?
  }

  /** Only a Tjmax failure makes a fetch fail, and then nothing changes. */
  lemma OnlyTjmaxBlocks(cfg: Config, d: Data, bus: Bus)
    ensures var (d', ret) := Fetch(cfg, d, bus);
            && (ret != 0 <==> d.tjmax <= 0 && cfg.tjmax < 0 && ReadTjmax(bus.tjmax).Err?)
            && (ret != 0 ==> d' == d && ret < 0)
  {
  }

  /** A Tjmax reading that leaves Tjmax unknown. */
  predicate BadTjmax(r: Reply) {
    ReadTjmax(r).Err? || ReadTjmax(r).value == 0
  }

  lemma {:induction false} TjmaxUnknownIff(cfg: Config, xs: seq<Bus>)
    ensures var d := Run(cfg, Initial(cfg), xs);
            d.tjmax <= 0 <==> cfg.tjmax == 0 || (cfg.tjmax < 0 && forall x | x in xs :: BadTjmax(x.tjmax))
  {
    if xs != [] {
      var k := |xs| - 1;
      TjmaxUnknownIff(cfg, xs[..k]);
      assert xs == xs[..k] + [xs[k]];
    }
  }

  /** Exactly when a fetch fails, over all runs: the configuration gives no Tjmax,
      none has been read so far, and it cannot be read now. */
  lemma FetchFailsIff(cfg: Config, xs: seq<Bus>, bus: Bus)
    ensures Fetch(cfg, Run(cfg, Initial(cfg), xs), bus).1 != 0 <==>
            cfg.tjmax < 0 && (forall x | x in xs :: BadTjmax(x.tjmax)) && ReadTjmax(bus.tjmax).Err?
  {
    TjmaxUnknownIff(cfg, xs);
    OnlyTjmaxBlocks(cfg, Run(cfg, Initial(cfg), xs), bus);
  }

  /** A fetch that fails returns the error of the Tjmax transfer, or -EIO when the
      processor refused it. */
  lemma FailedFetchReturns(cfg: Config, d: Data, bus: Bus)
    requires Fetch(cfg, d, bus).1 != 0
    ensures Fetch(cfg, d, bus).1 == match bus.tjmax
                                    case Failed(err) => err
                                    case Received(_, _, _, _, _) => -EIO
  {
  }

  /** A successful reply whose first value byte is not 0: the first one is Tjmax. */
  predicate GivesTjmax(r: Reply) {
    r.Received? && r.cc == CC_SUCCESS && r.b1 > 0
  }

  ghost predicate FirstTjmax(xs: seq<Bus>, i: int) {
    0 <= i < |xs| && GivesTjmax(xs[i].tjmax) && forall j | 0 <= j < i :: !GivesTjmax(xs[j].tjmax)
  }

  /** Tjmax after a run: the configured one if that is not negative; otherwise the
      low byte of the first reply that gives one, and 0 before. */
  lemma {:induction false} TjmaxIs(cfg: Config, xs: seq<Bus>, i: int)
    ensures var tjmax := Run(cfg, Initial(cfg), xs).tjmax;
            && (cfg.tjmax >= 0 ==> tjmax == cfg.tjmax)
            && (cfg.tjmax < 0 && FirstTjmax(xs, i) ==> tjmax == xs[i].tjmax.b1)
            && (cfg.tjmax < 0 && (forall j | 0 <= j < |xs| :: !GivesTjmax(xs[j].tjmax)) ==> tjmax == 0)
  {
    if xs != [] {
      var k := |xs| - 1;
      TjmaxIs(cfg, xs[..k], i);
      TjmaxOfReply(xs[k].tjmax);
    }
  }

  lemma TjmaxOfReply(r: Reply)
    ensures ReadTjmax(r).Ok? && ReadTjmax(r).value > 0 <==> GivesTjmax(r)
    ensures GivesTjmax(r) ==> ReadTjmax(r) == Ok(r.b1)
    ensures ReadTjmax(r).Ok? ==> ReadTjmax(r).value >= 0
  {
    if r.Received? {
      FieldsOfReply(r.cc, r.b1, r.b2, r.b3, r.b4);
    }
  }

  /** A successful reply with an energy unit other than 0. */
  predicate GivesUnits(r: Reply) {
    r.Received? && r.cc == CC_SUCCESS && r.b2 % 32 > 0
  }

  /** The i-th fetch does not fail and its units reply gives the units. */
  ghost predicate UnitsAt(cfg: Config, xs: seq<Bus>, i: int) {
    0 <= i < |xs| && Fetch(cfg, Run(cfg, Initial(cfg), xs[..i]), xs[i]).1 == 0 && GivesUnits(xs[i].units)
  }

  ghost predicate FirstUnits(cfg: Config, xs: seq<Bus>, i: int) {
    UnitsAt(cfg, xs, i) && forall j | 0 <= j < i :: !UnitsAt(cfg, xs, j)
  }

  /** The units after a run: the bit fields of the first reply that gives an energy
      unit; before that there is none. */
  lemma {:induction false} UnitsAre(cfg: Config, xs: seq<Bus>, i: int)
    ensures var units := Run(cfg, Initial(cfg), xs).units;
            && (FirstUnits(cfg, xs, i) ==>
                  var r := xs[i].units;
                  units == Units(r.b1 % 16, r.b2 % 32, r.b3 % 16))
            && ((forall j :: !UnitsAt(cfg, xs, j)) ==> units.eu == 0)
  {
    if xs != [] {
      var k := |xs| - 1;
      UnitsAre(cfg, xs[..k], i);
      UnitsOneMore(cfg, Run(cfg, Initial(cfg), xs[..k]), xs[k]);
      forall j ensures UnitsAt(cfg, xs[..k], j) <==> j < k && UnitsAt(cfg, xs, j) {
        UnitsAtPrefix(cfg, xs, k, j);
      }
      assert UnitsAt(cfg, xs, k) <==>
             Fetch(cfg, Run(cfg, Initial(cfg), xs[..k]), xs[k]).1 == 0 && GivesUnits(xs[k].units);
    }
  }

  lemma UnitsAtPrefix(cfg: Config, xs: seq<Bus>, k: nat, j: int)
    requires k <= |xs|
    ensures UnitsAt(cfg, xs[..k], j) <==> j < k && UnitsAt(cfg, xs, j)
  {
    if 0 <= j < k {
      assert xs[..k][..j] == xs[..j];
    }
  }

  lemma UnitsOneMore(cfg: Config, d: Data, bus: Bus)
    ensures var (d', ret) := Fetch(cfg, d, bus);
            if d.units.eu > 0 then d'.units == d.units
            else if ret == 0 && GivesUnits(bus.units)
            then d'.units == Units(bus.units.b1 % 16, bus.units.b2 % 32, bus.units.b3 % 16)
            else d'.units.eu == 0
  {
    UnitsOfReply(bus.units);
  }

  lemma UnitsOfReply(r: Reply)
    ensures ReadUnits(r).Some? && ReadUnits(r).value.eu > 0 <==> GivesUnits(r)
    ensures GivesUnits(r) ==> ReadUnits(r) == Some(Units(r.b1 % 16, r.b2 % 32, r.b3 % 16))
    ensures ReadUnits(r).Some? ==> ReadUnits(r).value.eu >= 0
  {
    if r.Received? {
      FieldsOfReply(r.cc, r.b1, r.b2, r.b3, r.b4);
    }
  }

  /** While there is no energy unit, the other two are those of the last units
      reply, or 0 if that failed. */
  lemma UnitsWithoutEnergy(cfg: Config, d: Data, bus: Bus)
    requires d.units.eu == 0 && Fetch(cfg, d, bus).1 == 0
    ensures Fetch(cfg, d, bus).0.units ==
            if bus.units.Received? && bus.units.cc == CC_SUCCESS
            then Units(bus.units.b1 % 16, bus.units.b2 % 32, bus.units.b3 % 16)
            else Units(0, 0, 0)
  {
    if bus.units.Received? {
      FieldsOfReply(bus.units.cc, bus.units.b1, bus.units.b2, bus.units.b3, bus.units.b4);
    }
  }

  /** Once positive, Tjmax never changes; once known, the units never change. */
  lemma {:induction false} CachedForGood(cfg: Config, d: Data, xs: seq<Bus>)
    ensures d.tjmax > 0 ==> Run(cfg, d, xs).tjmax == d.tjmax
    ensures d.units.eu > 0 ==> Run(cfg, d, xs).units == d.units
  {
    if xs != [] {
      CachedForGood(cfg, d, xs[..|xs| - 1]);
    }
  }

  // ---- temperature ----

  ghost predicate TempUpdated(bus: Bus) {
    match bus.temp
    case TempFailed(err) => err == -EAGAIN
    case TempRaw(_) => true
  }

  ghost predicate Settled(d: Data) {
    d.tjmax > 0 && d.dts + d.margin == d.tjmax
  }

  /** A temperature update at a positive Tjmax makes temperature and margin add
      up to it, and they do so until the end of the run. */
  lemma {:induction false} TemperatureInvariant(cfg: Config, d: Data, bus: Bus, xs: seq<Bus>)
    requires !Blocked(cfg, d, bus) && Fetch(cfg, d, bus).0.tjmax > 0
    requires TempUpdated(bus) || Settled(d)
    ensures Settled(Run(cfg, Fetch(cfg, d, bus).0, xs))
  {
    if xs != [] {
      TemperatureInvariant(cfg, d, bus, xs[..|xs| - 1]);
    }
  }

  /** A failed GetTemp0 keeps the previous temperature, except when the transfer
      fails with EAGAIN: then the published temperature becomes 0, unless it was 0
      with a margin of Tjmax already. */
  lemma FailedReadKeepsTemperatureIff(cfg: Config, d: Data, bus: Bus)
    requires bus.temp.TempFailed? && !Blocked(cfg, d, bus)
    ensures var d' := Fetch(cfg, d, bus).0;
            (d'.dts == d.dts && d'.margin == d.margin) <==>
            (bus.temp.err != -EAGAIN || (d.dts == 0 && d.margin == d'.tjmax))
  {
  }

  // ---- the last good value of every rail ----

  /** The temperature and margin of the last fetch that updated them. */
  ghost function LastTemp(cfg: Config, d: Data, xs: seq<Bus>): (int, int) {
    if xs == [] then (d.dts, d.margin)
    else
      var before, bus := xs[..|xs| - 1], xs[|xs| - 1];
      match TjmaxStep(cfg, Run(cfg, d, before).tjmax, bus.tjmax)
      case Ok(tj) =>
        if TempUpdated(bus) then (ReadDts(bus.temp, tj).0, tj - ReadDts(bus.temp, tj).0)
        else LastTemp(cfg, d, before)
      case Err(_) => LastTemp(cfg, d, before)
  }

  ghost function LastDimm(cfg: Config, d: Data, xs: seq<Bus>): (int, int) {
    if xs == [] then (d.dimmA, d.dimmB)
    else
      var before, bus := xs[..|xs| - 1], xs[|xs| - 1];
      if !Blocked(cfg, Run(cfg, d, before), bus) && ReadDimm(bus.dimm).Some? then ReadDimm(bus.dimm).value
      else LastDimm(cfg, d, before)
  }

  /** A successful reading of one rail, with the true energy behind it. */
  datatype Sample = Sample(nowMs: int, energy: Word, truth: nat)

  ghost function RailReply(bus: Bus, dram: bool): Option<Word> {
    ReadEnergy(if dram then bus.dram else bus.pkg)
  }

  /** The successful readings of one rail over a run. `truth` gives the true
      energy at each fetch. */
  ghost function Samples(cfg: Config, d: Data, xs: seq<Bus>, truth: seq<nat>, dram: bool): seq<Sample>
    requires |truth| == |xs|
  {
    if xs == [] then []
    else
      var k := |xs| - 1;
      var before := Samples(cfg, d, xs[..k], truth[..k], dram);
      if Blocked(cfg, Run(cfg, d, xs[..k]), xs[k]) || Run(cfg, d, xs).units.eu == 0 then before
      else match RailReply(xs[k], dram)
        case None => before
        case Some(e) => before + [Sample(xs[k].nowMs, e, truth[k])]
  }

  /** Watts from the last two readings; the value before that when the clock has
      not moved between them. */
  ghost function LastWatts(eu: nat, ss: seq<Sample>): int {
    if |ss| < 2 then 0
    else
      var k := |ss| - 1;
      match EnergyDeltaToWatts(ss[k - 1].energy, ss[k].energy, ss[k].nowMs - ss[k - 1].nowMs, eu)
      case Some(w) => w
      case None => LastWatts(eu, ss[..k])
  }

  ghost function RailAfter(eu: nat, ss: seq<Sample>): Rail {
    if ss == [] then IDLE
    else Rail(true, ss[|ss| - 1].energy, ss[|ss| - 1].nowMs, LastWatts(eu, ss))
  }

  ghost function RailOf(d: Data, dram: bool): Rail {
    if dram then d.dram else d.pkg
  }

  lemma RailAfterStep(eu: nat, ss: seq<Sample>, s: Sample)
    ensures RailStep(RailAfter(eu, ss), eu, Some(s.energy), s.nowMs) == RailAfter(eu, ss + [s])
  {
    assert (ss + [s])[..|ss|] == ss;
  }

  lemma {:induction false} NoUnitsNoSamples(cfg: Config, d: Data, xs: seq<Bus>, truth: seq<nat>, dram: bool)
    requires |truth| == |xs| && Run(cfg, d, xs).units.eu == 0
    ensures Samples(cfg, d, xs, truth, dram) == []
  {
    if xs != [] {
      NoUnitsNoSamples(cfg, d, xs[..|xs| - 1], truth[..|xs| - 1], dram);
    }
  }

  /** What one fetch does to one rail. */
  lemma FetchRail(cfg: Config, d: Data, bus: Bus, dram: bool)
    ensures var d' := Fetch(cfg, d, bus).0;
            && (d.units.eu > 0 || Blocked(cfg, d, bus) ==> d'.units == d.units)
            && RailOf(d', dram) == if Blocked(cfg, d, bus) || d'.units.eu == 0 then RailOf(d, dram)
                                   else RailStep(RailOf(d, dram), d'.units.eu, RailReply(bus, dram), bus.nowMs)
  {
  }

  /** The state of a rail depends on its own successful readings alone. */
  lemma {:induction false} RailDependsOnOwnReadings(cfg: Config, xs: seq<Bus>, truth: seq<nat>, dram: bool)
    requires |truth| == |xs|
    ensures var d := Run(cfg, Initial(cfg), xs);
            RailOf(d, dram) == RailAfter(d.units.eu, Samples(cfg, Initial(cfg), xs, truth, dram))
  {
    if xs != [] {
      var d0, k := Initial(cfg), |xs| - 1;
      var before, d := Run(cfg, d0, xs[..k]), Run(cfg, d0, xs);
      var ss := Samples(cfg, d0, xs[..k], truth[..k], dram);
      RailDependsOnOwnReadings(cfg, xs[..k], truth[..k], dram);
      FetchRail(cfg, before, xs[k], dram);
      if before.units.eu == 0 {
        NoUnitsNoSamples(cfg, d0, xs[..k], truth[..k], dram);
      }
      if !Blocked(cfg, before, xs[k]) && d.units.eu > 0 && RailReply(xs[k], dram).Some? {
        RailAfterStep(d.units.eu, ss, Sample(xs[k].nowMs, RailReply(xs[k], dram).value, truth[k]));
      }
    }
  }

  lemma {:induction false} LastGoodTemp(cfg: Config, d: Data, xs: seq<Bus>)
    ensures (Run(cfg, d, xs).dts, Run(cfg, d, xs).margin) == LastTemp(cfg, d, xs)
  {
    if xs != [] {
      LastGoodTemp(cfg, d, xs[..|xs| - 1]);
    }
  }

  lemma {:induction false} LastGoodDimm(cfg: Config, d: Data, xs: seq<Bus>)
    ensures (Run(cfg, d, xs).dimmA, Run(cfg, d, xs).dimmB) == LastDimm(cfg, d, xs)
  {
    if xs != [] {
      LastGoodDimm(cfg, d, xs[..|xs| - 1]);
    }
  }

  /** Everything is published as 0 before the first fetch; so is at any time what is
      asked for on a channel or a rail that does not exist. */
  lemma NothingPublished(cfg: Config, d: Data, chan: Channel, rail: int)
    ensures ChannelGet(Initial(cfg), chan, rail) == 0
    ensures chan == OtherChannel || rail !in {0, 1, 2, 3} || (chan == Power && rail !in {0, 1}) ==>
              ChannelGet(d, chan, rail) == 0
  {
  }

  /** Last good values: over every run of fetches, each of the six rails publishes
      what its own last success gave, and 0 before the first one. */
  lemma LastGoodValues(cfg: Config, xs: seq<Bus>, truth: seq<nat>)
    requires |truth| == |xs|
    ensures var d0 := Initial(cfg);
            var d := Run(cfg, d0, xs);
            && (ChannelGet(d, AmbientTemp, 0), ChannelGet(d, AmbientTemp, 1)) == LastTemp(cfg, d0, xs)
            && (ChannelGet(d, AmbientTemp, 2), ChannelGet(d, AmbientTemp, 3)) == LastDimm(cfg, d0, xs)
            && ChannelGet(d, Power, 0) == LastWatts(d.units.eu, Samples(cfg, d0, xs, truth, false))
            && ChannelGet(d, Power, 1) == LastWatts(d.units.eu, Samples(cfg, d0, xs, truth, true))
  {
    LastGoodTemp(cfg, Initial(cfg), xs);
    LastGoodDimm(cfg, Initial(cfg), xs);
    RailDependsOnOwnReadings(cfg, xs, truth, false);
    RailDependsOnOwnReadings(cfg, xs, truth, true);
  }

  // ---- independence of the rails ----

  datatype Source = Temp | Pkg | Dram | Dimm

  const NO_REPLY := Failed(-EIO)

  /** All that one fetch gets but for one source. */
  function Without(bus: Bus, s: Source): Bus {
    match s
    case Temp => bus.(temp := TempFailed(-EIO))
    case Pkg => bus.(pkg := NO_REPLY)
    case Dram => bus.(dram := NO_REPLY)
    case Dimm => bus.(dimm := NO_REPLY)
  }

  /** All that is kept but for what comes from one source. */
  function Others(d: Data, s: Source): Data {
    match s
    case Temp => d.(dts := 0, margin := 0)
    case Pkg => d.(pkg := IDLE)
    case Dram => d.(dram := IDLE)
    case Dimm => d.(dimmA := 0, dimmB := 0)
  }

  lemma FetchIgnores(cfg: Config, d1: Data, d2: Data, b1: Bus, b2: Bus, s: Source)
    requires Others(d1, s) == Others(d2, s) && Without(b1, s) == Without(b2, s)
    ensures Others(Fetch(cfg, d1, b1).0, s) == Others(Fetch(cfg, d2, b2).0, s)
    ensures Fetch(cfg, d1, b1).1 == Fetch(cfg, d2, b2).1
  {
  }

  /** Independence: whatever one source replies over a whole run, or fails to, the
      others publish the same, and the same fetches fail. */
  lemma {:induction false} RailsAreIndependent(cfg: Config, d: Data, xs: seq<Bus>, ys: seq<Bus>, s: Source)
    requires |xs| == |ys| && forall i | 0 <= i < |xs| :: Without(xs[i], s) == Without(ys[i], s)
    ensures Others(Run(cfg, d, xs), s) == Others(Run(cfg, d, ys), s)
    ensures forall bus :: Fetch(cfg, Run(cfg, d, xs), bus).1 == Fetch(cfg, Run(cfg, d, ys), bus).1
  {
    if xs != [] {
      var k := |xs| - 1;
      RailsAreIndependent(cfg, d, xs[..k], ys[..k], s);
      FetchIgnores(cfg, Run(cfg, d, xs[..k]), Run(cfg, d, ys[..k]), xs[k], ys[k], s);
    }
    forall bus ensures Fetch(cfg, Run(cfg, d, xs), bus).1 == Fetch(cfg, Run(cfg, d, ys), bus).1 {
      FetchIgnores(cfg, Run(cfg, d, xs), Run(cfg, d, ys), bus, bus, s);
    }
  }

  // ---- conservation of energy ----

  /** The readings are those of a true energy counter modulo 2^32; between two
      successful readings it grows by less than 2^32 and the clock moves on. */
  ghost predicate Honest(ss: seq<Sample>) {
    && (forall i | 0 <= i < |ss| :: ss[i].energy == ss[i].truth % TWO32)
    && (forall i | 0 <= i < |ss| - 1 :: HonestStep(ss[i], ss[i + 1]))
  }

  ghost predicate HonestStep(s: Sample, t: Sample) {
    s.nowMs < t.nowMs && s.truth <= t.truth < s.truth + TWO32
  }

  /** The power between two readings fits in an int. */
  ghost predicate PowerFits(eu: nat, s: Sample, t: Sample) {
    1000 * (t.truth - s.truth) < TWO31 * (Pow2(eu) * (t.nowMs - s.nowMs))
  }

  ghost predicate AllPowerFits(eu: nat, ss: seq<Sample>) {
    forall i | 0 <= i < |ss| - 1 :: PowerFits(eu, ss[i], ss[i + 1])
  }

  /** Watts times milliseconds, summed over the intervals between readings, each
      one with the watts published at its end. */
  ghost function Published(eu: nat, ss: seq<Sample>): int {
    if |ss| < 2 then 0
    else
      var k := |ss| - 1;
      Published(eu, ss[..k]) + LastWatts(eu, ss) * (ss[k].nowMs - ss[k - 1].nowMs)
  }

  /** One interval: the energy published is never more than the true one, and less
      than one watt is lost exactly when the power fits in an int. */
  lemma IntervalLoss(eu: nat, s: Sample, t: Sample, w: int)
    requires HonestStep(s, t) && s.energy == s.truth % TWO32 && t.energy == t.truth % TWO32
    requires EnergyDeltaToWatts(s.energy, t.energy, t.nowMs - s.nowMs, eu) == Some(w)
    ensures var dt := t.nowMs - s.nowMs;
            var loss := 1000 * (t.truth - s.truth) - Pow2(eu) * (w * dt);
            0 <= loss && (loss < Pow2(eu) * dt <==> PowerFits(eu, s, t))
  {
    var dt := t.nowMs - s.nowMs;
    var n, u := 1000 * (t.truth - s.truth), Pow2(eu) * dt;
    ReadingIsExact(s.truth, t.truth, dt, eu);
    RemainderIff(n, u, w);
    assert w * u == Pow2(eu) * (w * dt) by {
      MulAssoc(w, Pow2(eu), dt);
      MulAssoc(Pow2(eu), w, dt);
    }
  }

  lemma RemainderIff(n: int, u: int, w: int)
    requires n >= 0 && u > 0 && w == ToInt32(n / u)
    ensures 0 <= n - w * u && (n - w * u < u <==> w == n / u)
  {
    DivNonNegative(n, u);
    DivBounds(n, u);
    ToInt32Below(n / u);
    assert (n / u + 1) * u == n / u * u + u;
    if w < n / u {
      MulMono(w + 1, n / u, u);
      assert (w + 1) * u == w * u + u;
    }
  }

  lemma MulPlus(a: int, b: int, c: int)
    ensures a * (b + c) == a * b + a * c
  {
  }

  /** Two losses in a row: energies `e`, published sums `p` and times `dt`. */
  lemma LossAdds(unit: int, e1: int, e2: int, p1: int, p2: int, dt1: int, dt2: int)
    ensures 1000 * (e1 + e2) - unit * (p1 + p2) == (1000 * e1 - unit * p1) + (1000 * e2 - unit * p2)
    ensures unit * (dt1 + dt2) == unit * dt1 + unit * dt2
  {
    MulPlus(unit, p1, p2);
    MulPlus(unit, dt1, dt2);
  }

  /** The last interval of a list of readings by itself. */
  lemma OneMoreInterval(eu: nat, ss: seq<Sample>)
    requires |ss| > 1 && Honest(ss)
    ensures var s, t := ss[|ss| - 2], ss[|ss| - 1];
            var loss := 1000 * (t.truth - s.truth) - Pow2(eu) * (Published(eu, ss) - Published(eu, ss[..|ss| - 1]));
            0 <= loss && (PowerFits(eu, s, t) ==> loss < Pow2(eu) * (t.nowMs - s.nowMs))
  {
    var s, t := ss[|ss| - 2], ss[|ss| - 1];
    assert HonestStep(s, t);
    IntervalLoss(eu, s, t, LastWatts(eu, ss));
  }

  /** Conservation: over any run, the energy published for a rail is never more
      than the true energy between its first and last reading; and when the power
      always fits in an int, it accounts for all of it up to less than one watt
      over the time between them. */
  lemma {:induction false} EnergyConserved(eu: nat, ss: seq<Sample>)
    requires |ss| > 0 && Honest(ss)
    ensures var first, last := ss[0], ss[|ss| - 1];
            var loss := 1000 * (last.truth - first.truth) - Pow2(eu) * Published(eu, ss);
            && 0 <= loss
            && (AllPowerFits(eu, ss) ==>
                  loss < Pow2(eu) * (last.nowMs - first.nowMs) || (|ss| == 1 && loss == 0))
  {
    if |ss| > 1 {
      var k := |ss| - 1;
      var s, t := ss[k - 1], ss[k];
      EnergyConserved(eu, ss[..k]);
      OneMoreInterval(eu, ss);
      LossAdds(Pow2(eu), s.truth - ss[0].truth, t.truth - s.truth,
               Published(eu, ss[..k]), Published(eu, ss) - Published(eu, ss[..k]),
               s.nowMs - ss[0].nowMs, t.nowMs - s.nowMs);
    }
  }

  /** ... as a statement about whole runs of the driver. */
  lemma RunConservesEnergy(cfg: Config, xs: seq<Bus>, truth: seq<nat>, dram: bool)
    requires |truth| == |xs|
    requires var ss := Samples(cfg, Initial(cfg), xs, truth, dram);
             |ss| > 1 && Honest(ss)
    ensures var d := Run(cfg, Initial(cfg), xs);
            var ss := Samples(cfg, Initial(cfg), xs, truth, dram);
            var first, last, scale := ss[0], ss[|ss| - 1], Pow2(d.units.eu);
            var loss := 1000 * (last.truth - first.truth) - scale * Published(d.units.eu, ss);
            && 0 <= loss
            && (AllPowerFits(d.units.eu, ss) ==> loss < scale * (last.nowMs - first.nowMs))
            && RailOf(d, dram).watts == LastWatts(d.units.eu, ss)
  {
    var d := Run(cfg, Initial(cfg), xs);
    EnergyConserved(d.units.eu, Samples(cfg, Initial(cfg), xs, truth, dram));
    RailDependsOnOwnReadings(cfg, xs, truth, dram);
  }

  /** Every interval is at least 2000 energy units times milliseconds long. */
  ghost predicate AllSlow(eu: nat, ss: seq<Sample>) {
    forall i | 0 <= i < |ss| - 1 :: Slow(eu, ss[i], ss[i + 1])
  }

  ghost predicate Slow(eu: nat, s: Sample, t: Sample) {
    Pow2(eu) * (t.nowMs - s.nowMs) >= 2000
  }

  lemma SlowPowerFits(eu: nat, ss: seq<Sample>)
    requires Honest(ss) && AllSlow(eu, ss)
    ensures AllPowerFits(eu, ss)
  {
    forall i | 0 <= i < |ss| - 1 ensures PowerFits(eu, ss[i], ss[i + 1]) {
      var s, t := ss[i], ss[i + 1];
      assert HonestStep(s, t) && Slow(eu, s, t);
      AlwaysFitsIff(t.nowMs - s.nowMs, eu);
      var delta: Word := t.truth - s.truth;
      assert 1000 * delta < TWO31 * (Pow2(eu) * (t.nowMs - s.nowMs));
    }
  }

  /** When fetches are that far apart, a run accounts for all energy up to less than
      one watt, whatever the energies are. */
  lemma SlowRunsConserveEnergy(cfg: Config, xs: seq<Bus>, truth: seq<nat>, dram: bool)
    requires |truth| == |xs|
    requires var ss := Samples(cfg, Initial(cfg), xs, truth, dram);
             |ss| > 1 && Honest(ss) && AllSlow(Run(cfg, Initial(cfg), xs).units.eu, ss)
    ensures var ss := Samples(cfg, Initial(cfg), xs, truth, dram);
            var eu := Run(cfg, Initial(cfg), xs).units.eu;
            var first, last := ss[0], ss[|ss| - 1];
            0 <= 1000 * (last.truth - first.truth) - Pow2(eu) * Published(eu, ss)
              < Pow2(eu) * (last.nowMs - first.nowMs)
  {
    RunConservesEnergy(cfg, xs, truth, dram);
    SlowPowerFits(Run(cfg, Initial(cfg), xs).units.eu, Samples(cfg, Initial(cfg), xs, truth, dram));
  }
}
