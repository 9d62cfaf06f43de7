/** The PECI driver's data as it is kept and updated in place. */
module PeciDriver {
  import opened Common
  import opened PowerArithmetic
  import opened PeciDecode
  import opened PeciSampling

  class PeciData {
    var dtsDc: int
    var marginDc: int
    var packageW: int
    var dramW: int
    var dimmADc: int
    var dimmBDc: int
    var tjmaxDc: int
    var pu: nat
    var eu: nat
    var tu: nat
    var pkgValid: bool
    var pkgEnergyPrev: Word
    var pkgTimePrevMs: int
    var dramValid: bool
    var dramEnergyPrev: Word
    var dramTimePrevMs: int

    ghost function View(): Data
      reads this
    {
      Data(dtsDc, marginDc, dimmADc, dimmBDc, tjmaxDc, Units(pu, eu, tu),
           Rail(pkgValid, pkgEnergyPrev, pkgTimePrevMs, packageW),
           Rail(dramValid, dramEnergyPrev, dramTimePrevMs, dramW))
    }

    /** Static storage, all zero, followed by intel_peci_init on a ready bus. */
    constructor (cfg: Config)
      ensures View() == Initial(cfg)
    {
      tjmaxDc := if cfg.tjmax > 0 then cfg.tjmax else 0;
      dtsDc, marginDc, packageW, dramW, dimmADc, dimmBDc := 0, 0, 0, 0, 0, 0;
      pu, eu, tu := 0, 0, 0;
      pkgValid, pkgEnergyPrev, pkgTimePrevMs := false, 0, 0;
      dramValid, dramEnergyPrev, dramTimePrevMs := false, 0, 0;
    }

    method SampleFetch(cfg: Config, bus: Bus) returns (ret: int)
      modifies this
      ensures (View(), ret) == Fetch(cfg, old(View()), bus)
    {
      if tjmaxDc <= 0 && cfg.tjmax < 0 {
        match ReadTjmax(bus.tjmax) {
          case Err(e) => return e;
          case Ok(v) => tjmaxDc := v;
        }
      } else if tjmaxDc <= 0 {
        tjmaxDc := cfg.tjmax;
      }

      var (dts, dtsRet) := ReadDts(bus.temp, tjmaxDc);
      if dtsRet == 0 || dtsRet == -EAGAIN {
        dtsDc := dts;
        marginDc := tjmaxDc - dts;
      }

      FetchPower(bus);

      match ReadDimm(bus.dimm) {
        case Some((a, b)) => dimmADc, dimmBDc := a, b;
        case None =>
      }
      ret := 0;
    }

    /** The units, read until they are known, and then the two rails. */
    method FetchPower(bus: Bus)
      modifies this`pu, this`eu, this`tu
      modifies this`packageW, this`pkgValid, this`pkgEnergyPrev, this`pkgTimePrevMs
      modifies this`dramW, this`dramValid, this`dramEnergyPrev, this`dramTimePrevMs
      ensures var u := UnitsStep(old(View()).units, bus.units);
              var known := old(View()).(units := u);
              View() == if u.eu == 0 then known
                        else known.(pkg := RailStep(known.pkg, u.eu, ReadEnergy(bus.pkg), bus.nowMs),
                                    dram := RailStep(known.dram, u.eu, ReadEnergy(bus.dram), bus.nowMs))
    {
      if eu == 0 {
        match ReadUnits(bus.units) {
          case Some(u) => pu, eu, tu := u.pu, u.eu, u.tu;
          case None => pu, eu, tu := 0, 0, 0;
        }
      }

      if eu > 0 {
        FetchEnergy(bus.nowMs, ReadEnergy(bus.pkg), ReadEnergy(bus.dram));
      }
    }

    /** The two energy accumulators, each one on its own. */
    method FetchEnergy(nowMs: int, pkg: Option<Word>, dram: Option<Word>)
      modifies this`packageW, this`pkgValid, this`pkgEnergyPrev, this`pkgTimePrevMs
      modifies this`dramW, this`dramValid, this`dramEnergyPrev, this`dramTimePrevMs
      ensures View() == old(View()).(pkg := RailStep(old(View()).pkg, eu, pkg, nowMs),
                                     dram := RailStep(old(View()).dram, eu, dram, nowMs))
    {
      UpdatePackage(nowMs, pkg);
      UpdateDram(nowMs, dram);
    }

    method UpdatePackage(nowMs: int, pkg: Option<Word>)
      modifies this`packageW, this`pkgValid, this`pkgEnergyPrev, this`pkgTimePrevMs
      ensures View() == old(View()).(pkg := RailStep(old(View()).pkg, eu, pkg, nowMs))
    {
      if pkg.Some? && pkgValid {
        var w := EnergyDeltaToWatts(pkgEnergyPrev, pkg.value, nowMs - pkgTimePrevMs, eu);
        if w.Some? {
          packageW := w.value;
        }
      }
      if pkg.Some? {
        pkgEnergyPrev := pkg.value;
        pkgTimePrevMs := nowMs;
        pkgValid := true;
      }
    }

    method UpdateDram(nowMs: int, dram: Option<Word>)
      modifies this`dramW, this`dramValid, this`dramEnergyPrev, this`dramTimePrevMs
      ensures View() == old(View()).(dram := RailStep(old(View()).dram, eu, dram, nowMs))
    {
      if dram.Some? && dramValid {
        var w := EnergyDeltaToWatts(dramEnergyPrev, dram.value, nowMs - dramTimePrevMs, eu);
        if w.Some? {
          dramW := w.value;
        }
      }
      if dram.Some? {
        dramEnergyPrev := dram.value;
        dramTimePrevMs := nowMs;
        dramValid := true;
      }
    }

    method GetChannel(chan: Channel, rail: int) returns (val1: int, val2: int)
      ensures val1 == ChannelGet(View(), chan, rail) && val2 == 0
    {
      match chan {
        case AmbientTemp =>
          match rail {
            case 0 => val1 := dtsDc;
            case 1 => val1 := marginDc;
            case 2 => val1 := dimmADc;
            case 3 => val1 := dimmBDc;
            case _ => val1 := 0;
          }
        case Power =>
          match rail {
            case 0 => val1 := packageW;
            case 1 => val1 := dramW;
            case _ => val1 := 0;
          }
        case OtherChannel => val1 := 0;
      }
      val2 := 0;
    }
  }
}
