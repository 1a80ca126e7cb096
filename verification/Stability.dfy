/**
 The stability tracker (apps/api/src/domain/stability.ts): whether the last few readings of a scale stand
 still. It keeps a truncated buffer; its verdict is that of everything it was given since the last reset.
 */
module Stability {
  import opened Wrappers
  import opened Sequences
  import NetWeight

  datatype Config = Config(tolerance: int, consecutiveReadings: int, durationMs: int)

  datatype ConfigError = BadCount | BadDuration | NegativeTolerance | BadTolerance

  datatype Sample = Sample(milli: int, atMs: int)

  datatype Verdict = Stable | Unstable

  predicate Valid(c: Config) {
    c.tolerance >= 0 && 2 <= c.consecutiveReadings <= 50 && 200 <= c.durationMs <= 60000
  }

  /** A tracker's settings come from a kilogram text and two whole numbers, all checked. */
  function ConfigFromKg(toleranceKg: string, readings: int, durationMs: int): (r: Result<Config, ConfigError>)
    ensures r.Ok? <==>
      && 2 <= readings <= 50 && 200 <= durationMs <= 60000
      && NetWeight.KgToMilli(toleranceKg).Ok? && NetWeight.KgToMilli(toleranceKg).value >= 0
    ensures r.Ok? ==> Valid(r.value) && Ok(r.value.tolerance) == NetWeight.KgToMilli(toleranceKg)
  {
    if readings < 2 || readings > 50 then Err(BadCount)
    else if durationMs < 200 || durationMs > 60000 then Err(BadDuration)
    else
      match NetWeight.KgToMilli(toleranceKg)
      case Err(_) => Err(BadTolerance)
      case Ok(t) => if t < 0 then Err(NegativeTolerance) else Ok(Config(t, readings, durationMs))
  }

  /** Enough readings, over enough time, no two of them further apart than the tolerance. */
  ghost predicate StandsStill(h: seq<Sample>, c: Config)
    requires Valid(c)
  {
    && |h| >= c.consecutiveReadings
    && var w := LastN(h, c.consecutiveReadings);
      && w[|w| - 1].atMs - w[0].atMs >= c.durationMs
      && forall i, j | 0 <= i < |w| && 0 <= j < |w| :: w[i].milli - w[j].milli <= c.tolerance
  }

  /** A buffer of the last readings decides as the whole history does if it is long enough. */
  lemma BufferDecides(h: seq<Sample>, c: Config, keep: nat)
    requires Valid(c) && keep >= c.consecutiveReadings
    ensures StandsStill(LastN(h, keep), c) <==> StandsStill(h, c)
  {
    LastNOfLastN(h, c.consecutiveReadings, keep);
  }

  class StabilityTracker {
    const config: Config
    var samples: seq<Sample>
    ghost var history: seq<Sample>   // every reading since the last reset

    ghost predicate Ready()
      reads this
    {
      Valid(config) && samples == LastN(history, Max(config.consecutiveReadings, 8))
    }

    constructor (config: Config)
      requires Valid(config)
      ensures Ready() && history == [] && this.config == config
    {
      this.config := config;
      samples, history := [], [];
    }

    method Reset()
      requires Ready()
      modifies this
      ensures Ready() && history == []
    {
      samples, history := [], [];
    }

    method Add(milli: int, atMs: int) returns (v: Verdict)
      requires Ready()
      modifies this
      ensures Ready() && history == old(history) + [Sample(milli, atMs)]
      ensures v == Stable <==> StandsStill(history, config)
    {
      var keep: nat := Max(config.consecutiveReadings, 8);
      LastNAfterPush(history, Sample(milli, atMs), keep);
      samples := samples + [Sample(milli, atMs)];
      history := history + [Sample(milli, atMs)];
      if |samples| > keep {
        samples := samples[|samples| - keep..];
      }
      v := Quality();
    }

    method Quality() returns (v: Verdict)
      requires Ready()
      ensures v == Stable <==> StandsStill(history, config)
    {
      BufferDecides(history, config, Max(config.consecutiveReadings, 8));
      var needed: nat := config.consecutiveReadings;
      if |samples| < needed {
        return Unstable;
      }
      var window := LastN(samples, needed);
      if window[needed - 1].atMs - window[0].atMs < config.durationMs {
        return Unstable;
      }
      var least, greatest := window[0].milli, window[0].milli;
      for i := 0 to |window|
        invariant exists p :: 0 <= p < |window| && window[p].milli == least
        invariant exists p :: 0 <= p < |window| && window[p].milli == greatest
        invariant forall p | 0 <= p < i :: least <= window[p].milli <= greatest
      {
        if window[i].milli < least {
          least := window[i].milli;
        }
        if window[i].milli > greatest {
          greatest := window[i].milli;
        }
      }
      v := if greatest - least <= config.tolerance then Stable else Unstable;
    }
  }
}
