/**
 The timing configuration of a lock provider (exsinglesv/exsinglesv.c) and what it means
 for the group: when the defaults make the waiting runs outlast the life of a lock.
 */
module LockConfig {
  import opened Common
  import opened LockSm
  import opened Cluster
  import opened ClusterTime
  import opened ClusterBound

  const MIN_SGREFRESH_COEFFICIENT := 3

  datatype Timing = BadTiming | Timing(chkInterval: int, lockedWait: int)

  /** Fill in the settings that were left out: no interval (zero or less), no wait (-1). */
  function Defaults(sgRefresh: int, chkInterval: int, lockedWait: int): Timing {
    var c := if chkInterval <= 0 then TruncDiv(sgRefresh, MIN_SGREFRESH_COEFFICIENT) else chkInterval;
    if c <= 0 then BadTiming
    else Timing(c, if lockedWait == -1 then TruncDiv(sgRefresh, c) * 2 else lockedWait)
  }

  /** `w` is twice the number of whole intervals `c` in `r`. */
  ghost predicate IsTwice(w: int, r: int, c: int) {
    exists k :: w == 2 * k && k * c <= r < (k + 1) * c
  }

  lemma TwiceWholeIntervals(r: int, c: int)
    requires c > 0 && r >= 0
    ensures IsTwice(TruncDiv(r, c) * 2, r, c)
  {
    var k := r / c;
    assert r == k * c + r % c;
    assert (k + 1) * c == k * c + c;
    assert TruncDiv(r, c) * 2 == 2 * k;
  }

  method InitTiming(sgRefresh: int, chkInterval: int, lockedWait: int) returns (t: Timing, warn: bool)
    ensures t == Defaults(sgRefresh, chkInterval, lockedWait)
    ensures t.Timing? ==> t.chkInterval > 0
    ensures chkInterval > 0 ==> t.Timing? && t.chkInterval == chkInterval
    ensures chkInterval <= 0 && t.Timing? ==> 3 * t.chkInterval <= sgRefresh < 3 * (t.chkInterval + 1)
    ensures t.Timing? && lockedWait != -1 ==> t.lockedWait == lockedWait
    ensures t.Timing? && lockedWait == -1 && sgRefresh >= 0 ==> IsTwice(t.lockedWait, sgRefresh, t.chkInterval)
    ensures t.BadTiming? <==> chkInterval <= 0 && sgRefresh < MIN_SGREFRESH_COEFFICIENT
    ensures warn <==> t.Timing? && t.chkInterval * MIN_SGREFRESH_COEFFICIENT > sgRefresh
  {
    var c, w := chkInterval, lockedWait;
    warn := false;
    if c <= 0 {
      c := TruncDiv(sgRefresh, MIN_SGREFRESH_COEFFICIENT);
      if c <= 0 {
        return BadTiming, false;
      }
    }
    if w == -1 {
      if sgRefresh >= 0 {
        TwiceWholeIntervals(sgRefresh, c);
      }
      w := TruncDiv(sgRefresh, c) * 2;
    }
    if c * MIN_SGREFRESH_COEFFICIENT > sgRefresh {
      warn := true;
    }
    return Timing(c, w), warn;
  }

  lemma TwiceTheQuotient(r: int, c: int)
    requires c > 0 && r >= 0
    ensures TruncDiv(r, c) * 2 * c > r <==> c <= r
  {
    var q := r / c;
    assert r == q * c + r % c;
    if c <= r {
      assert q >= 1;
      assert q * c >= c by {
        assert (q - 1) * c >= 0;
      }
    }
    assert TruncDiv(r, c) * 2 * c == 2 * (q * c);
  }

  /** A provider configuration with the given timing. */
  predicate HasTiming(cfg: Config, t: Timing) {
    t.Timing? && cfg.chkInterval == t.chkInterval && cfg.lockedWait == t.lockedWait
  }

  /**
   With the default wait, a group of two nodes or more is exclusive in every state of every
   run if and only if the check interval is not above the life of a lock.  The start-up
   warning is about a third of that, and nothing is refused.
   */
  lemma DefaultWaitIsExclusiveIff(cfg: Config, chkInterval: int)
    requires HasTiming(cfg, Defaults(cfg.sgRefresh, chkInterval, -1))
    requires cfg.lockInc >= 1
    requires exists m, n :: m in cfg.nodes && n in cfg.nodes && m != n
    ensures (forall w, actions, w' | Init(cfg, w) && ReachesSafely(cfg, w, actions, w') :: Exclusive(cfg, w')) <==>
            cfg.chkInterval <= cfg.sgRefresh || cfg.sgRefresh < 0
  {
    hide Init;
    hide ReachesSafely;
    hide Exclusive;
    ExclusionIff(cfg);
    if cfg.sgRefresh >= 0 {
      TwiceTheQuotient(cfg.sgRefresh, cfg.chkInterval);
    }
  }

  /** With both settings left out, every accepted configuration is exclusive. */
  lemma AllDefaultsAreExclusive(cfg: Config, w: World, actions: seq<Action>, w': World)
    requires HasTiming(cfg, Defaults(cfg.sgRefresh, -1, -1))
    requires cfg.lockInc >= 1
    requires Init(cfg, w) && ReachesSafely(cfg, w, actions, w')
    ensures Exclusive(cfg, w')
  {
    hide Init;
    hide ReachesSafely;
    TwiceTheQuotient(cfg.sgRefresh, cfg.chkInterval);
    MutualExclusion(cfg, w, actions, w');
  }
}
