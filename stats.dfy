/** `XrdProtLoad::Statistics`: ask every registered protocol for its statistics,
    advancing a buffer cursor and shrinking the room left by what each reports.
    Buffer pointers are modelled as addresses in a flat address space, 0 being
    the null pointer. */
module StatsSpec {
  import opened Types

  /** Where the loop stopped: the total it returns, how many protocols it asked,
      and the cursor and room left at that point. */
  datatype StatsWalk = StatsWalk(total: int, visited: nat, buff: nat, blen: int)

  /** The loop as written, from protocol `i` on: it goes on while protocols remain
      and either room remains or the cursor is null, and advances the cursor by
      each reported length, the null cursor included. */
  function StatsFrom(protos: seq<Proto>, stats: StatsOracle, doSync: int,
                     i: nat, buff: nat, blen: int, total: int): (w: StatsWalk)
    requires i <= |protos|
    ensures i <= w.visited <= |protos|
    ensures w.visited < |protos| ==> w.blen <= 0 && w.buff != 0
    decreases |protos| - i
  {
    if i < |protos| && (blen > 0 || buff == 0) then
      var k := stats(protos[i], buff, blen, doSync);
      StatsFrom(protos, stats, doSync, i + 1, buff + k, blen - k, total + k)
    else
      StatsWalk(total, i, buff, blen)
  }

  /** The cursor moves forward, and the room shrinks, by exactly the bytes added
      to the total; the walk stops early only on a non-null cursor with no room
      left; and a registry with no protocols left to ask gives the total back. */
  lemma {:induction false} StatsCursor(protos: seq<Proto>, stats: StatsOracle, doSync: int,
                                       i: nat, buff: nat, blen: int, total: int)
    requires i <= |protos|
    ensures var w := StatsFrom(protos, stats, doSync, i, buff, blen, total);
      && w.buff - buff == w.total - total == blen - w.blen
      && w.total >= total
      && i <= w.visited <= |protos|
      && (w.visited < |protos| ==> w.blen <= 0 && w.buff != 0)
      && (i == |protos| ==> w == StatsWalk(total, i, buff, blen))
    decreases |protos| - i
  {
    if i < |protos| && (blen > 0 || buff == 0) {
      var k := stats(protos[i], buff, blen, doSync);
      StatsCursor(protos, stats, doSync, i + 1, buff + k, blen - k, total + k);
    }
  }

  /** With a non-null buffer the loop asks every protocol unless it runs out of
      room, and then it stops exactly at the first protocol that finds none. */
  lemma {:induction false} StatsNonNullStops(protos: seq<Proto>, stats: StatsOracle, doSync: int,
                                             i: nat, buff: nat, blen: int, total: int)
    requires i <= |protos| && buff > 0
    ensures StatsFrom(protos, stats, doSync, i, buff, blen, total).visited == |protos|
         || StatsFrom(protos, stats, doSync, i, buff, blen, total).blen <= 0
    ensures blen <= 0 ==> StatsFrom(protos, stats, doSync, i, buff, blen, total) == StatsWalk(total, i, buff, blen)
    decreases |protos| - i
  {
    if i < |protos| && blen > 0 {
      var k := stats(protos[i], buff, blen, doSync);
      StatsNonNullStops(protos, stats, doSync, i + 1, buff + k, blen - k, total + k);
    }
  }

  /** As written, a null buffer used to learn the size needed stops after the
      first protocol that reports a length when no room was given: the cursor
      `buff += k` is no longer null. Two protocols that each need 10 bytes
      give 10, not 20. */
  lemma NullProbeStopsEarly()
    ensures StatsFrom([Proto(0), Proto(1)], (p: Proto, b: nat, l: int, d: int) => 10, 0, 0, 0, 0, 0)
      == StatsWalk(10, 1, 10, -10)
  {
  }

  /** The loop as evidently intended: a null cursor stays null, so a size probe
      asks every protocol. */
  function StatsFixed(protos: seq<Proto>, stats: StatsOracle, doSync: int,
                      i: nat, buff: nat, blen: int, total: int): (w: StatsWalk)
    requires i <= |protos|
    ensures i <= w.visited <= |protos|
    ensures buff == 0 ==> w.buff == 0
    decreases |protos| - i
  {
    if i < |protos| && (blen > 0 || buff == 0) then
      var k := stats(protos[i], buff, blen, doSync);
      StatsFixed(protos, stats, doSync, i + 1, if buff == 0 then 0 else buff + k, blen - k, total + k)
    else
      StatsWalk(total, i, buff, blen)
  }

  /** The bytes every protocol from `i` on reports when asked with a null buffer,
      the room shrinking as in the loop. */
  function NullSizes(protos: seq<Proto>, stats: StatsOracle, doSync: int, i: nat, blen: int): (n: int)
    requires i <= |protos|
    decreases |protos| - i
  {
    if i == |protos| then 0
    else
      var k := stats(protos[i], 0, blen, doSync);
      k + NullSizes(protos, stats, doSync, i + 1, blen - k)
  }

  /** The corrected loop, given a null buffer, asks every protocol and returns the
      sum of what they need. */
  lemma {:induction false} FixedNullVisitsAll(protos: seq<Proto>, stats: StatsOracle, doSync: int,
                                              i: nat, blen: int, total: int)
    requires i <= |protos|
    ensures StatsFixed(protos, stats, doSync, i, 0, blen, total).visited == |protos|
    ensures StatsFixed(protos, stats, doSync, i, 0, blen, total).total
      == total + NullSizes(protos, stats, doSync, i, blen)
    decreases |protos| - i
  {
    if i < |protos| {
      var k := stats(protos[i], 0, blen, doSync);
      FixedNullVisitsAll(protos, stats, doSync, i + 1, blen - k, total + k);
    }
  }

  /** The correction changes nothing when a real buffer is given. */
  lemma {:induction false} FixedAgreesOnBuffers(protos: seq<Proto>, stats: StatsOracle, doSync: int,
                                                i: nat, buff: nat, blen: int, total: int)
    requires i <= |protos| && buff > 0
    ensures StatsFixed(protos, stats, doSync, i, buff, blen, total)
      == StatsFrom(protos, stats, doSync, i, buff, blen, total)
    decreases |protos| - i
  {
    if i < |protos| && blen > 0 {
      var k := stats(protos[i], buff, blen, doSync);
      FixedAgreesOnBuffers(protos, stats, doSync, i + 1, buff + k, blen - k, total + k);
    }
  }
}
