/** The connection matching loop of `XrdProtLoad::Process`: walk the candidate
    vector, upgrade the link to TLS at the marker, probe each slot's protocol
    with `Match`, abort on a failed upgrade or a flawed link, and on a match
    attach the protocol, activate the link and hand it the first request. */
module Matching {
  import opened Types
  import opened Candidates

  /** How the walk of the candidate vector ended. */
  datatype ScanEnd = Found(slot: nat, pp: Proto) | TlsFailed | Flawed | NoMatch

  /** The end of the walk, the slots whose `Match` was called (in call order)
      and the number of `setTLS(true)` calls made. */
  datatype Scan = Scan(end: ScanEnd, probed: seq<int8>, upgrades: nat)

  /** The `while (*pVec != -2)` loop from position `pos`, `probes` probes
      having been made before. */
  function ScanFrom(v: seq<int8>, protos: seq<Proto>, s: LinkScript, pos: nat, probes: nat): (r: Scan)
    requires WellFormed(v, |protos|) && pos < |v|
    ensures r.end.Found? ==> r.end.slot < |protos|
    decreases |v| - pos
  {
    if v[pos] == End then Scan(NoMatch, [], 0)
    else if v[pos] == Marker then
      if !s.tlsOk then Scan(TlsFailed, [], 1)
      else
        var r := ScanFrom(v, protos, s, pos + 1, probes);
        r.(upgrades := r.upgrades + 1)
    else
      var i := v[pos] as nat;
      match s.matchAt(probes, protos[i])
      case Some(pp) => Scan(Found(i, pp), [v[pos]], 0)
      case None =>
        if s.flawedAt(probes) then Scan(Flawed, [v[pos]], 0)
        else
          var r := ScanFrom(v, protos, s, pos + 1, probes + 1);
          r.(probed := [v[pos]] + r.probed)
  }

  /** The slot entries of `v` from `pos` on, in order (the sentinels left out). */
  function SlotEntries(v: seq<int8>, nslots: nat, pos: nat): (r: seq<int8>)
    requires WellFormed(v, nslots) && pos < |v|
    ensures |r| < |v| - pos
    ensures forall k :: 0 <= k < |r| ==> 0 <= r[k] as int < nslots
    decreases |v| - pos
  {
    if v[pos] == End then []
    else if v[pos] == Marker then SlotEntries(v, nslots, pos + 1)
    else [v[pos]] + SlotEntries(v, nslots, pos + 1)
  }

  /** The first sentinel (marker or terminator) at or after `pos`. */
  function FirstSentinel(v: seq<int8>, nslots: nat, pos: nat): (q: nat)
    requires WellFormed(v, nslots) && pos < |v|
    ensures pos <= q < |v|
    ensures v[q] == Marker || v[q] == End
    ensures forall k :: pos <= k < q ==> 0 <= v[k] as int < nslots
    decreases |v| - pos
  {
    if v[pos] == Marker || v[pos] == End then pos else FirstSentinel(v, nslots, pos + 1)
  }

  /** The first `m` probes of `probed`, numbered from `probes`, all failed on a
      link that was not flawed. */
  ghost predicate Missed(s: LinkScript, protos: seq<Proto>, probes: nat, probed: seq<int8>, m: int)
  {
    forall k :: 0 <= k < m && k < |probed| ==>
      0 <= probed[k] as int < |protos|
      && s.matchAt(probes + k, protos[probed[k] as int]).None?
      && !s.flawedAt(probes + k)
  }

  /** What the walk from `pos` did, stated without replaying it: the probes are
      the leading slot entries; all but a decisive last one failed on a sound
      link; a match names the last slot probed; a flawed link stops right after
      its failed probe; no match means every slot entry was probed; a failed
      upgrade happens at the first sentinel, after exactly the entries before
      it were probed; nothing past that sentinel is probed unless the upgrade
      succeeded; and on a vector with at most one marker, `setTLS` was called
      once exactly when the walk reached that marker. */
  ghost predicate Explains(v: seq<int8>, protos: seq<Proto>, s: LinkScript, pos: nat, probes: nat, r: Scan)
    requires WellFormed(v, |protos|) && pos < |v|
  {
    var q := FirstSentinel(v, |protos|, pos);
    var decisive := r.end.Found? || r.end.Flawed?;
    var n := |r.probed|;
    && r.probed <= SlotEntries(v, |protos|, pos)
    && (decisive ==> n > 0)
    && Missed(s, protos, probes, r.probed, if decisive then n - 1 else n)
    && (r.end.Found? ==>
          && r.probed[n - 1] as int == r.end.slot < |protos|
          && s.matchAt(probes + n - 1, protos[r.end.slot]) == Some(r.end.pp))
    && (r.end.Flawed? ==>
          && 0 <= r.probed[n - 1] as int < |protos|
          && s.matchAt(probes + n - 1, protos[r.probed[n - 1] as int]).None?
          && s.flawedAt(probes + n - 1))
    && (r.end.NoMatch? ==> r.probed == SlotEntries(v, |protos|, pos))
    && (r.end.TlsFailed? ==> !s.tlsOk && v[q] == Marker && r.probed == v[pos..q])
    && ((n > q - pos || (r.end.NoMatch? && v[q] == Marker)) ==> s.tlsOk)
    && (AtMostOneMarker(v) ==> r.upgrades == ReachedMarker(v, |protos|, pos, r))
  }

  /** 1 when the walk from `pos` that ended in `r` reached a marker that is the
      first sentinel: it failed the upgrade there, walked on to the terminator,
      or probed past the marker; 0 otherwise. */
  function ReachedMarker(v: seq<int8>, nslots: nat, pos: nat, r: Scan): (u: nat)
    requires WellFormed(v, nslots) && pos < |v|
    ensures u <= 1
    ensures u == 1 ==> v[FirstSentinel(v, nslots, pos)] == Marker
  {
    var q := FirstSentinel(v, nslots, pos);
    if v[q] == Marker && (r.end.TlsFailed? || r.end.NoMatch? || |r.probed| > q - pos) then 1 else 0
  }

  lemma MissedCons(s: LinkScript, protos: seq<Proto>, probes: nat, x: int8, probed: seq<int8>, m: int)
    requires 0 <= x as int < |protos|
    requires s.matchAt(probes, protos[x as int]).None? && !s.flawedAt(probes)
    requires Missed(s, protos, probes + 1, probed, m)
    ensures Missed(s, protos, probes, [x] + probed, m + 1)
  {
    var p := [x] + probed;
    forall k | 0 <= k < m + 1 && k < |p|
      ensures 0 <= p[k] as int < |protos|
      ensures s.matchAt(probes + k, protos[p[k] as int]).None? && !s.flawedAt(probes + k)
    {
      if k > 0 {
        assert p[k] == probed[k - 1];
        assert probes + k == (probes + 1) + (k - 1);
      }
    }
  }

  lemma {:induction false} ScanPrefix(v: seq<int8>, protos: seq<Proto>, s: LinkScript, pos: nat, probes: nat)
    requires WellFormed(v, |protos|) && pos < |v|
    ensures ScanFrom(v, protos, s, pos, probes).probed <= SlotEntries(v, |protos|, pos)
    decreases |v| - pos
  {
    if v[pos] != End {
      ScanPrefix(v, protos, s, pos + 1, probes);
      ScanPrefix(v, protos, s, pos + 1, probes + 1);
    }
  }

  lemma {:induction false} ScanMissed(v: seq<int8>, protos: seq<Proto>, s: LinkScript, pos: nat, probes: nat)
    requires WellFormed(v, |protos|) && pos < |v|
    ensures var r := ScanFrom(v, protos, s, pos, probes);
      Missed(s, protos, probes, r.probed, if r.end.Found? || r.end.Flawed? then |r.probed| - 1 else |r.probed|)
    decreases |v| - pos
  {
    if v[pos] == Marker && s.tlsOk {
      ScanMissed(v, protos, s, pos + 1, probes);
    } else if v[pos] != End && v[pos] != Marker {
      var i := v[pos] as nat;
      if s.matchAt(probes, protos[i]).None? && !s.flawedAt(probes) {
        ScanMissed(v, protos, s, pos + 1, probes + 1);
        var r' := ScanFrom(v, protos, s, pos + 1, probes + 1);
        MissedCons(s, protos, probes, v[pos], r'.probed,
          if r'.end.Found? || r'.end.Flawed? then |r'.probed| - 1 else |r'.probed|);
      }
    }
  }

  lemma {:induction false} ScanDecisive(v: seq<int8>, protos: seq<Proto>, s: LinkScript, pos: nat, probes: nat)
    requires WellFormed(v, |protos|) && pos < |v|
    ensures var r := ScanFrom(v, protos, s, pos, probes);
      (r.end.Found? || r.end.Flawed?) ==>
        && |r.probed| > 0
        && 0 <= r.probed[|r.probed| - 1] as int < |protos|
        && s.matchAt(probes + |r.probed| - 1, protos[r.probed[|r.probed| - 1] as int])
             == (if r.end.Found? then Some(r.end.pp) else None)
        && (r.end.Found? ==> r.probed[|r.probed| - 1] as int == r.end.slot)
        && (r.end.Flawed? ==> s.flawedAt(probes + |r.probed| - 1))
    decreases |v| - pos
  {
    if v[pos] == Marker && s.tlsOk {
      ScanDecisive(v, protos, s, pos + 1, probes);
    } else if v[pos] != End && v[pos] != Marker {
      var i := v[pos] as nat;
      if s.matchAt(probes, protos[i]).None? && !s.flawedAt(probes) {
        ScanDecisive(v, protos, s, pos + 1, probes + 1);
        var r' := ScanFrom(v, protos, s, pos + 1, probes + 1);
        if r'.end.Found? || r'.end.Flawed? {
          var r := ScanFrom(v, protos, s, pos, probes);
          assert r.probed[|r.probed| - 1] == r'.probed[|r'.probed| - 1];
        }
      }
    }
  }

  lemma {:induction false} ScanNoMatchAll(v: seq<int8>, protos: seq<Proto>, s: LinkScript, pos: nat, probes: nat)
    requires WellFormed(v, |protos|) && pos < |v|
    ensures ScanFrom(v, protos, s, pos, probes).end.NoMatch? ==>
      && ScanFrom(v, protos, s, pos, probes).probed == SlotEntries(v, |protos|, pos)
      && Missed(s, protos, probes, ScanFrom(v, protos, s, pos, probes).probed,
                |ScanFrom(v, protos, s, pos, probes).probed|)
      && (forall k :: pos <= k < |v| && v[k] == Marker ==> s.tlsOk)
    decreases |v| - pos
  {
    ScanMissed(v, protos, s, pos, probes);
    if v[pos] != End {
      ScanNoMatchAll(v, protos, s, pos + 1, probes);
      ScanNoMatchAll(v, protos, s, pos + 1, probes + 1);
    }
  }

  /** On a vector with at most one marker, the walk calls `setTLS` once when it
      reaches the marker and never otherwise. */
  lemma {:induction false} ScanUpgrades(v: seq<int8>, protos: seq<Proto>, s: LinkScript, pos: nat, probes: nat)
    requires WellFormed(v, |protos|) && pos < |v| && AtMostOneMarker(v)
    ensures ScanFrom(v, protos, s, pos, probes).upgrades
      == ReachedMarker(v, |protos|, pos, ScanFrom(v, protos, s, pos, probes))
    decreases |v| - pos
  {
    if v[pos] == Marker && s.tlsOk {
      ScanUpgrades(v, protos, s, pos + 1, probes);
      ScanDecisive(v, protos, s, pos + 1, probes);
      var q := FirstSentinel(v, |protos|, pos + 1);
      assert v[q] == End by { assert q != pos && v[pos] == Marker; }
    } else if v[pos] != End && v[pos] != Marker {
      var i := v[pos] as nat;
      if s.matchAt(probes, protos[i]).None? && !s.flawedAt(probes) {
        ScanUpgrades(v, protos, s, pos + 1, probes + 1);
        assert FirstSentinel(v, |protos|, pos) == FirstSentinel(v, |protos|, pos + 1);
      }
    }
  }

  lemma {:induction false} ScanTlsAt(v: seq<int8>, protos: seq<Proto>, s: LinkScript, pos: nat, probes: nat)
    requires WellFormed(v, |protos|) && pos < |v|
    ensures var r := ScanFrom(v, protos, s, pos, probes);
      var q := FirstSentinel(v, |protos|, pos);
      && (r.end.TlsFailed? ==> !s.tlsOk && v[q] == Marker && r.probed == v[pos..q])
      && ((|r.probed| > q - pos || (r.end.NoMatch? && v[q] == Marker)) ==> s.tlsOk)
    decreases |v| - pos
  {
    if v[pos] == Marker && s.tlsOk {
      ScanTlsAt(v, protos, s, pos + 1, probes);
    } else if v[pos] != End && v[pos] != Marker {
      var i := v[pos] as nat;
      if s.matchAt(probes, protos[i]).None? && !s.flawedAt(probes) {
        ScanTlsAt(v, protos, s, pos + 1, probes + 1);
        var q := FirstSentinel(v, |protos|, pos);
        assert q == FirstSentinel(v, |protos|, pos + 1);
        assert v[pos..q] == [v[pos]] + v[pos + 1..q];
      }
    }
  }

  /** The walk from every position is explained by `Explains`. */
  lemma ScanExplained(v: seq<int8>, protos: seq<Proto>, s: LinkScript, pos: nat, probes: nat)
    requires WellFormed(v, |protos|) && pos < |v|
    ensures Explains(v, protos, s, pos, probes, ScanFrom(v, protos, s, pos, probes))
  {
    ScanPrefix(v, protos, s, pos, probes);
    ScanMissed(v, protos, s, pos, probes);
    ScanDecisive(v, protos, s, pos, probes);
    ScanNoMatchAll(v, protos, s, pos, probes);
    ScanTlsAt(v, protos, s, pos, probes);
    if AtMostOneMarker(v) {
      ScanUpgrades(v, protos, s, pos, probes);
    }
  }

  /** Never more probes than slot entries in the vector. */
  lemma ScanProbeBound(v: seq<int8>, protos: seq<Proto>, s: LinkScript)
    requires WellFormed(v, |protos|)
    ensures |ScanFrom(v, protos, s, 0, 0).probed| <= |SlotEntries(v, |protos|, 0)|
  {
    ScanExplained(v, protos, s, 0, 0);
  }

  /** What `Process` leaves behind: its return value, the text it gave
      `setEtext` (if any) and the protocol object and name it attached (if any). */
  datatype Dispatch = Dispatch(code: int, etext: Option<string>, attached: Option<Proto>, name: Option<string>)

  /** The texts `Process` hands to `setEtext`. */
  const TlsFailedText: string := "TLS negotiation failed."
  const NotFoundText: string := "matching protocol not found"
  const ActivationText: string := "activation failed"

  /** What `Process` does once the walk has ended. */
  function Outcome(v: seq<int8>, protos: seq<Proto>, names: seq<string>, s: LinkScript): (d: Dispatch)
    requires WellFormed(v, |protos|) && |names| == |protos|
    ensures d.etext.Some? ==> d.code == -1
    ensures d.name.Some? <==> d.attached.Some?
  {
    match ScanFrom(v, protos, s, 0, 0).end
    case TlsFailed => Dispatch(-1, Some(TlsFailedText), None, None)
    case Flawed => Dispatch(-1, None, None, None)
    case NoMatch => Dispatch(-1, Some(NotFoundText), None, None)
    case Found(i, pp) =>
      if !s.activateOk then Dispatch(-1, Some(ActivationText), Some(pp), Some(names[i]))
      else Dispatch(s.firstReply(pp), None, Some(pp), Some(names[i]))
  }

  /** On every path but an activated match, `Process` answers -1; a match is the
      first successful probe, its object and slot name are attached, and an
      activated match answers what the protocol's first request answers. Each
      error text belongs to one way of failing: a refused upgrade at the
      marker, every slot probed in vain, or a refused activation; a flawed
      link fails with no text and nothing attached. */
  lemma OutcomeMeaning(v: seq<int8>, protos: seq<Proto>, names: seq<string>, s: LinkScript)
    requires WellFormed(v, |protos|) && |names| == |protos|
    ensures var d := Outcome(v, protos, names, s);
      d.code != -1 ==> d.attached.Some? && s.activateOk && d.code == s.firstReply(d.attached.value)
    ensures var r := ScanFrom(v, protos, s, 0, 0);
      r.end.Found? ==>
        && |r.probed| > 0
        && Missed(s, protos, 0, r.probed, |r.probed| - 1)
        && s.matchAt(|r.probed| - 1, protos[r.end.slot]) == Some(r.end.pp)
        && Outcome(v, protos, names, s).attached == Some(r.end.pp)
        && Outcome(v, protos, names, s).name == Some(names[r.end.slot])
    ensures var r := ScanFrom(v, protos, s, 0, 0);
      r.end.Flawed? ==> Outcome(v, protos, names, s) == Dispatch(-1, None, None, None)
    ensures Outcome(v, protos, names, s).etext == Some(TlsFailedText) ==>
      && Outcome(v, protos, names, s).attached.None?
      && !s.tlsOk && v[FirstSentinel(v, |protos|, 0)] == Marker
      && Missed(s, protos, 0, ScanFrom(v, protos, s, 0, 0).probed, |ScanFrom(v, protos, s, 0, 0).probed|)
    ensures Outcome(v, protos, names, s).etext == Some(NotFoundText) ==>
      && Outcome(v, protos, names, s).attached.None?
      && ScanFrom(v, protos, s, 0, 0).probed == SlotEntries(v, |protos|, 0)
      && Missed(s, protos, 0, ScanFrom(v, protos, s, 0, 0).probed, |ScanFrom(v, protos, s, 0, 0).probed|)
    ensures Outcome(v, protos, names, s).etext == Some(ActivationText) ==>
      Outcome(v, protos, names, s).attached.Some? && !s.activateOk
    ensures ScanFrom(v, protos, s, 0, 0).end.TlsFailed? ==> Outcome(v, protos, names, s).etext == Some(TlsFailedText)
    ensures ScanFrom(v, protos, s, 0, 0).end.NoMatch? ==> Outcome(v, protos, names, s).etext == Some(NotFoundText)
    ensures ScanFrom(v, protos, s, 0, 0).end.Found? && !s.activateOk ==>
      Outcome(v, protos, names, s).etext == Some(ActivationText)
    ensures var r := ScanFrom(v, protos, s, 0, 0);
      r.end.Found? && s.activateOk ==>
        Outcome(v, protos, names, s)
          == Dispatch(s.firstReply(r.end.pp), None, Some(r.end.pp), Some(names[r.end.slot]))
  {
    ScanExplained(v, protos, s, 0, 0);
  }
}
