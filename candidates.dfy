/** The per-port candidate vector that the `XrdProtLoad(int port)` constructor
    builds from the registry: the plain (non-TLS) slots of the port, then, when
    some slot of the port needs TLS, one `Marker` followed by every slot of the
    port, and finally one `End`. */
module Candidates {
  import opened Types

  /** Slot `i` is registered on `port` and, when `plainOnly`, does not need TLS. */
  predicate Qualifies(ports: seq<int>, tls: seq<bool>, port: int, plainOnly: bool, i: nat)
    requires i < |ports| == |tls|
  {
    ports[i] == port && !(plainOnly && tls[i])
  }

  /** Some slot among the first `n` is registered on `port` and needs TLS. */
  predicate HasTls(ports: seq<int>, tls: seq<bool>, port: int, n: nat)
    requires n <= |ports| == |tls|
  {
    exists i :: 0 <= i < n && ports[i] == port && tls[i]
  }

  /** The qualifying slots among the first `n`, in registry order. */
  function SlotsOn(ports: seq<int>, tls: seq<bool>, port: int, plainOnly: bool, n: nat): (r: seq<int8>)
    requires n <= |ports| == |tls| <= ProtoMax
    ensures |r| <= n
    ensures forall k :: 0 <= k < |r| ==> 0 <= r[k] as int < n
    decreases n
  {
    if n == 0 then []
    else
      SlotsOn(ports, tls, port, plainOnly, n - 1)
        + (if Qualifies(ports, tls, port, plainOnly, n - 1) then [(n - 1) as int8] else [])
  }

  /** The candidate vector for `port` over a registry whose slots have the given
      ports and TLS flags (XrdProtLoad.cc, constructor). */
  function CandidateList(ports: seq<int>, tls: seq<bool>, port: int): (v: seq<int8>)
    requires |ports| == |tls| <= ProtoMax
    ensures |v| > 0 && v[|v| - 1] == End
  {
    var n := |ports|;
    SlotsOn(ports, tls, port, true, n)
      + (if HasTls(ports, tls, port, n) then [Marker] + SlotsOn(ports, tls, port, false, n) else [])
      + [End]
  }

  /** The marker occurs at most once in `v`. */
  predicate AtMostOneMarker(v: seq<int8>)
  {
    forall j, k :: 0 <= j < |v| && 0 <= k < |v| && v[j] == Marker && v[k] == Marker ==> j == k
  }

  predicate Increasing(s: seq<int8>)
  {
    forall a, b :: 0 <= a < b < |s| ==> s[a] < s[b]
  }

  /** `s` lists every qualifying slot of the registry exactly once, in registry
      order, and nothing else. */
  predicate Enumerates(s: seq<int8>, ports: seq<int>, tls: seq<bool>, port: int, plainOnly: bool)
    requires |ports| == |tls| <= ProtoMax
  {
    && Increasing(s)
    && (forall k :: 0 <= k < |s| ==> 0 <= s[k] as int < |ports| && Qualifies(ports, tls, port, plainOnly, s[k] as int))
    && (forall i :: 0 <= i < |ports| && Qualifies(ports, tls, port, plainOnly, i) ==> i as int8 in s)
  }

  /** A vector the matching loop can walk: it ends with `End`, holds no other
      `End`, and every other entry is `Marker` or a slot below `nslots`. */
  predicate WellFormed(v: seq<int8>, nslots: nat)
  {
    && |v| > 0
    && v[|v| - 1] == End
    && (forall k :: 0 <= k < |v| - 1 ==> v[k] == Marker || 0 <= v[k] as int < nslots)
  }

  lemma {:induction false} SlotsOnIncreasing(ports: seq<int>, tls: seq<bool>, port: int, plainOnly: bool, n: nat)
    requires n <= |ports| == |tls| <= ProtoMax
    ensures Increasing(SlotsOn(ports, tls, port, plainOnly, n))
  {
    if n > 0 {
      SlotsOnIncreasing(ports, tls, port, plainOnly, n - 1);
      var prev := SlotsOn(ports, tls, port, plainOnly, n - 1);
      var r := SlotsOn(ports, tls, port, plainOnly, n);
      if Qualifies(ports, tls, port, plainOnly, n - 1) {
        assert r == prev + [(n - 1) as int8];
        forall a, b | 0 <= a < b < |r| ensures r[a] < r[b] {
          assert r[a] == prev[a];
          if b < |prev| { assert r[b] == prev[b]; }
        }
      } else {
        assert r == prev;
      }
    }
  }

  lemma {:induction false} SlotsOnSound(ports: seq<int>, tls: seq<bool>, port: int, plainOnly: bool, n: nat)
    requires n <= |ports| == |tls| <= ProtoMax
    ensures forall k :: 0 <= k < |SlotsOn(ports, tls, port, plainOnly, n)| ==>
      Qualifies(ports, tls, port, plainOnly, SlotsOn(ports, tls, port, plainOnly, n)[k] as int)
  {
    if n > 0 {
      SlotsOnSound(ports, tls, port, plainOnly, n - 1);
    }
  }

  lemma {:induction false} SlotsOnComplete(ports: seq<int>, tls: seq<bool>, port: int, plainOnly: bool, n: nat)
    requires n <= |ports| == |tls| <= ProtoMax
    ensures forall i :: 0 <= i < n && Qualifies(ports, tls, port, plainOnly, i) ==>
      i as int8 in SlotsOn(ports, tls, port, plainOnly, n)
  {
    if n > 0 {
      SlotsOnComplete(ports, tls, port, plainOnly, n - 1);
      var prev := SlotsOn(ports, tls, port, plainOnly, n - 1);
      if Qualifies(ports, tls, port, plainOnly, n - 1) {
        var r := prev + [(n - 1) as int8];
        assert SlotsOn(ports, tls, port, plainOnly, n) == r;
        assert r[|r| - 1] == (n - 1) as int8;
      }
    }
  }

  /** The qualifying slots of the whole registry, in registry order, once each. */
  lemma SlotsOnEnumerates(ports: seq<int>, tls: seq<bool>, port: int, plainOnly: bool)
    requires |ports| == |tls| <= ProtoMax
    ensures Enumerates(SlotsOn(ports, tls, port, plainOnly, |ports|), ports, tls, port, plainOnly)
  {
    SlotsOnIncreasing(ports, tls, port, plainOnly, |ports|);
    SlotsOnSound(ports, tls, port, plainOnly, |ports|);
    SlotsOnComplete(ports, tls, port, plainOnly, |ports|);
  }

  /** Without TLS every plain slot is also a slot; with TLS at least one slot is
      not plain. */
  lemma {:induction false} PlainFewer(ports: seq<int>, tls: seq<bool>, port: int, n: nat)
    requires n <= |ports| == |tls| <= ProtoMax
    ensures |SlotsOn(ports, tls, port, true, n)| <= |SlotsOn(ports, tls, port, false, n)|
    ensures HasTls(ports, tls, port, n) ==>
      |SlotsOn(ports, tls, port, true, n)| < |SlotsOn(ports, tls, port, false, n)|
  {
    if n > 0 {
      PlainFewer(ports, tls, port, n - 1);
      if HasTls(ports, tls, port, n) && !HasTls(ports, tls, port, n - 1) {
        var i :| 0 <= i < n && ports[i] == port && tls[i];
        assert i == n - 1;
      }
    }
  }

  /** The shape of the candidate vector: an enumeration of the plain slots of the
      port, then (exactly when some slot of the port needs TLS) the marker and an
      enumeration of every slot of the port, then the terminator. */
  lemma CandidateListShape(ports: seq<int>, tls: seq<bool>, port: int) returns (e: nat)
    requires |ports| == |tls| <= ProtoMax
    ensures var v := CandidateList(ports, tls, port);
      && e < |v|
      && v[|v| - 1] == End
      && Enumerates(v[..e], ports, tls, port, true)
      && (HasTls(ports, tls, port, |ports|) ==>
            v[e] == Marker && Enumerates(v[e + 1..|v| - 1], ports, tls, port, false))
      && (!HasTls(ports, tls, port, |ports|) ==> e == |v| - 1)
  {
    var n := |ports|;
    var plain := SlotsOn(ports, tls, port, true, n);
    var all := SlotsOn(ports, tls, port, false, n);
    SlotsOnEnumerates(ports, tls, port, true);
    SlotsOnEnumerates(ports, tls, port, false);
    var v := CandidateList(ports, tls, port);
    e := |plain|;
    assert v[..e] == plain;
    if HasTls(ports, tls, port, n) {
      assert v[e + 1..|v| - 1] == all;
    }
  }

  /** The terminator occurs once, at the end; the marker occurs at most once,
      and only when some slot of the port needs TLS; every other entry is a slot
      below the registry count that is registered on the port. */
  lemma CandidateListSentinels(ports: seq<int>, tls: seq<bool>, port: int)
    requires |ports| == |tls| <= ProtoMax
    ensures var v := CandidateList(ports, tls, port);
      && (forall k :: 0 <= k < |v| && v[k] == End ==> k == |v| - 1)
      && AtMostOneMarker(v)
      && (Marker in v <==> HasTls(ports, tls, port, |ports|))
      && (forall k :: 0 <= k < |v| && v[k] != Marker && v[k] != End ==>
            0 <= v[k] as int < |ports| && ports[v[k] as int] == port)
  {
    var n := |ports|;
    var plain := SlotsOn(ports, tls, port, true, n);
    var all := SlotsOn(ports, tls, port, false, n);
    SlotsOnEnumerates(ports, tls, port, true);
    SlotsOnEnumerates(ports, tls, port, false);
    var v := CandidateList(ports, tls, port);
    if HasTls(ports, tls, port, n) {
      assert v == plain + [Marker] + all + [End];
      assert v[|plain|] == Marker;
    } else {
      assert v == plain + [End];
    }
  }

  /** The vector always fits in `myProt`, whose size is 2 * ProtoMax + 1. */
  lemma CandidateListFits(ports: seq<int>, tls: seq<bool>, port: int)
    requires |ports| == |tls| <= ProtoMax
    ensures |CandidateList(ports, tls, port)| <= MyProtSize
  {
    PlainFewer(ports, tls, port, |ports|);
  }

  /** The vector can be walked by the matching loop. */
  lemma CandidateListWellFormed(ports: seq<int>, tls: seq<bool>, port: int)
    requires |ports| == |tls| <= ProtoMax
    ensures WellFormed(CandidateList(ports, tls, port), |ports|)
  {
    CandidateListSentinels(ports, tls, port);
  }

  /** Three slots A, B and C on one port, only C needing TLS, give
      [A, B, marker, A, B, C, terminator]. */
  lemma CandidateListExample(port: int)
    ensures CandidateList([port, port, port], [false, false, true], port) == [0, 1, Marker, 0, 1, 2, End]
  {
    var ports, tls := [port, port, port], [false, false, true];
    assert HasTls(ports, tls, port, 3) by { assert ports[2] == port && tls[2]; }
    assert SlotsOn(ports, tls, port, true, 3) == [0, 1];
    assert SlotsOn(ports, tls, port, false, 3) == [0, 1, 2];
  }
}
