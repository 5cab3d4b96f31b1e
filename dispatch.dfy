/** The state and operations of `XrdProtLoad`: the process-wide protocol tables
    and module cache (class `Registry`, the class's static members and the
    file's globals) and one protocol loader per listening port (class
    `ProtLoad`), which builds its candidate vector once and then matches every
    new link against it. */
module Dispatch {
  import opened Types
  import opened Candidates
  import opened Matching
  import opened StatsSpec
  import opened LibCache

  /** The static tables `Protocol`, `ProtName`, `ProtPort`, `ProtoTLS` and
      `ProtoCnt`, and the module cache `liblist`, `libhndl` and `libcnt`. */
  class Registry {
    const protocol: array<Option<Proto>>
    const protName: array<string>
    const protPort: array<int>
    const protoTLS: array<bool>
    var protoCnt: nat

    const liblist: array<string>
    const libhndl: array<Option<PinLoader>>
    var libcnt: nat

    function Repr(): set<object>
    {
      {this, protocol, protName, protPort, protoTLS, liblist, libhndl}
    }

    /** Both tables are bounded by ProtoMax, every registered slot holds a
        protocol object, every cached library has the loader built for it, and
        no library was loaded twice. */
    ghost predicate Valid()
      reads Repr()
    {
      && protocol.Length == ProtoMax && protName.Length == ProtoMax
      && protPort.Length == ProtoMax && protoTLS.Length == ProtoMax
      && liblist.Length == ProtoMax && libhndl.Length == ProtoMax
      && protName != liblist
      && protoCnt <= ProtoMax && libcnt <= ProtoMax
      && (forall i :: 0 <= i < protoCnt ==> protocol[i].Some?)
      && (forall i :: 0 <= i < libcnt ==> libhndl[i] == Some(PinLoader(liblist[i])))
      && Distinct(liblist[..libcnt])
    }

    ghost function Ports(): seq<int>
      reads Repr()
      requires Valid()
    {
      protPort[..protoCnt]
    }

    ghost function Tls(): seq<bool>
      reads Repr()
      requires Valid()
    {
      protoTLS[..protoCnt]
    }

    ghost function Names(): seq<string>
      reads Repr()
      requires Valid()
    {
      protName[..protoCnt]
    }

    ghost function Protos(): (r: seq<Proto>)
      reads Repr()
      requires Valid()
      ensures |r| == protoCnt
    {
      Unwrap(protocol[..protoCnt])
    }

    ghost function Libs(): seq<string>
      reads Repr()
      requires Valid()
    {
      liblist[..libcnt]
    }

    /** The tables as the program starts: every slot empty. */
    constructor ()
      ensures Valid() && fresh(Repr())
      ensures protoCnt == 0 && libcnt == 0
    {
      protocol := new Option<Proto>[ProtoMax](_ => None);
      protName := new string[ProtoMax](_ => "");
      protPort := new int[ProtoMax](_ => 0);
      protoTLS := new bool[ProtoMax](_ => false);
      liblist := new string[ProtoMax](_ => "");
      libhndl := new Option<PinLoader>[ProtoMax](_ => None);
      protoCnt, libcnt := 0, 0;
    }

    /** `Load`: register protocol `pname` on the configured port `pi.port`.
        It fails, changing nothing, when the table is full or no protocol
        object is obtained; otherwise it fills slot `ProtoCnt` and nothing else. */
    method Load(lname: Option<string>, pname: string, parms: string, pi: Config, istls: bool, env: Modules)
      returns (ok: int)
      requires Valid()
      modifies this, protocol, protName, protPort, protoTLS
      ensures Valid()
      ensures ok == (if old(protoCnt) < ProtoMax && ProtocolOf(old(Libs()), env, lname, pname, parms).Some? then 1 else 0)
      ensures ok == 1 ==>
        && protoCnt == old(protoCnt) + 1
        && protocol[..] == old(protocol[..])[old(protoCnt) := ProtocolOf(old(Libs()), env, lname, pname, parms)]
        && protName[..] == old(protName[..])[old(protoCnt) := pname]
        && protPort[..] == old(protPort[..])[old(protoCnt) := pi.port]
        && protoTLS[..] == old(protoTLS[..])[old(protoCnt) := istls]
        && Names() == old(Names()) + [pname]
        && Ports() == old(Ports()) + [pi.port]
        && Tls() == old(Tls()) + [istls]
        && Protos() == old(Protos()) + [ProtocolOf(old(Libs()), env, lname, pname, parms).value]
      ensures ok == 0 ==> protoCnt == old(protoCnt) && unchanged(protocol, protName, protPort, protoTLS)
      ensures libcnt == old(libcnt) && unchanged(liblist, libhndl)
    {
      var port := pi.port;
      ghost var cnt := protoCnt;
      if protoCnt >= ProtoMax {
        return 0;
      }
      var xp := GetProtocol(lname, pname, parms, env);
      if xp.None? {
        return 0;
      }
      protName[protoCnt] := pname;
      protPort[protoCnt] := port;
      protocol[protoCnt] := xp;
      protoTLS[protoCnt] := istls;
      protoCnt := protoCnt + 1;
      assert protocol[..cnt + 1] == old(protocol[..cnt]) + [xp];
      ok := 1;
    }

    /** `Port`: the port protocol `pname` wants, exactly as `getProtocolPort`
        finds it (a negative value means it could not be determined). */
    method Port(lname: Option<string>, pname: string, parms: string, pi: Config, env: Modules)
      returns (port: int)
      requires Valid()
      modifies this, liblist, libhndl
      ensures Valid()
      ensures PortLookup(port, Libs()) == PortOf(old(Libs()), env, lname, pname, parms, pi)
      ensures protoCnt == old(protoCnt)
    {
      port := GetProtocolPort(lname, pname, parms, pi, env);
    }

    /** `Statistics`: the total the protocols report, asked in slot order while
        room remains or the buffer is null, the cursor `buff` and the room
        `blen` moved by each reported length. */
    method Statistics(buff: nat, blen: int, doSync: int, stats: StatsOracle) returns (totlen: int)
      requires Valid()
      ensures totlen == StatsFrom(Protos(), stats, doSync, 0, buff, blen, 0).total
    {
      ghost var protos := Protos();
      var i, b, l := 0, buff, blen;
      totlen := 0;
      while i < protoCnt && (l > 0 || b == 0)
        invariant 0 <= i <= protoCnt
        invariant StatsFrom(protos, stats, doSync, i, b, l, totlen) == StatsFrom(protos, stats, doSync, 0, buff, blen, 0)
      {
        var k := stats(protocol[i].value, b, l, doSync);
        totlen := totlen + k;
        b := b + k;
        l := l - k;
        i := i + 1;
      }
    }

    /** `getProtocol`: obtain a protocol object, never loading a library. */
    method GetProtocol(lname: Option<string>, pname: string, parms: string, env: Modules)
      returns (xp: Option<Proto>)
      requires Valid()
      ensures xp == ProtocolOf(Libs(), env, lname, pname, parms)
    {
      if lname.None? {
        return env.builtinProto(pname, parms);
      }
      var xname := lname.value;
      var i := 0;
      while i < libcnt && liblist[i] != xname
        invariant 0 <= i <= libcnt
        invariant forall j :: 0 <= j < i ==> liblist[j] != xname
      {
        i := i + 1;
      }
      if i >= libcnt {
        return None;
      }
      var handle := libhndl[i].value;
      if !env.protoSymbol(handle.lib) {
        return None;
      }
      xp := env.protoEntry(handle.lib, pname, parms);
    }

    /** `getProtocolPort`: find the port, loading the library first when it is
        not cached yet and there is room for it. */
    method GetProtocolPort(lname: Option<string>, pname: string, parms: string, pi: Config, env: Modules)
      returns (port: int)
      requires Valid()
      modifies this, liblist, libhndl
      ensures Valid()
      ensures PortLookup(port, Libs()) == PortOf(old(Libs()), env, lname, pname, parms, pi)
      ensures protoCnt == old(protoCnt)
    {
      if lname.None? {
        return env.builtinPort(pname, parms);
      }
      var xname := lname.value;
      var i := 0;
      while i < libcnt && liblist[i] != xname
        invariant 0 <= i <= libcnt
        invariant forall j :: 0 <= j < i ==> liblist[j] != xname
      {
        i := i + 1;
      }
      if i >= libcnt {
        if libcnt >= ProtoMax {
          return -1;
        }
        if !env.loaderOk(xname) {
          libhndl[i] := None;
          return -1;
        }
        libhndl[i] := Some(PinLoader(xname));
        liblist[i] := xname;
        libcnt := libcnt + 1;
        assert liblist[..libcnt] == old(liblist[..libcnt]) + [xname];
      }
      var handle := libhndl[i].value;
      if !env.portSymbol(handle.lib) {
        return if pi.port < 0 then 0 else pi.port;
      }
      port := env.portEntry(handle.lib, pname, parms);
    }
  }

  /** The part of an `XrdLink` that `Process` sets. */
  class Link {
    var etext: string
    var protocol: Option<Proto>
    var protName: string

    constructor ()
      ensures etext == "" && protocol == None && protName == ""
    {
      etext, protocol, protName := "", None, "";
    }
  }

  /** One `XrdProtLoad` object: the loader for one listening port. */
  class ProtLoad {
    const myPort: int
    const myProt: array<int8>

    /** The candidate vector as built, up to and including its terminator. */
    ghost const candidates: seq<int8>

    /** `ProtoCnt` when the vector was built. */
    ghost const builtCnt: nat

    ghost predicate Valid()
      reads myProt
    {
      && myProt.Length == MyProtSize
      && |candidates| <= MyProtSize
      && myProt[..|candidates|] == candidates
      && WellFormed(candidates, builtCnt)
    }

    /** `XrdProtLoad(int port)`: build the candidate vector for `port` from the
        registry as it stands. */
    constructor (port: int, reg: Registry)
      requires reg.Valid()
      ensures Valid() && fresh(myProt)
      ensures myPort == port && builtCnt == reg.protoCnt
      ensures candidates == CandidateList(reg.Ports(), reg.Tls(), port)
    {
      var prot, len := Build(reg, port);
      CandidateListWellFormed(reg.Ports(), reg.Tls(), port);
      myPort := port;
      myProt := prot;
      candidates := prot[..len];
      builtCnt := reg.protoCnt;
    }

    /** The constructor's work: a fresh vector of MyProtSize entries whose
        first `len` entries are the candidate list, terminator included. */
    static method Build(reg: Registry, port: int) returns (prot: array<int8>, len: nat)
      requires reg.Valid()
      ensures fresh(prot) && prot.Length == MyProtSize
      ensures len <= MyProtSize && prot[..len] == CandidateList(reg.Ports(), reg.Tls(), port)
    {
      ghost var ports, tls := reg.Ports(), reg.Tls();
      ghost var n := |ports|;
      ghost var plain := SlotsOn(ports, tls, port, true, n);
      ghost var all := SlotsOn(ports, tls, port, false, n);
      ghost var cands := CandidateList(ports, tls, port);
      prot := new int8[MyProtSize](_ => End);
      var j, hastls := CollectPlain(reg, port, prot);
      assert prot[..j] == plain;
      ghost var body := plain;
      if hastls {
        PlainFewer(ports, tls, port, n);
        prot[j] := Marker;
        assert prot[..j + 1] == plain + [Marker];
        j := CollectAll(reg, port, prot, j + 1);
        body := plain + [Marker] + all;
      }
      assert prot[..j] == body;
      assert body + [End] == cands;
      CandidateListFits(ports, tls, port);
      prot[j] := End;
      assert prot[..j + 1] == body + [End];
      len := j + 1;
    }

    /** The constructor's first loop: the plain slots of `port` go to the front
        of `prot`, and `hastls` records whether some slot of `port` needs TLS. */
    static method CollectPlain(reg: Registry, port: int, prot: array<int8>) returns (j: nat, hastls: bool)
      requires reg.Valid() && prot.Length == MyProtSize
      modifies prot
      ensures j == |SlotsOn(reg.Ports(), reg.Tls(), port, true, reg.protoCnt)|
      ensures prot[..j] == SlotsOn(reg.Ports(), reg.Tls(), port, true, reg.protoCnt)
      ensures hastls == HasTls(reg.Ports(), reg.Tls(), port, reg.protoCnt)
    {
      ghost var ports, tls := reg.Ports(), reg.Tls();
      j, hastls := 0, false;
      for i := 0 to reg.protoCnt
        invariant j <= i
        invariant prot[..j] == SlotsOn(ports, tls, port, true, i)
        invariant hastls == HasTls(ports, tls, port, i)
      {
        if port == reg.protPort[i] {
          if reg.protoTLS[i] {
            hastls := true;
          } else {
            prot[j] := i as int8;
            j := j + 1;
          }
        }
        assert prot[..j] == SlotsOn(ports, tls, port, true, i + 1);
        assert HasTls(ports, tls, port, i + 1) == (HasTls(ports, tls, port, i) || (ports[i] == port && tls[i]));
      }
    }

    /** The constructor's second loop: every slot of `port` goes after the
        marker, which sits just before position `start`. */
    static method CollectAll(reg: Registry, port: int, prot: array<int8>, start: nat) returns (j: nat)
      requires reg.Valid() && prot.Length == MyProtSize
      requires start + reg.protoCnt < MyProtSize
      modifies prot
      ensures j == start + |SlotsOn(reg.Ports(), reg.Tls(), port, false, reg.protoCnt)|
      ensures prot[..j] == old(prot[..start]) + SlotsOn(reg.Ports(), reg.Tls(), port, false, reg.protoCnt)
    {
      ghost var ports, tls := reg.Ports(), reg.Tls();
      ghost var head := prot[..start];
      j := start;
      for i := 0 to reg.protoCnt
        invariant j == start + |SlotsOn(ports, tls, port, false, i)|
        invariant prot[..j] == head + SlotsOn(ports, tls, port, false, i)
      {
        if port == reg.protPort[i] {
          prot[j] := i as int8;
          j := j + 1;
        }
        assert prot[..j] == head + SlotsOn(ports, tls, port, false, i + 1);
      }
    }

    /** `Process`: match link `lp` to a protocol of this port and hand it the
        first request. Result, error text and attached protocol are those of
        `Outcome`, the walk of the candidate vector. */
    method Process(reg: Registry, lp: Link, s: LinkScript) returns (r: int)
      requires Valid() && reg.Valid() && builtCnt <= reg.protoCnt
      modifies lp
      ensures WellFormed(candidates, |reg.Protos()|) && |reg.Names()| == |reg.Protos()|
      ensures r == Outcome(candidates, reg.Protos(), reg.Names(), s).code
      ensures var d := Outcome(candidates, reg.Protos(), reg.Names(), s);
        && lp.etext == (if d.etext.Some? then d.etext.value else old(lp.etext))
        && lp.protocol == (if d.attached.Some? then d.attached else old(lp.protocol))
        && lp.protName == (if d.name.Some? then d.name.value else old(lp.protName))
    {
      ghost var protos := reg.Protos();
      ghost var v := candidates;
      assert WellFormed(v, |protos|);
      var pp: Option<Proto> := None;
      var pv := 0;
      var i := 0;
      var probes := 0;
      while myProt[pv] != End
        invariant 0 <= pv < |v|
        invariant pp.None?
        invariant ScanFrom(v, protos, s, pv, probes).end == ScanFrom(v, protos, s, 0, 0).end
        invariant unchanged(lp)
        decreases |v| - pv
      {
        assert myProt[pv] == v[pv];
        if myProt[pv] == Marker {
          if !s.tlsOk {
            lp.etext := TlsFailedText;
            return -1;
          }
        } else {
          i := myProt[pv] as int;
          pp := s.matchAt(probes, reg.protocol[i].value);
          if pp.Some? {
            break;
          } else if s.flawedAt(probes) {
            return -1;
          }
          probes := probes + 1;
        }
        pv := pv + 1;
      }
      if pp.None? {
        lp.etext := NotFoundText;
        return -1;
      }
      lp.protocol := pp;
      lp.protName := reg.protName[i];
      if !s.activateOk {
        lp.etext := ActivationText;
        return -1;
      }
      r := s.firstReply(pp.value);
    }
  }
}
