/** Two start-ups of the dispatcher, written as clients of the model: they use
    only the contracts of `Registry`, `ProtLoad` and the lemmas. */
module Scenarios {
  import opened Types
  import opened Candidates
  import opened Matching
  import opened LibCache
  import opened Dispatch

  const Http: Proto := Proto(1)
  const Https: Proto := Proto(2)

  /** Built-in protocols only: every one wants port 80; "http" and "https" exist. */
  function BuiltinOnly(): Modules
  {
    Modules(
      (lib: string) => false,
      (lib: string) => false,
      (lib: string, pname: string, parms: string) => -1,
      (lib: string) => false,
      (lib: string, pname: string, parms: string) => None,
      (pname: string, parms: string) => 80,
      (pname: string, parms: string) =>
        if pname == "http" then Some(Http) else if pname == "https" then Some(Https) else None)
  }

  /** A plaintext client that `Http` recognises at once. */
  function PlainClient(): LinkScript
  {
    LinkScript(true, (k: nat, p: Proto) => if p == Http then Some(Http) else None,
               (k: nat) => false, true, (pp: Proto) => if pp == Http then 100 else 200)
  }

  /** A client that only `Https` recognises. */
  function TlsClient(): LinkScript
  {
    LinkScript(true, (k: nat, p: Proto) => if p == Https then Some(Https) else None,
               (k: nat) => false, true, (pp: Proto) => if pp == Http then 100 else 200)
  }

  /** With "http" (plain) and "https" (TLS) on one port, the vector is
      [http, marker, http, https, terminator]; the plain client matches "http"
      on the first probe with no upgrade, and the TLS client is upgraded once
      and matches "https" on the third probe. */
  lemma HttpPortScans()
    ensures CandidateList([80, 80], [false, true], 80) == [0, Marker, 0, 1, End]
    ensures ScanFrom([0, Marker, 0, 1, End], [Http, Https], PlainClient(), 0, 0)
      == Scan(Found(0, Http), [0], 0)
    ensures ScanFrom([0, Marker, 0, 1, End], [Http, Https], TlsClient(), 0, 0)
      == Scan(Found(1, Https), [0, 0, 1], 1)
  {
    var ports, tls := [80, 80], [false, true];
    assert HasTls(ports, tls, 80, 2) by { assert ports[1] == 80 && tls[1]; }
    assert SlotsOn(ports, tls, 80, true, 2) == [0];
    assert SlotsOn(ports, tls, 80, false, 2) == [0, 1];
    var v: seq<int8> := [0, Marker, 0, 1, End];
    var protos := [Http, Https];
    assert WellFormed(v, 2);
    var s := TlsClient();
    assert ScanFrom(v, protos, s, 3, 2) == Scan(Found(1, Https), [1], 0);
    assert ScanFrom(v, protos, s, 2, 1) == Scan(Found(1, Https), [0, 1], 0);
    assert ScanFrom(v, protos, s, 1, 1) == Scan(Found(1, Https), [0, 1], 1);
  }

  /** Outcome of both clients against the port-80 vector. */
  lemma HttpOutcomes()
    ensures Outcome([0, Marker, 0, 1, End], [Http, Https], ["http", "https"], PlainClient())
      == Dispatch(100, None, Some(Http), Some("http"))
    ensures Outcome([0, Marker, 0, 1, End], [Http, Https], ["http", "https"], TlsClient())
      == Dispatch(200, None, Some(Https), Some("https"))
  {
    HttpPortScans();
  }

  /** Register the built-in protocol `pname` on port 80. */
  method AddBuiltin(reg: Registry, pname: string, pp: Proto, istls: bool)
    requires reg.Valid() && reg.protoCnt < ProtoMax
    requires BuiltinOnly().builtinProto(pname, "") == Some(pp)
    modifies reg, reg.protocol, reg.protName, reg.protPort, reg.protoTLS
    ensures reg.Valid() && reg.protoCnt == old(reg.protoCnt) + 1
    ensures reg.Ports() == old(reg.Ports()) + [80] && reg.Tls() == old(reg.Tls()) + [istls]
    ensures reg.Protos() == old(reg.Protos()) + [pp] && reg.Names() == old(reg.Names()) + [pname]
  {
    var ok := reg.Load(None, pname, "", Config(80), istls, BuiltinOnly());
  }

  /** Register "http" and "https" (TLS) on the port "http" asks for. */
  method HttpRegistry() returns (reg: Registry, port: int)
    ensures reg.Valid() && port == 80
    ensures reg.Ports() == [80, 80] && reg.Tls() == [false, true]
    ensures reg.Protos() == [Http, Https] && reg.Names() == ["http", "https"]
  {
    reg := new Registry();
    port := reg.Port(None, "http", "", Config(0), BuiltinOnly());
    assert reg.Ports() == [] && reg.Tls() == [] && reg.Protos() == [] && reg.Names() == [];
    AddBuiltin(reg, "http", Http, false);
    AddBuiltin(reg, "https", Https, true);
  }

  /** Build the port-80 loader and match one plaintext and one TLS client. */
  method HttpPortScenario() returns (plain: int, plainName: string, secure: int, secureName: string)
    ensures plain == 100 && plainName == "http"
    ensures secure == 200 && secureName == "https"
  {
    var reg, port := HttpRegistry();
    var loader := new ProtLoad(port, reg);
    HttpPortScans();
    HttpOutcomes();
    var link := new Link();
    plain := loader.Process(reg, link, PlainClient());
    plainName := link.protName;
    var link2 := new Link();
    secure := loader.Process(reg, link2, TlsClient());
    secureName := link2.protName;
  }

  /** One library provides two protocols; neither exports a port entry point. */
  function OneModule(): Modules
  {
    Modules(
      (lib: string) => true,
      (lib: string) => false,
      (lib: string, pname: string, parms: string) => -1,
      (lib: string) => true,
      (lib: string, pname: string, parms: string) => Some(Proto(|pname|)),
      (pname: string, parms: string) => -1,
      (pname: string, parms: string) => None)
  }

  /** Registering a second protocol from an already loaded library loads it no
      second time, and the configured port stands in for the missing entry point. */
  method SharedModuleScenario() returns (loaded: nat, registered: nat, port: int)
    ensures loaded == 1 && registered == 2 && port == 1094
  {
    var reg := new Registry();
    var env := OneModule();
    var cfg := Config(1094);
    var lib := Some("libXrdProt.so");
    var p1 := reg.Port(lib, "xroot", "", cfg, env);
    var ok1 := reg.Load(lib, "xroot", "", cfg, false, env);
    var p2 := reg.Port(lib, "xroots", "", cfg, env);
    var ok2 := reg.Load(lib, "xroots", "", cfg, true, env);
    assert reg.Libs() == ["libXrdProt.so"];
    loaded, registered, port := reg.libcnt, reg.protoCnt, p2;
  }
}
