/** Shared vocabulary of the XRootD protocol dispatcher model: the table bounds,
    the signed-char encoding of candidate lists, opaque protocol objects, and the
    answers of the collaborators (dynamic loader, link, protocol objects) that the
    dispatcher only calls and never implements. */
module Types {

  /** Capacity of the protocol registry and of the module cache (XrdProtLoad::ProtoMax). */
  const ProtoMax: nat := 8

  /** Size of the per-port candidate vector `myProt`: room for ProtoMax - 1 plain
      entries, one marker, ProtoMax entries after it and one terminator. */
  const MyProtSize: nat := 2 * ProtoMax + 1

  /** `signed char`, the element type of `myProt`. */
  newtype int8 = x: int | -128 <= x < 128

  /** The sentinel that asks for a TLS upgrade before the entries that follow. */
  const Marker: int8 := -1

  /** The sentinel that ends a candidate vector. */
  const End: int8 := -2

  datatype Option<T> = None | Some(value: T)

  /** An `XrdProtocol` object, known only by its identity. */
  datatype Proto = Proto(id: nat)

  /** An `XrdOucPinLoader`: a handle on the shared library it was built for. */
  datatype PinLoader = PinLoader(lib: string)

  /** The part of `XrdProtocol_Config` the dispatcher itself reads. */
  datatype Config = Config(port: int)

  /** What the dynamic loading facility and the entry points answer.
      Entry points receive (library, protocol name, parameters); built-ins
      receive (protocol name, parameters). */
  datatype Modules = Modules(
    loaderOk: string -> bool,                         // new XrdOucPinLoader(...) is non-null
    portSymbol: string -> bool,                       // Resolve("XrdgetProtocolPort", 2) succeeds
    portEntry: (string, string, string) -> int,       // the module's XrdgetProtocolPort(...)
    protoSymbol: string -> bool,                      // Resolve("XrdgetProtocol") succeeds
    protoEntry: (string, string, string) -> Option<Proto>, // the module's XrdgetProtocol(...)
    builtinPort: (string, string) -> int,             // compiled-in XrdgetProtocolPort
    builtinProto: (string, string) -> Option<Proto>)  // compiled-in XrdgetProtocol

  /** What one connection answers while it is being matched. A probe is known
      by its ordinal (0 for the first `Match` call on the link) and by the
      protocol object asked; the ordinal stands for whatever state the link has
      reached by then. */
  datatype LinkScript = LinkScript(
    tlsOk: bool,                              // lp->setTLS(true)
    matchAt: (nat, Proto) -> Option<Proto>,   // Protocol[i]->Match(lp)
    flawedAt: nat -> bool,                    // lp->isFlawed() after a failed probe
    activateOk: bool,                         // lp->Activate()
    firstReply: Proto -> int)                 // pp->Process(lp)

  /** `Protocol[i]->Stats(buff, blen, do_sync)`: bytes reported by a protocol object
      given the buffer address (0 is the null pointer), the room left and the sync flag. */
  type StatsOracle = (Proto, nat, int, int) -> nat

  /** The protocol objects of table entries that are all set. */
  function Unwrap(s: seq<Option<Proto>>): (r: seq<Proto>)
    requires forall i :: 0 <= i < |s| ==> s[i].Some?
    ensures |r| == |s|
    ensures forall i :: 0 <= i < |s| ==> s[i] == Some(r[i])
  {
    seq(|s|, i requires 0 <= i < |s| => s[i].value)
  }

  /** No element occurs twice. */
  predicate Distinct<T(==)>(s: seq<T>)
  {
    forall a, b :: 0 <= a < b < |s| ==> s[a] != s[b]
  }
}
