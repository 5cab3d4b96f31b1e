/** The module cache behind `getProtocolPort` and `getProtocol`: each distinct
    library name is loaded at most once into `liblist`/`libhndl`, which hold at
    most ProtoMax entries; `getProtocolPort` is the only operation that loads. */
module LibCache {
  import opened Types

  /** The cache after one `getProtocolPort` call for `lname`: a built-in
      protocol (no library) or a known library leaves it alone; a new library
      is appended when there is room and its loader could be built. */
  function CacheStep(libs: seq<string>, env: Modules, lname: Option<string>): (r: seq<string>)
    ensures r == libs || (lname.Some? && lname.value !in libs && r == libs + [lname.value])
    ensures r != libs ==> |libs| < ProtoMax && env.loaderOk(lname.value)
    ensures lname.Some? && lname.value !in libs && |libs| < ProtoMax && env.loaderOk(lname.value) ==>
      r == libs + [lname.value]
    ensures Distinct(libs) ==> Distinct(r)
    ensures |libs| <= ProtoMax ==> |r| <= ProtoMax
  {
    match lname
    case None => libs
    case Some(n) =>
      if n in libs || |libs| >= ProtoMax || !env.loaderOk(n) then libs else libs + [n]
  }

  /** The port a loaded library reports: its `XrdgetProtocolPort` entry point
      when it resolves, otherwise the configured port, 0 when that is negative. */
  function ModulePort(env: Modules, lib: string, pname: string, parms: string, pi: Config): (port: int)
    ensures !env.portSymbol(lib) && pi.port < 0 ==> port == 0
    ensures !env.portSymbol(lib) && pi.port >= 0 ==> port == pi.port
    ensures env.portSymbol(lib) ==> port == env.portEntry(lib, pname, parms)
  {
    if !env.portSymbol(lib) then (if pi.port < 0 then 0 else pi.port)
    else env.portEntry(lib, pname, parms)
  }

  /** What one `getProtocolPort` call returns and the cache it leaves. */
  datatype PortLookup = PortLookup(port: int, libs: seq<string>)

  /** `getProtocolPort`: the built-in entry point when no library is named;
      otherwise -1 when the library is new and the cache is full or its loader
      could not be built, and else the port the library reports. */
  function PortOf(libs: seq<string>, env: Modules, lname: Option<string>,
                  pname: string, parms: string, pi: Config): (r: PortLookup)
    ensures r.libs == CacheStep(libs, env, lname)
    ensures lname.None? ==> r.port == env.builtinPort(pname, parms)
    ensures lname.Some? && lname.value in libs ==> r.port == ModulePort(env, lname.value, pname, parms, pi)
    ensures lname.Some? && lname.value !in libs ==>
      (r.port == -1 && r.libs == libs) || (r.libs == libs + [lname.value] && r.port == ModulePort(env, lname.value, pname, parms, pi))
    ensures lname.Some? && lname.value !in libs && (|libs| >= ProtoMax || !env.loaderOk(lname.value)) ==>
      r.port == -1 && r.libs == libs
    ensures lname.Some? && lname.value !in libs && |libs| < ProtoMax && env.loaderOk(lname.value) ==>
      r.libs == libs + [lname.value] && r.port == ModulePort(env, lname.value, pname, parms, pi)
  {
    var libs' := CacheStep(libs, env, lname);
    match lname
    case None => PortLookup(env.builtinPort(pname, parms), libs)
    case Some(n) => PortLookup(if n in libs' then ModulePort(env, n, pname, parms, pi) else -1, libs')
  }

  /** `getProtocol`: the built-in entry point when no library is named;
      otherwise null unless the library is already cached and its
      `XrdgetProtocol` entry point resolves, and then what that returns. */
  function ProtocolOf(libs: seq<string>, env: Modules, lname: Option<string>,
                      pname: string, parms: string): (xp: Option<Proto>)
    ensures lname.None? ==> xp == env.builtinProto(pname, parms)
    ensures lname.Some? && (lname.value !in libs || !env.protoSymbol(lname.value)) ==> xp.None?
    ensures lname.Some? && lname.value in libs && env.protoSymbol(lname.value) ==>
      xp == env.protoEntry(lname.value, pname, parms)
  {
    match lname
    case None => env.builtinProto(pname, parms)
    case Some(n) => if n !in libs || !env.protoSymbol(n) then None else env.protoEntry(n, pname, parms)
  }

  /** The cache after a series of `getProtocolPort` calls for the given names. */
  function CacheAfter(libs: seq<string>, env: Modules, lnames: seq<Option<string>>): (r: seq<string>)
    decreases |lnames|
  {
    if lnames == [] then libs
    else CacheAfter(CacheStep(libs, env, lnames[0]), env, lnames[1..])
  }

  /** Over any series of calls the cache only grows at its end, stays within
      ProtoMax entries, never holds a name twice (so no library is loaded
      twice), and holds only names it started with or was asked for. */
  lemma {:induction false} CacheLoadsOnce(libs: seq<string>, env: Modules, lnames: seq<Option<string>>)
    requires Distinct(libs) && |libs| <= ProtoMax
    ensures libs <= CacheAfter(libs, env, lnames)
    ensures Distinct(CacheAfter(libs, env, lnames))
    ensures |CacheAfter(libs, env, lnames)| <= ProtoMax
    ensures forall n :: n in CacheAfter(libs, env, lnames) ==> n in libs || Some(n) in lnames
    decreases |lnames|
  {
    if lnames != [] {
      var next := CacheStep(libs, env, lnames[0]);
      CacheLoadsOnce(next, env, lnames[1..]);
      forall n | n in CacheAfter(libs, env, lnames)
        ensures n in libs || Some(n) in lnames
      {
        if n !in libs && n in next {
          assert lnames[0] == Some(n);
        } else if n !in next {
          assert Some(n) in lnames[1..];
        }
      }
    }
  }

  /** Asking twice for the same library loads it no more than asking once. */
  lemma CacheIdempotent(libs: seq<string>, env: Modules, lname: Option<string>)
    ensures CacheStep(CacheStep(libs, env, lname), env, lname) == CacheStep(libs, env, lname)
  {
  }
}
