/**
  Listener reconciliation: merging public and private settings, and driving the
  running servers to a configuration whatever order the maps are visited in.
 */
module Reconcile {
  import opened Wrappers

  // ---------------------------------------------------------------------
  // Settings
  // ---------------------------------------------------------------------

  /** Slices are None when nil; an empty slice counts as set. */
  datatype TlsConf = TlsConf(
    rootCAs: Option<seq<(string, string)>>,
    nextProtos: Option<seq<string>>,
    cipherSuites: Option<seq<nat>>,
    ticketsDisabled: bool,
    ticketKeys: Option<seq<string>>,
    recordSizingDisabled: bool,
    minVersion: nat,
    maxVersion: nat,
    clientCAs: Option<seq<string>>)

  datatype ServerConf = ServerConf(
    publicName: string,
    readTimeout: int,
    writeTimeout: int,
    readHeaderTimeout: int,
    idleTimeout: int,
    maxHeaderBytes: int,
    keepAlivesEnabled: bool,
    shutdownConn: bool,
    optionsHandlerDisabled: bool,
    tls: Option<TlsConf>)

  datatype ConnConf = ConnConf(
    publicName: string,
    deadline: int,
    writeDeadline: int,
    readDeadline: int,
    keepAlive: bool,
    keepAlivePeriod: int,
    linger: int,
    noDelay: bool,
    readBuffer: int,
    writeBuffer: int)

  datatype Listen = Listen(status: bool, cc: ConnConf, cs: ServerConf)

  datatype Public = Public(cc: map<string, ConnConf>, cs: map<string, ServerConf>)

  const ZERO_CONN := ConnConf("", 0, 0, 0, false, 0, 0, false, 0, 0)
  const ZERO_SERVER := ServerConf("", 0, 0, 0, 0, 0, false, false, false, None)
  const ZERO_TLS := TlsConf(None, None, None, false, None, false, 0, 0, None)

  // ---------------------------------------------------------------------
  // Merging: the public settings, overridden by the private ones that are not zero
  // ---------------------------------------------------------------------

  function MergeInt(public: int, origin: int): int { if origin != 0 then origin else public }

  function MergeNat(public: nat, origin: nat): nat { if origin != 0 then origin else public }

  function MergeName(public: string, origin: string): string { if origin != "" then origin else public }

  function MergeSlice<T>(public: Option<T>, origin: Option<T>): Option<T> { if origin.Some? then origin else public }

  function MergeTls(public: TlsConf, origin: TlsConf): TlsConf {
    TlsConf(
      MergeSlice(public.rootCAs, origin.rootCAs),
      MergeSlice(public.nextProtos, origin.nextProtos),
      MergeSlice(public.cipherSuites, origin.cipherSuites),
      public.ticketsDisabled || origin.ticketsDisabled,
      MergeSlice(public.ticketKeys, origin.ticketKeys),
      public.recordSizingDisabled || origin.recordSizingDisabled,
      MergeNat(public.minVersion, origin.minVersion),
      MergeNat(public.maxVersion, origin.maxVersion),
      MergeSlice(public.clientCAs, origin.clientCAs))
  }

  function MergeConn(public: ConnConf, origin: ConnConf): ConnConf {
    ConnConf(
      MergeName(public.publicName, origin.publicName),
      MergeInt(public.deadline, origin.deadline),
      MergeInt(public.writeDeadline, origin.writeDeadline),
      MergeInt(public.readDeadline, origin.readDeadline),
      public.keepAlive || origin.keepAlive,
      MergeInt(public.keepAlivePeriod, origin.keepAlivePeriod),
      MergeInt(public.linger, origin.linger),
      public.noDelay || origin.noDelay,
      MergeInt(public.readBuffer, origin.readBuffer),
      MergeInt(public.writeBuffer, origin.writeBuffer))
  }

  function MergeServer(public: ServerConf, origin: ServerConf): ServerConf {
    ServerConf(
      MergeName(public.publicName, origin.publicName),
      MergeInt(public.readTimeout, origin.readTimeout),
      MergeInt(public.writeTimeout, origin.writeTimeout),
      MergeInt(public.readHeaderTimeout, origin.readHeaderTimeout),
      MergeInt(public.idleTimeout, origin.idleTimeout),
      MergeInt(public.maxHeaderBytes, origin.maxHeaderBytes),
      public.keepAlivesEnabled || origin.keepAlivesEnabled,
      public.shutdownConn || origin.shutdownConn,
      public.optionsHandlerDisabled || origin.optionsHandlerDisabled,
      if origin.tls.None? then public.tls
      else Some(MergeTls(public.tls.UnwrapOr(ZERO_TLS), origin.tls.value)))
  }

  /** Layers of settings can be merged in any grouping, empty layers do not matter, and what a later layer
      has set stays when it is merged over a layer that an earlier copy of it has already overridden. */
  lemma ConnLayers(a: ConnConf, b: ConnConf, c: ConnConf)
    ensures MergeConn(a, MergeConn(b, c)) == MergeConn(MergeConn(a, b), c)
    ensures MergeConn(ZERO_CONN, a) == a == MergeConn(a, ZERO_CONN)
    ensures MergeConn(MergeConn(c, b), c) == MergeConn(b, c)
  {
  }

  lemma TlsLayers(a: TlsConf, b: TlsConf, c: TlsConf)
    ensures MergeTls(a, MergeTls(b, c)) == MergeTls(MergeTls(a, b), c)
    ensures MergeTls(ZERO_TLS, a) == a == MergeTls(a, ZERO_TLS)
    ensures MergeTls(MergeTls(c, b), c) == MergeTls(b, c)
  {
  }

  /** The same for server settings, whose TLS part may be missing in any of the layers. */
  lemma ServerLayers(a: ServerConf, b: ServerConf, c: ServerConf)
    ensures MergeServer(a, MergeServer(b, c)) == MergeServer(MergeServer(a, b), c)
    ensures MergeServer(ZERO_SERVER, a) == a == MergeServer(a, ZERO_SERVER)
    ensures MergeServer(MergeServer(c, b), c) == MergeServer(b, c)
  {
    var none := ZERO_TLS;
    TlsLayers(a.tls.UnwrapOr(none), b.tls.UnwrapOr(none), c.tls.UnwrapOr(none));
    TlsLayers(b.tls.UnwrapOr(none), c.tls.UnwrapOr(none), a.tls.UnwrapOr(none));
    TlsLayers(c.tls.UnwrapOr(none), c.tls.UnwrapOr(none), c.tls.UnwrapOr(none));
    hide MergeTls;
  }

  /** What `a` sets, one setting at a time, is set alike in `b`. */
  predicate ConnWithin(a: ConnConf, b: ConnConf) {
    && (a.publicName != "" ==> b.publicName == a.publicName)
    && (a.deadline != 0 ==> b.deadline == a.deadline)
    && (a.writeDeadline != 0 ==> b.writeDeadline == a.writeDeadline)
    && (a.readDeadline != 0 ==> b.readDeadline == a.readDeadline)
    && (a.keepAlive ==> b.keepAlive)
    && (a.keepAlivePeriod != 0 ==> b.keepAlivePeriod == a.keepAlivePeriod)
    && (a.linger != 0 ==> b.linger == a.linger)
    && (a.noDelay ==> b.noDelay)
    && (a.readBuffer != 0 ==> b.readBuffer == a.readBuffer)
    && (a.writeBuffer != 0 ==> b.writeBuffer == a.writeBuffer)
  }

  predicate TlsWithin(a: TlsConf, b: TlsConf) {
    && (a.rootCAs.Some? ==> b.rootCAs == a.rootCAs)
    && (a.nextProtos.Some? ==> b.nextProtos == a.nextProtos)
    && (a.cipherSuites.Some? ==> b.cipherSuites == a.cipherSuites)
    && (a.ticketsDisabled ==> b.ticketsDisabled)
    && (a.ticketKeys.Some? ==> b.ticketKeys == a.ticketKeys)
    && (a.recordSizingDisabled ==> b.recordSizingDisabled)
    && (a.minVersion != 0 ==> b.minVersion == a.minVersion)
    && (a.maxVersion != 0 ==> b.maxVersion == a.maxVersion)
    && (a.clientCAs.Some? ==> b.clientCAs == a.clientCAs)
  }

  predicate ServerWithin(a: ServerConf, b: ServerConf) {
    && (a.publicName != "" ==> b.publicName == a.publicName)
    && (a.readTimeout != 0 ==> b.readTimeout == a.readTimeout)
    && (a.writeTimeout != 0 ==> b.writeTimeout == a.writeTimeout)
    && (a.readHeaderTimeout != 0 ==> b.readHeaderTimeout == a.readHeaderTimeout)
    && (a.idleTimeout != 0 ==> b.idleTimeout == a.idleTimeout)
    && (a.maxHeaderBytes != 0 ==> b.maxHeaderBytes == a.maxHeaderBytes)
    && (a.keepAlivesEnabled ==> b.keepAlivesEnabled)
    && (a.shutdownConn ==> b.shutdownConn)
    && (a.optionsHandlerDisabled ==> b.optionsHandlerDisabled)
    && (a.tls.Some? ==> b.tls.Some? && TlsWithin(a.tls.value, b.tls.value))
  }

  /** The private settings all survive a merge, whatever is public, and a public layer that has them already
      comes out as it is. */
  lemma PrivateConnWins(public: ConnConf, origin: ConnConf)
    ensures var r := MergeConn(public, origin); ConnWithin(origin, r) && (ConnWithin(origin, public) ==> r == public)
  {
  }

  lemma PrivateTlsWins(public: TlsConf, origin: TlsConf)
    ensures var r := MergeTls(public, origin); TlsWithin(origin, r) && (TlsWithin(origin, public) ==> r == public)
  {
  }

  lemma PrivateServerWins(public: ServerConf, origin: ServerConf)
    ensures var r := MergeServer(public, origin);
      ServerWithin(origin, r) && (ServerWithin(origin, public) ==> r == public)
  {
    if origin.tls.Some? { PrivateTlsWins(public.tls.UnwrapOr(ZERO_TLS), origin.tls.value); }
    hide MergeTls, TlsWithin;
  }

  /** A merge sets nothing that neither layer sets. */
  lemma ConnLeast(public: ConnConf, origin: ConnConf, q: ConnConf)
    requires ConnWithin(public, q) && ConnWithin(origin, q)
    ensures ConnWithin(MergeConn(public, origin), q)
  {
  }

  lemma TlsLeast(public: TlsConf, origin: TlsConf, q: TlsConf)
    requires TlsWithin(public, q) && TlsWithin(origin, q)
    ensures TlsWithin(MergeTls(public, origin), q)
  {
  }

  lemma ServerLeast(public: ServerConf, origin: ServerConf, q: ServerConf)
    requires ServerWithin(public, q) && ServerWithin(origin, q)
    ensures ServerWithin(MergeServer(public, origin), q)
  {
    if origin.tls.Some? { TlsLeast(public.tls.UnwrapOr(ZERO_TLS), origin.tls.value, q.tls.value); }
    hide MergeTls;
  }

  // ---------------------------------------------------------------------
  // Cipher suites
  // ---------------------------------------------------------------------

  /** A suite of `tls.CipherSuites`. */
  datatype Suite = Suite(id: nat, insecure: bool, versions: seq<nat>)

  const TLS13: nat := 0x0304

  predicate Supported(s: Suite, low: nat, high: nat) {
    !s.insecure && exists v <- s.versions :: low <= v <= high
  }

  function Suitable(suites: seq<Suite>, low: nat, high: nat): seq<nat> {
    if suites == [] then []
    else
      var last := suites[|suites| - 1];
      Suitable(suites[..|suites| - 1], low, high) + if Supported(last, low, high) then [last.id] else []
  }

  function AutoSuites(suites: seq<Suite>, t: TlsConf): TlsConf {
    var high := if t.maxVersion == 0 then TLS13 else t.maxVersion;
    var low := if t.minVersion > high then high else t.minVersion;
    var ranged := t.(minVersion := low, maxVersion := high);
    if t.cipherSuites.Some? && t.cipherSuites.value != [] then ranged
    else ranged.(cipherSuites := Some(Suitable(suites, low, high)))
  }

  lemma SuitableNext(suites: seq<Suite>, i: nat, low: nat, high: nat)
    requires i < |suites|
    ensures Suitable(suites[..i + 1], low, high)
         == if Supported(suites[i], low, high) then Suitable(suites[..i], low, high) + [suites[i].id]
            else Suitable(suites[..i], low, high)
  {
    assert suites[..i + 1][..i] == suites[..i];
  }

  method AnyWithin(versions: seq<nat>, low: nat, high: nat) returns (fits: bool)
    ensures fits <==> exists v <- versions :: low <= v <= high
  {
    for j := 0 to |versions|
      invariant forall k | 0 <= k < j :: !(low <= versions[k] <= high)
    {
      if low <= versions[j] <= high {
        assert versions[j] in versions;
        return true;
      }
    }
    return false;
  }

  method CipherSuitesAuto(suites: seq<Suite>, t: TlsConf) returns (r: TlsConf)
    ensures r == AutoSuites(suites, t)
  {
    r := t;
    if r.maxVersion == 0 {
      r := r.(maxVersion := TLS13);
    }
    if r.minVersion > r.maxVersion {
      r := r.(minVersion := r.maxVersion);
    }
    if r.cipherSuites.Some? && |r.cipherSuites.value| > 0 {
      return;
    }
    var out: seq<nat> := [];
    for i := 0 to |suites|
      invariant out == Suitable(suites[..i], r.minVersion, r.maxVersion)
    {
      SuitableNext(suites, i, r.minVersion, r.maxVersion);
      if suites[i].insecure {
        continue;
      }
      var fits := AnyWithin(suites[i].versions, r.minVersion, r.maxVersion);
      if fits {
        out := out + [suites[i].id];
      }
    }
    assert suites[..|suites|] == suites;
    r := r.(cipherSuites := Some(out));
  }

  /** The version range is sound, keeps what was set where it can, and a filled list stays as it is. */
  lemma AutoRange(suites: seq<Suite>, t: TlsConf)
    ensures var r := AutoSuites(suites, t);
      && r.minVersion <= r.maxVersion && r.maxVersion == (if t.maxVersion == 0 then 0x0304 else t.maxVersion)
      && (t.minVersion <= r.maxVersion ==> r.minVersion == t.minVersion)
      && (t.minVersion > r.maxVersion ==> r.minVersion == r.maxVersion)
      && (t.cipherSuites.UnwrapOr([]) != [] ==> r.cipherSuites == t.cipherSuites)
      && (t.cipherSuites.UnwrapOr([]) == [] ==>
           r.cipherSuites.Some? && forall id :: id in r.cipherSuites.value <==>
             exists s <- suites :: s.id == id && Supported(s, r.minVersion, r.maxVersion))
  {
    var r := AutoSuites(suites, t);
    forall id ensures id in Suitable(suites, r.minVersion, r.maxVersion) <==>
        exists s <- suites :: s.id == id && Supported(s, r.minVersion, r.maxVersion)
    {
      SuitableChosen(suites, r.minVersion, r.maxVersion, id);
    }
    hide Suitable, Supported;
  }

  /** The suites chosen are those that are secure and support a version of the range. */
  lemma {:induction false} SuitableChosen(suites: seq<Suite>, low: nat, high: nat, id: nat)
    ensures id in Suitable(suites, low, high) <==> exists s <- suites :: s.id == id && Supported(s, low, high)
    decreases |suites|
  {
    if suites != [] {
      SuitableChosen(suites[..|suites| - 1], low, high, id);
      assert suites == suites[..|suites| - 1] + [suites[|suites| - 1]];
    }
  }

  /** They are chosen one by one, in the order of the list and as often as they are in it. */
  lemma {:induction false} SuitableInOrder(a: seq<Suite>, b: seq<Suite>, low: nat, high: nat)
    ensures Suitable(a + b, low, high) == Suitable(a, low, high) + Suitable(b, low, high)
    decreases |b|
  {
    hide Supported;
    if b == [] {
      assert a + b == a && Suitable(a, low, high) + [] == Suitable(a, low, high);
    } else {
      var n := |b| - 1;
      SuitableInOrder(a, b[..n], low, high);
      assert (a + b)[..|a| + n] == a + b[..n];
      var last := if Supported(b[n], low, high) then [b[n].id] else [];
      Assoc(Suitable(a, low, high), Suitable(b[..n], low, high), last);
    }
  }

  lemma SuitableOne(s: Suite, low: nat, high: nat)
    ensures Suitable([s], low, high) == (if Supported(s, low, high) then [s.id] else [])
    ensures Supported(s, low, high) <==> !s.insecure && exists i | 0 <= i < |s.versions| :: low <= s.versions[i] <= high
  {
    assert [s][..0] == [];
    if v :| v in s.versions && low <= v <= high {
      var i :| 0 <= i < |s.versions| && s.versions[i] == v;
      assert low <= s.versions[i] <= high;
    }
    if i :| 0 <= i < |s.versions| && low <= s.versions[i] <= high { assert s.versions[i] in s.versions; }
  }

  // ---------------------------------------------------------------------
  // The merged configuration of one address
  // ---------------------------------------------------------------------

  /** ServerPublic.ConfigConn; a name that is missing leaves the origin as it is. */
  function ConfigConn(p: Public, origin: ConnConf): ConnConf {
    if origin.publicName != "" && origin.publicName in p.cc then MergeConn(p.cc[origin.publicName], origin) else origin
  }

  function ConfigServer(p: Public, suites: seq<Suite>, origin: ServerConf): ServerConf {
    if origin.publicName == "" || origin.publicName !in p.cs then origin
    else
      var c := MergeServer(p.cs[origin.publicName], origin);
      if c.tls.Some? && c.tls.value.cipherSuites.UnwrapOr([]) == []
      then c.(tls := Some(AutoSuites(suites, c.tls.value)))
      else c
  }

  function Merged(p: Public, suites: seq<Suite>, cl: Listen): Listen {
    if !cl.status then cl else Listen(true, ConfigConn(p, cl.cc), ConfigServer(p, suites, cl.cs))
  }

  lemma ConnIdempotent(p: Public, origin: ConnConf)
    ensures ConfigConn(p, ConfigConn(p, origin)) == ConfigConn(p, origin)
  {
  }

  /** Merging, with the suites filled in, changes nothing the second time. */
  lemma ServerIdempotent(p: Public, suites: seq<Suite>, origin: ServerConf)
    ensures ConfigServer(p, suites, ConfigServer(p, suites, origin)) == ConfigServer(p, suites, origin)
  {
    if origin.publicName != "" && origin.publicName in p.cs {
      var c := p.cs[origin.publicName];
      var r := ConfigServer(p, suites, origin);
      if r.tls.Some? {
        assert MergeTls(c.tls.UnwrapOr(ZERO_TLS), r.tls.value) == r.tls.value;
      }
    }
  }

  lemma MergedTwice(p: Public, suites: seq<Suite>, cl: Listen)
    ensures Merged(p, suites, Merged(p, suites, cl)) == Merged(p, suites, cl)
  {
    ConnIdempotent(p, cl.cc);
    ServerIdempotent(p, suites, cl.cs);
  }

  function MergedAll(p: Public, suites: seq<Suite>, listen: map<string, Listen>): map<string, Listen> {
    map a | a in listen :: Merged(p, suites, listen[a])
  }

  /** What reaches the servers: disabled addresses as they were, enabled ones with the public settings of the
      name they give, if there is such a name, under their own; an empty suite list is filled then. */
  lemma MergedMeans(p: Public, suites: seq<Suite>, listen: map<string, Listen>, a: string)
    requires a in listen
    ensures var m, was := MergedAll(p, suites, listen), listen[a];
      && m.Keys == listen.Keys && m[a].status == was.status && (!was.status ==> m[a] == was)
      && (was.cc.publicName == "" || was.cc.publicName !in p.cc ==> m[a].cc == was.cc)
      && (was.cs.publicName == "" || was.cs.publicName !in p.cs ==> m[a].cs == was.cs)
      && (was.status && was.cc.publicName != "" && was.cc.publicName in p.cc ==>
            m[a].cc == MergeConn(p.cc[was.cc.publicName], was.cc))
      && (was.status && was.cs.publicName != "" && was.cs.publicName in p.cs ==>
            var c, r := MergeServer(p.cs[was.cs.publicName], was.cs), m[a].cs;
            && r.(tls := None) == c.(tls := None) && (r.tls.Some? <==> c.tls.Some?)
            && (c.tls.Some? && c.tls.value.cipherSuites.UnwrapOr([]) != [] ==> r.tls == c.tls)
            && (c.tls.Some? && c.tls.value.cipherSuites.UnwrapOr([]) == [] ==>
                  r.tls.value == AutoSuites(suites, c.tls.value)))
  {
    hide MergeConn, MergeServer, AutoSuites;
  }

  // ---------------------------------------------------------------------
  // Servers and the group
  // ---------------------------------------------------------------------

  class Server {
    const addr: string
    /** Set by the goroutine that serves. */
    var status: bool
    var cConn: Option<ConnConf>
    var cServer: Option<ServerConf>

    constructor (addr: string)
      ensures this.addr == addr && !status && cConn == None && cServer == None
    {
      this.addr, status, cConn, cServer := addr, false, None, None;
    }

    /** Refused while the server runs. */
    method ConfigConn(cc: ConnConf) returns (ok: bool)
      modifies this`cConn
      ensures ok == !status
      ensures cConn == if ok then Some(cc) else old(cConn)
    {
      if status {
        return false;
      }
      cConn := Some(cc);
      return true;
    }

    /** `loads` tells whether the certificate files can be read. */
    method ConfigServer(cs: ServerConf, loads: bool) returns (ok: bool)
      modifies this`cServer
      ensures ok == (!status && loads)
      ensures cServer == if status then old(cServer) else Some(cs)
    {
      if status {
        return false;
      }
      cServer := Some(cs);
      return loads;
    }

    function View(): Running
      reads this
    {
      Running(this, status, cConn, cServer)
    }

    /** Both, as listenStart does it. */
    method Configure(cl: Listen, loads: bool) returns (ok: bool)
      modifies this`cConn, this`cServer
      ensures ok == (!status && loads)
      ensures View() == Reconfigured(old(View()), cl)
    {
      ok := ConfigConn(cl.cc);
      if !ok {
        return;
      }
      ok := ConfigServer(cl.cs, loads);
    }
  }

  /** A registered server and the configuration it runs with. */
  datatype Running = Running(srv: Server, serving: bool, conn: Option<ConnConf>, conf: Option<ServerConf>)

  /** The server runs with the configuration `cl`; one never configured counts as all zero. */
  predicate Unchanged(r: Running, cl: Listen) {
    r.conf.UnwrapOr(ZERO_SERVER) == cl.cs && r.conn.UnwrapOr(ZERO_CONN) == cl.cc
  }

  /** The addresses whose server already has the configuration it should have. */
  function Kept(before: map<string, Running>, m: map<string, Listen>): set<string> {
    set a | a in before && a in m && m[a].status && Unchanged(before[a], m[a])
  }

  /** A server that is serving refuses a new configuration. */
  function Reconfigured(r: Running, cl: Listen): Running {
    if r.serving then r else r.(conn := Some(cl.cc), conf := Some(cl.cs))
  }

  function Fresh(srv: Server, cl: Listen): Running { Running(srv, false, Some(cl.cc), Some(cl.cs)) }

  /** One address reconciled: `srv` is the new server if one has to be started. */
  function Settled(now: map<string, Running>, a: string, cl: Listen, loads: bool,
                   srv: Option<Server>): map<string, Running> {
    if cl.status && a in now && Unchanged(now[a], cl) then now
    else if cl.status && loads && srv.Some? then now[a := Fresh(srv.value, cl)]
    else now - {a}
  }

  /** The servers once every address outside `todo` is as the configuration wants it. */
  ghost predicate Progress(loads: ServerConf -> bool, before: map<string, Running>, m: map<string, Listen>,
                           todo: set<string>, now: map<string, Running>) {
    && (forall a <- now :: a in m)
    && (forall a <- todo :: a in m && (a in now <==> a in before) && (a in now ==> now[a] == before[a]))
    && (forall a <- m :: a !in todo ==> (a in now <==> m[a].status && (a in Kept(before, m) || loads(m[a].cs))))
    && (forall a <- now :: a !in todo ==> now[a] == if a in Kept(before, m) then before[a] else Fresh(now[a].srv, m[a]))
  }

  /** What has been started, stopped and created. */
  datatype Tally = Tally(started: set<string>, stopped: set<string>, created: set<Server>)

  ghost predicate Counted(was: Tally, kept: set<string>, start: set<string>, todo: set<string>,
                          now: map<string, Running>, t: Tally) {
    && t.started == was.started + (now.Keys - todo - kept)
    && t.stopped == was.stopped + (start - todo - kept)
    && (forall a <- todo :: a in now <==> a in start)
    && (forall a <- now :: a in todo || a in kept || now[a].srv in t.created)
  }

  function Count(t: Tally, a: string, stop: bool, srv: Option<Server>): Tally {
    Tally(
      t.started + (if srv.Some? then {a} else {}),
      t.stopped + (if stop then {a} else {}),
      t.created + (if srv.Some? then {srv.value} else {}))
  }

  lemma CountStarts(loads: ServerConf -> bool, before: map<string, Running>, m: map<string, Listen>,
                    now: map<string, Running>, was: Tally)
    requires Progress(loads, before, m, m.Keys, now)
    ensures Counted(was, Kept(before, m), now.Keys, m.Keys, now, was)
  {
    assert now.Keys - m.Keys == {};
  }

  lemma ProgressNext(loads: ServerConf -> bool, before: map<string, Running>, m: map<string, Listen>,
                     todo: set<string>, now: map<string, Running>, a: string, srv: Option<Server>)
    requires Progress(loads, before, m, todo, now) && a in todo
    requires srv.Some? <==> !(m[a].status && a in now && Unchanged(now[a], m[a])) && m[a].status && loads(m[a].cs)
    ensures Progress(loads, before, m, todo - {a}, Settled(now, a, m[a], loads(m[a].cs), srv))
    ensures m[a].status && a in now && Unchanged(now[a], m[a]) <==> a in Kept(before, m)
  {
  }

  lemma CountNext(was: Tally, kept: set<string>, start: set<string>, todo: set<string>, now: map<string, Running>,
                  t: Tally, a: string, cl: Listen, loads: bool, srv: Option<Server>)
    requires Counted(was, kept, start, todo, now, t) && a in todo
    requires srv.Some? <==> a !in kept && cl.status && loads
    requires cl.status && a in now && Unchanged(now[a], cl) <==> a in kept
    ensures Counted(was, kept, start, todo - {a}, Settled(now, a, cl, loads, srv),
                    Count(t, a, a !in kept && a in now, srv))
  {
  }

  /** Stopping what is no longer configured is where the visits start from. */
  lemma ProgressStarts(loads: ServerConf -> bool, before: map<string, Running>, m: map<string, Listen>)
    ensures Progress(loads, before, m, m.Keys, before - (before.Keys - m.Keys))
  {
  }

  lemma ProgressDone(loads: ServerConf -> bool, before: map<string, Running>, m: map<string, Listen>,
                     after: map<string, Running>, was: Tally, t: Tally)
    requires Progress(loads, before, m, {}, after)
    requires Counted(was.(stopped := was.stopped + (before.Keys - m.Keys)),
                     Kept(before, m), before.Keys * m.Keys, {}, after, t)
    ensures Reconciled(loads, before, m, after)
    ensures t.started == was.started + (after.Keys - Kept(before, m))
    ensures t.stopped == was.stopped + (before.Keys - Kept(before, m))
    ensures forall a <- after :: a in Kept(before, m) || after[a].srv in t.created
  {
    assert before.Keys - m.Keys + (before.Keys * m.Keys - Kept(before, m)) == before.Keys - Kept(before, m);
  }

  /** The registered addresses are the enabled ones, except those whose files do not load; servers
      already configured as they should be are the same as before, the others run with `m`. */
  ghost predicate Reconciled(loads: ServerConf -> bool, before: map<string, Running>, m: map<string, Listen>,
                             after: map<string, Running>) {
    && (forall a :: a in after <==> a in m && m[a].status && (a in Kept(before, m) || loads(m[a].cs)))
    && (forall a <- after :: after[a] == if a in Kept(before, m) then before[a] else Fresh(after[a].srv, m[a]))
  }

  /** The settings a server runs with are all zero until it is configured. */
  predicate Runs(r: Running, cl: Listen) {
    && (if r.conf.Some? then r.conf.value == cl.cs else cl.cs == ZERO_SERVER)
    && (if r.conn.Some? then r.conn.value == cl.cc else cl.cc == ZERO_CONN)
  }

  /** After reconciliation every registered server runs with the settings configured for its address, and a
      server has been left alone exactly if it did so before. */
  lemma RunsAsConfigured(loads: ServerConf -> bool, before: map<string, Running>, m: map<string, Listen>,
                         after: map<string, Running>, a: string)
    requires Reconciled(loads, before, m, after) && a in after
    ensures a in m && m[a].status && Runs(after[a], m[a])
    ensures a in before && Runs(before[a], m[a]) ==> after[a] == before[a]
    ensures a in before && !Runs(before[a], m[a]) ==> after[a] == Fresh(after[a].srv, m[a])
  {
  }

  /** An address is out of the table only if it is not enabled, or if its server did not already run as
      configured and the files do not load. */
  lemma MissingOnlyIfUnloadable(loads: ServerConf -> bool, before: map<string, Running>, m: map<string, Listen>,
                                after: map<string, Running>, a: string)
    requires Reconciled(loads, before, m, after)
    ensures a in after <==>
      a in m && m[a].status && (loads(m[a].cs) || (a in before && Runs(before[a], m[a])))
  {
  }

  /** If every enabled address could be started, reconciling again with the same configuration keeps
      every server, so it starts and stops nothing. */
  lemma ReapplyKeepsAll(loads: ServerConf -> bool, before: map<string, Running>, p: Public, suites: seq<Suite>,
                        listen: map<string, Listen>, after: map<string, Running>, again: map<string, Running>)
    requires Reconciled(loads, before, MergedAll(p, suites, listen), after)
    requires forall a <- listen :: listen[a].status ==> loads(Merged(p, suites, listen[a]).cs)
    requires Reconciled(loads, after, MergedAll(p, suites, MergedAll(p, suites, listen)), again)
    ensures again == after && Kept(after, MergedAll(p, suites, MergedAll(p, suites, listen))) == after.Keys
    ensures after.Keys == set a | a in listen && listen[a].status
  {
    var m := MergedAll(p, suites, listen);
    forall a | a in listen ensures Merged(p, suites, m[a]) == m[a] {
      MergedTwice(p, suites, listen[a]);
    }
    assert MergedAll(p, suites, m) == m;
    assert Kept(after, m) == after.Keys;
  }

  class Group {
    /** Whether the files that a configuration names can be loaded. */
    const loads: ServerConf -> bool
    const suites: seq<Suite>
    var srvMan: map<string, Server>
    /** Every server that is or was registered. */
    ghost var servers: set<Server>
    /** A record of the addresses that have been started and of those that have been stopped. */
    var started: set<string>
    var stopped: set<string>

    ghost predicate Valid()
      reads `srvMan, `servers, servers
    {
      forall a <- srvMan :: srvMan[a] in servers && srvMan[a].addr == a
    }

    /** No server serves that is not in the table. */
    ghost predicate NoStray()
      reads `srvMan, `servers, servers
    {
      forall srv <- servers :: srv.status ==> srv.addr in srvMan && srvMan[srv.addr] == srv
    }

    ghost function View(): (r: map<string, Running>)
      reads `srvMan, `servers, servers
      requires Valid()
      ensures r.Keys == srvMan.Keys
    {
      map a | a in srvMan :: srvMan[a].View()
    }

    constructor (loads: ServerConf -> bool, suites: seq<Suite>)
      ensures this.loads == loads && this.suites == suites && Valid() && View() == map[]
    {
      this.loads, this.suites, srvMan, servers, started, stopped := loads, suites, map[], {}, {}, {};
    }

    /** The registered server of the address, or a new one. */
    method NewServer(laddr: string) returns (srv: Server)
      requires Valid()
      ensures srv.addr == laddr
      ensures if laddr in View() then srv in servers && srv == srvMan[laddr] && View()[laddr] == srv.View()
              else fresh(srv) && !srv.status
    {
      if laddr in srvMan {
        return srvMan[laddr];
      }
      srv := new Server(laddr);
    }

    /** Configures the server of the address and registers it. A server that is serving refuses; one that is
        registered but not serving keeps the new configuration even if its files do not load. */
    method ListenStart(laddr: string, cl: Listen) returns (ok: bool)
      requires Valid()
      modifies this`srvMan, this`servers, this`started, servers`cConn, servers`cServer
      ensures Valid() && fresh(servers - old(servers))
      ensures ok == (loads(cl.cs) && !(laddr in old(View()) && old(View())[laddr].serving))
      ensures laddr in old(View()) ==> View() == old(View())[laddr := Reconfigured(old(View())[laddr], cl)]
      ensures laddr !in old(View()) && !ok ==> View() == old(View())
      ensures laddr !in old(View()) && ok ==>
        laddr in srvMan && fresh(srvMan[laddr]) && View() == old(View())[laddr := Fresh(srvMan[laddr], cl)]
      ensures started == if ok then old(started) + {laddr} else old(started)
      ensures old(NoStray()) ==> NoStray()
    {
      hide Group.Valid, Group.View, Group.NoStray;
      var srv := NewServer(laddr);
      ok := Configure(srv, cl);
      if !ok {
        return;
      }
      Register(srv);
      started := started + {laddr};
    }

    /** Only the view of the server's own address changes, if it is registered. */
    method Configure(srv: Server, cl: Listen) returns (ok: bool)
      requires Valid() && (srv.addr in srvMan ==> srv == srvMan[srv.addr])
      modifies srv`cConn, srv`cServer
      ensures Valid() && ok == (loads(cl.cs) && !srv.status) && srv.View() == Reconfigured(old(srv.View()), cl)
      ensures View() == if srv.addr in srvMan then old(View())[srv.addr := srv.View()] else old(View())
      ensures old(NoStray()) ==> NoStray()
    {
      ok := srv.Configure(cl, loads(cl.cs));
    }

    method Register(srv: Server)
      requires Valid()
      modifies this`srvMan, this`servers
      ensures Valid() && srvMan == old(srvMan)[srv.addr := srv] && servers == old(servers) + {srv}
      ensures View() == old(View())[srv.addr := srv.View()]
      ensures old(NoStray()) && (srv.addr in old(srvMan) ==> old(srvMan)[srv.addr] == srv) ==> NoStray()
    {
      srvMan := srvMan[srv.addr := srv];
      servers := servers + {srv};
    }

    method ListenStop(laddr: string)
      requires Valid()
      modifies this`srvMan, this`stopped, servers`status
      ensures Valid() && servers == old(servers)
      ensures View() == old(View()) - {laddr}
      ensures stopped == if laddr in old(View()) then old(stopped) + {laddr} else old(stopped)
      ensures laddr in old(View()) ==> !old(srvMan)[laddr].status
      ensures old(NoStray()) ==> NoStray()
    {
      if laddr !in srvMan {
        return;
      }
      var srv := srvMan[laddr];
      srvMan := srvMan - {laddr};
      srv.status := false;
      stopped := stopped + {laddr};
    }

    /** Writes the merged configuration back for every enabled address. */
    method MergePublic(p: Public, listen: map<string, Listen>) returns (r: map<string, Listen>)
      ensures r == MergedAll(p, suites, listen)
    {
      r := listen;
      var todo := listen.Keys;
      while todo != {}
        invariant todo <= listen.Keys == r.Keys
        invariant forall a <- listen :: r[a] == if a in todo then listen[a] else Merged(p, suites, listen[a])
        decreases todo
      {
        var a :| a in todo;
        todo := todo - {a};
        var cl := r[a];
        if cl.status {
          r := r[a := Listen(true, ConfigConn(p, cl.cc), ConfigServer(p, suites, cl.cs))];
        }
      }
    }

    /** Stops what is no longer configured. */
    method StopRemoved(listen: map<string, Listen>)
      requires Valid()
      modifies this`srvMan, this`stopped, servers`status
      ensures Valid() && servers == old(servers)
      ensures View() == old(View()) - (old(View()).Keys - listen.Keys)
      ensures stopped == old(stopped) + (old(View()).Keys - listen.Keys)
      ensures old(NoStray()) ==> NoStray()
    {
      var todo := srvMan.Keys;
      ghost var before, gone: set<string> := View(), {};
      hide *;
      while todo != {}
        invariant Valid() && todo <= before.Keys && servers == old(servers)
        invariant gone == before.Keys - todo - listen.Keys
        invariant View() == before - gone && stopped == old(stopped) + gone
        invariant old(NoStray()) ==> NoStray()
        decreases todo
      {
        var a :| a in todo;
        todo := todo - {a};
        if a !in listen {
          ListenStop(a);
          assert before - gone - {a} == before - (gone + {a});
          gone := gone + {a};
        }
      }
    }

    method Start(a: string, cl: Listen) returns (ghost srv: Option<Server>)
      requires Valid() && a !in View()
      modifies this`srvMan, this`servers, this`started, servers`cConn, servers`cServer
      ensures Valid() && fresh(servers - old(servers))
      ensures View() == if srv.Some? then old(View())[a := Fresh(srv.value, cl)] else old(View()) - {a}
      ensures (srv.Some? <==> loads(cl.cs)) && (srv.Some? ==> fresh(srv.value))
      ensures started == old(started) + if srv.Some? then {a} else {}
      ensures old(NoStray()) ==> NoStray()
    {
      var ok := ListenStart(a, cl);
      srv := if ok then Some(srvMan[a]) else None;
      assert old(View()) - {a} == old(View());
    }

    method Restart(a: string, cl: Listen) returns (ghost srv: Option<Server>)
      requires Valid() && a in View()
      modifies this`srvMan, this`servers, this`started, this`stopped, servers
      ensures Valid() && fresh(servers - old(servers))
      ensures View() == if srv.Some? then old(View())[a := Fresh(srv.value, cl)] else old(View()) - {a}
      ensures (srv.Some? <==> loads(cl.cs)) && (srv.Some? ==> fresh(srv.value))
      ensures started == old(started) + (if srv.Some? then {a} else {}) && stopped == old(stopped) + {a}
      ensures !old(srvMan)[a].status
      ensures old(NoStray()) ==> NoStray()
    {
      hide *;
      ListenStop(a);
      srv := Start(a, cl);
    }

    /** One address of the configuration: start, stop, restart or leave alone. */
    method Settle(a: string, cl: Listen) returns (ghost srv: Option<Server>)
      requires Valid()
      modifies this`srvMan, this`servers, this`started, this`stopped, servers
      ensures Valid() && fresh(servers - old(servers))
      ensures View() == Settled(old(View()), a, cl, loads(cl.cs), srv)
      ensures a in View() ==> cl.status && Runs(View()[a], cl)
      ensures cl.status && a in old(View()) && Runs(old(View())[a], cl) ==>
        View() == old(View()) && started == old(started) && stopped == old(stopped)
      ensures a in old(View()) && !(cl.status && Runs(old(View())[a], cl)) ==>
        a in stopped && !old(srvMan)[a].status && (a in View() ==> fresh(View()[a].srv))
      ensures var kept := cl.status && a in old(View()) && Unchanged(old(View())[a], cl);
        && (srv.Some? <==> !kept && cl.status && loads(cl.cs))
        && (srv.Some? ==> fresh(srv.value))
        && started == old(started) + (if srv.Some? then {a} else {})
        && stopped == old(stopped) + (if !kept && a in old(View()) then {a} else {})
      ensures old(NoStray()) ==> NoStray()
    {
      srv := None;
      if !cl.status {
        ListenStop(a);
        return;
      }
      if a !in srvMan {
        srv := Start(a, cl);
        return;
      }
      var server := srvMan[a];
      var changed := server.cServer.UnwrapOr(ZERO_SERVER) != cl.cs;
      if !changed {
        changed := server.cConn.UnwrapOr(ZERO_CONN) != cl.cc;
      }
      assert changed == !Unchanged(View()[a], cl);
      if changed {
        srv := Restart(a, cl);
      }
    }

    /** The addresses may be visited in any order. */
    method SettleAll(m: map<string, Listen>, ghost before: map<string, Running>) returns (ghost t: Tally)
      requires Valid() && Progress(loads, before, m, m.Keys, View())
      modifies this`srvMan, this`servers, this`started, this`stopped, servers
      ensures Valid() && Progress(loads, before, m, {}, View())
      ensures Counted(old(Tally(started, stopped, {})), Kept(before, m), old(View()).Keys, {}, View(), t)
      ensures t.started == started && t.stopped == stopped && fresh(t.created)
      ensures old(NoStray()) ==> NoStray()
    {
      hide Progress, Counted, Settled, Kept, Unchanged, Group.Valid, Group.View;
      var todo := m.Keys;
      ghost var kept, start := Kept(before, m), View().Keys;
      ghost var was := Tally(started, stopped, {});
      t := was;
      CountStarts(loads, before, m, View(), was);
      while todo != {}
        invariant Valid() && todo <= m.Keys && Progress(loads, before, m, todo, View())
        invariant fresh(servers - old(servers))
        invariant Counted(was, kept, start, todo, View(), t) && fresh(t.created)
        invariant t.started == started && t.stopped == stopped
        invariant old(NoStray()) ==> NoStray()
        decreases todo
      {
        var a :| a in todo;
        ghost var now := View();
        ghost var srv := Settle(a, m[a]);
        ProgressNext(loads, before, m, todo, now, a, srv);
        CountNext(was, kept, start, todo, now, t, a, m[a], loads(m[a].cs), srv);
        t := Count(t, a, a !in kept && a in now, srv);
        todo := todo - {a};
      }
    }

    /** Whatever the order of the visits: see `Reconciled`. What was kept has not been stopped, and what
        was not kept runs in a new server. */
    method UpdateConfigServers(p: Public, listen: map<string, Listen>) returns (m: map<string, Listen>)
      requires Valid()
      modifies this`srvMan, this`servers, this`started, this`stopped, servers
      ensures Valid() && m == MergedAll(p, suites, listen)
      ensures Reconciled(loads, old(View()), m, View())
      ensures started == old(started) + (View().Keys - Kept(old(View()), m))
      ensures stopped == old(stopped) + (old(View()).Keys - Kept(old(View()), m))
      ensures forall a <- View() :: a in Kept(old(View()), m) || fresh(View()[a].srv)
      ensures forall a <- View() :: a in m && m[a].status && Runs(View()[a], m[a])
      ensures old(NoStray()) ==> NoStray()
    {
      hide *;
      m := MergePublic(p, listen);
      ghost var before, was := View(), Tally(started, stopped, {});
      StopRemoved(m);
      assert View().Keys == before.Keys * m.Keys;
      ProgressStarts(loads, before, m);
      ghost var t := SettleAll(m, before);
      ProgressDone(loads, before, m, View(), was, t);
      forall a | a in View() ensures a in m && m[a].status && Runs(View()[a], m[a]) {
        RunsAsConfigured(loads, before, m, View(), a);
      }
    }
  }
}
