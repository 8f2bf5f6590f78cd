/**
 Leaderless agreement on a cluster-wide key (app/config.go).

 Every server runs the same code against one row of the Systems table: read the row, generate a key if there
 is none, insert it, and re-read when the insert was refused. Nobody coordinates, any store call may fail for
 no reason, an insert may commit although the caller is told that it failed, reads go to replicas that may
 lag behind, and servers restart and join at any time.

 The post-action cookie secret and the asymmetric signing key follow the same protocol on two different rows;
 they differ only in what may be installed (`Installs`).
 */
module KeyAgreement {
  import opened Wrappers

  type ServerId = nat

  datatype Key =
    | CookieSecret(secret: seq<bv8>)
    | SigningKey(curve: string, x: int, y: int, d: int)

  /** What decodes from the row. An object without its one field, such as `{}`, decodes without an error: to a secret
      of nil, or to a signing key whose ECDSA key is nil (model/system.go:39-45). */
  datatype Payload = HasKey(key: Key) | NoCookieSecret | NoSigningKey

  /** The text in the row, classified by what decoding does with it. */
  datatype Row = Encoded(payload: Payload) | NullJson | Malformed

  datatype Failure = RandomSource | Decoding | StoreRead | UnknownCurve

  /** Where one call stands: between the store calls of the source, or finished. */
  datatype Status =
    | Idle
    | AtRead
    | AtGenerate
    | AtSave(generated: Key)
    | AtReread
    | AtInstall(found: Payload)
    | Returned(err: Option<Failure>)
    | Panicked

  datatype Server = Server(cached: Option<Key>, status: Status)

  datatype Cluster = Cluster(row: Option<Row>, servers: map<ServerId, Server>)

  /** How an insert ends: `Lost` means it committed but the caller saw an error. */
  datatype SaveOutcome = Acknowledged | Lost | Refused

  /** One atomic step of one server. The environment picks the event and, in it, what fails. */
  datatype Event =
    | Boot(id: ServerId)
    | Restart(id: ServerId)
    | Call(id: ServerId)
    | Read(id: ServerId, fails: bool)
    | Generate(id: ServerId, key: Option<Key>)
    | Save(id: ServerId, outcome: SaveOutcome)
    | Reread(id: ServerId, fails: bool)
    | Install(id: ServerId)

  /** The signing key is installed only on the one known curve. */
  predicate Installs(k: Key) {
    k.SigningKey? ==> k.curve == "P-256"
  }

  /** What the code generates: 32 random bytes, or a point on P-256. */
  predicate Generated(k: Key) {
    Installs(k) && (k.CookieSecret? ==> |k.secret| == 32)
  }

  /** The row with this key in it. */
  function Stored(k: Key): Option<Row> {
    Some(Encoded(HasKey(k)))
  }

  function Called(s: Server): Server {
    s.(status := if s.cached.Some? then Returned(None) else AtRead)
  }

  /** A failed read and a missing row look alike here: go on and generate. */
  function AfterRead(row: Option<Row>, fails: bool): Status {
    if fails || row.None? then AtGenerate
    else match row.value
      case Encoded(found) => AtInstall(found)
      case NullJson => AtGenerate
      case Malformed => Returned(Some(Decoding))
  }

  /** The second read has nothing to fall back to; a decoded null is dereferenced. */
  function AfterReread(row: Option<Row>, fails: bool): Status {
    if fails || row.None? then Returned(Some(StoreRead))
    else match row.value
      case Encoded(found) => AtInstall(found)
      case NullJson => Panicked
      case Malformed => Returned(Some(Decoding))
  }

  /** A nil secret is installed as it is; the curve of a nil ECDSA key is dereferenced. */
  function AfterInstall(s: Server, found: Payload): Server {
    match found
    case HasKey(k) =>
      if Installs(k) then Server(Some(k), Returned(None)) else s.(status := Returned(Some(UnknownCurve)))
    case NoCookieSecret => Server(None, Returned(None))
    case NoSigningKey => s.(status := Panicked)
  }

  predicate CanCall(s: Server) {
    s.status.Idle? || s.status.Returned?
  }

  predicate Enabled(c: Cluster, e: Event) {
    if e.Boot? then e.id !in c.servers
    else
      && e.id in c.servers
      && var s := c.servers[e.id];
      match e
      case Boot(_) => false
      case Restart(_) => true
      case Call(_) => CanCall(s)
      case Read(_, _) => s.status.AtRead?
      case Generate(_, k) => s.status.AtGenerate? && (k.Some? ==> Generated(k.value))
      // An insert succeeds only while the row does not exist.
      case Save(_, o) => s.status.AtSave? && (c.row.Some? ==> o.Refused?)
      case Reread(_, _) => s.status.AtReread?
      case Install(_) => s.status.AtInstall?
  }

  function Next(c: Cluster, e: Event): Cluster
    requires Enabled(c, e)
  {
    if e.Boot? || e.Restart? then c.(servers := c.servers[e.id := Server(None, Idle)])
    else
      var s := c.servers[e.id];
      match e
      case Call(i) => c.(servers := c.servers[i := Called(s)])
      case Read(i, fails) => c.(servers := c.servers[i := s.(status := AfterRead(c.row, fails))])
      case Generate(i, k) =>
        c.(servers := c.servers[i := s.(status := if k.Some? then AtSave(k.value) else Returned(Some(RandomSource)))])
      case Save(i, Acknowledged) =>
        Cluster(Stored(s.status.generated), c.servers[i := s.(status := AtInstall(HasKey(s.status.generated)))])
      case Save(i, Lost) =>
        Cluster(Stored(s.status.generated), c.servers[i := s.(status := AtReread)])
      case Save(i, Refused) => c.(servers := c.servers[i := s.(status := AtReread)])
      case Reread(i, fails) => c.(servers := c.servers[i := s.(status := AfterReread(c.row, fails))])
      case Install(i) => c.(servers := c.servers[i := AfterInstall(s, s.status.found)])
  }

  /** The cluster after a run of events, or None if some event was not possible when it came up. */
  function Run(c: Cluster, es: seq<Event>): Option<Cluster>
    decreases |es|
  {
    if es == [] then Some(c)
    else if Enabled(c, es[0]) then Run(Next(c, es[0]), es[1..])
    else None
  }

  /** Any cluster of servers that have not been called yet, over a row with any content. */
  predicate Initial(c: Cluster) {
    forall i | i in c.servers :: c.servers[i] == Server(None, Idle)
  }

  lemma {:induction false} RunAppend(c: Cluster, es1: seq<Event>, es2: seq<Event>)
    requires Run(c, es1).Some?
    ensures Run(c, es1 + es2) == Run(Run(c, es1).value, es2)
    decreases |es1|
  {
    if es1 == [] {
      assert es1 + es2 == es2;
    } else {
      assert (es1 + es2)[0] == es1[0] && (es1 + es2)[1..] == es1[1..] + es2;
      RunAppend(Next(c, es1[0]), es1[1..], es2);
    }
  }

  /** Everything a server holds or is about to install is what the row says; a nil error means that a key is held, or
      that the row says there is none. */
  ghost predicate Consistent(row: Option<Row>, s: Server) {
    && (s.cached.Some? ==> row == Stored(s.cached.value))
    && (s.status.AtInstall? ==> row == Some(Encoded(s.status.found)))
    && (s.status == Returned(None) ==> s.cached.Some? || row == Some(Encoded(NoCookieSecret)))
  }

  ghost predicate Inv(c: Cluster) {
    forall i | i in c.servers :: Consistent(c.row, c.servers[i])
  }

  lemma StepKeepsInv(c: Cluster, e: Event)
    requires Inv(c) && Enabled(c, e)
    ensures Inv(Next(c, e))
    ensures c.row.Some? ==> Next(c, e).row == c.row
  {
    var d := Next(c, e);
    forall i | i in d.servers ensures Consistent(d.row, d.servers[i]) {
      if i != e.id {
        assert d.servers[i] == c.servers[i] && Consistent(c.row, c.servers[i]);
      } else if e.id in c.servers {
        assert Consistent(c.row, c.servers[e.id]);
      }
    }
  }

  lemma {:induction false} RunKeepsInv(c: Cluster, es: seq<Event>)
    requires Inv(c) && Run(c, es).Some?
    ensures Inv(Run(c, es).value)
    ensures c.row.Some? ==> Run(c, es).value.row == c.row
    decreases |es|
  {
    if es != [] {
      StepKeepsInv(c, es[0]);
      RunKeepsInv(Next(c, es[0]), es[1..]);
    }
  }

  /** The row is write-once, in every interleaving and whatever fails. */
  lemma RowIsWriteOnce(c: Cluster, es1: seq<Event>, es2: seq<Event>)
    requires Initial(c) && Run(c, es1 + es2).Some?
    requires Run(c, es1).Some? && Run(c, es1).value.row.Some?
    ensures Run(c, es1 + es2).value.row == Run(c, es1).value.row
  {
    RunAppend(c, es1, es2);
    RunKeepsInv(c, es1);
    RunKeepsInv(Run(c, es1).value, es2);
  }

  /** Agreement: whatever two servers hold, at the same time or at two different times of one run, with restarts,
      failures and lost acknowledgements in between, is one and the same key, and it is the stored one. */
  lemma Agreement(c: Cluster, es1: seq<Event>, es2: seq<Event>, i: ServerId, j: ServerId)
    requires Initial(c) && Run(c, es1).Some? && Run(c, es1 + es2).Some?
    requires i in Run(c, es1).value.servers && j in Run(c, es1 + es2).value.servers
    requires Run(c, es1).value.servers[i].cached.Some?
    requires Run(c, es1 + es2).value.servers[j].cached.Some?
    ensures Run(c, es1).value.servers[i].cached == Run(c, es1 + es2).value.servers[j].cached
    ensures Run(c, es1 + es2).value.row == Stored(Run(c, es1).value.servers[i].cached.value)
  {
    RunKeepsInv(c, es1);
    RunAppend(c, es1, es2);
    var mid := Run(c, es1).value;
    RunKeepsInv(mid, es2);
    assert Consistent(mid.row, mid.servers[i]);
    var end := Run(mid, es2).value;
    assert Consistent(end.row, end.servers[j]);
  }

  /** If its last call returned a nil error, the server holds a key, the stored one, which it may use. */
  ghost predicate NilErrorIsKey(c: Cluster, i: ServerId) {
    i in c.servers && c.servers[i].status == Returned(None) ==>
      var held := c.servers[i].cached;
      held.Some? && c.row == Stored(held.value) && Installs(held.value)
  }

  /** That holds in every run, for any of the servers, if and only if the row is not an object without a secret. */
  lemma NilErrorMeansKey(c: Cluster, i: ServerId)
    requires Initial(c) && i in c.servers
    ensures (forall es | Run(c, es).Some? :: NilErrorIsKey(Run(c, es).value, i))
       <==> c.row != Some(Encoded(NoCookieSecret))
  {
    if c.row == Some(Encoded(NoCookieSecret)) {
      EmptyRowInstallsNothing(c, i);
    } else {
      forall es | Run(c, es).Some? ensures NilErrorIsKey(Run(c, es).value, i) {
        NilErrorUnlessEmpty(c, es, i);
      }
    }
  }

  lemma {:induction false} NilErrorUnlessEmpty(c: Cluster, es: seq<Event>, i: ServerId)
    requires Initial(c) && Run(c, es).Some? && c.row != Some(Encoded(NoCookieSecret))
    ensures NilErrorIsKey(Run(c, es).value, i)
  {
    var d := Run(c, es).value;
    if i in d.servers && d.servers[i].status == Returned(None) {
      RunKeepsInv(c, es);
      assert Consistent(d.row, d.servers[i]);
      if d.row != c.row {
        var j, k := FindOrigin(c, es);
      }
      CachedInstalls(c, es, i);
    }
  }

  /** An object without a secret is installed: the call returns nil, and no key is held. */
  lemma EmptyRowInstallsNothing(c: Cluster, i: ServerId)
    requires c.row == Some(Encoded(NoCookieSecret))
    requires i in c.servers && CanCall(c.servers[i]) && c.servers[i].cached.None?
    ensures Run(c, [Call(i), Read(i, false), Install(i)])
         == Some(c.(servers := c.servers[i := Server(None, Returned(None))]))
    ensures !NilErrorIsKey(Run(c, [Call(i), Read(i, false), Install(i)]).value, i)
  {
    UndisturbedCall(c, i);
  }

  /** A row is dereferenced as nil in some run if and only if it is null, or an object without an ECDSA key. */
  lemma PanicsIff(c: Cluster, i: ServerId)
    requires Initial(c) && i in c.servers
    ensures (exists es :: Run(c, es).Some? && i in Run(c, es).value.servers && Run(c, es).value.servers[i].status.Panicked?)
       <==> c.row in {Some(NullJson), Some(Encoded(NoSigningKey))}
  {
    if c.row == Some(NullJson) {
      NullRowPanics(c, i);
    } else if c.row == Some(Encoded(NoSigningKey)) {
      UndisturbedCall(c, i);
    } else {
      forall es | Run(c, es).Some? && i in Run(c, es).value.servers
        ensures !Run(c, es).value.servers[i].status.Panicked?
      {
        RunKeepsInv(c, es);
        RunNeverPanics(c, es);
      }
    }
  }

  ghost predicate Quiet(c: Cluster) {
    && c.row !in {Some(NullJson), Some(Encoded(NoSigningKey))}
    && forall i | i in c.servers :: !c.servers[i].status.Panicked?
  }

  lemma {:induction false} RunNeverPanics(c: Cluster, es: seq<Event>)
    requires Inv(c) && Quiet(c) && Run(c, es).Some?
    ensures Quiet(Run(c, es).value)
    decreases |es|
  {
    if es != [] {
      var e, d := es[0], Next(c, es[0]);
      StepKeepsInv(c, e);
      if e.id in c.servers {
        assert Consistent(c.row, c.servers[e.id]);
      }
      RunNeverPanics(d, es[1..]);
    }
  }

  /** A null row looks like a missing one at first; the insert is refused, and the second read dereferences it. */
  lemma NullRowPanics(c: Cluster, i: ServerId)
    requires c.row == Some(NullJson)
    requires i in c.servers && CanCall(c.servers[i]) && c.servers[i].cached.None?
    ensures exists es :: Run(c, es) == Some(c.(servers := c.servers[i := Server(None, Panicked)]))
  {
    var k := SigningKey("P-256", 0, 0, 0);
    var c1 := Next(c, Call(i));
    var c2 := Next(c1, Read(i, false));
    var c3 := Next(c2, Generate(i, Some(k)));
    var c4 := Next(c3, Save(i, Refused));
    var c5 := Next(c4, Reread(i, false));
    RunOne(c4, Reread(i, false));
    RunCons(c3, Save(i, Refused), [Reread(i, false)]);
    RunCons(c2, Generate(i, Some(k)), [Save(i, Refused)] + [Reread(i, false)]);
    RunCons(c1, Read(i, false), [Generate(i, Some(k))] + ([Save(i, Refused)] + [Reread(i, false)]));
    RunCons(c, Call(i), [Read(i, false)] + ([Generate(i, Some(k))] + ([Save(i, Refused)] + [Reread(i, false)])));
    assert c5.servers == c.servers[i := Server(None, Panicked)];
  }

  lemma RunCons(c: Cluster, e: Event, es: seq<Event>)
    requires Enabled(c, e)
    ensures Run(c, [e] + es) == Run(Next(c, e), es)
  {
    assert ([e] + es)[1..] == es;
  }

  /** A call with nothing in between and a read that works installs what the row says. */
  lemma UndisturbedCall(c: Cluster, i: ServerId)
    requires c.row.Some? && c.row.value.Encoded?
    requires i in c.servers && CanCall(c.servers[i]) && c.servers[i].cached.None?
    ensures var s := AfterInstall(c.servers[i].(status := AtInstall(c.row.value.payload)), c.row.value.payload);
      Run(c, [Call(i), Read(i, false), Install(i)]) == Some(c.(servers := c.servers[i := s]))
  {
    var c1 := Next(c, Call(i));
    var c2 := Next(c1, Read(i, false));
    var c3 := Next(c2, Install(i));
    RunOne(c2, Install(i));
    RunCons(c1, Read(i, false), [Install(i)]);
    RunCons(c, Call(i), [Read(i, false)] + [Install(i)]);
    assert [Call(i)] + ([Read(i, false)] + [Install(i)]) == [Call(i), Read(i, false), Install(i)];
    assert c3.servers == c.servers[i := AfterInstall(c2.servers[i], c.row.value.payload)];
  }

  lemma {:induction false} CachedInstalls(c: Cluster, es: seq<Event>, i: ServerId)
    requires forall k | k in c.servers && c.servers[k].cached.Some? :: Installs(c.servers[k].cached.value)
    requires Run(c, es).Some? && i in Run(c, es).value.servers && Run(c, es).value.servers[i].cached.Some?
    ensures Installs(Run(c, es).value.servers[i].cached.value)
    decreases |es|
  {
    if es != [] {
      CachedInstalls(Next(c, es[0]), es[1..], i);
    }
  }

  /** Where the stored key comes from: it was there at the start, or a server of this run generated it. */
  lemma {:induction false} StoredKeyHasAnOrigin(c: Cluster, es: seq<Event>)
    requires Run(c, es).Some?
    requires forall i | i in c.servers :: !c.servers[i].status.AtSave?
    requires Run(c, es).value.row != c.row
    ensures exists i, k :: Generate(i, Some(k)) in es && Run(c, es).value.row == Stored(k)
  {
    var i, k := FindOrigin(c, es);
    assert Generate(i, Some(k)) in es;
  }

  lemma {:induction false} FindOrigin(c: Cluster, es: seq<Event>) returns (i: ServerId, k: Key)
    requires Run(c, es).Some?
    requires Run(c, es).value.row != c.row
    ensures Run(c, es).value.row == Stored(k)
    ensures Generate(i, Some(k)) in es || (i in c.servers && c.servers[i].status == AtSave(k))
    decreases |es|
  {
    var e, d := es[0], Next(c, es[0]);
    if Run(d, es[1..]).value.row == d.row {
      i, k := e.id, c.servers[e.id].status.generated;
    } else {
      i, k := FindOrigin(d, es[1..]);
      if Generate(i, Some(k)) in es[1..] {
      } else if i == e.id {
        assert d.servers[i].status == AtSave(k);
        assert e == Generate(i, Some(k));
      }
    }
  }

  /** What holds if the row did not exist at first: only generated keys get into it. */
  ghost predicate Sound(c: Cluster) {
    && (c.row.Some? ==> c.row.value.Encoded? && c.row.value.payload.HasKey? && Generated(c.row.value.payload.key))
    && forall i | i in c.servers ::
         && !c.servers[i].status.Panicked?
         && (c.servers[i].status.AtSave? ==> Generated(c.servers[i].status.generated))
         && (c.servers[i].status.AtInstall? ==> c.servers[i].status.found.HasKey? && Generated(c.servers[i].status.found.key))
         && (c.servers[i].status.Returned? ==> c.servers[i].status.err in {None, Some(RandomSource), Some(StoreRead)})
  }

  lemma {:induction false} RunKeepsSound(c: Cluster, es: seq<Event>)
    requires Sound(c) && Run(c, es).Some?
    ensures Sound(Run(c, es).value)
    decreases |es|
  {
    if es != [] {
      RunKeepsSound(Next(c, es[0]), es[1..]);
    }
  }

  /** On a first boot nothing goes wrong but the environment: no server ever panics, finds an undecodable row or an
      unknown curve; a call can only fail because the random source or the store did, and every key held is one
      that this code generates. */
  lemma FirstBootIsSafe(c: Cluster, es: seq<Event>, i: ServerId)
    requires Initial(c) && c.row.None? && Run(c, es).Some? && i in Run(c, es).value.servers
    ensures var s := Run(c, es).value.servers[i];
      && !s.status.Panicked?
      && (s.status.Returned? ==> s.status.err in {None, Some(RandomSource), Some(StoreRead)})
      && (s.cached.Some? ==> Generated(s.cached.value))
  {
    RunKeepsSound(c, es);
    RunKeepsInv(c, es);
    assert Consistent(Run(c, es).value.row, Run(c, es).value.servers[i]);
  }

  // ---------------------------------------------------------------------------------------------------------
  // The code of one call. Its store calls are the machine's steps, and between any two of its steps other servers may
  // take any number of theirs.

  /** Which of the server's calls to the store fail: whether the n-th one does, if it is a read; and how it ends, if it is
      an insert and the row does not exist. */
  datatype Weather = Weather(readFails: nat -> bool, inserts: nat -> SaveOutcome)

  ghost predicate Calm(w: Weather) {
    forall n :: !w.readFails(n) && w.inserts(n).Acknowledged?
  }

  /** The table, and the other servers that use it. */
  class SystemStore {
    const weather: Weather
    var calls: nat
    var row: Option<Row>
    var others: map<ServerId, Server>

    constructor (weather: Weather, r: Option<Row>, others: map<ServerId, Server>)
      ensures row == r && this.others == others && this.weather == weather
    {
      this.weather, calls, row, this.others := weather, 0, r, others;
    }

    method GetByName() returns (value: Option<Row>)
      modifies this`calls
      ensures value == if weather.readFails(old(calls)) then None else row
    {
      value := if weather.readFails(calls) then None else row;
      calls := calls + 1;
    }

    method Save(k: Key) returns (ghost outcome: SaveOutcome, ok: bool)
      modifies this`calls, this`row
      ensures outcome == if old(row).Some? then Refused else weather.inserts(old(calls))
      ensures ok <==> outcome.Acknowledged?
      ensures row == if outcome.Refused? then old(row) else Stored(k)
    {
      outcome := if row.Some? then Refused else weather.inserts(calls);
      ok := row.None? && weather.inserts(calls).Acknowledged?;
      if row.None? && !weather.inserts(calls).Refused? {
        row := Stored(k);
      }
      calls := calls + 1;
    }

    /** Steps of other servers, if these are possible now. */
    method OthersAct(id: ServerId, steps: seq<Event>) returns (ghost done: seq<Event>)
      requires id !in others
      modifies this`row, this`others
      ensures old(row).Some? || steps == [] ==> row == old(row)
      ensures id !in others
      ensures forall e | e in done :: e.id != id
      ensures Run(Cluster(old(row), old(others)), done) == Some(Cluster(row, others))
    {
      var after := Run(Cluster(row, others), steps);
      if after.Some? && forall e | e in steps :: e.id != id {
        OnlyTheirs(Cluster(row, others), steps, id);
        RowStays(Cluster(row, others), steps);
        row, others := after.value.row, after.value.servers;
        done := steps;
      } else {
        done := [];
      }
    }
  }

  lemma {:induction false} RowStays(c: Cluster, es: seq<Event>)
    requires Run(c, es).Some?
    ensures c.row.Some? ==> Run(c, es).value.row == c.row
    decreases |es|
  {
    if es != [] {
      RowStays(Next(c, es[0]), es[1..]);
    }
  }

  lemma {:induction false} OnlyTheirs(c: Cluster, es: seq<Event>, id: ServerId)
    requires id !in c.servers && Run(c, es).Some? && forall e | e in es :: e.id != id
    ensures id !in Run(c, es).value.servers
    decreases |es|
  {
    if es != [] {
      OnlyTheirs(Next(c, es[0]), es[1..], id);
    }
  }

  /** The steps of other servers are the same with this one beside them. */
  lemma {:induction false} Beside(c: Cluster, es: seq<Event>, id: ServerId, s: Server)
    requires id !in c.servers && Run(c, es).Some? && forall e | e in es :: e.id != id
    ensures var d := Run(c, es).value;
      Run(c.(servers := c.servers[id := s]), es) == Some(d.(servers := d.servers[id := s]))
    decreases |es|
  {
    if es != [] {
      StepBeside(c, es[0], id, s);
      hide Enabled, Next;
      Beside(Next(c, es[0]), es[1..], id, s);
    }
  }

  lemma StepBeside(c: Cluster, e: Event, id: ServerId, s: Server)
    requires id !in c.servers && Enabled(c, e) && e.id != id
    ensures var with := c.(servers := c.servers[id := s]);
      && Enabled(with, e) && id !in Next(c, e).servers
      && Next(with, e) == Next(c, e).(servers := Next(c, e).servers[id := s])
  {
    assert Next(c.(servers := c.servers[id := s]), e).servers == Next(c, e).servers[id := s];
  }

  class KeyHolder {
    const id: ServerId
    var cached: Option<Key>

    constructor (i: ServerId)
      ensures id == i && cached.None?
    {
      id, cached := i, None;
    }

    ghost function View(store: SystemStore, status: Status): Cluster
      reads this, store
    {
      Cluster(store.row, store.others[id := Server(cached, status)])
    }

    /** The recorded run ends in the present state. */
    ghost predicate Current(t: Trace, store: SystemStore, status: Status)
      reads this, store
    {
      IsTrace(t, id) && t.now == View(store, status) && id !in store.others
    }

    /** `u` is the recorded run `t` taken further. */
    ghost predicate Recorded(t: Trace, u: Trace, store: SystemStore, status: Status)
      reads this, store
    {
      First(u) == First(t) && Current(u, store, status)
    }

    /** Other servers take steps. */
    method OthersAct(store: SystemStore, steps: seq<Event>, status: Status, ghost t: Trace) returns (ghost u: Trace)
      requires Current(t, store, status)
      modifies store`row, store`others
      ensures Recorded(t, u, store, status)
      ensures old(store.row).Some? || steps == [] ==> store.row == old(store.row)
    {
      ghost var c := Cluster(store.row, store.others);
      ghost var done := store.OthersAct(id, steps);
      Beside(c, done, id, Server(cached, status));
      u := Then(t, done, View(store, status));
    }

    /** Line 110: an installed key is kept. */
    method Begin(store: SystemStore, ghost t: Trace) returns (status: Status, ghost u: Trace)
      requires Current(t, store, Idle)
      ensures Recorded(t, u, store, status)
      ensures status == if cached.Some? then Returned(None) else AtRead
    {
      status := if cached.Some? then Returned(None) else AtRead;
      u := Step(t, Call(id), View(store, status));
    }

    /** Lines 116-121: the first read. Failing and finding no row are the same to the caller. */
    method FirstRead(store: SystemStore, ghost t: Trace) returns (status: Status, ghost u: Trace)
      requires cached.None? && Current(t, store, AtRead)
      modifies store`calls
      ensures Recorded(t, u, store, status)
      ensures var lost := store.weather.readFails(old(store.calls));
        && (lost || store.row in {None, Some(NullJson)} ==> status == AtGenerate)
        && (!lost && store.row == Some(Malformed) ==> status == Returned(Some(Decoding)))
        && (!lost && store.row.Some? && store.row.value.Encoded? ==> status == AtInstall(store.row.value.payload))
    {
      var value := store.GetByName();
      status := AtGenerate;
      if value.Some? {
        match value.value {
          case Malformed => status := Returned(Some(Decoding));
          case NullJson =>
          case Encoded(found) => status := AtInstall(found);
        }
      }
      u := Step(t, Read(id, value.None?), View(store, status));
    }

    /** Lines 125-139: generate a key. */
    method NewKey(store: SystemStore, candidate: Key, randomFails: bool, ghost t: Trace)
      returns (status: Status, ghost u: Trace)
      requires cached.None? && Generated(candidate) && Current(t, store, AtGenerate)
      ensures Recorded(t, u, store, status)
      ensures status == if randomFails then Returned(Some(RandomSource)) else AtSave(candidate)
    {
      status := if randomFails then Returned(Some(RandomSource)) else AtSave(candidate);
      u := Step(t, Generate(id, if randomFails then None else Some(candidate)), View(store, status));
    }

    /** Lines 140-144: try to insert it. A failed insert is ignored here. */
    method TrySave(store: SystemStore, candidate: Key, ghost t: Trace) returns (status: Status, ghost u: Trace)
      requires cached.None? && Current(t, store, AtSave(candidate))
      modifies store`calls, store`row
      ensures Recorded(t, u, store, status)
      ensures old(store.row).None? && !store.weather.inserts(old(store.calls)).Refused? ==> store.row == Stored(candidate)
      ensures old(store.row).Some? || store.weather.inserts(old(store.calls)).Refused? ==> store.row == old(store.row)
      ensures status == if old(store.row).None? && store.weather.inserts(old(store.calls)).Acknowledged?
                        then AtInstall(HasKey(candidate)) else AtReread
    {
      ghost var outcome;
      var ok;
      outcome, ok := store.Save(candidate);
      status := if ok then AtInstall(HasKey(candidate)) else AtReread;
      u := Step(t, Save(id, outcome), View(store, status));
    }

    /** Lines 149-158: another server must have stored its key first, so this read has to succeed. */
    method SecondRead(store: SystemStore, ghost t: Trace) returns (status: Status, ghost u: Trace)
      requires cached.None? && Current(t, store, AtReread)
      modifies store`calls
      ensures Recorded(t, u, store, status)
      ensures var lost := store.weather.readFails(old(store.calls));
        && (lost || store.row.None? ==> status == Returned(Some(StoreRead)))
        && (!lost && store.row == Some(NullJson) ==> status == Panicked)
        && (!lost && store.row == Some(Malformed) ==> status == Returned(Some(Decoding)))
        && (!lost && store.row.Some? && store.row.value.Encoded? ==> status == AtInstall(store.row.value.payload))
    {
      var value := store.GetByName();
      if value.None? {
        status := Returned(Some(StoreRead));
      } else {
        match value.value {
          case Malformed => status := Returned(Some(Decoding));
          case NullJson => status := Panicked;
          case Encoded(found) => status := AtInstall(found);
        }
      }
      u := Step(t, Reread(id, value.None?), View(store, status));
    }

    /** Line 160, and lines 221-235 for the signing key: install what was found. */
    method InstallKey(store: SystemStore, found: Payload, ghost t: Trace) returns (status: Status, ghost u: Trace)
      requires cached.None? && Current(t, store, AtInstall(found))
      modifies this
      ensures Recorded(t, u, store, status)
      ensures cached == if found.HasKey? && Installs(found.key) then Some(found.key) else None
      ensures status.Panicked? <==> found.NoSigningKey?
      ensures status == Returned(None) <==> cached.Some? || found.NoCookieSecret?
      ensures status.Panicked? || status in {Returned(None), Returned(Some(UnknownCurve))}
    {
      match found {
        case NoCookieSecret =>
          status := Returned(None);
        case NoSigningKey =>
          status := Panicked;
        case HasKey(k) =>
          if Installs(k) {
            cached := Some(k);
            status := Returned(None);
          } else {
            status := Returned(Some(UnknownCurve));
          }
      }
      u := Step(t, Install(id), View(store, status));
    }

    /** One call, with `gaps(n)` what the other servers attempt before its step n + 1. It takes its own steps as the
        machine does, and ends where the machine says: returned, or panicked on a nil dereference. Where none of its
        calls fails it makes the key: on a table that a first boot can have led to, it ends with the stored key
        installed, and undisturbed on an empty table with its own. */
    method EnsureKey(store: SystemStore, candidate: Key, randomFails: bool, gaps: nat -> seq<Event>)
      returns (status: Status, ghost events: seq<Event>)
      requires Generated(candidate) && id !in store.others
      modifies this, store
      ensures status.Returned? || status.Panicked?
      ensures id !in store.others && Run(old(View(store, Idle)), events) == Some(View(store, status))
      ensures forall e | e in events && e.id == id :: !e.Boot? && !e.Restart?
      ensures cached != old(cached) ==> status == Returned(None) && old(cached).None?
      ensures old(cached).Some? ==> status == Returned(None)
      ensures Calm(store.weather) && !randomFails && FromFirstBoot(old(View(store, Idle))) ==>
        status == Returned(None) && cached.Some? && store.row == Stored(cached.value)
      ensures Calm(store.weather) && !randomFails && old(cached).None? && old(store.row).None? && (forall n :: gaps(n) == []) ==>
        status == Returned(None) && cached == Some(candidate) && store.row == Stored(candidate)
    {
      hide Run, FromFirstBoot, Calm;
      ghost var start := View(store, Idle);
      ghost var t := Start(start);
      status, t := FindKey(store, candidate, randomFails, gaps, t);
      if status.AtInstall? {
        t := OthersAct(store, gaps(5), status, t);
        status, t := InstallKey(store, status.found, t);
      }
      events := Events(t);
      TraceIsRun(t, id);
      if FromFirstBoot(start) && !status.Panicked? && !Starved(status) {
        EndsWithKey(start, events, store.row, store.others, id, Server(cached, status));
      } else if FromFirstBoot(start) && status.Panicked? {
        NeverPanics(start, events, id);
      }
    }

    /** Up to where there is a key to install, or the call has ended. */
    method FindKey(store: SystemStore, candidate: Key, randomFails: bool, gaps: nat -> seq<Event>, ghost t: Trace)
      returns (status: Status, ghost u: Trace)
      requires Generated(candidate) && Current(t, store, Idle)
      modifies store
      ensures Recorded(t, u, store, status)
      ensures if cached.Some? then status == Returned(None) else
        status.AtInstall? || status.Panicked? || (status.Returned? && status.err.Some?)
      ensures Calm(store.weather) && !randomFails ==> !Starved(status)
      ensures Calm(store.weather) && !randomFails && cached.None? && old(store.row).None? && (forall n :: gaps(n) == []) ==>
        status == AtInstall(HasKey(candidate)) && store.row == Stored(candidate)
    {
      hide First, Current, Generated;
      u := OthersAct(store, gaps(0), Idle, t);
      status, u := Begin(store, u);
      if status.Returned? {
        return;
      }
      u := OthersAct(store, gaps(1), status, u);
      status, u := FirstRead(store, u);
      if !status.AtGenerate? {
        return;
      }
      u := OthersAct(store, gaps(2), status, u);
      status, u := MakeKey(store, candidate, randomFails, gaps, u);
    }

    /** Lines 123-158: there was no key to be read. */
    method MakeKey(store: SystemStore, candidate: Key, randomFails: bool, gaps: nat -> seq<Event>, ghost t: Trace)
      returns (status: Status, ghost u: Trace)
      requires cached.None? && Generated(candidate) && Current(t, store, AtGenerate)
      modifies store
      ensures Recorded(t, u, store, status)
      ensures status.AtInstall? || status.Panicked? || (status.Returned? && status.err.Some?)
      ensures Calm(store.weather) && !randomFails ==> !Starved(status)
      ensures Calm(store.weather) && !randomFails && old(store.row).None? && (forall n :: gaps(n) == []) ==>
        status == AtInstall(HasKey(candidate)) && store.row == Stored(candidate)
    {
      hide First, Current, Generated;
      status, u := NewKey(store, candidate, randomFails, t);
      if !status.AtSave? {
        return;
      }
      u := OthersAct(store, gaps(3), status, u);
      status, u := TrySave(store, candidate, u);
      if !status.AtReread? {
        return;
      }
      u := OthersAct(store, gaps(4), status, u);
      status, u := SecondRead(store, u);
    }
  }

  /** A call that ended because the random source or a read failed. */
  predicate Starved(status: Status) {
    status in {Returned(Some(RandomSource)), Returned(Some(StoreRead))}
  }

  lemma EndsWithKey(start: Cluster, events: seq<Event>, row: Option<Row>, others: map<ServerId, Server>, id: ServerId,
                    s: Server)
    requires FromFirstBoot(start) && Run(start, events) == Some(Cluster(row, others[id := s]))
    requires s.status.Returned? && !Starved(s.status)
    ensures s.status == Returned(None) && s.cached.Some? && row == Stored(s.cached.value)
  {
    RunKeepsSound(start, events);
    RunKeepsInv(start, events);
    var end := Cluster(row, others[id := s]);
    assert end.servers[id] == s && Consistent(end.row, end.servers[id]);
  }

  lemma NeverPanics(start: Cluster, events: seq<Event>, id: ServerId)
    requires FromFirstBoot(start) && Run(start, events).Some?
    ensures var end := Run(start, events).value; id in end.servers ==> !end.servers[id].status.Panicked?
  {
    RunKeepsSound(start, events);
  }

  /** Every run that starts without a row and with servers that have not been called passes only through such clusters
      (FirstBootLeadsHere). */
  ghost predicate FromFirstBoot(c: Cluster) {
    Inv(c) && Sound(c)
  }

  lemma FirstBootLeadsHere(c: Cluster, es: seq<Event>)
    requires Initial(c) && c.row.None? && Run(c, es).Some?
    ensures FromFirstBoot(Run(c, es).value)
  {
    RunKeepsSound(c, es);
    RunKeepsInv(c, es);
  }

  /** No server restarts in the middle of its own call. */
  ghost predicate Allowed(id: ServerId, e: Event) {
    e.id == id ==> !e.Boot? && !e.Restart?
  }

  /** A recorded run, the latest steps outermost. */
  datatype Trace = Start(now: Cluster) | Then(before: Trace, steps: seq<Event>, now: Cluster)

  ghost function First(t: Trace): Cluster {
    if t.Start? then t.now else First(t.before)
  }

  ghost function Events(t: Trace): seq<Event> {
    if t.Start? then [] else Events(t.before) + t.steps
  }

  ghost predicate IsTrace(t: Trace, id: ServerId) {
    t.Then? ==>
      && Run(t.before.now, t.steps) == Some(t.now)
      && (forall e | e in t.steps :: Allowed(id, e))
      && IsTrace(t.before, id)
  }

  /** One more step. */
  ghost function Step(t: Trace, e: Event, now: Cluster): (u: Trace)
    requires Enabled(t.now, e) && Next(t.now, e) == now
    requires Allowed(e.id, e)
    ensures First(u) == First(t) && u.now == now
    ensures IsTrace(t, e.id) ==> IsTrace(u, e.id)
  {
    RunOne(t.now, e);
    Then(t, [e], now)
  }

  lemma {:induction false} TraceIsRun(t: Trace, id: ServerId)
    requires IsTrace(t, id)
    ensures Run(First(t), Events(t)) == Some(t.now)
    ensures forall e | e in Events(t) :: Allowed(id, e)
  {
    if t.Then? {
      TraceIsRun(t.before, id);
      RunAppend(First(t), Events(t.before), t.steps);
    }
  }

  lemma RunOne(c: Cluster, e: Event)
    requires Enabled(c, e)
    ensures Run(c, [e]) == Some(Next(c, e))
  {
    assert Run(Next(c, e), [e][1..]) == Some(Next(c, e));
  }

  /** Progress: once a usable row exists, one undisturbed call of any uncalled server returns the stored key,
      whatever happened before. */
  lemma StoredKeyIsPickedUp(c: Cluster, i: ServerId, k: Key)
    requires c.row == Stored(k) && Installs(k)
    requires i in c.servers && CanCall(c.servers[i]) && c.servers[i].cached.None?
    ensures Run(c, [Call(i), Read(i, false), Install(i)])
         == Some(c.(servers := c.servers[i := Server(Some(k), Returned(None))]))
  {
    UndisturbedCall(c, i);
  }
}
