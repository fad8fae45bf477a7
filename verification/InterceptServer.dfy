/** Interception of services: descriptions whose handlers run interceptors first,
    and registries that flatten repeated wrapping. */
module InterceptServer {
  import opened Prelude

  /** A call of type C has a result of type R; an interceptor also learns the
      method, of type I. */
  type Handler<!C, !R> = C -> R
  type Interceptor<!C, !I, !R> = (C, I, Handler<C, R>) -> R

  // ----- Chains -----

  function Wrap<C, I, R>(it: Interceptor<C, I, R>, info: I, handler: Handler<C, R>): Handler<C, R> {
    call => it(call, info, handler)
  }

  /** Nesting: the first interceptor outermost, all told the same method. */
  function Compose<C, I, R>(its: seq<Interceptor<C, I, R>>, info: I, handler: Handler<C, R>): Handler<C, R> {
    if its == [] then handler else Wrap(its[0], info, Compose(its[1..], info, handler))
  }

  function Chain<C, I, R>(its: seq<Interceptor<C, I, R>>): Interceptor<C, I, R>
    requires its != []
  {
    if |its| == 1 then its[0]
    else (call: C, info: I, handler: Handler<C, R>) => Compose(its, info, handler)(call)
  }

  /** The body of a chain: the interceptors are wrapped around the handler from the
      last to the first. */
  method RunChain<C, I, R>(its: seq<Interceptor<C, I, R>>, call: C, info: I, handler: Handler<C, R>) returns (r: R)
    requires its != []
    ensures r == Chain(its)(call, info, handler)
  {
    var h := handler;
    for i := 0 to |its|
      invariant h == Compose(its[|its| - i..], info, handler)
    {
      var currInterceptor := its[|its| - i - 1];
      assert its[|its| - i - 1..] == [currInterceptor] + its[|its| - i..];
      h := Wrap(currInterceptor, info, h);
    }
    assert its[0..] == its;
    r := h(call);
  }

  ghost predicate Agree<C(!new), R(!new)>(f: Handler<C, R>, g: Handler<C, R>) {
    forall c: C :: f(c) == g(c)
  }

  /** An interceptor that can tell handlers apart only by calling them. */
  ghost predicate Respects<C(!new), I(!new), R(!new)>(it: Interceptor<C, I, R>) {
    forall c: C, info: I, f: Handler<C, R>, g: Handler<C, R> :: Agree(f, g) ==> it(c, info, f) == it(c, info, g)
  }

  ghost predicate AllRespect<C(!new), I(!new), R(!new)>(its: seq<Interceptor<C, I, R>>) {
    forall i :: 0 <= i < |its| ==> Respects(its[i])
  }

  lemma {:induction false} ComposeRespects<C(!new), I(!new), R(!new)>(
      its: seq<Interceptor<C, I, R>>, info: I, f: Handler<C, R>, g: Handler<C, R>)
    requires AllRespect(its) && Agree(f, g)
    ensures Agree(Compose(its, info, f), Compose(its, info, g))
  {
    if its != [] {
      assert AllRespect(its[1..]);
      ComposeRespects(its[1..], info, f, g);
      assert Respects(its[0]);
    }
  }

  lemma {:induction false} ComposeAppend<C, I, R>(
      a: seq<Interceptor<C, I, R>>, b: seq<Interceptor<C, I, R>>, info: I, f: Handler<C, R>)
    ensures Compose(a + b, info, f) == Compose(a, info, Compose(b, info, f))
  {
    if a == [] {
      assert a + b == b;
    } else {
      assert (a + b)[1..] == a[1..] + b;
      ComposeAppend(a[1..], b, info, f);
    }
  }

  /** it does what the interceptors of the list do, nested. */
  ghost predicate Represents<C(!new), I(!new), R(!new)>(it: Interceptor<C, I, R>, its: seq<Interceptor<C, I, R>>) {
    && its != [] && Respects(it)
    && forall c: C, info: I, f: Handler<C, R> :: it(c, info, f) == Compose(its, info, f)(c)
  }

  lemma ChainRepresents<C(!new), I(!new), R(!new)>(its: seq<Interceptor<C, I, R>>)
    requires its != [] && AllRespect(its)
    ensures Represents(Chain(its), its)
  {
    var it := Chain(its);
    if |its| == 1 {
      assert its[1..] == [] && Respects(its[0]);
      forall c: C, info: I, f: Handler<C, R> ensures it(c, info, f) == Compose(its, info, f)(c) {
        assert Compose(its, info, f) == Wrap(its[0], info, f);
      }
    } else {
      forall c: C, info: I, f: Handler<C, R>, g: Handler<C, R> | Agree(f, g)
        ensures it(c, info, f) == it(c, info, g)
      {
        ComposeRespects(its, info, f, g);
      }
    }
  }

  /** A chain that ends in an older chain is the new interceptors around the old. */
  lemma ChainAbsorbs<C(!new), I(!new), R(!new)>(
      batch: seq<Interceptor<C, I, R>>, prior: Interceptor<C, I, R>, its: seq<Interceptor<C, I, R>>)
    requires AllRespect(batch) && Represents(prior, its)
    ensures Represents(Chain(batch + [prior]), batch + its)
  {
    var all := batch + [prior];
    assert AllRespect(all);
    ChainRepresents(all);
    forall c: C, info: I, f: Handler<C, R> ensures Chain(all)(c, info, f) == Compose(batch + its, info, f)(c) {
      ComposeAppend(batch, [prior], info, f);
      assert [prior][1..] == [];
      assert Compose([prior], info, f) == Wrap(prior, info, f);
      assert Agree(Wrap(prior, info, f), Compose(its, info, f));
      ComposeRespects(batch, info, Wrap(prior, info, f), Compose(its, info, f));
      ComposeAppend(batch, its, info, f);
    }
  }

  // ----- Services -----

  datatype StreamInfo = StreamInfo(fullMethod: string, isClientStream: bool, isServerStream: bool)

  /** The handler of a unary method is given the transport's interceptor, if any. */
  type MethodHandler<!C, !I, !R> = (C, Option<Interceptor<C, I, R>>) -> R

  datatype MethodDesc<!C, !I, !R> = MethodDesc(name: string, handler: MethodHandler<C, I, R>)

  datatype StreamDesc<!C, !R> =
    StreamDesc(name: string, clientStreams: bool, serverStreams: bool, handler: Handler<C, R>)

  datatype ServiceDesc<!C, !I, !R> =
    ServiceDesc(name: string, methods: seq<MethodDesc<C, I, R>>, streams: seq<StreamDesc<C, R>>)

  type UnaryInt<!C, !I, !R> = Interceptor<C, I, R>
  type StreamInt<!C, !R> = Interceptor<C, StreamInfo, R>

  /** The transport's interceptor first, if there is one. */
  function Combine<C, I, R>(transport: Option<UnaryInt<C, I, R>>, it: UnaryInt<C, I, R>): UnaryInt<C, I, R> {
    if transport.None? then it
    else (call: C, info: I, handler: Handler<C, R>) => transport.value(call, info, Wrap(it, info, handler))
  }

  function InterceptMethod<C, I, R>(md: MethodDesc<C, I, R>, it: UnaryInt<C, I, R>): MethodDesc<C, I, R> {
    MethodDesc(md.name, (call, transport) => md.handler(call, Some(Combine(transport, it))))
  }

  function InfoFor<C, R>(service: string, sd: StreamDesc<C, R>): StreamInfo {
    StreamInfo("/" + service + "/" + sd.name, sd.clientStreams, sd.serverStreams)
  }

  function InterceptStreamDesc<C, R>(service: string, sd: StreamDesc<C, R>, it: StreamInt<C, R>): StreamDesc<C, R> {
    StreamDesc(sd.name, sd.clientStreams, sd.serverStreams, Wrap(it, InfoFor(service, sd), sd.handler))
  }

  function Intercepted<C, I, R>(desc: ServiceDesc<C, I, R>, u: Option<UnaryInt<C, I, R>>, s: Option<StreamInt<C, R>>)
    : (r: ServiceDesc<C, I, R>)
    ensures r.name == desc.name && |r.methods| == |desc.methods| && |r.streams| == |desc.streams|
  {
    ServiceDesc(
      desc.name,
      if u.None? then desc.methods
      else seq(|desc.methods|, i requires 0 <= i < |desc.methods| => InterceptMethod(desc.methods[i], u.value)),
      if s.None? then desc.streams
      else seq(|desc.streams|, i requires 0 <= i < |desc.streams| =>
                 InterceptStreamDesc(desc.name, desc.streams[i], s.value)))
  }

  /** InterceptServer: a new description, its slices filled one by one. */
  method InterceptDesc<C, I, R>(desc: ServiceDesc<C, I, R>, u: Option<UnaryInt<C, I, R>>, s: Option<StreamInt<C, R>>)
    returns (r: ServiceDesc<C, I, R>)
    ensures r == Intercepted(desc, u, s)
  {
    r := desc;
    if u.None? && s.None? {
      return;
    }
    if u.Some? {
      var methods := [];
      for i := 0 to |desc.methods|
        invariant methods == Intercepted(desc, u, s).methods[..i]
      {
        methods := methods + [InterceptMethod(desc.methods[i], u.value)];
      }
      r := r.(methods := methods);
    }
    if s.Some? {
      var streams := [];
      for i := 0 to |desc.streams|
        invariant streams == Intercepted(desc, u, s).streams[..i]
      {
        streams := streams + [InterceptStreamDesc(desc.name, desc.streams[i], s.value)];
      }
      r := r.(streams := streams);
    }
  }

  // ----- Registries -----

  /** A registry as the list of what stands between a registration and the
      transport; the transport's own registry takes what reaches it. */
  datatype Registry<!C, !I, !R> =
    | Transport
    | Intercepting(reg: Registry<C, I, R>, unaryInt: Option<UnaryInt<C, I, R>>, streamInt: Option<StreamInt<C, R>>)

  /** The description that reaches the transport. */
  function Register<C, I, R>(reg: Registry<C, I, R>, desc: ServiceDesc<C, I, R>): ServiceDesc<C, I, R> {
    match reg
    case Transport => desc
    case Intercepting(r, u, s) => Register(r, Intercepted(desc, u, s))
  }

  function Listed<C, I, R>(it: Option<Interceptor<C, I, R>>): seq<Interceptor<C, I, R>> {
    if it.None? then [] else [it.value]
  }

  function WithUnary<C, I, R>(reg: Registry<C, I, R>, batch: seq<UnaryInt<C, I, R>>): Registry<C, I, R> {
    if batch == [] then reg
    else if reg.Intercepting? then Intercepting(reg.reg, Some(Chain(batch + Listed(reg.unaryInt))), reg.streamInt)
    else Intercepting(reg, Some(Chain(batch)), None)
  }

  function WithStream<C, I, R>(reg: Registry<C, I, R>, batch: seq<StreamInt<C, R>>): Registry<C, I, R> {
    if batch == [] then reg
    else if reg.Intercepting? then Intercepting(reg.reg, reg.unaryInt, Some(Chain(batch + Listed(reg.streamInt))))
    else Intercepting(reg, None, Some(Chain(batch)))
  }

  datatype Wrapping<!C, !I, !R> =
    | OfUnary(us: seq<UnaryInt<C, I, R>>)
    | OfStream(ss: seq<StreamInt<C, R>>)

  function With<C, I, R>(reg: Registry<C, I, R>, w: Wrapping<C, I, R>): Registry<C, I, R> {
    match w
    case OfUnary(us) => WithUnary(reg, us)
    case OfStream(ss) => WithStream(reg, ss)
  }

  function Build<C, I, R>(wraps: seq<Wrapping<C, I, R>>): Registry<C, I, R> {
    if wraps == [] then Transport
    else
      var n := |wraps| - 1;
      With(Build(wraps[..n]), wraps[n])
  }

  /** All interceptors of one kind: the newest batch first, each in its own order. */
  function UnaryOrder<C, I, R>(wraps: seq<Wrapping<C, I, R>>): seq<UnaryInt<C, I, R>> {
    if wraps == [] then []
    else
      var n := |wraps| - 1;
      (if wraps[n].OfUnary? then wraps[n].us else []) + UnaryOrder(wraps[..n])
  }

  function StreamOrder<C, I, R>(wraps: seq<Wrapping<C, I, R>>): seq<StreamInt<C, R>> {
    if wraps == [] then []
    else
      var n := |wraps| - 1;
      (if wraps[n].OfStream? then wraps[n].ss else []) + StreamOrder(wraps[..n])
  }

  ghost predicate Stands<C(!new), I(!new), R(!new)>(it: Option<Interceptor<C, I, R>>, its: seq<Interceptor<C, I, R>>) {
    if it.None? then its == [] else Represents(it.value, its)
  }

  /** One wrapper at most, standing for all the wraps. */
  ghost predicate Flat<C(!new), I(!new), R(!new)>(reg: Registry<C, I, R>, us: seq<UnaryInt<C, I, R>>, ss: seq<StreamInt<C, R>>) {
    if reg.Transport? then us == [] && ss == []
    else reg.reg == Transport && Stands(reg.unaryInt, us) && Stands(reg.streamInt, ss)
  }

  ghost predicate WrapRespects<C(!new), I(!new), R(!new)>(w: Wrapping<C, I, R>) {
    match w
    case OfUnary(us) => AllRespect(us)
    case OfStream(ss) => AllRespect(ss)
  }

  ghost predicate WrapsRespect<C(!new), I(!new), R(!new)>(wraps: seq<Wrapping<C, I, R>>) {
    forall i :: 0 <= i < |wraps| ==> WrapRespects(wraps[i])
  }

  lemma Absorb<C(!new), I(!new), R(!new)>(
      batch: seq<Interceptor<C, I, R>>, it: Option<Interceptor<C, I, R>>, its: seq<Interceptor<C, I, R>>)
    requires batch != [] && AllRespect(batch) && Stands(it, its)
    ensures Represents(Chain(batch + Listed(it)), batch + its)
  {
    if it.None? {
      assert batch + Listed(it) == batch && batch + its == batch;
      ChainRepresents(batch);
    } else {
      ChainAbsorbs(batch, it.value, its);
    }
  }

  lemma FlatUnary<C(!new), I(!new), R(!new)>(
      reg: Registry<C, I, R>, batch: seq<UnaryInt<C, I, R>>, us: seq<UnaryInt<C, I, R>>, ss: seq<StreamInt<C, R>>)
    requires Flat(reg, us, ss) && AllRespect(batch)
    ensures Flat(WithUnary(reg, batch), batch + us, ss)
  {
    hide Represents, Chain, AllRespect;
    if batch == [] {
      assert batch + us == us;
    } else {
      Absorb(batch, if reg.Intercepting? then reg.unaryInt else None, us);
      assert batch + Listed<C, I, R>(None) == batch;
    }
  }

  lemma FlatStream<C(!new), I(!new), R(!new)>(
      reg: Registry<C, I, R>, batch: seq<StreamInt<C, R>>, us: seq<UnaryInt<C, I, R>>, ss: seq<StreamInt<C, R>>)
    requires Flat(reg, us, ss) && AllRespect(batch)
    ensures Flat(WithStream(reg, batch), us, batch + ss)
  {
    hide Represents, Chain, AllRespect;
    if batch == [] {
      assert batch + ss == ss;
    } else {
      Absorb(batch, if reg.Intercepting? then reg.streamInt else None, ss);
      assert batch + Listed<C, StreamInfo, R>(None) == batch;
    }
  }

  lemma {:induction false} BuildIsFlat<C(!new), I(!new), R(!new)>(wraps: seq<Wrapping<C, I, R>>)
    requires WrapsRespect(wraps)
    ensures Flat(Build(wraps), UnaryOrder(wraps), StreamOrder(wraps))
  {
    if wraps != [] {
      var n := |wraps| - 1;
      BuildIsFlat(wraps[..n]);
      assert WrapRespects(wraps[n]);
      hide Flat, WithUnary, WithStream;
      var reg, us, ss := Build(wraps[..n]), UnaryOrder(wraps[..n]), StreamOrder(wraps[..n]);
      assert [] + us == us && [] + ss == ss;
      match wraps[n] {
        case OfUnary(batch) => FlatUnary(reg, batch, us, ss);
        case OfStream(batch) => FlatStream(reg, batch, us, ss);
      }
    }
  }

  // ----- What the registered service does -----

  /** The handler generated code has: it calls the method itself, or the interceptor
      it is given around it. */
  function Generated<C, I, R>(info: I, final: Handler<C, R>): MethodHandler<C, I, R> {
    (call: C, transport: Option<Interceptor<C, I, R>>) =>
      if transport.None? then final(call) else transport.value(call, info, final)
  }

  ghost predicate TransportRespects<C(!new), I(!new), R(!new)>(t: Option<UnaryInt<C, I, R>>) {
    t.Some? ==> Respects(t.value)
  }

  /** Whatever the sequence of wraps and the sizes of their batches: every method
      keeps its name and position, and a call runs the transport's own interceptor
      first, then the newest batch to the oldest, each in listing order, and then
      the original method. */
  lemma MethodOrder<C(!new), I(!new), R(!new)>(
      wraps: seq<Wrapping<C, I, R>>, desc: ServiceDesc<C, I, R>, i: nat, info: I, final: Handler<C, R>,
      transport: Option<UnaryInt<C, I, R>>, call: C)
    requires WrapsRespect(wraps) && TransportRespects(transport)
    requires i < |desc.methods| && desc.methods[i].handler == Generated(info, final)
    ensures var r := Register(Build(wraps), desc);
            && |r.methods| == |desc.methods| && r.methods[i].name == desc.methods[i].name
            && r.methods[i].handler(call, transport)
            == Compose(Listed(transport) + UnaryOrder(wraps), info, final)(call)
  {
    BuildIsFlat(wraps);
    ComposeListed(transport, UnaryOrder(wraps), info, final);
    hide Build, UnaryOrder, StreamOrder, Compose, WrapsRespect;
    FlatRuns(Build(wraps), UnaryOrder(wraps), StreamOrder(wraps), desc, i, info, final, transport, call);
  }

  lemma FlatRuns<C(!new), I(!new), R(!new)>(
      reg: Registry<C, I, R>, us: seq<UnaryInt<C, I, R>>, ss: seq<StreamInt<C, R>>,
      desc: ServiceDesc<C, I, R>, i: nat, info: I, final: Handler<C, R>,
      transport: Option<UnaryInt<C, I, R>>, call: C)
    requires Flat(reg, us, ss) && TransportRespects(transport)
    requires i < |desc.methods| && desc.methods[i].handler == Generated(info, final)
    ensures var r := Register(reg, desc);
            && |r.methods| == |desc.methods| && r.methods[i].name == desc.methods[i].name
            && r.methods[i].handler(call, transport)
            == if transport.None? then Compose(us, info, final)(call)
               else transport.value(call, info, Compose(us, info, final))
  {
    if reg.Intercepting? {
      assert Register(reg, desc) == Intercepted(desc, reg.unaryInt, reg.streamInt);
      if reg.unaryInt.Some? {
        CombinedRuns(transport, reg.unaryInt.value, us, info, final, call);
      }
    }
    hide Represents, Combine;
  }

  lemma ComposeListed<C(!new), I(!new), R(!new)>(
      t: Option<UnaryInt<C, I, R>>, us: seq<UnaryInt<C, I, R>>, info: I, final: Handler<C, R>)
    ensures Compose(Listed(t) + us, info, final)
         == if t.None? then Compose(us, info, final) else Wrap(t.value, info, Compose(us, info, final))
  {
    var l := Listed(t);
    if t.None? {
      assert l + us == us;
    } else {
      assert (l + us)[1..] == us;
    }
  }

  lemma CombinedRuns<C(!new), I(!new), R(!new)>(
      t: Option<UnaryInt<C, I, R>>, it: UnaryInt<C, I, R>, us: seq<UnaryInt<C, I, R>>,
      info: I, final: Handler<C, R>, call: C)
    requires TransportRespects(t) && Represents(it, us)
    ensures Combine(t, it)(call, info, final)
         == if t.None? then Compose(us, info, final)(call) else t.value(call, info, Compose(us, info, final))
  {
    if t.Some? {
      assert Agree(Wrap(it, info, final), Compose(us, info, final));
    }
  }

  /** Streams likewise, except that a transport intercepts them by itself; and their
      interceptors are told the method's full name and which side streams. */
  lemma StreamsOrder<C(!new), I(!new), R(!new)>(
      wraps: seq<Wrapping<C, I, R>>, desc: ServiceDesc<C, I, R>, i: nat, info: StreamInfo, call: C)
    requires WrapsRespect(wraps) && i < |desc.streams|
    requires info.fullMethod == "/" + desc.name + "/" + desc.streams[i].name
    requires info.isClientStream == desc.streams[i].clientStreams
    requires info.isServerStream == desc.streams[i].serverStreams
    ensures var r := Register(Build(wraps), desc);
            var sd := desc.streams[i];
            && |r.streams| == |desc.streams|
            && r.streams[i].name == sd.name
            && r.streams[i].clientStreams == sd.clientStreams && r.streams[i].serverStreams == sd.serverStreams
            && r.streams[i].handler(call) == Compose(StreamOrder(wraps), info, sd.handler)(call)
  {
    BuildIsFlat(wraps);
    var reg := Build(wraps);
    if reg.Intercepting? {
      assert Register(reg, desc) == Intercepted(desc, reg.unaryInt, reg.streamInt);
    }
  }

  // ----- Against registries that do not flatten -----

  /** One registry around the other, opaque to it. */
  function Layers<C, I, R>(its: seq<UnaryInt<C, I, R>>): Registry<C, I, R> {
    if its == [] then Transport else Intercepting(Layers(its[1..]), Some(its[0]), None)
  }

  function Reversed<T>(s: seq<T>): (r: seq<T>)
    ensures |r| == |s|
    ensures forall i :: 0 <= i < |s| ==> r[i] == s[|s| - 1 - i]
  {
    if s == [] then [] else Reversed(s[1..]) + [s[0]]
  }

  /** Registries nested without flattening run their interceptors the other way
      round: the innermost, oldest one first. */
  lemma {:induction false} LayersReverse<C(!new), I(!new), R(!new)>(
      its: seq<UnaryInt<C, I, R>>, md: MethodDesc<C, I, R>, name: string, applied: seq<UnaryInt<C, I, R>>,
      info: I, final: Handler<C, R>, transport: Option<UnaryInt<C, I, R>>, call: C)
    requires AllRespect(its) && AllRespect(applied) && TransportRespects(transport)
    requires forall c, t :: TransportRespects(t) ==>
               md.handler(c, t) == Compose(Listed(t) + applied, info, final)(c)
    ensures var r := Register(Layers(its), ServiceDesc(name, [md], []));
            && |r.methods| == 1 && r.methods[0].name == md.name
            && r.methods[0].handler(call, transport)
            == Compose(Listed(transport) + Reversed(its) + applied, info, final)(call)
    decreases |its|
  {
    if its == [] {
      assert Listed(transport) + Reversed(its) == Listed(transport);
    } else {
      var it, md' := its[0], InterceptMethod(md, its[0]);
      var applied' := [it] + applied;
      LayerRunsAll(md, it, applied, info, final);
      hide InterceptMethod, Compose, Respects, TransportRespects;
      LayersReverse(its[1..], md', name, applied', info, final, transport, call);
      assert Intercepted(ServiceDesc(name, [md], []), Some(it), None) == ServiceDesc(name, [md'], []);
      assert Listed(transport) + Reversed(its[1..]) + applied' == Listed(transport) + Reversed(its) + applied;
    }
  }

  lemma LayerRunsAll<C(!new), I(!new), R(!new)>(
      md: MethodDesc<C, I, R>, it: UnaryInt<C, I, R>, applied: seq<UnaryInt<C, I, R>>, info: I, final: Handler<C, R>)
    requires Respects(it) && AllRespect(applied)
    requires forall c, t :: TransportRespects(t) ==>
               md.handler(c, t) == Compose(Listed(t) + applied, info, final)(c)
    ensures InterceptMethod(md, it).name == md.name
    ensures forall c, t :: TransportRespects(t) ==>
              InterceptMethod(md, it).handler(c, t) == Compose(Listed(t) + ([it] + applied), info, final)(c)
  {
    forall c, t: Option<UnaryInt<C, I, R>> | TransportRespects(t)
      ensures InterceptMethod(md, it).handler(c, t) == Compose(Listed(t) + ([it] + applied), info, final)(c)
    {
      LayerRuns(md, it, applied, info, final, t, c);
    }
  }

  /** So a generated method registered through nested registries, its[0] the outermost
      and newest, runs them oldest first, where flattening runs its[0] first. */
  lemma NestedOrder<C(!new), I(!new), R(!new)>(
      its: seq<UnaryInt<C, I, R>>, name: string, methodName: string, info: I, final: Handler<C, R>,
      transport: Option<UnaryInt<C, I, R>>, call: C)
    requires AllRespect(its) && TransportRespects(transport)
    ensures var md := MethodDesc(methodName, Generated(info, final));
            var r := Register(Layers(its), ServiceDesc(name, [md], []));
            && |r.methods| == 1 && r.methods[0].name == methodName
            && r.methods[0].handler(call, transport)
            == Compose(Listed(transport) + Reversed(its), info, final)(call)
  {
    var md := MethodDesc(methodName, Generated(info, final));
    forall c, t: Option<UnaryInt<C, I, R>> | TransportRespects(t)
      ensures md.handler(c, t) == Compose(Listed(t) + [], info, final)(c)
    {
      ComposeListed(t, [], info, final);
    }
    LayersReverse(its, md, name, [], info, final, transport, call);
    assert Listed(transport) + Reversed(its) + [] == Listed(transport) + Reversed(its);
  }

  lemma LayerRuns<C(!new), I(!new), R(!new)>(
      md: MethodDesc<C, I, R>, it: UnaryInt<C, I, R>, applied: seq<UnaryInt<C, I, R>>,
      info: I, final: Handler<C, R>, t: Option<UnaryInt<C, I, R>>, c: C)
    requires Respects(it) && AllRespect(applied) && TransportRespects(t)
    requires forall c, t :: TransportRespects(t) ==>
               md.handler(c, t) == Compose(Listed(t) + applied, info, final)(c)
    ensures InterceptMethod(md, it).handler(c, t) == Compose(Listed(t) + ([it] + applied), info, final)(c)
  {
    var combined := Combine(t, it);
    CombineRespects(t, it);
    var rest := Compose(applied, info, final);
    ComposeListed(Some(combined), applied, info, final);
    ComposeListed(Some(it), applied, info, final);
    ComposeListed(t, [it] + applied, info, final);
    assert md.handler(c, Some(combined)) == Compose(Listed(Some(combined)) + applied, info, final)(c);
    assert combined(c, info, rest) == if t.None? then it(c, info, rest) else t.value(c, info, Wrap(it, info, rest));
  }

  lemma CombineRespects<C(!new), I(!new), R(!new)>(t: Option<UnaryInt<C, I, R>>, it: UnaryInt<C, I, R>)
    requires Respects(it) && TransportRespects(t)
    ensures Respects(Combine(t, it))
  {
    if t.Some? {
      var both := Combine(t, it);
      forall c: C, info: I, f: Handler<C, R>, g: Handler<C, R> | Agree(f, g)
        ensures both(c, info, f) == both(c, info, g)
      {
        assert Agree(Wrap(it, info, f), Wrap(it, info, g));
      }
    }
  }

  // ----- When nesting and flattening agree -----

  /** A call of a generated method gives the same result through nested registries and
      through a flattened one. */
  ghost predicate NestedAgrees<C, I, R>(
      its: seq<UnaryInt<C, I, R>>, desc: ServiceDesc<C, I, R>, transport: Option<UnaryInt<C, I, R>>, call: C)
  {
    var nested, flat := Register(Layers(its), desc), Register(WithUnary(Transport, its), desc);
    && |nested.methods| == |flat.methods| == 1
    && nested.methods[0].handler(call, transport) == flat.methods[0].handler(call, transport)
  }

  function OneMethod<C, I, R>(info: I, final: Handler<C, R>): ServiceDesc<C, I, R> {
    ServiceDesc("service", [MethodDesc("method", Generated(info, final))], [])
  }

  /** It does exactly if the order of these interceptors makes no difference to it. */
  lemma NestedAgreesExactlyWhen<C(!new), I(!new), R(!new)>(
      its: seq<UnaryInt<C, I, R>>, info: I, final: Handler<C, R>, transport: Option<UnaryInt<C, I, R>>, call: C)
    requires AllRespect(its) && TransportRespects(transport)
    ensures NestedAgrees(its, OneMethod(info, final), transport, call)
       <==> Compose(Listed(transport) + Reversed(its), info, final)(call)
            == Compose(Listed(transport) + its, info, final)(call)
  {
    var wraps: seq<Wrapping<C, I, R>> := [OfUnary(its)];
    assert wraps[..0] == [];
    assert Build(wraps) == WithUnary(Transport, its);
    assert UnaryOrder(wraps) == its + [];
    assert its + [] == its;
    assert WrapsRespect(wraps);
    hide AllRespect, Compose, Build, UnaryOrder, WrapsRespect, Register, WithUnary, Layers;
    NestedOrder(its, "service", "method", info, final, transport, call);
    MethodOrder(wraps, OneMethod(info, final), 0, info, final, transport, call);
  }

  /** For all lists of n interceptors, all methods, transports and calls. */
  ghost predicate AlwaysAgrees<C(!new), I(!new), R(!new)>(n: nat) {
    forall its: seq<UnaryInt<C, I, R>>, info: I, final: Handler<C, R>, transport: Option<UnaryInt<C, I, R>>, call: C ::
      |its| == n && AllRespect(its) && TransportRespects(transport) ==>
        NestedAgrees(its, OneMethod(info, final), transport, call)
  }

  function Answers<C, I, R>(r: R): UnaryInt<C, I, R> {
    (call, info, handler) => r
  }

  function YesThenNo<C, I, R>(yes: R, no: R, n: nat): (its: seq<UnaryInt<C, I, R>>)
    ensures |its| == n + 1
  {
    [Answers<C, I, R>(yes)] + seq(n, i => Answers<C, I, R>(no))
  }

  /** An interceptor that answers by itself, with others after it that give another
      answer: flattened, its answer is the call's, nested, that of the last. */
  lemma OrdersDiffer<C(!new), I(!new), R(!new)>(
      n: nat, info: I, final: Handler<C, R>, call: C, yes: R, no: R)
    requires n >= 1 && yes != no
    ensures AllRespect(YesThenNo<C, I, R>(yes, no, n))
    ensures !NestedAgrees(YesThenNo(yes, no, n), OneMethod(info, final), None, call)
  {
    var its := YesThenNo<C, I, R>(yes, no, n);
    NestedAgreesExactlyWhen(its, info, final, None, call);
    assert Listed<C, I, R>(None) + its == its;
    assert Listed<C, I, R>(None) + Reversed(its) == Reversed(its);
    assert Reversed(its)[0] == its[n] == Answers(no);
    hide Register, WithUnary, Layers, AllRespect;
  }

  /** So nested and flattened registries agree, for every result type with two values,
      exactly when there is at most one interceptor. */
  lemma AgreesExactlyWhen<C(!new), I(!new), R(!new)>(
      n: nat, info: I, final: Handler<C, R>, call: C, yes: R, no: R)
    requires yes != no
    ensures AlwaysAgrees<C, I, R>(n) <==> n <= 1
  {
    hide NestedAgrees, AllRespect, Compose;
    if n <= 1 {
      forall its: seq<UnaryInt<C, I, R>>, info: I, final: Handler<C, R>, transport: Option<UnaryInt<C, I, R>>, call: C
        | |its| == n && AllRespect(its) && TransportRespects(transport)
        ensures NestedAgrees(its, OneMethod(info, final), transport, call)
      {
        assert Reversed(its) == its;
        NestedAgreesExactlyWhen(its, info, final, transport, call);
      }
    } else {
      OrdersDiffer<C, I, R>(n - 1, info, final, call, yes, no);
    }
  }
}
