/** Interception of client channels: chains of interceptors, and channels that
    flatten repeated wrapping into one chain. */
module InterceptClient {
  import opened Prelude

  /** The ClientConn an interceptor is told about, if there is one. */
  type Cc = Option<nat>

  /** A call of type C, which includes whatever state it can observe, has a result
      of type R, which includes whatever it changed. */
  type Invoker<!C, !R> = (C, Cc) -> R
  type Interceptor<!C, !R> = (C, Cc, Invoker<C, R>) -> R

  // ----- Chains -----

  function Wrap<C, R>(it: Interceptor<C, R>, invoker: Invoker<C, R>): Invoker<C, R> {
    (call, cc) => it(call, cc, invoker)
  }

  /** Nesting: the first interceptor outermost. */
  function Compose<C, R>(its: seq<Interceptor<C, R>>, invoker: Invoker<C, R>): Invoker<C, R> {
    if its == [] then invoker else Wrap(its[0], Compose(its[1..], invoker))
  }

  function Chain<C, R>(its: seq<Interceptor<C, R>>): Interceptor<C, R>
    requires its != []
  {
    if |its| == 1 then its[0]
    else (call, cc, invoker) => Compose(its, invoker)(call, cc)
  }

  /** The body of a chain: the interceptors are wrapped around the invoker from the
      last to the first. */
  method RunChain<C, R>(its: seq<Interceptor<C, R>>, call: C, cc: Cc, invoker: Invoker<C, R>) returns (r: R)
    requires its != []
    ensures r == Chain(its)(call, cc, invoker)
  {
    var inv := invoker;
    for i := 0 to |its|
      invariant inv == Compose(its[|its| - i..], invoker)
    {
      var currInterceptor := its[|its| - i - 1];
      assert its[|its| - i - 1..] == [currInterceptor] + its[|its| - i..];
      inv := Wrap(currInterceptor, inv);
    }
    assert its[0..] == its;
    r := inv(call, cc);
  }

  /** Two invokers that answer every call alike. */
  ghost predicate Agree<C(!new), R(!new)>(f: Invoker<C, R>, g: Invoker<C, R>) {
    forall c: C, cc: Cc :: f(c, cc) == g(c, cc)
  }

  /** An interceptor that can tell invokers apart only by calling them. */
  ghost predicate Respects<C(!new), R(!new)>(it: Interceptor<C, R>) {
    forall c: C, cc: Cc, f: Invoker<C, R>, g: Invoker<C, R> :: Agree(f, g) ==> it(c, cc, f) == it(c, cc, g)
  }

  ghost predicate AllRespect<C(!new), R(!new)>(its: seq<Interceptor<C, R>>) {
    forall i :: 0 <= i < |its| ==> Respects(its[i])
  }

  lemma {:induction false} ComposeRespects<C(!new), R(!new)>(its: seq<Interceptor<C, R>>, f: Invoker<C, R>, g: Invoker<C, R>)
    requires AllRespect(its) && Agree(f, g)
    ensures Agree(Compose(its, f), Compose(its, g))
  {
    if its != [] {
      assert AllRespect(its[1..]);
      ComposeRespects(its[1..], f, g);
      assert Respects(its[0]);
    }
  }

  lemma {:induction false} ComposeAppend<C, R>(a: seq<Interceptor<C, R>>, b: seq<Interceptor<C, R>>, f: Invoker<C, R>)
    ensures Compose(a + b, f) == Compose(a, Compose(b, f))
  {
    if a == [] {
      assert a + b == b;
    } else {
      assert (a + b)[1..] == a[1..] + b;
      ComposeAppend(a[1..], b, f);
    }
  }

  /** it does what the interceptors of the list do, nested. */
  ghost predicate Represents<C(!new), R(!new)>(it: Interceptor<C, R>, its: seq<Interceptor<C, R>>) {
    && its != [] && Respects(it)
    && forall c: C, cc: Cc, f: Invoker<C, R> :: it(c, cc, f) == Compose(its, f)(c, cc)
  }

  lemma ChainRepresents<C(!new), R(!new)>(its: seq<Interceptor<C, R>>)
    requires its != [] && AllRespect(its)
    ensures Represents(Chain(its), its)
  {
    var it := Chain(its);
    if |its| == 1 {
      assert its[1..] == [] && Respects(its[0]);
      forall c: C, cc: Cc, f: Invoker<C, R> ensures it(c, cc, f) == Compose(its, f)(c, cc) {
        assert Compose(its, f) == Wrap(its[0], f);
      }
    } else {
      forall c: C, cc: Cc, f: Invoker<C, R>, g: Invoker<C, R> | Agree(f, g) ensures it(c, cc, f) == it(c, cc, g) {
        ComposeRespects(its, f, g);
      }
    }
  }

  /** A chain that ends in an older chain is the new interceptors around the old. */
  lemma ChainAbsorbs<C(!new), R(!new)>(batch: seq<Interceptor<C, R>>, prior: Interceptor<C, R>, its: seq<Interceptor<C, R>>)
    requires AllRespect(batch) && Represents(prior, its)
    ensures Represents(Chain(batch + [prior]), batch + its)
  {
    var all := batch + [prior];
    assert AllRespect(all);
    ChainRepresents(all);
    forall c: C, cc: Cc, f: Invoker<C, R> ensures Chain(all)(c, cc, f) == Compose(batch + its, f)(c, cc) {
      ComposeAppend(batch, [prior], f);
      assert [prior][1..] == [];
      assert Compose([prior], f) == Wrap(prior, f);
      assert Agree(Wrap(prior, f), Compose(its, f));
      ComposeRespects(batch, Wrap(prior, f), Compose(its, f));
      ComposeAppend(batch, its, f);
    }
  }

  // ----- Channels -----

  /** A transport's own channel, of which a ClientConn is one kind; somebody else's
      wrapper, opaque but for Unwrap; and the wrapper of this package. */
  datatype Conn<!C, !R> =
    | Root(id: nat, isClientConn: bool, invoke: C -> R, newStream: C -> R)
    | Foreign(inner: Option<Conn<C, R>>, invoke: C -> R, newStream: C -> R)
    | Intercepted(ch: Conn<C, R>, unaryInt: Option<Interceptor<C, R>>, streamInt: Option<Interceptor<C, R>>)

  function Unwrap<C, R>(c: Conn<C, R>): Conn<C, R> {
    match c
    case Root(_, _, _, _) => c
    case Foreign(inner, _, _) => if inner.None? then c else Unwrap(inner.value)
    case Intercepted(ch, _, _) => Unwrap(ch)
  }

  method FindRoot<C, R>(ch: Conn<C, R>) returns (r: Conn<C, R>)
    ensures r == Unwrap(ch)
  {
    r := ch;
    while !r.Root? && !(r.Foreign? && r.inner.None?)
      invariant Unwrap(r) == Unwrap(ch)
      decreases r
    {
      r := if r.Foreign? then r.inner.value else r.ch;
    }
  }

  function AsClientConn<C, R>(c: Conn<C, R>): Cc {
    if c.Root? && c.isClientConn then Some(c.id) else None
  }

  function UnaryCc<C, R>(c: Conn<C, R>): Cc {
    AsClientConn(Unwrap(c))
  }

  /** Streams look at the wrapped channel itself only. */
  function StreamCc<C, R>(c: Conn<C, R>): Cc {
    AsClientConn(c)
  }

  function Invoke<C, R>(c: Conn<C, R>, call: C): R {
    match c
    case Root(_, _, f, _) => f(call)
    case Foreign(_, f, _) => f(call)
    case Intercepted(ch, it, _) =>
      if it.None? then Invoke(ch, call)
      else it.value(call, UnaryCc(ch), (x: C, cc: Cc) => Invoke(ch, x))
  }

  function NewStream<C, R>(c: Conn<C, R>, call: C): R {
    match c
    case Root(_, _, _, f) => f(call)
    case Foreign(_, _, f) => f(call)
    case Intercepted(ch, _, it) =>
      if it.None? then NewStream(ch, call)
      else it.value(call, StreamCc(ch), (x: C, cc: Cc) => NewStream(ch, x))
  }

  /** The invokers at the end of a chain ignore the ClientConn they are given. */
  function UnaryEnd<C, R>(c: Conn<C, R>): Invoker<C, R> {
    (x, cc) => Invoke(c, x)
  }

  function StreamEnd<C, R>(c: Conn<C, R>): Invoker<C, R> {
    (x, cc) => NewStream(c, x)
  }

  function Listed<C, R>(it: Option<Interceptor<C, R>>): seq<Interceptor<C, R>> {
    if it.None? then [] else [it.value]
  }

  function InterceptUnary<C, R>(c: Conn<C, R>, batch: seq<Interceptor<C, R>>): Conn<C, R> {
    if batch == [] then c
    else if c.Intercepted? then Intercepted(c.ch, Some(Chain(batch + Listed(c.unaryInt))), c.streamInt)
    else Intercepted(c, Some(Chain(batch)), None)
  }

  function InterceptStream<C, R>(c: Conn<C, R>, batch: seq<Interceptor<C, R>>): Conn<C, R> {
    if batch == [] then c
    else if c.Intercepted? then Intercepted(c.ch, c.unaryInt, Some(Chain(batch + Listed(c.streamInt))))
    else Intercepted(c, None, Some(Chain(batch)))
  }

  // ----- Any number of wraps -----

  datatype Wrapping<!C, !R> = OfUnary(batch: seq<Interceptor<C, R>>) | OfStream(batch: seq<Interceptor<C, R>>)

  function Intercept<C, R>(c: Conn<C, R>, w: Wrapping<C, R>): Conn<C, R> {
    match w
    case OfUnary(b) => InterceptUnary(c, b)
    case OfStream(b) => InterceptStream(c, b)
  }

  function Build<C, R>(base: Conn<C, R>, wraps: seq<Wrapping<C, R>>): Conn<C, R> {
    if wraps == [] then base
    else
      var n := |wraps| - 1;
      Intercept(Build(base, wraps[..n]), wraps[n])
  }

  /** All interceptors of one kind: the latest batch first, each in its own order. */
  function UnaryOrder<C, R>(wraps: seq<Wrapping<C, R>>): seq<Interceptor<C, R>> {
    if wraps == [] then []
    else
      var n := |wraps| - 1;
      (if wraps[n].OfUnary? then wraps[n].batch else []) + UnaryOrder(wraps[..n])
  }

  function StreamOrder<C, R>(wraps: seq<Wrapping<C, R>>): seq<Interceptor<C, R>> {
    if wraps == [] then []
    else
      var n := |wraps| - 1;
      (if wraps[n].OfStream? then wraps[n].batch else []) + StreamOrder(wraps[..n])
  }

  ghost predicate Stands<C(!new), R(!new)>(it: Option<Interceptor<C, R>>, its: seq<Interceptor<C, R>>) {
    if it.None? then its == [] else Represents(it.value, its)
  }

  /** One wrapper at most, straight around the base, standing for all the wraps. */
  ghost predicate Flat<C(!new), R(!new)>(c: Conn<C, R>, base: Conn<C, R>,
                                         us: seq<Interceptor<C, R>>, ss: seq<Interceptor<C, R>>) {
    if c.Intercepted? then c.ch == base && Stands(c.unaryInt, us) && Stands(c.streamInt, ss)
    else c == base && us == [] && ss == []
  }

  lemma Absorb<C(!new), R(!new)>(batch: seq<Interceptor<C, R>>, it: Option<Interceptor<C, R>>, its: seq<Interceptor<C, R>>)
    requires batch != [] && AllRespect(batch) && Stands(it, its)
    ensures Represents(Chain(batch + Listed(it)), batch + its)
  {
    if it.None? {
      assert batch + Listed(it) == batch && batch + its == batch;
      ChainRepresents(batch);
    } else {
      ChainAbsorbs(batch, it.value, its);
    }
  }

  lemma FlatStep<C(!new), R(!new)>(c: Conn<C, R>, base: Conn<C, R>, w: Wrapping<C, R>,
                                   us: seq<Interceptor<C, R>>, ss: seq<Interceptor<C, R>>)
    requires !base.Intercepted? && Flat(c, base, us, ss) && AllRespect(w.batch)
    ensures w.OfUnary? ==> Flat(Intercept(c, w), base, w.batch + us, ss)
    ensures w.OfStream? ==> Flat(Intercept(c, w), base, us, w.batch + ss)
  {
    hide Represents, Chain, AllRespect;
    if w.batch == [] {
      assert w.batch + us == us && w.batch + ss == ss;
    } else if w.OfUnary? {
      Absorb(w.batch, if c.Intercepted? then c.unaryInt else None, us);
      assert w.batch + Listed<C, R>(None) == w.batch;
    } else {
      Absorb(w.batch, if c.Intercepted? then c.streamInt else None, ss);
      assert w.batch + Listed<C, R>(None) == w.batch;
    }
  }

  ghost predicate WrapsRespect<C(!new), R(!new)>(wraps: seq<Wrapping<C, R>>) {
    forall i :: 0 <= i < |wraps| ==> AllRespect(wraps[i].batch)
  }

  lemma {:induction false} BuildIsFlat<C(!new), R(!new)>(base: Conn<C, R>, wraps: seq<Wrapping<C, R>>)
    requires !base.Intercepted? && WrapsRespect(wraps)
    ensures Flat(Build(base, wraps), base, UnaryOrder(wraps), StreamOrder(wraps))
  {
    if wraps != [] {
      var n := |wraps| - 1;
      BuildIsFlat(base, wraps[..n]);
      hide Flat, Intercept;
      FlatStep(Build(base, wraps[..n]), base, wraps[n], UnaryOrder(wraps[..n]), StreamOrder(wraps[..n]));
      assert [] + UnaryOrder(wraps[..n]) == UnaryOrder(wraps[..n]);
      assert [] + StreamOrder(wraps[..n]) == StreamOrder(wraps[..n]);
    }
  }

  /** Flattening keeps the meaning of nesting: whatever the sequence of wraps and the
      sizes of their batches, the channel invokes unary calls through all the unary
      interceptors, the latest batch outermost and the first of a batch first; and
      opens streams likewise through the stream interceptors. Wraps of one kind do
      not affect calls of the other. */
  lemma FlatteningKeepsMeaning<C(!new), R(!new)>(base: Conn<C, R>, wraps: seq<Wrapping<C, R>>, call: C)
    requires !base.Intercepted? && WrapsRespect(wraps)
    ensures Invoke(Build(base, wraps), call) == Compose(UnaryOrder(wraps), UnaryEnd(base))(call, UnaryCc(base))
    ensures NewStream(Build(base, wraps), call) == Compose(StreamOrder(wraps), StreamEnd(base))(call, StreamCc(base))
  {
    BuildIsFlat(base, wraps);
    var c := Build(base, wraps);
    if c.Intercepted? {
      FlatCalls(c, UnaryOrder(wraps), StreamOrder(wraps), call);
    }
  }

  lemma FlatCalls<C(!new), R(!new)>(c: Conn<C, R>, us: seq<Interceptor<C, R>>, ss: seq<Interceptor<C, R>>, call: C)
    requires c.Intercepted? && Stands(c.unaryInt, us) && Stands(c.streamInt, ss)
    ensures Invoke(c, call) == Compose(us, UnaryEnd(c.ch))(call, UnaryCc(c.ch))
    ensures NewStream(c, call) == Compose(ss, StreamEnd(c.ch))(call, StreamCc(c.ch))
  {
    if c.unaryInt.Some? {
      var f := (x: C, cc: Cc) => Invoke(c.ch, x);
      assert Agree(f, UnaryEnd(c.ch));
      assert c.unaryInt.value(call, UnaryCc(c.ch), f) == c.unaryInt.value(call, UnaryCc(c.ch), UnaryEnd(c.ch));
    }
    if c.streamInt.Some? {
      var f := (x: C, cc: Cc) => NewStream(c.ch, x);
      assert Agree(f, StreamEnd(c.ch));
      assert c.streamInt.value(call, StreamCc(c.ch), f) == c.streamInt.value(call, StreamCc(c.ch), StreamEnd(c.ch));
    }
  }

  /** A channel's own calls, as invokers. */
  function Calling<C, R>(f: C -> R): Invoker<C, R> {
    (x, cc) => f(x)
  }

  /** In particular over a transport's own channel: in the end its Invoke or NewStream
      is called, and the interceptors are told of it if it is a ClientConn. */
  lemma OverRoot<C(!new), R(!new)>(base: Conn<C, R>, wraps: seq<Wrapping<C, R>>, cc: Cc, call: C)
    requires base.Root? && WrapsRespect(wraps)
    requires cc == if base.isClientConn then Some(base.id) else None
    ensures Invoke(Build(base, wraps), call) == Compose(UnaryOrder(wraps), Calling(base.invoke))(call, cc)
    ensures NewStream(Build(base, wraps), call) == Compose(StreamOrder(wraps), Calling(base.newStream))(call, cc)
  {
    FlatteningKeepsMeaning(base, wraps, call);
    OrdersRespect(wraps);
    assert Agree(UnaryEnd(base), Calling(base.invoke)) && Agree(StreamEnd(base), Calling(base.newStream));
    ComposeRespects(UnaryOrder(wraps), UnaryEnd(base), Calling(base.invoke));
    ComposeRespects(StreamOrder(wraps), StreamEnd(base), Calling(base.newStream));
  }

  /** And over somebody else's wrapper around such a channel: its own calls, with the
      ClientConn below for unary calls only. */
  lemma OverForeign<C(!new), R(!new)>(base: Conn<C, R>, wraps: seq<Wrapping<C, R>>, inner: seq<Wrapping<C, R>>,
                                      root: Conn<C, R>, cc: Cc, call: C)
    requires base.Foreign? && base.inner == Some(Build(root, inner)) && root.Root?
    requires WrapsRespect(wraps) && cc == if root.isClientConn then Some(root.id) else None
    ensures Invoke(Build(base, wraps), call) == Compose(UnaryOrder(wraps), Calling(base.invoke))(call, cc)
    ensures NewStream(Build(base, wraps), call) == Compose(StreamOrder(wraps), Calling(base.newStream))(call, None)
  {
    FlatteningKeepsMeaning(base, wraps, call);
    OrdersRespect(wraps);
    BuildUnwraps(root, inner);
    assert Agree(UnaryEnd(base), Calling(base.invoke)) && Agree(StreamEnd(base), Calling(base.newStream));
    ComposeRespects(UnaryOrder(wraps), UnaryEnd(base), Calling(base.invoke));
    ComposeRespects(StreamOrder(wraps), StreamEnd(base), Calling(base.newStream));
  }

  /** Wrapping hides no channel from Unwrap. */
  lemma {:induction false} BuildUnwraps<C, R>(base: Conn<C, R>, wraps: seq<Wrapping<C, R>>)
    ensures Unwrap(Build(base, wraps)) == Unwrap(base)
  {
    if wraps != [] {
      BuildUnwraps(base, wraps[..|wraps| - 1]);
    }
  }

  lemma {:induction false} OrdersRespect<C(!new), R(!new)>(wraps: seq<Wrapping<C, R>>)
    requires WrapsRespect(wraps)
    ensures AllRespect(UnaryOrder(wraps)) && AllRespect(StreamOrder(wraps))
  {
    if wraps != [] {
      var n := |wraps| - 1;
      OrdersRespect(wraps[..n]);
      assert AllRespect(wraps[n].batch);
    }
  }

  // ----- Against wrappers that do not flatten -----

  /** One wrapper per interceptor, each opaque to the next. */
  function UnaryLayers<C, R>(base: Conn<C, R>, its: seq<Interceptor<C, R>>): Conn<C, R> {
    if its == [] then base
    else
      var ch := UnaryLayers(base, its[1..]);
      Foreign(Some(ch), call => its[0](call, UnaryCc(ch), UnaryEnd(ch)), call => NewStream(ch, call))
  }

  function StreamLayers<C, R>(base: Conn<C, R>, its: seq<Interceptor<C, R>>): Conn<C, R> {
    if its == [] then base
    else
      var ch := StreamLayers(base, its[1..]);
      Foreign(Some(ch), call => Invoke(ch, call), call => its[0](call, StreamCc(ch), StreamEnd(ch)))
  }

  /** An interceptor that passes on the ClientConn it was given. */
  ghost predicate Forwards<C(!new), R(!new)>(it: Interceptor<C, R>) {
    forall c: C, cc: Cc, f: Invoker<C, R>, g: Invoker<C, R> ::
      (forall x :: f(x, cc) == g(x, cc)) ==> it(c, cc, f) == it(c, cc, g)
  }

  lemma {:induction false} LayersUnwrap<C, R>(base: Conn<C, R>, its: seq<Interceptor<C, R>>)
    ensures UnaryCc(UnaryLayers(base, its)) == UnaryCc(base)
  {
    if its != [] {
      LayersUnwrap(base, its[1..]);
    }
  }

  /** If all of them but the last do, the flattened channel cannot be told from one
      wrapper per interceptor. */
  lemma {:induction false} UnaryLayersAgree<C(!new), R(!new)>(base: Conn<C, R>, its: seq<Interceptor<C, R>>, call: C)
    requires forall i :: 0 <= i < |its| - 1 ==> Forwards(its[i])
    requires its != [] ==> Respects(its[|its| - 1])
    ensures Invoke(UnaryLayers(base, its), call) == Compose(its, UnaryEnd(base))(call, UnaryCc(base))
  {
    if its != [] {
      var ch, cc := UnaryLayers(base, its[1..]), UnaryCc(base);
      LayersUnwrap(base, its[1..]);
      var f, g := UnaryEnd(ch), Compose(its[1..], UnaryEnd(base));
      forall x ensures f(x, cc) == g(x, cc) {
        UnaryLayersAgree(base, its[1..], x);
      }
      if |its| > 1 {
        assert Forwards(its[0]);
      } else {
        assert its[1..] == [] && Respects(its[0]) && Agree(f, g);
      }
      assert its[0](call, cc, f) == its[0](call, cc, g);
    }
  }

  /** Over every channel, in front of every other interceptor and for every call,
      flattened and layered wrapping do the same. */
  ghost predicate FlattensUnary<C(!new), R(!new)>(it: Interceptor<C, R>) {
    forall base: Conn<C, R>, next: Interceptor<C, R>, call: C :: Respects(next) ==> FlatAsLayered(base, it, next, call)
  }

  ghost predicate FlatAsLayered<C, R>(base: Conn<C, R>, it: Interceptor<C, R>, next: Interceptor<C, R>, call: C) {
    Invoke(UnaryLayers(base, [it, next]), call) == Compose([it, next], UnaryEnd(base))(call, UnaryCc(base))
  }

  /** An invoker as an interceptor that never goes on. */
  function Answering<C, R>(f: Invoker<C, R>): Interceptor<C, R> {
    (x: C, cc: Cc, next: Invoker<C, R>) => f(x, cc)
  }

  /** f with its ClientConn fixed. */
  function Fixed<C, R>(f: Invoker<C, R>, cc: Cc): Invoker<C, R> {
    (x, _) => f(x, cc)
  }

  function RootFor<C, R>(f: Invoker<C, R>, cc: Cc): Conn<C, R> {
    Root(if cc.Some? then cc.value else 0, cc.Some?, x => f(x, cc), x => f(x, cc))
  }

  /** In front of an answering interceptor, flattening shows f itself and layering
      only what f says at the root's ClientConn. */
  lemma AnsweringPair<C(!new), R(!new)>(it: Interceptor<C, R>, c: C, cc: Cc, f: Invoker<C, R>)
    requires Respects(it)
    ensures FlatAsLayered(RootFor(f, cc), it, Answering(f), c) ==> it(c, cc, f) == it(c, cc, Fixed(f, cc))
    ensures Respects(Answering(f))
  {
    var base := RootFor(f, cc);
    var its := [it, Answering(f)];
    assert UnaryCc(base) == cc;
    assert its[1..] == [Answering(f)] && [Answering(f)][1..] == [];
    var rest := Compose([Answering(f)], UnaryEnd(base));
    assert Agree(rest, f);
    assert Compose(its, UnaryEnd(base))(c, cc) == it(c, cc, rest);
    var ch := UnaryLayers(base, [Answering(f)]);
    assert UnaryLayers(base, [Answering(f)][1..]) == base;
    assert UnaryCc(ch) == cc;
    assert Agree(UnaryEnd(ch), Fixed(f, cc));
    assert Invoke(UnaryLayers(base, its), c) == it(c, cc, UnaryEnd(ch));
  }

  lemma FlattensForwards<C(!new), R(!new)>(it: Interceptor<C, R>, c: C, cc: Cc, f: Invoker<C, R>, g: Invoker<C, R>)
    requires Respects(it) && FlattensUnary(it) && forall x :: f(x, cc) == g(x, cc)
    ensures it(c, cc, f) == it(c, cc, g)
  {
    AnsweringPair(it, c, cc, f);
    AnsweringPair(it, c, cc, g);
    assert Agree(Fixed(f, cc), Fixed(g, cc));
    hide FlatAsLayered;
    assert FlatAsLayered(RootFor(f, cc), it, Answering(f), c);
    assert FlatAsLayered(RootFor(g, cc), it, Answering(g), c);
  }

  /** So flattening makes no difference to an interceptor exactly when it passes on
      the ClientConn it was given. */
  lemma FlattensExactlyWhen<C(!new), R(!new)>(it: Interceptor<C, R>)
    requires Respects(it)
    ensures FlattensUnary(it) <==> Forwards(it)
  {
    if Forwards(it) {
      forall base: Conn<C, R>, next: Interceptor<C, R>, call: C | Respects(next)
        ensures FlatAsLayered(base, it, next, call)
      {
        UnaryLayersAgree(base, [it, next], call);
      }
    }
    if FlattensUnary(it) {
      forall c: C, cc: Cc, f: Invoker<C, R>, g: Invoker<C, R> | forall x :: f(x, cc) == g(x, cc)
        ensures it(c, cc, f) == it(c, cc, g)
      {
        FlattensForwards(it, c, cc, f, g);
      }
    }
  }

  /** Over a base, every list of forwarding interceptors opens streams alike. */
  ghost predicate FlattensStreams<C(!new), R(!new)>(base: Conn<C, R>) {
    forall its: seq<Interceptor<C, R>>, call: C :: AllForward(its) ==>
      NewStream(StreamLayers(base, its), call) == Compose(its, StreamEnd(base))(call, StreamCc(base))
  }

  ghost predicate AllForward<C(!new), R(!new)>(its: seq<Interceptor<C, R>>) {
    forall i :: 0 <= i < |its| ==> Forwards(its[i])
  }

  /** An interceptor that tells whether it was given a ClientConn. */
  function Looking<C, R>(yes: R, no: R): Interceptor<C, R> {
    (c: C, cc: Cc, next: Invoker<C, R>) => if cc.Some? then yes else no
  }

  /** Two of them over a ClientConn: the outer layer is told of none, where a chain
      tells all its interceptors. */
  lemma LookingPair<C(!new), R(!new)>(base: Conn<C, R>, yes: R, no: R, call: C)
    requires StreamCc(base).Some?
    ensures var its := [Looking<C, R>(yes, no), Looking<C, R>(yes, no)];
            && AllForward(its)
            && NewStream(StreamLayers(base, its), call) == no
            && Compose(its, StreamEnd(base))(call, StreamCc(base)) == yes
  {
    var looks: Interceptor<C, R> := Looking(yes, no);
    var its := [looks, looks];
    assert its[1..] == [looks] && [looks][1..] == [];
    var ch := StreamLayers(base, [looks]);
    assert StreamCc(ch) == None;
    assert NewStream(StreamLayers(base, its), call) == looks(call, StreamCc(ch), StreamEnd(ch));
    assert Forwards(looks);
  }

  /** Streams look for a ClientConn only directly below, so there it holds when the
      base is none. */
  lemma {:induction false} StreamLayersAgree<C(!new), R(!new)>(base: Conn<C, R>, its: seq<Interceptor<C, R>>, call: C)
    requires AllForward(its) && StreamCc(base) == None
    ensures NewStream(StreamLayers(base, its), call) == Compose(its, StreamEnd(base))(call, StreamCc(base))
  {
    if its != [] {
      var ch := StreamLayers(base, its[1..]);
      var f, g := StreamEnd(ch), Compose(its[1..], StreamEnd(base));
      forall x ensures f(x, None) == g(x, None) {
        StreamLayersAgree(base, its[1..], x);
      }
      assert StreamCc(ch) == None;
      assert Forwards(its[0]);
      assert its[0](call, None, f) == its[0](call, None, g);
    }
  }

  /** If results can differ at all, flattening makes no difference to streams over a
      base exactly when the base is no ClientConn. */
  lemma FlattensStreamsExactlyWhen<C(!new), R(!new)>(base: Conn<C, R>, call: C, yes: R, no: R)
    requires yes != no
    ensures FlattensStreams(base) <==> StreamCc(base) == None
  {
    if StreamCc(base) == None {
      forall its: seq<Interceptor<C, R>>, c: C | AllForward(its)
        ensures NewStream(StreamLayers(base, its), c) == Compose(its, StreamEnd(base))(c, StreamCc(base))
      {
        StreamLayersAgree(base, its, c);
      }
    } else {
      LookingPair(base, yes, no, call);
    }
  }

  /** Both conditions can fail: an interceptor that passes on no ClientConn hides it
      from the next one in a chain, not from the next layer. */
  lemma UnaryLayersCanDiffer()
    ensures exists it: Interceptor<int, bool> :: Respects(it) && !FlattensUnary(it)
  {
    var hides: Interceptor<int, bool> := (c: int, cc: Cc, f: Invoker<int, bool>) => f(c, None);
    forall c: int, cc: Cc, f: Invoker<int, bool>, g: Invoker<int, bool> | Agree(f, g)
      ensures hides(c, cc, f) == hides(c, cc, g)
    {
      assert f(c, None) == g(c, None);
    }
    assert Respects(hides);
    var f: Invoker<int, bool>, g: Invoker<int, bool> := (c: int, cc: Cc) => cc.Some?, (c: int, cc: Cc) => true;
    assert forall x: int :: f(x, Some(7)) == g(x, Some(7));
    assert hides(0, Some(7), f) != hides(0, Some(7), g);
    assert !Forwards(hides);
    FlattensExactlyWhen(hides);
  }
}
