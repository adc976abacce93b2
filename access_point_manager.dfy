/**
 * The binding engine: the registry of access-point providers, reading an
 * access point through its pipes, and tying and untying a knot between two
 * targets.
 *
 * Providers are external objects.  Here a provider is a record of its two
 * capability predicates and of which optional methods it has; a real
 * provider reads and writes the target's property named by the access point,
 * and the subscriptions that providers keep are one multiset held by the
 * manager.  Callbacks are data: a fresh id plus what the closure captured.
 */
module KnotCore {
  import opened Pipes

  /** An entity that carries access points: an element or a data object. */
  class Target {
    /** The properties a provider reads and writes, by access-point name. */
    var props: map<string, Value>
    /** Set only by a composite tie, which stores the plain side's provider on the target itself. */
    var provider: Option<Resolved>

    constructor (props: map<string, Value>)
      ensures this.props == props && provider == None
    {
      this.props := props;
      provider := None;
    }
  }

  /** An argument a provider's capability check can be called with. */
  datatype Arg =
    | ElementArg(target: Target)
    | NameArg(name: string)
    | DescriptorArg(ap: AccessPoint)
    | UndefinedArg

  /** A registered access-point provider; `monitor` and `stopMonitoring` are optional. */
  class Provider {
    const doesSupport: (Arg, Arg) -> bool
    const doesSupportMonitoring: (Arg, Arg) -> bool
    const hasMonitor: bool
    const hasStopMonitoring: bool

    constructor (doesSupport: (Arg, Arg) -> bool, doesSupportMonitoring: (Arg, Arg) -> bool,
                 hasMonitor: bool, hasStopMonitoring: bool)
      ensures this.doesSupport == doesSupport && this.doesSupportMonitoring == doesSupportMonitoring
      ensures this.hasMonitor == hasMonitor && this.hasStopMonitoring == hasStopMonitoring
    {
      this.doesSupport := doesSupport;
      this.doesSupportMonitoring := doesSupportMonitoring;
      this.hasMonitor := hasMonitor;
      this.hasStopMonitoring := hasStopMonitoring;
    }
  }

  /**
   * What provider resolution yields: a registered provider, or the built-in
   * fallback that supports everything, reads `undefined`, writes nothing and
   * whose monitoring methods do nothing.
   */
  datatype Resolved = Registered(provider: Provider) | Dummy

  /**
   * An access-point descriptor as the option parser builds it.  A simple one
   * has a name and pipes; a composite one has children and an n-to-one pipe.
   * Tying fills in `provider` and `changedCallback`; untying clears the latter.
   */
  class AccessPoint {
    const name: string
    const description: string
    const pipes: seq<string>
    const isComposite: bool
    const childrenAPs: seq<AccessPoint>
    const nToOnePipe: string
    /** Bounds the nesting of composites, so that recursion over children terminates. */
    ghost const height: nat
    var provider: Option<Resolved>
    var changedCallback: Option<Callback>

    /** Children sit strictly lower than their composite, all the way down. */
    ghost predicate WellFormed()
      decreases height
    {
      forall c :: c in childrenAPs ==> c.height < height && c.WellFormed()
    }

    constructor Simple(name: string, description: string, pipes: seq<string>)
      ensures this.name == name && this.description == description && this.pipes == pipes
      ensures !isComposite && childrenAPs == [] && WellFormed()
      ensures provider == None && changedCallback == None
    {
      this.name := name;
      this.description := description;
      this.pipes := pipes;
      isComposite := false;
      childrenAPs := [];
      nToOnePipe := "";
      height := 0;
      provider := None;
      changedCallback := None;
    }

    constructor Composite(description: string, children: seq<AccessPoint>, nToOnePipe: string)
      requires forall c :: c in children ==> c.WellFormed()
      ensures this.description == description && childrenAPs == children && this.nToOnePipe == nToOnePipe
      ensures isComposite && pipes == [] && WellFormed()
      ensures provider == None && changedCallback == None
    {
      name := "";
      this.description := description;
      pipes := [];
      isComposite := true;
      childrenAPs := children;
      this.nToOnePipe := nToOnePipe;
      height := 1 + MaxHeight(children);
      provider := None;
      changedCallback := None;
    }
  }

  ghost function MaxHeight(aps: seq<AccessPoint>): (h: nat)
    ensures forall a :: a in aps ==> a.height <= h
  {
    if aps == [] then 0
    else
      var rest := MaxHeight(aps[1..]);
      assert forall a :: a in aps ==> a == aps[0] || a in aps[1..];
      if aps[0].height > rest then aps[0].height else rest
  }

  /**
   * A change callback.  `Forward` is the closure of `monitor`, copying the
   * source side's piped value into the other side; `Aggregate` is the closure
   * of a composite tie.  `id` tells apart closures created by different calls.
   */
  datatype Callback =
    | Forward(id: nat, src: Target, srcAP: AccessPoint, dst: Target, dstAP: AccessPoint)
    | Aggregate(id: nat, compositeTarget: Target, compositeAP: AccessPoint,
                normalTarget: Target, normalAP: AccessPoint)

  /** A provider's registration of a callback on an access point of a target. */
  datatype Subscription = Subscription(provider: Provider, target: Target, apName: string, callback: Callback)

  /** One binding specification: the two sides of a knot. */
  datatype KnotInfo = KnotInfo(leftAP: AccessPoint, rightAP: AccessPoint)

  // ---------------------------------------------------------------------
  // Provider resolution

  /** The provider for a query: the last registered one that supports it, else `Dummy`. */
  function Resolve(providers: seq<Provider>, target: Arg, apName: Arg): Resolved
    decreases |providers|
  {
    if providers == [] then Dummy
    else if providers[|providers| - 1].doesSupport(target, apName) then Registered(providers[|providers| - 1])
    else Resolve(providers[..|providers| - 1], target, apName)
  }

  /** The registry after registering `p`: appended unless already present. */
  function WithProvider(providers: seq<Provider>, p: Provider): seq<Provider> {
    if p in providers then providers else providers + [p]
  }

  /**
   * Resolution yields the registered provider at the highest index that
   * supports the query, and `Dummy` exactly when none does.
   */
  lemma {:induction false} ResolveIsLastSupporting(providers: seq<Provider>, target: Arg, apName: Arg)
    ensures Resolve(providers, target, apName) == Dummy <==>
      forall i :: 0 <= i < |providers| ==> !providers[i].doesSupport(target, apName)
    ensures forall i ::
      (0 <= i < |providers| && providers[i].doesSupport(target, apName) &&
       forall j :: i < j < |providers| ==> !providers[j].doesSupport(target, apName))
      ==> Resolve(providers, target, apName) == Registered(providers[i])
    decreases |providers|
  {
    if providers != [] {
      var n := |providers| - 1;
      var init := providers[..n];
      ResolveIsLastSupporting(init, target, apName);
      assert forall i :: 0 <= i < n ==> init[i] == providers[i];
    }
  }

  /** A later registration that supports a query overrides every earlier provider. */
  lemma LaterRegistrationWins(providers: seq<Provider>, p: Provider, target: Arg, apName: Arg)
    requires p !in providers && p.doesSupport(target, apName)
    ensures Resolve(WithProvider(providers, p), target, apName) == Registered(p)
  {
    var ps := providers + [p];
    assert ps[|ps| - 1] == p && ps[..|ps| - 1] == providers;
  }

  /** Registering is idempotent, and the registry only grows at its end. */
  lemma RegistrationIdempotent(providers: seq<Provider>, p: Provider)
    ensures WithProvider(WithProvider(providers, p), p) == WithProvider(providers, p)
    ensures providers <= WithProvider(providers, p) && p in WithProvider(providers, p)
  {
  }

  // ---------------------------------------------------------------------
  // What a resolved provider does

  /** `getValue` on a target whose properties are `props`: `undefined` for `Dummy` or a missing property. */
  function ValueIn(r: Resolved, props: map<string, Value>, apName: string): Value {
    match r
    case Dummy => Undefined
    case Registered(_) => if apName in props then props[apName] else Undefined
  }

  /** `getValue` on a target. */
  function GetValue(r: Resolved, t: Target, apName: string): Value
    reads t`props
  {
    ValueIn(r, t.props, apName)
  }

  /** The target's properties after `setValue`: `Dummy` writes nothing. */
  function AfterSet(r: Resolved, props: map<string, Value>, apName: string, v: Value): map<string, Value> {
    if r.Dummy? then props else props[apName := v]
  }

  /** `doesSupportMonitoring`: `Dummy` answers true. */
  predicate SupportsMonitoring(r: Resolved, target: Arg, apName: Arg) {
    match r
    case Dummy => true
    case Registered(p) => p.doesSupportMonitoring(target, apName)
  }

  /** The registration `monitor` makes: none for `Dummy`. */
  function Registration(r: Resolved, t: Target, apName: string, cb: Callback): multiset<Subscription> {
    match r
    case Dummy => multiset{}
    case Registered(p) => multiset{Subscription(p, t, apName, cb)}
  }

  /** What `stopMonitoring` removes: nothing for `Dummy` or for an unset callback. */
  function Deregistration(r: Resolved, t: Target, apName: string, cb: Option<Callback>): multiset<Subscription> {
    match r
    case Dummy => multiset{}
    case Registered(p) => if cb.Some? then multiset{Subscription(p, t, apName, cb.value)} else multiset{}
  }

  /** Calling `monitor` throws when a registered provider lacks that optional method. */
  predicate MonitorThrows(r: Resolved) {
    r.Registered? && !r.provider.hasMonitor
  }

  /** Calling `stopMonitoring` throws when a registered provider lacks that optional method. */
  predicate StopThrows(r: Resolved) {
    r.Registered? && !r.provider.hasStopMonitoring
  }

  /**
   * The raw value of a simple access point passed through its pipes, or the
   * exception raised, for a descriptor whose provider field is `p` on a target
   * whose properties are `props`.
   */
  function ReadIn(p: Option<Resolved>, props: map<string, Value>, ap: AccessPoint, symbols: SymbolTable): Result<Value> {
    if p.None? then Threw(ProviderUndefined(ap.name))
    else ApplyPipes(ValueIn(p.value, props, ap.name), ap.pipes, symbols)
  }

  /** `getValueThroughPipe` in the current state. */
  function ReadThroughPipes(t: Target, ap: AccessPoint, symbols: SymbolTable): Result<Value>
    reads t`props, ap`provider
  {
    ReadIn(ap.provider, t.props, ap, symbols)
  }

  /** `setValue` of a resolved provider. */
  method SetValue(r: Resolved, t: Target, apName: string, v: Value)
    modifies t`props
    ensures t.props == AfterSet(r, old(t.props), apName, v)
    ensures r.Registered? ==> GetValue(r, t, apName) == v
  {
    if r.Registered? {
      t.props := t.props[apName := v];
    }
  }

  // ---------------------------------------------------------------------
  // The steps of a tie and an untie, as functions of the state they start from

  /** One `monitor` call: the callback it installs, the registration it adds, and how it ends. */
  datatype MonitorStep = MonitorStep(callback: Option<Callback>, added: multiset<Subscription>, outcome: Outcome)

  /**
   * `monitor(src, srcAP, dst, dstAP)` with `srcAP`'s provider resolved to `r`:
   * when the provider supports monitoring, a fresh forwarding callback with id
   * `id` is installed on `srcAP` and handed to the provider's `monitor`.
   */
  function MonitorEffect(r: Resolved, src: Target, srcAP: AccessPoint, dst: Target, dstAP: AccessPoint, id: nat): MonitorStep {
    if !SupportsMonitoring(r, ElementArg(src), NameArg(srcAP.name)) then MonitorStep(None, multiset{}, Completed)
    else
      var cb := Forward(id, src, srcAP, dst, dstAP);
      if MonitorThrows(r) then MonitorStep(Some(cb), multiset{}, Failed(MonitorUndefined(srcAP.name)))
      else MonitorStep(Some(cb), Registration(r, src, srcAP.name, cb), Completed)
  }

  /** The callback counter after a step. */
  function NextId(s: MonitorStep, id: nat): nat {
    if s.callback.Some? then id + 1 else id
  }

  /** The `changedCallback` field after a step that found it holding `before`. */
  function Installed(s: MonitorStep, before: Option<Callback>): Option<Callback> {
    if s.callback.Some? then s.callback else before
  }

  /** The providers a composite tie resolves for its children, in declared order. */
  function ResolveAll(providers: seq<Provider>, ct: Target, children: seq<AccessPoint>): (rs: seq<Resolved>)
    ensures |rs| == |children|
    ensures forall i :: 0 <= i < |children| ==> rs[i] == Resolve(providers, ElementArg(ct), NameArg(children[i].name))
  {
    seq(|children|, i requires 0 <= i < |children| => Resolve(providers, ElementArg(ct), NameArg(children[i].name)))
  }

  /** Whether a composite tie asks child `c`'s provider `r` to monitor; the source passes the descriptor, not its name. */
  predicate ChildMonitored(r: Resolved, ct: Target, c: AccessPoint) {
    SupportsMonitoring(r, ElementArg(ct), DescriptorArg(c))
  }

  /** Index of the first child whose `monitor` call throws, or the number of children. */
  function FirstMonitorFailure(rs: seq<Resolved>, ct: Target, children: seq<AccessPoint>): (k: nat)
    requires |rs| == |children|
    ensures k <= |children|
    decreases |children|
  {
    if children == [] || (ChildMonitored(rs[0], ct, children[0]) && MonitorThrows(rs[0])) then 0
    else 1 + FirstMonitorFailure(rs[1..], ct, children[1..])
  }

  /** No child before the index throws, and the child at the index, if any, does. */
  lemma {:induction false} FirstMonitorFailureIsFirst(rs: seq<Resolved>, ct: Target, children: seq<AccessPoint>)
    requires |rs| == |children|
    ensures var k := FirstMonitorFailure(rs, ct, children);
      (forall i :: 0 <= i < k ==> !(ChildMonitored(rs[i], ct, children[i]) && MonitorThrows(rs[i]))) &&
      (k < |children| ==> ChildMonitored(rs[k], ct, children[k]) && MonitorThrows(rs[k]))
    decreases |children|
  {
    if children != [] && !(ChildMonitored(rs[0], ct, children[0]) && MonitorThrows(rs[0])) {
      FirstMonitorFailureIsFirst(rs[1..], ct, children[1..]);
      assert forall i :: 1 <= i < |children| ==> rs[1..][i - 1] == rs[i] && children[1..][i - 1] == children[i];
    }
  }

  /** A child past the scanned prefix whose `monitor` does not throw extends the prefix. */
  lemma FirstMonitorFailureStep(rs: seq<Resolved>, ct: Target, children: seq<AccessPoint>, i: nat)
    requires |rs| == |children| && i < |children| && i <= FirstMonitorFailure(rs, ct, children)
    ensures ChildMonitored(rs[i], ct, children[i]) && MonitorThrows(rs[i]) ==> FirstMonitorFailure(rs, ct, children) == i
    ensures !(ChildMonitored(rs[i], ct, children[i]) && MonitorThrows(rs[i])) ==> i + 1 <= FirstMonitorFailure(rs, ct, children)
  {
    FirstMonitorFailureIsFirst(rs, ct, children);
  }

  /** The registrations of the shared callback `cb` that a composite tie makes, child by child. */
  function ChildRegistrations(rs: seq<Resolved>, ct: Target, children: seq<AccessPoint>, cb: Callback): multiset<Subscription>
    requires |rs| == |children|
    decreases |children|
  {
    if children == [] then multiset{}
    else
      var n := |children| - 1;
      ChildRegistrations(rs[..n], ct, children[..n], cb) + ChildRegistration(rs[n], ct, children[n], cb)
  }

  /** The registrations of one more child are those of the shorter prefix plus that child's. */
  lemma ChildRegistrationsSnoc(rs: seq<Resolved>, ct: Target, children: seq<AccessPoint>, cb: Callback, i: nat)
    requires |rs| == |children| && i < |children|
    ensures ChildRegistrations(rs[..i + 1], ct, children[..i + 1], cb) ==
      ChildRegistrations(rs[..i], ct, children[..i], cb) + ChildRegistration(rs[i], ct, children[i], cb)
  {
    assert rs[..i + 1][..i] == rs[..i] && children[..i + 1][..i] == children[..i];
  }

  /** The registration a composite tie makes for one child. */
  function ChildRegistration(r: Resolved, ct: Target, c: AccessPoint, cb: Callback): multiset<Subscription> {
    if ChildMonitored(r, ct, c) then Registration(r, ct, c.name, cb) else multiset{}
  }

  /** The provider fields of the children, as a composite untie finds them. */
  function ProvidersOf(children: seq<AccessPoint>): (ps: seq<Option<Resolved>>)
    reads children`provider
    ensures |ps| == |children| && forall i :: 0 <= i < |children| ==> ps[i] == children[i].provider
    decreases |children|
  {
    if children == [] then [] else [children[0].provider] + ProvidersOf(children[1..])
  }

  /** Whether untying child `c` throws: its provider is unset, or monitors it but has no `stopMonitoring`. */
  predicate ChildStopThrows(p: Option<Resolved>, ct: Target, c: AccessPoint) {
    p.None? || (ChildMonitored(p.value, ct, c) && StopThrows(p.value))
  }

  /** Index of the first child whose untie step throws, or the number of children. */
  function FirstStopFailure(ps: seq<Option<Resolved>>, ct: Target, children: seq<AccessPoint>): (k: nat)
    requires |ps| == |children|
    ensures k <= |children|
    decreases |children|
  {
    if children == [] || ChildStopThrows(ps[0], ct, children[0]) then 0
    else 1 + FirstStopFailure(ps[1..], ct, children[1..])
  }

  /** No child before the index throws when untied, and the child at the index, if any, does. */
  lemma {:induction false} FirstStopFailureIsFirst(ps: seq<Option<Resolved>>, ct: Target, children: seq<AccessPoint>)
    requires |ps| == |children|
    ensures var k := FirstStopFailure(ps, ct, children);
      (forall i :: 0 <= i < k ==> !ChildStopThrows(ps[i], ct, children[i])) &&
      (k < |children| ==> ChildStopThrows(ps[k], ct, children[k]))
    decreases |children|
  {
    if children != [] && !ChildStopThrows(ps[0], ct, children[0]) {
      FirstStopFailureIsFirst(ps[1..], ct, children[1..]);
      assert forall i :: 1 <= i < |children| ==> ps[1..][i - 1] == ps[i] && children[1..][i - 1] == children[i];
    }
  }

  /** A child past the scanned prefix that does not throw extends the prefix. */
  lemma FirstStopFailureStep(ps: seq<Option<Resolved>>, ct: Target, children: seq<AccessPoint>, i: nat)
    requires |ps| == |children| && i < |children| && i <= FirstStopFailure(ps, ct, children)
    ensures ChildStopThrows(ps[i], ct, children[i]) ==> FirstStopFailure(ps, ct, children) == i
    ensures !ChildStopThrows(ps[i], ct, children[i]) ==> i + 1 <= FirstStopFailure(ps, ct, children)
  {
    FirstStopFailureIsFirst(ps, ct, children);
  }

  /** The exception raised by the untie step of a child for which `ChildStopThrows` holds. */
  function ChildStopFault(p: Option<Resolved>, c: AccessPoint): Fault {
    if p.None? then ProviderUndefined(c.name) else StopMonitoringUndefined(c.name)
  }

  /** What a composite untie removes, child by child, for the callback `cb` it finds on the composite. */
  function ChildDeregistrations(ps: seq<Option<Resolved>>, ct: Target, children: seq<AccessPoint>, cb: Option<Callback>): multiset<Subscription>
    requires |ps| == |children|
    decreases |children|
  {
    if children == [] then multiset{}
    else
      var n := |children| - 1;
      ChildDeregistrations(ps[..n], ct, children[..n], cb) + ChildDeregistration(ps[n], ct, children[n], cb)
  }

  /** What an untie removes for one more child is that of the shorter prefix plus that child's. */
  lemma ChildDeregistrationsSnoc(ps: seq<Option<Resolved>>, ct: Target, children: seq<AccessPoint>, cb: Option<Callback>, i: nat)
    requires |ps| == |children| && i < |children|
    ensures ChildDeregistrations(ps[..i + 1], ct, children[..i + 1], cb) ==
      ChildDeregistrations(ps[..i], ct, children[..i], cb) + ChildDeregistration(ps[i], ct, children[i], cb)
  {
    assert ps[..i + 1][..i] == ps[..i] && children[..i + 1][..i] == children[..i];
  }

  /** What a composite untie removes for one child. */
  function ChildDeregistration(p: Option<Resolved>, ct: Target, c: AccessPoint, cb: Option<Callback>): multiset<Subscription> {
    if p.Some? && ChildMonitored(p.value, ct, c) then Deregistration(p.value, ct, c.name, cb) else multiset{}
  }

  /** A result with `prefix` put in front of its values. */
  function Prepend(prefix: seq<Value>, r: Result<seq<Value>>): Result<seq<Value>> {
    match r
    case Threw(f) => Threw(f)
    case Ok(vs) => Ok(prefix + vs)
  }

  /** Putting nothing in front changes nothing. */
  lemma PrependNothing(r: Result<seq<Value>>)
    ensures Prepend([], r) == r
  {
    if r.Ok? {
      assert [] + r.value == r.value;
    }
  }

  /** Putting `b` and then `a` in front is putting `a + b` in front. */
  lemma PrependTwice(a: seq<Value>, b: seq<Value>, r: Result<seq<Value>>)
    ensures Prepend(a, Prepend(b, r)) == Prepend(a + b, r)
  {
    if r.Ok? {
      assert a + (b + r.value) == (a + b) + r.value;
    }
  }

  /**
   * The values of the children read through their pipes, in declared order,
   * or the first exception raised; `ps` are the children's provider fields and
   * `props` the composite target's properties.
   */
  function ChildValues(ps: seq<Option<Resolved>>, props: map<string, Value>, children: seq<AccessPoint>,
                       symbols: SymbolTable): Result<seq<Value>>
    requires |ps| == |children|
    decreases |children|
  {
    if children == [] then Ok([])
    else
      match ReadIn(ps[0], props, children[0], symbols)
      case Threw(f) => Threw(f)
      case Ok(v) => Prepend([v], ChildValues(ps[1..], props, children[1..], symbols))
  }

  /** The value the aggregate callback writes: the n-to-one pipe applied once to the whole array. */
  function AggregateValue(ps: seq<Option<Resolved>>, props: map<string, Value>, cap: AccessPoint,
                          symbols: SymbolTable): Result<Value>
    requires |ps| == |cap.childrenAPs|
  {
    match ChildValues(ps, props, cap.childrenAPs, symbols)
    case Threw(f) => Threw(f)
    case Ok(vs) =>
      if cap.nToOnePipe !in symbols then Threw(PipeNotFunction(cap.nToOnePipe))
      else Ok(symbols[cap.nToOnePipe](Array(vs)))
  }

  /**
   * The children's values are collected in declared order, one per child:
   * reading succeeds exactly when every child's read does, and each element
   * is that child's piped value.
   */
  lemma {:induction false} ChildValuesInOrder(ps: seq<Option<Resolved>>, props: map<string, Value>,
                                              children: seq<AccessPoint>, symbols: SymbolTable)
    requires |ps| == |children|
    ensures ChildValues(ps, props, children, symbols).Ok? <==>
      forall i :: 0 <= i < |children| ==> ReadIn(ps[i], props, children[i], symbols).Ok?
    ensures ChildValues(ps, props, children, symbols).Ok? ==>
      var vs := ChildValues(ps, props, children, symbols).value;
      |vs| == |children| &&
      forall i :: 0 <= i < |children| ==> vs[i] == ReadIn(ps[i], props, children[i], symbols).value
    decreases |children|
  {
    if children != [] {
      ChildValuesInOrder(ps[1..], props, children[1..], symbols);
      assert forall i :: 1 <= i < |children| ==> ps[1..][i - 1] == ps[i] && children[1..][i - 1] == children[i];
    }
  }

  /**
   * Removing what `B` names from `S + A` gives back `S` when every callback
   * in `A` and `B` is newer than every callback in `S` and `B` covers `A`.
   */
  lemma CancelFresh(S: multiset<Subscription>, A: multiset<Subscription>, B: multiset<Subscription>, c0: nat)
    requires forall s :: s in S ==> s.callback.id < c0
    requires forall a :: a in A ==> a.callback.id >= c0
    requires forall b :: b in B ==> b.callback.id >= c0
    requires A <= B
    ensures (S + A) - B == S
  {
    forall x ensures ((S + A) - B)[x] == S[x] {
      if x.callback.id < c0 {
        assert x !in A && x !in B;
      } else {
        assert x !in S;
      }
    }
  }


  /** The children's provider fields once a composite tie has assigned them. */
  function Assigned(rs: seq<Resolved>): (ps: seq<Option<Resolved>>)
    ensures |ps| == |rs| && forall i :: 0 <= i < |rs| ==> ps[i] == Some(rs[i])
  {
    seq(|rs|, i requires 0 <= i < |rs| => Some(rs[i]))
  }

  /** Every registration a composite tie makes holds its one shared callback. */
  lemma {:induction false} ChildRegistrationsHold(rs: seq<Resolved>, ct: Target, children: seq<AccessPoint>, cb: Callback)
    requires |rs| == |children|
    ensures forall s :: s in ChildRegistrations(rs, ct, children, cb) ==> s.callback == cb
    decreases |children|
  {
    if children != [] {
      var n := |children| - 1;
      ChildRegistrationsHold(rs[..n], ct, children[..n], cb);
    }
  }

  /** The registrations of a prefix of the children are among those of all the children. */
  lemma {:induction false} ChildRegistrationsPrefix(rs: seq<Resolved>, ct: Target, children: seq<AccessPoint>, cb: Callback, k: nat)
    requires |rs| == |children| && k <= |children|
    ensures ChildRegistrations(rs[..k], ct, children[..k], cb) <= ChildRegistrations(rs, ct, children, cb)
    decreases |children| - k
  {
    if k < |children| {
      ChildRegistrationsSnoc(rs, ct, children, cb, k);
      ChildRegistrationsPrefix(rs, ct, children, cb, k + 1);
      WithinSum(ChildRegistrations(rs[..k], ct, children[..k], cb), ChildRegistration(rs[k], ct, children[k], cb));
      WithinTrans(ChildRegistrations(rs[..k], ct, children[..k], cb), ChildRegistrations(rs[..k + 1], ct, children[..k + 1], cb),
                  ChildRegistrations(rs, ct, children, cb));
    } else {
      assert rs[..k] == rs && children[..k] == children;
    }
  }

  /**
   * Stopping, with the same callback, the providers a tie assigned removes
   * exactly what that tie registered on all the children.
   */
  lemma {:induction false} DeregistrationsMatch(rs: seq<Resolved>, ct: Target, children: seq<AccessPoint>, cb: Callback)
    requires |rs| == |children|
    ensures ChildDeregistrations(Assigned(rs), ct, children, Some(cb)) == ChildRegistrations(rs, ct, children, cb)
    decreases |children|
  {
    if children != [] {
      var n := |children| - 1;
      assert Assigned(rs)[..n] == Assigned(rs[..n]);
      DeregistrationsMatch(rs[..n], ct, children[..n], cb);
    }
  }

  /** Adding to a multiset only makes it larger. */
  lemma WithinSum(A: multiset<Subscription>, C: multiset<Subscription>)
    ensures A <= A + C
  {
    forall x ensures A[x] <= (A + C)[x] {
    }
  }

  /** Lying within is transitive. */
  lemma WithinTrans(A: multiset<Subscription>, B: multiset<Subscription>, C: multiset<Subscription>)
    requires A <= B && B <= C
    ensures A <= C
  {
    forall x ensures A[x] <= C[x] {
      assert A[x] <= B[x] <= C[x];
    }
  }

  /** Adding `A` and then `B` is adding `A + B`. */
  lemma AddTwice(S: multiset<Subscription>, A: multiset<Subscription>, B: multiset<Subscription>)
    ensures (S + A) + B == S + (A + B)
  {
  }

  /** Removing `A` and then `B` is removing `A + B`. */
  lemma RemoveTwice(S: multiset<Subscription>, A: multiset<Subscription>, B: multiset<Subscription>)
    ensures (S - A) - B == S - (A + B)
  {
    forall x ensures ((S - A) - B)[x] == (S - (A + B))[x] {
    }
  }

  /** What a simple tie does, computed from the state it starts in. */
  datatype SimpleTieEffect = SimpleTieEffect(
    leftProps: map<string, Value>,
    added: multiset<Subscription>,
    nextId: nat,
    leftCallback: Option<Callback>,
    rightCallback: Option<Callback>,
    outcome: Outcome)

  /**
   * A simple tie with the left side resolved to `rL` and the right side to
   * `rR`: the right side's piped value is written to the left side, then the
   * left side and then the right side are monitored.  An exception stops the
   * sequence where it is raised.
   */
  function SimpleTie(rL: Resolved, rR: Resolved, lt: Target, lap: AccessPoint, rt: Target, rap: AccessPoint,
                     ltProps: map<string, Value>, rtProps: map<string, Value>, symbols: SymbolTable,
                     c0: nat, cbL: Option<Callback>, cbR: Option<Callback>): SimpleTieEffect
  {
    match ReadIn(Some(rR), rtProps, rap, symbols)
    case Threw(f) => SimpleTieEffect(ltProps, multiset{}, c0, cbL, cbR, Failed(f))
    case Ok(v) =>
      var props := AfterSet(rL, ltProps, lap.name, v);
      var s1 := MonitorEffect(rL, lt, lap, rt, rap, c0);
      var c1 := NextId(s1, c0);
      if s1.outcome.Failed? then SimpleTieEffect(props, s1.added, c1, Installed(s1, cbL), cbR, s1.outcome)
      else
        var s2 := MonitorEffect(rR, rt, rap, lt, lap, c1);
        SimpleTieEffect(props, s1.added + s2.added, NextId(s2, c1), Installed(s1, cbL), Installed(s2, cbR), s2.outcome)
  }

  /**
   * After a simple tie whose initial read succeeds, a left side with a
   * registered provider holds the RIGHT side's piped value; the initial read
   * failing is the only way the left side stays as it was without completing
   * a monitor step.
   */
  lemma SimpleTieCopiesRight(rL: Resolved, rR: Resolved, lt: Target, lap: AccessPoint, rt: Target, rap: AccessPoint,
                             ltProps: map<string, Value>, rtProps: map<string, Value>, symbols: SymbolTable,
                             c0: nat, cbL: Option<Callback>, cbR: Option<Callback>)
    ensures var e := SimpleTie(rL, rR, lt, lap, rt, rap, ltProps, rtProps, symbols, c0, cbL, cbR);
      var init := ReadIn(Some(rR), rtProps, rap, symbols);
      (init.Threw? ==> e.outcome == Failed(init.fault) && e.leftProps == ltProps && e.added == multiset{}) &&
      (init.Ok? && rL.Registered? ==> ValueIn(rL, e.leftProps, lap.name) == init.value) &&
      (init.Ok? && rL.Dummy? ==> e.leftProps == ltProps)
  {
  }

  /**
   * A side gets a callback exactly when its provider supports monitoring, and
   * every callback a simple tie registers is fresh: its id lies between the
   * counter before and after the tie.
   */
  lemma SimpleTieFresh(rL: Resolved, rR: Resolved, lt: Target, lap: AccessPoint, rt: Target, rap: AccessPoint,
                       ltProps: map<string, Value>, rtProps: map<string, Value>, symbols: SymbolTable,
                       c0: nat, cbL: Option<Callback>, cbR: Option<Callback>)
    ensures var e := SimpleTie(rL, rR, lt, lap, rt, rap, ltProps, rtProps, symbols, c0, cbL, cbR);
      c0 <= e.nextId &&
      (forall s :: s in e.added ==> c0 <= s.callback.id < e.nextId) &&
      (ReadIn(Some(rR), rtProps, rap, symbols).Ok? ==>
        e.leftCallback == if SupportsMonitoring(rL, ElementArg(lt), NameArg(lap.name))
                          then Some(Forward(c0, lt, lap, rt, rap)) else cbL)
  {
    var e := SimpleTie(rL, rR, lt, lap, rt, rap, ltProps, rtProps, symbols, c0, cbL, cbR);
    if ReadIn(Some(rR), rtProps, rap, symbols).Ok? {
      var s1 := MonitorEffect(rL, lt, lap, rt, rap, c0);
      var c1 := NextId(s1, c0);
      MonitorFresh(rL, lt, lap, rt, rap, c0);
      if s1.outcome.Completed? {
        var s2 := MonitorEffect(rR, rt, rap, lt, lap, c1);
        MonitorFresh(rR, rt, rap, lt, lap, c1);
        assert e.added == s1.added + s2.added && e.nextId == NextId(s2, c1);
      }
    }
  }

  /**
   * A monitor step installs a callback exactly when the provider supports
   * monitoring, and everything it registers carries the id it was given.
   */
  lemma MonitorFresh(r: Resolved, src: Target, srcAP: AccessPoint, dst: Target, dstAP: AccessPoint, id: nat)
    ensures var s := MonitorEffect(r, src, srcAP, dst, dstAP, id);
      (forall x :: x in s.added ==> x.callback.id == id) &&
      (s.added != multiset{} ==> s.callback.Some?) &&
      Installed(s, None) == (if SupportsMonitoring(r, ElementArg(src), NameArg(srcAP.name))
                             then Some(Forward(id, src, srcAP, dst, dstAP)) else None)
  {
  }

  /**
   * Stopping a monitor step's provider with the callback the step installed
   * on a descriptor that had none removes at least what the step registered,
   * and only registrations of that callback.
   */
  lemma MonitorUndone(r: Resolved, src: Target, srcAP: AccessPoint, dst: Target, dstAP: AccessPoint, id: nat)
    ensures var s := MonitorEffect(r, src, srcAP, dst, dstAP, id);
      var d := Deregistration(r, src, srcAP.name, Installed(s, None));
      s.added <= d && forall x :: x in d ==> x.callback.id == id
  {
  }

  /** What a simple untie removes and leaves, and how it ends. */
  datatype SimpleUntieEffect = SimpleUntieEffect(
    removed: multiset<Subscription>,
    leftCallback: Option<Callback>,
    rightCallback: Option<Callback>,
    outcome: Outcome)

  /**
   * A simple untie with the sides re-resolved to `rL` and `rR`: stop
   * monitoring the left side and delete its callback, then the same for the
   * right side.  An exception stops the sequence where it is raised.
   */
  function SimpleUntie(rL: Resolved, rR: Resolved, lt: Target, lap: AccessPoint, rt: Target, rap: AccessPoint,
                       cbL: Option<Callback>, cbR: Option<Callback>): SimpleUntieEffect
  {
    if StopThrows(rL) then SimpleUntieEffect(multiset{}, cbL, cbR, Failed(StopMonitoringUndefined(lap.name)))
    else
      var d1 := Deregistration(rL, lt, lap.name, cbL);
      if StopThrows(rR) then SimpleUntieEffect(d1, None, cbR, Failed(StopMonitoringUndefined(rap.name)))
      else SimpleUntieEffect(d1 + Deregistration(rR, rt, rap.name, cbR), None, None, Completed)
  }

  /**
   * Tying two fresh simple sides and untying them again, with the registry
   * unchanged in between, leaves the subscriptions as they were and both
   * callback fields deleted, whether or not the tie completed, as long as the
   * untie completes.
   */
  lemma SimpleRoundTrip(S: multiset<Subscription>, rL: Resolved, rR: Resolved, lt: Target, lap: AccessPoint,
                        rt: Target, rap: AccessPoint, ltProps: map<string, Value>, rtProps: map<string, Value>,
                        symbols: SymbolTable, c0: nat)
    requires forall s :: s in S ==> s.callback.id < c0
    ensures var e := SimpleTie(rL, rR, lt, lap, rt, rap, ltProps, rtProps, symbols, c0, None, None);
      var u := SimpleUntie(rL, rR, lt, lap, rt, rap, e.leftCallback, e.rightCallback);
      u.outcome.Completed? ==>
        (S + e.added) - u.removed == S && u.leftCallback.None? && u.rightCallback.None?
  {
    var e := SimpleTie(rL, rR, lt, lap, rt, rap, ltProps, rtProps, symbols, c0, None, None);
    var u := SimpleUntie(rL, rR, lt, lap, rt, rap, e.leftCallback, e.rightCallback);
    SimpleUntieShape(rL, rR, lt, lap, rt, rap, e.leftCallback, e.rightCallback);
    if u.outcome.Completed? && ReadIn(Some(rR), rtProps, rap, symbols).Ok? {
      SimpleTieShape(rL, rR, lt, lap, rt, rap, ltProps, rtProps, symbols, c0);
      var s1 := MonitorEffect(rL, lt, lap, rt, rap, c0);
      var c1 := NextId(s1, c0);
      MonitorUndone(rL, lt, lap, rt, rap, c0);
      MonitorUndone(rR, rt, rap, lt, lap, c1);
      CancelFresh(S, e.added, u.removed, c0);
    }
  }

  /**
   * The steps of a simple tie from fresh sides whose initial read succeeds:
   * the left monitor step, then the right one unless the left one threw.
   */
  lemma SimpleTieShape(rL: Resolved, rR: Resolved, lt: Target, lap: AccessPoint, rt: Target, rap: AccessPoint,
                       ltProps: map<string, Value>, rtProps: map<string, Value>, symbols: SymbolTable, c0: nat)
    requires ReadIn(Some(rR), rtProps, rap, symbols).Ok?
    ensures var e := SimpleTie(rL, rR, lt, lap, rt, rap, ltProps, rtProps, symbols, c0, None, None);
      var s1 := MonitorEffect(rL, lt, lap, rt, rap, c0);
      var s2 := MonitorEffect(rR, rt, rap, lt, lap, NextId(s1, c0));
      e.leftCallback == Installed(s1, None) &&
      (s1.outcome.Failed? ==> e.rightCallback == None && e.added == s1.added) &&
      (s1.outcome.Completed? ==> e.rightCallback == Installed(s2, None) && e.added == s1.added + s2.added)
  {
  }

  /** A simple untie that completes stops both sides and deletes both callbacks. */
  lemma SimpleUntieShape(rL: Resolved, rR: Resolved, lt: Target, lap: AccessPoint, rt: Target, rap: AccessPoint,
                         cbL: Option<Callback>, cbR: Option<Callback>)
    ensures var u := SimpleUntie(rL, rR, lt, lap, rt, rap, cbL, cbR);
      u.outcome.Completed? ==>
        u.leftCallback.None? && u.rightCallback.None? &&
        u.removed == Deregistration(rL, lt, lap.name, cbL) + Deregistration(rR, rt, rap.name, cbR)
  {
  }

  /**
   * Untying a composite whose children a tie assigned to `rs`, with that
   * tie's callback, removes what the tie registered: the subscriptions are
   * restored whenever the untie completes, whichever child the tie stopped at.
   */
  lemma CompositeRoundTrip(S: multiset<Subscription>, rs: seq<Resolved>, ct: Target, children: seq<AccessPoint>,
                           cb: Callback, c0: nat, k: nat)
    requires |rs| == |children| && k <= |children|
    requires forall s :: s in S ==> s.callback.id < c0
    requires cb.id == c0
    requires FirstStopFailure(Assigned(rs), ct, children) == |children|
    ensures (S + ChildRegistrations(rs[..k], ct, children[..k], cb))
              - ChildDeregistrations(Assigned(rs), ct, children, Some(cb)) == S
  {
    ChildRegistrationsPrefix(rs, ct, children, cb, k);
    DeregistrationsMatch(rs, ct, children, cb);
    ChildRegistrationsHold(rs, ct, children, cb);
    ChildRegistrationsHold(rs[..k], ct, children[..k], cb);
    CancelFresh(S, ChildRegistrations(rs[..k], ct, children[..k], cb),
                ChildRegistrations(rs, ct, children, cb), c0);
  }

  /** The target a callback writes to. */
  function Destination(cb: Callback): Target {
    match cb
    case Forward(_, _, _, dst, _) => dst
    case Aggregate(_, _, _, nt, _) => nt
  }

  /**
   * What the forwarding closure of `monitor` writes, and with which provider,
   * or the exception it raises: it looks up the destination's provider
   * before it reads the source through its pipes.
   */
  function ForwardDelivery(src: Target, srcAP: AccessPoint, dstAP: AccessPoint, symbols: SymbolTable): Result<(Resolved, Value)>
    reads src`props, srcAP`provider, dstAP`provider
  {
    if dstAP.provider.None? then Threw(ProviderUndefined(dstAP.name))
    else
      match ReadIn(srcAP.provider, src.props, srcAP, symbols)
      case Threw(f) => Threw(f)
      case Ok(v) => Ok((dstAP.provider.value, v))
  }

  /**
   * What the aggregate closure of a composite tie writes, and with which
   * provider, or the exception it raises: it reads every child and applies
   * the n-to-one pipe before it looks up the provider the tie stored on the
   * plain side's target.
   */
  function AggregateDelivery(ct: Target, cap: AccessPoint, nt: Target, nap: AccessPoint, symbols: SymbolTable): Result<(Resolved, Value)>
    reads ct`props, cap.childrenAPs`provider, nt`provider
  {
    match AggregateValue(ProvidersOf(cap.childrenAPs), ct.props, cap, symbols)
    case Threw(f) => Threw(f)
    case Ok(v) =>
      if nt.provider.None? then Threw(ProviderUndefined(nap.name))
      else Ok((nt.provider.value, v))
  }

  /**
   * Once every child holds its resolved provider and the plain side's target
   * holds `rN`, the aggregate closure delivers the n-to-one value to `rN`.
   */
  lemma AggregateDeliveryAssigned(ct: Target, cap: AccessPoint, nt: Target, nap: AccessPoint, symbols: SymbolTable,
                                  rs: seq<Resolved>, rN: Resolved)
    requires ProvidersOf(cap.childrenAPs) == Assigned(rs) && nt.provider == Some(rN)
    ensures AggregateDelivery(ct, cap, nt, nap, symbols) ==
      match AggregateValue(Assigned(rs), ct.props, cap, symbols)
      case Threw(f) => Threw(f)
      case Ok(v) => Ok((rN, v))
  {
  }

  /** A destination's properties and a callback's outcome after delivering `d` to the access point `apName`. */
  predicate Delivered(d: Result<(Resolved, Value)>, before: map<string, Value>, after: map<string, Value>,
                      apName: string, o: Outcome)
  {
    match d
    case Threw(f) => o == Failed(f) && after == before
    case Ok(rv) => o == Completed && after == AfterSet(rv.0, before, apName, rv.1)
  }

  class AccessPointManager {
    /** The registered providers, in registration order. */
    var providers: seq<Provider>
    /** The callbacks providers hold, with the access point each watches. */
    var subscriptions: multiset<Subscription>
    /** The id the next callback closure gets. */
    var callbackCount: nat

    /** Every held callback was created before the counter's current value. */
    ghost predicate Valid()
      reads this
    {
      forall s :: s in subscriptions ==> s.callback.id < callbackCount
    }

    constructor ()
      ensures providers == [] && subscriptions == multiset{} && callbackCount == 0 && Valid()
    {
      providers := [];
      subscriptions := multiset{};
      callbackCount := 0;
    }

    /** `getProvider`: scans the registry from its end. */
    method GetProvider(target: Arg, apName: Arg) returns (r: Resolved)
      ensures r == Resolve(providers, target, apName)
    {
      var i := |providers| - 1;
      assert providers[..i + 1] == providers;
      while i >= 0
        invariant -1 <= i < |providers|
        invariant Resolve(providers, target, apName) == Resolve(providers[..i + 1], target, apName)
      {
        if providers[i].doesSupport(target, apName) {
          assert providers[..i + 1][i] == providers[i];
          return Registered(providers[i]);
        }
        assert providers[..i + 1][..i] == providers[..i];
        i := i - 1;
      }
      return Dummy;
    }

    /** `registerAPProvider`: appends a provider that is not registered yet. */
    method RegisterAPProvider(p: Provider)
      modifies this`providers
      ensures providers == WithProvider(old(providers), p)
    {
      if p !in providers {
        providers := providers + [p];
      }
    }

    /** `getValueThroughPipe`: reads the raw value, then applies the pipes from left to right. */
    method GetValueThroughPipe(target: Target, ap: AccessPoint, symbols: SymbolTable) returns (r: Result<Value>)
      ensures r == ReadThroughPipes(target, ap, symbols)
      ensures ap.provider.Some? && AllDefined(ap.pipes, symbols) ==>
        r == Ok(FoldPipes(GetValue(ap.provider.value, target, ap.name), ap.pipes, symbols))
    {
      if ap.provider.None? {
        return Threw(ProviderUndefined(ap.name));
      }
      var value := GetValue(ap.provider.value, target, ap.name);
      ghost var raw := value;
      var i := 0;
      while i < |ap.pipes|
        invariant 0 <= i <= |ap.pipes|
        invariant ApplyPipes(raw, ap.pipes, symbols) == ApplyPipes(value, ap.pipes[i..], symbols)
      {
        var name := ap.pipes[i];
        if name !in symbols {
          return Threw(PipeNotFunction(name));
        }
        value := symbols[name](value);
        i := i + 1;
      }
      r := Ok(value);
      if AllDefined(ap.pipes, symbols) {
        ApplyPipesIsFold(raw, ap.pipes, symbols);
      }
    }

    /** A resolved provider's `monitor`. */
    method ProviderMonitor(r: Resolved, t: Target, apName: string, cb: Callback) returns (o: Outcome)
      modifies this`subscriptions
      ensures o == if MonitorThrows(r) then Failed(MonitorUndefined(apName)) else Completed
      ensures subscriptions == old(subscriptions) + (if MonitorThrows(r) then multiset{} else Registration(r, t, apName, cb))
    {
      match r
      case Dummy =>
        o := Completed;
      case Registered(p) =>
        if !p.hasMonitor {
          return Failed(MonitorUndefined(apName));
        }
        subscriptions := subscriptions + multiset{Subscription(p, t, apName, cb)};
        o := Completed;
    }

    /** A resolved provider's `stopMonitoring`, given the descriptor's callback field. */
    method ProviderStopMonitoring(r: Resolved, t: Target, apName: string, cb: Option<Callback>) returns (o: Outcome)
      modifies this`subscriptions
      ensures o == if StopThrows(r) then Failed(StopMonitoringUndefined(apName)) else Completed
      ensures subscriptions == old(subscriptions) - (if StopThrows(r) then multiset{} else Deregistration(r, t, apName, cb))
    {
      match r
      case Dummy =>
        o := Completed;
      case Registered(p) =>
        if !p.hasStopMonitoring {
          return Failed(StopMonitoringUndefined(apName));
        }
        if cb.Some? {
          subscriptions := subscriptions - multiset{Subscription(p, t, apName, cb.value)};
        }
        o := Completed;
    }

    /**
     * `monitor(src, srcAP, target, targetAP)`: when `srcAP`'s provider supports
     * monitoring, installs a fresh callback that copies `srcAP`'s piped value
     * into `targetAP`, and subscribes it.
     */
    method Monitor(src: Target, srcAP: AccessPoint, target: Target, targetAP: AccessPoint) returns (o: Outcome)
      modifies srcAP`changedCallback, this`subscriptions, this`callbackCount
      ensures srcAP.provider.None? ==>
        o == Failed(ProviderUndefined(srcAP.name)) && subscriptions == old(subscriptions) &&
        callbackCount == old(callbackCount) && srcAP.changedCallback == old(srcAP.changedCallback)
      ensures srcAP.provider.Some? ==>
        var step := MonitorEffect(srcAP.provider.value, src, srcAP, target, targetAP, old(callbackCount));
        o == step.outcome && subscriptions == old(subscriptions) + step.added &&
        callbackCount == NextId(step, old(callbackCount)) &&
        srcAP.changedCallback == Installed(step, old(srcAP.changedCallback))
    {
      if srcAP.provider.None? {
        return Failed(ProviderUndefined(srcAP.name));
      }
      var r := srcAP.provider.value;
      o := Completed;
      if SupportsMonitoring(r, ElementArg(src), NameArg(srcAP.name)) {
        var cb := Forward(callbackCount, src, srcAP, target, targetAP);
        callbackCount := callbackCount + 1;
        srcAP.changedCallback := Some(cb);
        o := ProviderMonitor(r, src, srcAP.name, cb);
      }
    }

    /** `stopMonitoring(target, ap)`: resolves the provider afresh and hands it `ap`'s callback field. */
    method StopMonitoring(target: Target, ap: AccessPoint) returns (o: Outcome)
      modifies this`subscriptions
      ensures var r := Resolve(providers, ElementArg(target), NameArg(ap.name));
        o == (if StopThrows(r) then Failed(StopMonitoringUndefined(ap.name)) else Completed) &&
        subscriptions == old(subscriptions) - (if StopThrows(r) then multiset{} else Deregistration(r, target, ap.name, ap.changedCallback))
    {
      var r := GetProvider(ElementArg(target), NameArg(ap.name));
      o := ProviderStopMonitoring(r, target, ap.name, ap.changedCallback);
    }
  
    /** The state a simple tie leaves, compared with the state it started in. */
    twostate predicate TiedSimply(lt: Target, lap: AccessPoint, rt: Target, rap: AccessPoint,
                                  symbols: SymbolTable, o: Outcome)
      reads this, lt`props, lap`provider, lap`changedCallback, rap`provider, rap`changedCallback
    {
      var rL := Resolve(providers, ElementArg(lt), NameArg(lap.name));
      var rR := Resolve(providers, ElementArg(rt), NameArg(rap.name));
      var e := SimpleTie(rL, rR, lt, lap, rt, rap, old(lt.props), old(rt.props), symbols,
                         old(callbackCount), old(lap.changedCallback), old(rap.changedCallback));
      providers == old(providers) &&
      lap.provider == Some(rL) && rap.provider == Some(rR) && lt.props == e.leftProps &&
      subscriptions == old(subscriptions) + e.added && callbackCount == e.nextId &&
      lap.changedCallback == e.leftCallback && rap.changedCallback == e.rightCallback && o == e.outcome
    }

    /**
     * The state a composite tie leaves: every child holds its resolved
     * provider, the plain side's target holds the provider resolved from the
     * plain side's name alone, the composite holds a fresh aggregate callback
     * subscribed to the children up to the first `monitor` that throws, and,
     * if none throws, the callback has run once.
     */
    twostate predicate TiedCompositely(ct: Target, cap: AccessPoint, nt: Target, nap: AccessPoint,
                                       symbols: SymbolTable, o: Outcome)
      reads this, nt`provider, nt`props, cap`changedCallback, cap.childrenAPs`provider
    {
      var children := cap.childrenAPs;
      var rs := ResolveAll(providers, ct, children);
      var rN := Resolve(providers, NameArg(nap.name), UndefinedArg);
      var cb := Aggregate(old(callbackCount), ct, cap, nt, nap);
      var k := FirstMonitorFailure(rs, ct, children);
      providers == old(providers) &&
      ProvidersOf(children) == Assigned(rs) && nt.provider == Some(rN) &&
      cap.changedCallback == Some(cb) && callbackCount == old(callbackCount) + 1 &&
      subscriptions == old(subscriptions) + ChildRegistrations(rs[..k], ct, children[..k], cb) &&
      (k < |children| ==> o == Failed(MonitorUndefined(children[k].name)) && nt.props == old(nt.props)) &&
      (k == |children| ==>
        match AggregateValue(Assigned(rs), old(ct.props), cap, symbols)
        case Threw(f) => o == Failed(f) && nt.props == old(nt.props)
        case Ok(v) => o == Completed && nt.props == AfterSet(rN, old(nt.props), nap.name, v))
    }

    /** The state a simple untie leaves. */
    twostate predicate UntiedSimply(lt: Target, lap: AccessPoint, rt: Target, rap: AccessPoint, o: Outcome)
      reads this, lap`changedCallback, rap`changedCallback
    {
      var e := SimpleUntie(Resolve(providers, ElementArg(lt), NameArg(lap.name)),
                           Resolve(providers, ElementArg(rt), NameArg(rap.name)),
                           lt, lap, rt, rap, old(lap.changedCallback), old(rap.changedCallback));
      providers == old(providers) && callbackCount == old(callbackCount) &&
      subscriptions == old(subscriptions) - e.removed &&
      lap.changedCallback == e.leftCallback && rap.changedCallback == e.rightCallback && o == e.outcome
    }

    /**
     * The state a composite untie leaves: the shared callback is stopped on
     * every monitored child up to the first child whose step throws, and the
     * callback field is deleted only when no child throws.
     */
    twostate predicate UntiedCompositely(ct: Target, cap: AccessPoint, o: Outcome)
      reads this, cap`changedCallback, cap.childrenAPs`provider
    {
      var children := cap.childrenAPs;
      var ps := ProvidersOf(children);
      var k := FirstStopFailure(ps, ct, children);
      providers == old(providers) && callbackCount == old(callbackCount) &&
      subscriptions == old(subscriptions) - ChildDeregistrations(ps[..k], ct, children[..k], old(cap.changedCallback)) &&
      (k < |children| ==> o == Failed(ChildStopFault(ps[k], children[k])) && cap.changedCallback == old(cap.changedCallback)) &&
      (k == |children| ==> o == Completed && cap.changedCallback == None)
    }

    /** The simple branch of `tieKnot`. */
    method TieSimple(lt: Target, lap: AccessPoint, rt: Target, rap: AccessPoint, symbols: SymbolTable) returns (o: Outcome)
      requires Valid() && lap != rap
      modifies lap`provider, rap`provider, lap`changedCallback, rap`changedCallback, lt`props
      modifies this`subscriptions, this`callbackCount
      ensures TiedSimply(lt, lap, rt, rap, symbols, o) && Valid()
    {
      var rL := GetProvider(ElementArg(lt), NameArg(lap.name));
      lap.provider := Some(rL);
      var rR := GetProvider(ElementArg(rt), NameArg(rap.name));
      rap.provider := Some(rR);
      o := InitialiseAndMonitor(lt, lap, rt, rap, symbols);
    }

    /**
     * The rest of a simple tie once both providers are stored: the right
     * side's piped value goes to the left side, then each side is monitored.
     */
    method InitialiseAndMonitor(lt: Target, lap: AccessPoint, rt: Target, rap: AccessPoint, symbols: SymbolTable) returns (o: Outcome)
      requires Valid() && lap != rap && lap.provider.Some? && rap.provider.Some?
      modifies lap`changedCallback, rap`changedCallback, lt`props, this`subscriptions, this`callbackCount
      ensures var e := SimpleTie(lap.provider.value, rap.provider.value, lt, lap, rt, rap, old(lt.props), old(rt.props),
                                 symbols, old(callbackCount), old(lap.changedCallback), old(rap.changedCallback));
        lt.props == e.leftProps && subscriptions == old(subscriptions) + e.added && callbackCount == e.nextId &&
        lap.changedCallback == e.leftCallback && rap.changedCallback == e.rightCallback && o == e.outcome
      ensures Valid()
    {
      SimpleTieFresh(lap.provider.value, rap.provider.value, lt, lap, rt, rap, lt.props, rt.props, symbols,
                     callbackCount, lap.changedCallback, rap.changedCallback);
      var initial := GetValueThroughPipe(rt, rap, symbols);
      if initial.Threw? {
        return Failed(initial.fault);
      }
      SetValue(lap.provider.value, lt, lap.name, initial.value);
      o := Monitor(lt, lap, rt, rap);
      if o.Failed? {
        return;
      }
      o := Monitor(rt, rap, lt, lap);
    }

    /** Reads every child through its pipes, in order, stopping at the first exception. */
    method ReadChildren(ct: Target, children: seq<AccessPoint>, symbols: SymbolTable) returns (r: Result<seq<Value>>)
      ensures r == ChildValues(ProvidersOf(children), ct.props, children, symbols)
    {
      ghost var ps := ProvidersOf(children);
      var values: seq<Value> := [];
      var i := 0;
      assert ps[i..] == ps && children[i..] == children;
      PrependNothing(ChildValues(ps, ct.props, children, symbols));
      while i < |children|
        invariant 0 <= i <= |children|
        invariant ChildValues(ps, ct.props, children, symbols) ==
          Prepend(values, ChildValues(ps[i..], ct.props, children[i..], symbols))
      {
        assert ps[i..][1..] == ps[i + 1..] && children[i..][1..] == children[i + 1..];
        var v := GetValueThroughPipe(ct, children[i], symbols);
        if v.Threw? {
          return Threw(v.fault);
        }
        ghost var rest := ChildValues(ps[i + 1..], ct.props, children[i + 1..], symbols);
        PrependTwice(values, [v.value], rest);
        values := values + [v.value];
        i := i + 1;
      }
      assert values + [] == values;
      r := Ok(values);
    }

    /** Runs a callback once, as a provider does when the watched value changes. */
    method Fire(cb: Callback, symbols: SymbolTable) returns (o: Outcome)
      modifies Destination(cb)`props
      ensures cb.Forward? ==>
        Delivered(old(ForwardDelivery(cb.src, cb.srcAP, cb.dstAP, symbols)), old(cb.dst.props), cb.dst.props, cb.dstAP.name, o)
      ensures cb.Aggregate? ==>
        Delivered(old(AggregateDelivery(cb.compositeTarget, cb.compositeAP, cb.normalTarget, cb.normalAP, symbols)),
                  old(cb.normalTarget.props), cb.normalTarget.props, cb.normalAP.name, o)
    {
      match cb
      case Forward(_, src, srcAP, dst, dstAP) =>
        if dstAP.provider.None? {
          return Failed(ProviderUndefined(dstAP.name));
        }
        var v := GetValueThroughPipe(src, srcAP, symbols);
        if v.Threw? {
          return Failed(v.fault);
        }
        SetValue(dstAP.provider.value, dst, dstAP.name, v.value);
        o := Completed;
      case Aggregate(_, ct, cap, nt, nap) =>
        var values := ReadChildren(ct, cap.childrenAPs, symbols);
        if values.Threw? {
          return Failed(values.fault);
        }
        if cap.nToOnePipe !in symbols {
          return Failed(PipeNotFunction(cap.nToOnePipe));
        }
        var lastValue := symbols[cap.nToOnePipe](Array(values.value));
        if nt.provider.None? {
          return Failed(ProviderUndefined(nap.name));
        }
        SetValue(nt.provider.value, nt, nap.name, lastValue);
        o := Completed;
    }

    /** Assigns every child of a composite the provider resolved for it on the composite's target. */
    method AssignChildProviders(ct: Target, children: seq<AccessPoint>)
      modifies children`provider
      ensures ProvidersOf(children) == Assigned(ResolveAll(providers, ct, children))
      ensures forall j :: 0 <= j < |children| ==> children[j].provider == Some(ResolveAll(providers, ct, children)[j])
    {
      ghost var rs := ResolveAll(providers, ct, children);
      var i := 0;
      while i < |children|
        invariant 0 <= i <= |children|
        invariant forall j :: 0 <= j < i ==> children[j].provider == Some(rs[j])
      {
        var r := GetProvider(ElementArg(ct), NameArg(children[i].name));
        children[i].provider := Some(r);
        i := i + 1;
      }
    }

    /** One child's turn in a composite tie: `monitor` is called only when its provider supports monitoring the descriptor. */
    method SubscribeChild(ct: Target, c: AccessPoint, p: Resolved, cb: Callback) returns (o: Outcome)
      modifies this`subscriptions
      ensures ChildMonitored(p, ct, c) && MonitorThrows(p) ==>
        o == Failed(MonitorUndefined(c.name)) && subscriptions == old(subscriptions)
      ensures !(ChildMonitored(p, ct, c) && MonitorThrows(p)) ==>
        o == Completed && subscriptions == old(subscriptions) + ChildRegistration(p, ct, c, cb)
    {
      o := Completed;
      if SupportsMonitoring(p, ElementArg(ct), DescriptorArg(c)) {
        o := ProviderMonitor(p, ct, c.name, cb);
      }
    }

    /**
     * Subscribes the shared callback `cb` to every child whose provider
     * supports monitoring, stopping at the first `monitor` that throws.
     */
    method SubscribeChildren(ct: Target, children: seq<AccessPoint>, cb: Callback, ghost rs: seq<Resolved>) returns (o: Outcome)
      requires |rs| == |children| && forall j :: 0 <= j < |children| ==> children[j].provider == Some(rs[j])
      modifies this`subscriptions
      ensures var k := FirstMonitorFailure(rs, ct, children);
        subscriptions == old(subscriptions) + ChildRegistrations(rs[..k], ct, children[..k], cb) &&
        o == if k < |children| then Failed(MonitorUndefined(children[k].name)) else Completed
    {
      var i := 0;
      while i < |children|
        invariant 0 <= i <= |children|
        invariant i <= FirstMonitorFailure(rs, ct, children)
        invariant subscriptions == old(subscriptions) + ChildRegistrations(rs[..i], ct, children[..i], cb)
      {
        ChildRegistrationsSnoc(rs, ct, children, cb, i);
        FirstMonitorFailureStep(rs, ct, children, i);
        o := SubscribeChild(ct, children[i], children[i].provider.value, cb);
        if o.Failed? {
          return;
        }
        AddTwice(old(subscriptions), ChildRegistrations(rs[..i], ct, children[..i], cb), ChildRegistration(rs[i], ct, children[i], cb));
        i := i + 1;
      }
      assert rs[..i] == rs && children[..i] == children;
      o := Completed;
    }

    /**
     * The set-up of a composite tie: every child gets its provider, the plain
     * side's target gets the provider resolved from the plain side's name
     * alone, and the composite gets a fresh aggregate callback.
     */
    method PrepareComposite(ct: Target, cap: AccessPoint, nt: Target, nap: AccessPoint) returns (cb: Callback)
      modifies cap.childrenAPs`provider, nt`provider, cap`changedCallback, this`callbackCount
      ensures forall j :: 0 <= j < |cap.childrenAPs| ==>
        cap.childrenAPs[j].provider == Some(ResolveAll(providers, ct, cap.childrenAPs)[j])
      ensures nt.provider == Some(Resolve(providers, NameArg(nap.name), UndefinedArg))
      ensures cb == Aggregate(old(callbackCount), ct, cap, nt, nap)
      ensures cap.changedCallback == Some(cb) && callbackCount == old(callbackCount) + 1
    {
      AssignChildProviders(ct, cap.childrenAPs);
      var rN := GetProvider(NameArg(nap.name), UndefinedArg);
      nt.provider := Some(rN);
      cb := Aggregate(callbackCount, ct, cap, nt, nap);
      callbackCount := callbackCount + 1;
      cap.changedCallback := Some(cb);
    }

    /** The first run of a composite tie's aggregate callback, once every provider is stored. */
    method FireAggregate(cb: Callback, symbols: SymbolTable, ghost rs: seq<Resolved>, ghost rN: Resolved) returns (o: Outcome)
      requires cb.Aggregate? && ProvidersOf(cb.compositeAP.childrenAPs) == Assigned(rs) && cb.normalTarget.provider == Some(rN)
      modifies cb.normalTarget`props
      ensures match AggregateValue(Assigned(rs), old(cb.compositeTarget.props), cb.compositeAP, symbols)
        case Threw(f) => o == Failed(f) && cb.normalTarget.props == old(cb.normalTarget.props)
        case Ok(v) => o == Completed && cb.normalTarget.props == AfterSet(rN, old(cb.normalTarget.props), cb.normalAP.name, v)
    {
      AggregateDeliveryAssigned(cb.compositeTarget, cb.compositeAP, cb.normalTarget, cb.normalAP, symbols, rs, rN);
      o := Fire(cb, symbols);
    }

    /** The composite branch of `tieKnot`, with `cap` on target `ct` and the plain side `nap` on `nt`. */
    method TieComposite(ct: Target, cap: AccessPoint, nt: Target, nap: AccessPoint, symbols: SymbolTable) returns (o: Outcome)
      requires Valid()
      modifies cap.childrenAPs`provider, nt`provider, nt`props, cap`changedCallback
      modifies this`subscriptions, this`callbackCount
      ensures TiedCompositely(ct, cap, nt, nap, symbols, o) && Valid()
    {
      var children := cap.childrenAPs;
      ghost var rs := ResolveAll(providers, ct, children);
      ghost var rN := Resolve(providers, NameArg(nap.name), UndefinedArg);
      var cb := PrepareComposite(ct, cap, nt, nap);
      assert ProvidersOf(children) == Assigned(rs);
      ghost var k := FirstMonitorFailure(rs, ct, children);
      ChildRegistrationsHold(rs[..k], ct, children[..k], cb);
      o := SubscribeAndFire(cb, symbols, rs, rN);
    }

    /**
     * The part of a composite tie after every provider is stored: subscribe
     * the aggregate callback to the children, then run it once if no
     * `monitor` threw.
     */
    method SubscribeAndFire(cb: Callback, symbols: SymbolTable, ghost rs: seq<Resolved>, ghost rN: Resolved) returns (o: Outcome)
      requires cb.Aggregate? && |rs| == |cb.compositeAP.childrenAPs|
      requires forall j :: 0 <= j < |cb.compositeAP.childrenAPs| ==> cb.compositeAP.childrenAPs[j].provider == Some(rs[j])
      requires cb.normalTarget.provider == Some(rN)
      modifies this`subscriptions, cb.normalTarget`props
      ensures var children := cb.compositeAP.childrenAPs;
        var k := FirstMonitorFailure(rs, cb.compositeTarget, children);
        subscriptions == old(subscriptions) + ChildRegistrations(rs[..k], cb.compositeTarget, children[..k], cb) &&
        (k < |children| ==> o == Failed(MonitorUndefined(children[k].name)) && cb.normalTarget.props == old(cb.normalTarget.props)) &&
        (k == |children| ==>
          match AggregateValue(Assigned(rs), old(cb.compositeTarget.props), cb.compositeAP, symbols)
          case Threw(f) => o == Failed(f) && cb.normalTarget.props == old(cb.normalTarget.props)
          case Ok(v) => o == Completed && cb.normalTarget.props == AfterSet(rN, old(cb.normalTarget.props), cb.normalAP.name, v))
    {
      var children := cb.compositeAP.childrenAPs;
      o := SubscribeChildren(cb.compositeTarget, children, cb, rs);
      if o.Failed? {
        return;
      }
      assert ProvidersOf(children) == Assigned(rs);
      o := FireAggregate(cb, symbols, rs, rN);
    }

    /**
     * What a simple tie leaves alone: the providers stored on the two
     * targets, the right target's properties (unless both sides share the
     * target), and the providers of any other descriptor below either side.
     */
    twostate predicate SimpleTieKeeps(lt: Target, lap: AccessPoint, rt: Target, rap: AccessPoint)
      reads lt, rt, lap.childrenAPs, rap.childrenAPs
    {
      lt.provider == old(lt.provider) && rt.provider == old(rt.provider) &&
      (rt != lt ==> rt.props == old(rt.props)) &&
      (forall c :: c in lap.childrenAPs && c != lap && c != rap ==> c.provider == old(c.provider)) &&
      (forall c :: c in rap.childrenAPs && c != lap && c != rap ==> c.provider == old(c.provider))
    }

    /**
     * What a composite tie leaves alone: the plain descriptor's own
     * `provider` (the source stores that provider on the plain side's target
     * instead) and its callback, the composite descriptor's own `provider`,
     * the composite target's provider and properties (unless both sides share
     * the target), and the providers of the plain side's children.
     */
    twostate predicate CompositeTieKeeps(ct: Target, cap: AccessPoint, nt: Target, nap: AccessPoint)
      reads ct, cap, nap, nap.childrenAPs
    {
      (nap !in cap.childrenAPs ==> nap.provider == old(nap.provider)) &&
      nap.changedCallback == old(nap.changedCallback) &&
      (cap !in cap.childrenAPs ==> cap.provider == old(cap.provider)) &&
      (ct != nt ==> ct.provider == old(ct.provider) && ct.props == old(ct.props)) &&
      (forall c :: c in nap.childrenAPs && c !in cap.childrenAPs ==> c.provider == old(c.provider))
    }

    /** `tieKnot`: a composite left side takes precedence, then a composite right side, else both sides are simple. */
    method TieKnot(leftTarget: Target, rightTarget: Target, knot: KnotInfo, symbols: SymbolTable) returns (o: Outcome)
      requires Valid() && knot.leftAP != knot.rightAP
      modifies knot.leftAP`provider, knot.rightAP`provider, knot.leftAP`changedCallback, knot.rightAP`changedCallback
      modifies knot.leftAP.childrenAPs`provider, knot.rightAP.childrenAPs`provider
      modifies leftTarget`provider, rightTarget`provider, leftTarget`props, rightTarget`props
      modifies this`subscriptions, this`callbackCount
      ensures Valid()
      ensures knot.leftAP.isComposite ==>
        TiedCompositely(leftTarget, knot.leftAP, rightTarget, knot.rightAP, symbols, o) &&
        CompositeTieKeeps(leftTarget, knot.leftAP, rightTarget, knot.rightAP)
      ensures !knot.leftAP.isComposite && knot.rightAP.isComposite ==>
        TiedCompositely(rightTarget, knot.rightAP, leftTarget, knot.leftAP, symbols, o) &&
        CompositeTieKeeps(rightTarget, knot.rightAP, leftTarget, knot.leftAP)
      ensures !knot.leftAP.isComposite && !knot.rightAP.isComposite ==>
        TiedSimply(leftTarget, knot.leftAP, rightTarget, knot.rightAP, symbols, o) &&
        SimpleTieKeeps(leftTarget, knot.leftAP, rightTarget, knot.rightAP)
    {
      if knot.leftAP.isComposite || knot.rightAP.isComposite {
        if knot.leftAP.isComposite {
          o := TieComposite(leftTarget, knot.leftAP, rightTarget, knot.rightAP, symbols);
        } else {
          o := TieComposite(rightTarget, knot.rightAP, leftTarget, knot.leftAP, symbols);
        }
      } else {
        o := TieSimple(leftTarget, knot.leftAP, rightTarget, knot.rightAP, symbols);
      }
    }

    /** The simple branch of `untieKnot`. */
    method UntieSimple(lt: Target, lap: AccessPoint, rt: Target, rap: AccessPoint) returns (o: Outcome)
      requires Valid() && lap != rap
      modifies lap`changedCallback, rap`changedCallback, this`subscriptions
      ensures UntiedSimply(lt, lap, rt, rap, o) && Valid()
    {
      ghost var d1 := Deregistration(Resolve(providers, ElementArg(lt), NameArg(lap.name)), lt, lap.name, lap.changedCallback);
      ghost var d2 := Deregistration(Resolve(providers, ElementArg(rt), NameArg(rap.name)), rt, rap.name, rap.changedCallback);
      o := StopMonitoring(lt, lap);
      if o.Failed? {
        return;
      }
      lap.changedCallback := None;
      o := StopMonitoring(rt, rap);
      if o.Failed? {
        return;
      }
      rap.changedCallback := None;
      RemoveTwice(old(subscriptions), d1, d2);
    }

    /** The composite branch of `untieKnot`. */
    method UntieComposite(ct: Target, cap: AccessPoint) returns (o: Outcome)
      requires Valid()
      modifies cap`changedCallback, this`subscriptions
      ensures UntiedCompositely(ct, cap, o) && Valid()
    {
      var children := cap.childrenAPs;
      ghost var ps := ProvidersOf(children);
      o := StopChildren(ct, children, cap.changedCallback, ps);
      assert Valid();
      if o.Completed? {
        cap.changedCallback := None;
      }
      assert ProvidersOf(children) == ps;
    }

    /**
     * One child's turn in a composite untie: reading the provider of a child
     * that was never tied throws; otherwise `stopMonitoring` is called only
     * when the provider supports monitoring the descriptor.
     */
    method StopChild(ct: Target, c: AccessPoint, cb: Option<Callback>) returns (o: Outcome)
      modifies this`subscriptions
      ensures ChildStopThrows(c.provider, ct, c) ==>
        o == Failed(ChildStopFault(c.provider, c)) && subscriptions == old(subscriptions)
      ensures !ChildStopThrows(c.provider, ct, c) ==>
        o == Completed && subscriptions == old(subscriptions) - ChildDeregistration(c.provider, ct, c, cb)
    {
      var p := c.provider;
      if p.None? {
        return Failed(ProviderUndefined(c.name));
      }
      o := Completed;
      if SupportsMonitoring(p.value, ElementArg(ct), DescriptorArg(c)) {
        o := ProviderStopMonitoring(p.value, ct, c.name, cb);
      }
    }

    /**
     * Stops monitoring `cb` on every child whose provider supports
     * monitoring, stopping at the first child whose step throws.
     */
    method StopChildren(ct: Target, children: seq<AccessPoint>, cb: Option<Callback>, ghost ps: seq<Option<Resolved>>) returns (o: Outcome)
      requires |ps| == |children| && forall j :: 0 <= j < |children| ==> children[j].provider == ps[j]
      modifies this`subscriptions
      ensures var k := FirstStopFailure(ps, ct, children);
        subscriptions == old(subscriptions) - ChildDeregistrations(ps[..k], ct, children[..k], cb) &&
        o == (if k < |children| then Failed(ChildStopFault(ps[k], children[k])) else Completed)
    {
      var i := 0;
      while i < |children|
        invariant 0 <= i <= |children|
        invariant i <= FirstStopFailure(ps, ct, children)
        invariant subscriptions == old(subscriptions) - ChildDeregistrations(ps[..i], ct, children[..i], cb)
      {
        o := StopNext(ct, children, cb, ps, i, old(subscriptions));
        if o.Failed? {
          return;
        }
        i := i + 1;
      }
      assert ps[..i] == ps && children[..i] == children;
      o := Completed;
    }

    /** The untie step of child `i` after the children before it, in the terms `StopChildren` keeps. */
    method StopNext(ct: Target, children: seq<AccessPoint>, cb: Option<Callback>, ghost ps: seq<Option<Resolved>>, i: nat,
                    ghost S: multiset<Subscription>) returns (o: Outcome)
      requires |ps| == |children| && i < |children| && children[i].provider == ps[i]
      requires i <= FirstStopFailure(ps, ct, children)
      requires subscriptions == S - ChildDeregistrations(ps[..i], ct, children[..i], cb)
      modifies this`subscriptions
      ensures o.Failed? ==>
        FirstStopFailure(ps, ct, children) == i && o == Failed(ChildStopFault(ps[i], children[i])) &&
        subscriptions == old(subscriptions)
      ensures o.Completed? ==>
        i + 1 <= FirstStopFailure(ps, ct, children) &&
        subscriptions == S - ChildDeregistrations(ps[..i + 1], ct, children[..i + 1], cb)
    {
      ChildDeregistrationsSnoc(ps, ct, children, cb, i);
      FirstStopFailureStep(ps, ct, children, i);
      o := StopChild(ct, children[i], cb);
      if o.Completed? {
        RemoveTwice(S, ChildDeregistrations(ps[..i], ct, children[..i], cb), ChildDeregistration(ps[i], ct, children[i], cb));
      }
    }

    /** `untieKnot`: dispatches as `tieKnot` does. */
    method UntieKnot(leftTarget: Target, rightTarget: Target, knot: KnotInfo) returns (o: Outcome)
      requires Valid() && knot.leftAP != knot.rightAP
      modifies knot.leftAP`changedCallback, knot.rightAP`changedCallback, this`subscriptions
      ensures Valid()
      ensures knot.leftAP.isComposite ==>
        UntiedCompositely(leftTarget, knot.leftAP, o) && knot.rightAP.changedCallback == old(knot.rightAP.changedCallback)
      ensures !knot.leftAP.isComposite && knot.rightAP.isComposite ==>
        UntiedCompositely(rightTarget, knot.rightAP, o) && knot.leftAP.changedCallback == old(knot.leftAP.changedCallback)
      ensures !knot.leftAP.isComposite && !knot.rightAP.isComposite ==>
        UntiedSimply(leftTarget, knot.leftAP, rightTarget, knot.rightAP, o)
    {
      if knot.leftAP.isComposite || knot.rightAP.isComposite {
        if knot.leftAP.isComposite {
          o := UntieComposite(leftTarget, knot.leftAP);
        } else {
          o := UntieComposite(rightTarget, knot.rightAP);
        }
      } else {
        o := UntieSimple(leftTarget, knot.leftAP, rightTarget, knot.rightAP);
      }
    }
  }
}
