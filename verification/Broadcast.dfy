/** Broadcast queueing with EIP-7702 delegations: which nonces the queued transactions and the
    attached authorizations use, against the order in which a chain consumes them. */
module Broadcast {
  import opened Wrappers

  /** A signed authorization; `authority` is what recovering the signer gives. */
  datatype Auth = Auth(authority: Option<Address>, nonce: nat)

  datatype Tx = Tx(from: Address, nonce: nat, auths: seq<Auth>)

  datatype Settings = Settings(
    newOrigin: Address, originalCaller: Address, depth: nat, singleCall: bool, deployFromCode: bool)

  type Nonces = map<Address, nat>

  datatype State = State(
    broadcast: Option<Settings>, pending: seq<Auth>, blob: bool, txs: seq<Tx>, nonces: Nonces)

  datatype Outcome = Accepted | Refused

  function Nonce(nonces: Nonces, a: Address): nat {
    if a in nonces then nonces[a] else 0
  }

  // ---------------------------------------------------------------------------------------------
  // The cheatcodes and hooks on values
  // ---------------------------------------------------------------------------------------------

  /** The nonces that `a` signed, in order. */
  function NoncesOf(auths: seq<Auth>, a: Address): seq<nat> {
    if auths == [] then []
    else
      var before, last := NoncesOf(auths[..|auths| - 1], a), auths[|auths| - 1];
      if last.authority == Some(a) then before + [last.nonce] else before
  }

  function NextDelegationNonce(
    pending: seq<Auth>, authority: Address, broadcast: Option<Settings>, accountNonce: nat): nat
  {
    if pending == [] then
      if broadcast.Some? && broadcast.value.newOrigin == authority then accountNonce + 1 else accountNonce
    else if pending[|pending| - 1].authority == Some(authority) then
      pending[|pending| - 1].nonce + 1
    else
      NextDelegationNonce(pending[..|pending| - 1], authority, broadcast, accountNonce)
  }

  function Attach(s: State, auth: Auth): (State, Outcome) {
    match auth.authority
    case None => (s, Refused)
    case Some(a) =>
      if NextDelegationNonce(s.pending, a, s.broadcast, Nonce(s.nonces, a)) != auth.nonce then (s, Refused)
      else (s.(pending := s.pending + [auth]), Accepted)
  }

  predicate Applies(s: State, depth: nat, caller: Address) {
    s.broadcast.Some? && depth == s.broadcast.value.depth && caller == s.broadcast.value.originalCaller
  }

  /** The `call` hook.  A blob and delegations together are refused, after both were taken. */
  function Call(s: State, depth: nat, caller: Address, isStatic: bool, isolate: bool): (State, Outcome) {
    if !Applies(s, depth, caller) then (s, Accepted)
    else if isStatic then (s, if s.broadcast.value.singleCall then Refused else Accepted)
    else if s.blob && s.pending != [] then (s.(pending := [], blob := false), Refused)
    else
      var o := s.broadcast.value.newOrigin;
      var n := Nonce(s.nonces, o);
      var own := |NoncesOf(s.pending, o)|;
      (s.(pending := [], blob := false,
          txs := s.txs + [Tx(o, n, s.pending)],
          nonces := s.nonces[o := n + own + if isolate then 0 else 1]), Accepted)
  }

  /** The `create` hook, followed by the EVM's own increment of the creator's nonce if the create
      frame is entered. */
  function Create(s: State, depth: nat, caller: Address, entered: bool): State {
    if s.broadcast.Some? && depth >= s.broadcast.value.depth && caller == s.broadcast.value.originalCaller then
      var b := s.broadcast.value;
      var n := Nonce(s.nonces, b.newOrigin);
      if depth == b.depth || b.deployFromCode then
        s.(broadcast := Some(b.(deployFromCode := false)),
           txs := s.txs + [Tx(b.newOrigin, n, [])],
           nonces := if entered then s.nonces[b.newOrigin := n + 1] else s.nonces)
      else s
    else s
  }

  /** The end hooks drop a single-call broadcast on return to its depth. */
  function End(s: State, depth: nat): State {
    if s.broadcast.Some? && depth == s.broadcast.value.depth && s.broadcast.value.singleCall
    then s.(broadcast := None)
    else s
  }

  /** `deployCode` makes the next create of the broadcast count at any depth. */
  function Deploy(s: State): State {
    if s.broadcast.Some? then s.(broadcast := Some(s.broadcast.value.(deployFromCode := true))) else s
  }

  function Start(s: State, b: Settings): (State, Outcome) {
    if s.broadcast.Some? then (s, Refused) else (s.(broadcast := Some(b)), Accepted)
  }

  function Stop(s: State): (State, Outcome) {
    if s.broadcast.None? then (s, Refused) else (s.(broadcast := None), Accepted)
  }

  // ---------------------------------------------------------------------------------------------
  // The same in the inspector's own form
  // ---------------------------------------------------------------------------------------------

  class Broadcaster {
    var broadcast: Option<Settings>
    var activeDelegations: seq<Auth>
    var activeBlob: bool
    var transactions: seq<Tx>
    var nonces: Nonces
    const isolate: bool

    constructor (isolate: bool, nonces: Nonces)
      ensures Value() == State(None, [], false, [], nonces) && this.isolate == isolate
    {
      this.isolate := isolate;
      this.nonces := nonces;
      broadcast, activeDelegations, activeBlob, transactions := None, [], false, [];
    }

    function Value(): State
      reads this
    {
      State(broadcast, activeDelegations, activeBlob, transactions, nonces)
    }

    /** Searches the pending delegations backwards. */
    method NextNonce(authority: Address) returns (n: nat)
      ensures n == NextDelegationNonce(activeDelegations, authority, broadcast, Nonce(nonces, authority))
    {
      var i := |activeDelegations|;
      assert activeDelegations[..i] == activeDelegations;
      while i > 0
        invariant 0 <= i <= |activeDelegations|
        invariant NextDelegationNonce(activeDelegations, authority, broadcast, Nonce(nonces, authority))
               == NextDelegationNonce(activeDelegations[..i], authority, broadcast, Nonce(nonces, authority))
      {
        assert activeDelegations[..i][..i - 1] == activeDelegations[..i - 1];
        if activeDelegations[i - 1].authority == Some(authority) {
          return activeDelegations[i - 1].nonce + 1;
        }
        i := i - 1;
      }
      n := Nonce(nonces, authority);
      if broadcast.Some? && broadcast.value.newOrigin == authority {
        n := n + 1;
      }
    }

    method AttachDelegation(auth: Auth) returns (r: Outcome)
      modifies this
      ensures (Value(), r) == Attach(old(Value()), auth)
    {
      if auth.authority.None? {
        return Refused;
      }
      var expected := NextNonce(auth.authority.value);
      if expected != auth.nonce {
        return Refused;
      }
      activeDelegations := activeDelegations + [auth];
      return Accepted;
    }

    /** Signs with the next valid nonce unless one is given, and attaches if asked to. */
    method SignDelegation(signer: Address, nonce: Option<nat>, attach: bool) returns (auth: Auth, r: Outcome)
      modifies this
      ensures auth.authority == Some(signer)
      ensures nonce.Some? ==> auth.nonce == nonce.value
      ensures nonce.None? ==> r == Accepted
      ensures !attach ==> r == Accepted && Value() == old(Value())
      ensures attach ==> (Value(), r) == Attach(old(Value()), auth)
    {
      if nonce.Some? {
        auth := Auth(Some(signer), nonce.value);
      } else {
        var n := NextNonce(signer);
        auth := Auth(Some(signer), n);
      }
      r := Accepted;
      if attach {
        r := AttachDelegation(auth);
      }
    }

    method OnCall(depth: nat, caller: Address, isStatic: bool) returns (r: Outcome)
      modifies this
      ensures (Value(), r) == Call(old(Value()), depth, caller, isStatic, isolate)
    {
      if broadcast.None? || depth != broadcast.value.depth || caller != broadcast.value.originalCaller {
        return Accepted;
      }
      if isStatic {
        return if broadcast.value.singleCall then Refused else Accepted;
      }
      var origin := broadcast.value.newOrigin;
      var nonce := Nonce(nonces, origin);
      var delegations := activeDelegations;
      activeDelegations := [];
      if activeBlob {
        activeBlob := false;
        if delegations != [] {
          return Refused;
        }
      }
      var bumped := nonce;
      for i := 0 to |delegations|
        invariant bumped == nonce + |NoncesOf(delegations[..i], origin)|
      {
        assert delegations[..i + 1][..i] == delegations[..i];
        if delegations[i].authority == Some(origin) {
          bumped := bumped + 1;
        }
      }
      assert delegations[..|delegations|] == delegations;
      transactions := transactions + [Tx(origin, nonce, delegations)];
      if !isolate {
        bumped := bumped + 1;
      }
      nonces := nonces[origin := bumped];
      return Accepted;
    }

    method OnCreate(depth: nat, caller: Address)
      modifies this
      ensures Value() == Create(old(Value()), depth, caller, false)
    {
      if broadcast.Some? && depth >= broadcast.value.depth && caller == broadcast.value.originalCaller {
        if depth == broadcast.value.depth || broadcast.value.deployFromCode {
          broadcast := Some(broadcast.value.(deployFromCode := false));
          var origin := broadcast.value.newOrigin;
          transactions := transactions + [Tx(origin, Nonce(nonces, origin), [])];
        }
      }
    }

    method OnDeployCode()
      modifies this
      ensures Value() == Deploy(old(Value()))
    {
      if broadcast.Some? {
        broadcast := Some(broadcast.value.(deployFromCode := true));
      }
    }

    method OnEnd(depth: nat)
      modifies this
      ensures Value() == End(old(Value()), depth)
    {
      if broadcast.Some? && depth == broadcast.value.depth && broadcast.value.singleCall {
        broadcast := None;
      }
    }

    method StartBroadcast(settings: Settings) returns (r: Outcome)
      modifies this
      ensures (Value(), r) == Start(old(Value()), settings)
    {
      if broadcast.Some? {
        return Refused;
      }
      broadcast := Some(settings);
      return Accepted;
    }

    method StopBroadcast() returns (r: Outcome)
      modifies this
      ensures (Value(), r) == Stop(old(Value()))
    {
      if broadcast.None? {
        return Refused;
      }
      broadcast := None;
      return Accepted;
    }
  }

  // ---------------------------------------------------------------------------------------------
  // Runs under one broadcast origin
  // ---------------------------------------------------------------------------------------------

  datatype Event =
    | AttachEvent(auth: Auth)
    | AttachBlob
    | DeployEvent
    | CallEvent(depth: nat, caller: Address, isStatic: bool)
    | CreateEvent(depth: nat, caller: Address, entered: bool)
    | EndEvent(depth: nat)
    | StartEvent(settings: Settings)
    | StopEvent

  predicate Enabled(e: Event, origin: Address) {
    e.StartEvent? ==> e.settings.newOrigin == origin
  }

  function Step(s: State, e: Event): State {
    match e
    case AttachEvent(auth) => Attach(s, auth).0
    case AttachBlob => s.(blob := true)
    case DeployEvent => Deploy(s)
    case CallEvent(depth, caller, isStatic) => Call(s, depth, caller, isStatic, false).0
    case CreateEvent(depth, caller, entered) => Create(s, depth, caller, entered)
    case EndEvent(depth) => End(s, depth)
    case StartEvent(b) => Start(s, b).0
    case StopEvent => Stop(s).0
  }

  function Run(s: State, es: seq<Event>): State {
    if es == [] then s else Step(Run(s, es[..|es| - 1]), es[|es| - 1])
  }

  predicate Legal(es: seq<Event>, origin: Address) {
    forall i :: 0 <= i < |es| ==> Enabled(es[i], origin)
  }

  /** Nothing is queued or pending yet. */
  predicate Initial(s: State) {
    s.txs == [] && s.pending == [] && s.broadcast.None?
  }

  /** The numbers `lo`, `lo + 1`, `lo + 2`, and so on: no gap and no repeat. */
  predicate CountsFrom(s: seq<nat>, lo: nat) {
    forall i :: 0 <= i < |s| ==> s[i] == lo + i
  }

  /** What a transaction consumes of its sender's nonces: first its own, then, in list order, those of
      the sender's authorizations. */
  function ConsumedBy(tx: Tx, a: Address): seq<nat> {
    if tx.from == a then [tx.nonce] + NoncesOf(tx.auths, a) else NoncesOf(tx.auths, a)
  }

  function Consumed(txs: seq<Tx>, a: Address): seq<nat> {
    if txs == [] then [] else Consumed(txs[..|txs| - 1], a) + ConsumedBy(txs[|txs| - 1], a)
  }

  /** Queued so far: one gap-free, repeat-free interval up to the account's nonce; still pending: the
      nonces after the one the next transaction will take. */
  predicate InStep(s: State, origin: Address, first: nat) {
    var n, queued := Nonce(s.nonces, origin), Consumed(s.txs, origin);
    && CountsFrom(queued, first) && first + |queued| == n
    && CountsFrom(NoncesOf(s.pending, origin), n + 1)
  }

  predicate CreateApplies(s: State, depth: nat, caller: Address) {
    && s.broadcast.Some? && depth >= s.broadcast.value.depth && caller == s.broadcast.value.originalCaller
    && (depth == s.broadcast.value.depth || s.broadcast.value.deployFromCode)
  }

  /** What a step must satisfy, readable before it: the origin's first pending delegation is attached
      while a broadcast is active, and a broadcast create enters its frame with none pending. */
  predicate Guard(s: State, e: Event, origin: Address) {
    match e
    case AttachEvent(auth) =>
      Attach(s, auth).1.Accepted? && auth.authority == Some(origin) ==>
        s.broadcast.Some? || NoncesOf(s.pending, origin) != []
    case CreateEvent(depth, caller, entered) =>
      CreateApplies(s, depth, caller) ==> entered && NoncesOf(s.pending, origin) == []
    case _ => true
  }

  predicate UnderOrigin(s: State, origin: Address) {
    s.broadcast.Some? ==> s.broadcast.value.newOrigin == origin
  }

  /** The backward search finds the authority's last pending nonce. */
  lemma {:induction false} NextNonceMeaning(pending: seq<Auth>, a: Address, b: Option<Settings>, n: nat)
    ensures var own := NoncesOf(pending, a);
            NextDelegationNonce(pending, a, b, n) ==
              if own != [] then own[|own| - 1] + 1
              else if b.Some? && b.value.newOrigin == a then n + 1 else n
  {
    if pending != [] {
      NextNonceMeaning(pending[..|pending| - 1], a, b, n);
    }
  }

  lemma NoncesOfSnoc(auths: seq<Auth>, auth: Auth, a: Address)
    ensures NoncesOf(auths + [auth], a) ==
              if auth.authority == Some(a) then NoncesOf(auths, a) + [auth.nonce] else NoncesOf(auths, a)
  {
    assert (auths + [auth])[..|auths|] == auths;
  }

  lemma ConsumedSnoc(txs: seq<Tx>, tx: Tx, a: Address)
    ensures Consumed(txs + [tx], a) == Consumed(txs, a) + ConsumedBy(tx, a)
  {
    assert (txs + [tx])[..|txs|] == txs;
  }

  lemma CountsConcat(x: seq<nat>, y: seq<nat>, lo: nat)
    ensures CountsFrom(x + y, lo) <==> CountsFrom(x, lo) && CountsFrom(y, lo + |x|)
  {
    if CountsFrom(x + y, lo) {
      assert forall i :: 0 <= i < |x| ==> x[i] == (x + y)[i];
      assert forall i :: 0 <= i < |y| ==> y[i] == (x + y)[|x| + i];
    }
  }

  lemma CountsEnds(s: seq<nat>, lo: nat)
    requires CountsFrom(s, lo) && s != []
    ensures s[0] == lo && s[|s| - 1] == lo + |s| - 1
  {
  }

  lemma CountsSingle(n: nat, lo: nat)
    ensures CountsFrom([n], lo) <==> n == lo
    ensures CountsFrom([], lo)
  {
    assert [n][0] == n;
  }

  lemma AttachStep(s: State, auth: Auth, origin: Address, first: nat)
    requires InStep(s, origin, first) && UnderOrigin(s, origin)
    ensures InStep(Attach(s, auth).0, origin, first) <==> Guard(s, AttachEvent(auth), origin)
  {
    hide NoncesOf, Consumed, NextDelegationNonce, CountsFrom;
    var n, own := Nonce(s.nonces, origin), NoncesOf(s.pending, origin);
    NextNonceMeaning(s.pending, origin, s.broadcast, n);
    NoncesOfSnoc(s.pending, auth, origin);
    CountsConcat(own, [auth.nonce], n + 1);
    CountsSingle(auth.nonce, n + 1 + |own|);
    if own != [] {
      CountsEnds(own, n + 1);
    }
  }

  lemma PlainTx(a: Address, n: nat)
    ensures NoncesOf([], a) == []
    ensures ConsumedBy(Tx(a, n, []), a) == [n]
  {
  }

  lemma CallStep(s: State, depth: nat, caller: Address, isStatic: bool, origin: Address, first: nat)
    requires InStep(s, origin, first) && UnderOrigin(s, origin)
    ensures InStep(Call(s, depth, caller, isStatic, false).0, origin, first)
  {
    hide NoncesOf, Consumed, CountsFrom;
    var n, own := Nonce(s.nonces, origin), NoncesOf(s.pending, origin);
    PlainTx(origin, n);
    ConsumedSnoc(s.txs, Tx(origin, n, s.pending), origin);
    CountsSingle(n, n);
    CountsSingle(n, n + 1);
    CountsSingle(n, n + |own| + 2);
    CountsConcat([n], own, n);
    CountsConcat(Consumed(s.txs, origin), [n] + own, first);
  }

  lemma CountsOnce(s: seq<nat>, lo: nat, other: nat)
    requires CountsFrom(s, lo) && lo != other
    ensures CountsFrom(s, other) <==> s == []
  {
    assert s != [] ==> s[0] == lo;
  }

  lemma CreateStep(s: State, depth: nat, caller: Address, entered: bool, origin: Address, first: nat)
    requires InStep(s, origin, first) && UnderOrigin(s, origin)
    ensures InStep(Create(s, depth, caller, entered), origin, first) <==>
            Guard(s, CreateEvent(depth, caller, entered), origin)
  {
    hide NoncesOf, Consumed, ConsumedBy, CountsFrom;
    var n := Nonce(s.nonces, origin);
    PlainTx(origin, n);
    CountsSingle(n, n);
    CountsOnce(NoncesOf(s.pending, origin), n + 1, n + 2);
    ConsumedSnoc(s.txs, Tx(origin, n, []), origin);
    CountsConcat(Consumed(s.txs, origin), [n], first);
  }

  /** Exactly the guarded steps keep simulated and consumed nonces in step. */
  lemma StepIffGuarded(s: State, e: Event, origin: Address, first: nat)
    requires InStep(s, origin, first) && UnderOrigin(s, origin) && Enabled(e, origin)
    ensures InStep(Step(s, e), origin, first) <==> Guard(s, e, origin)
    ensures UnderOrigin(Step(s, e), origin)
  {
    match e
    case AttachEvent(auth) => AttachStep(s, auth, origin, first);
    case CallEvent(depth, caller, isStatic) => CallStep(s, depth, caller, isStatic, origin, first);
    case CreateEvent(depth, caller, entered) => CreateStep(s, depth, caller, entered, origin, first);
    case _ =>
  }

  predicate AlwaysInStep(s: State, es: seq<Event>, origin: Address, first: nat) {
    (es != [] ==> AlwaysInStep(s, es[..|es| - 1], origin, first)) && InStep(Run(s, es), origin, first)
  }

  predicate AlwaysGuarded(s: State, es: seq<Event>, origin: Address) {
    es != [] ==> AlwaysGuarded(s, es[..|es| - 1], origin) && Guard(Run(s, es[..|es| - 1]), es[|es| - 1], origin)
  }

  /** For every run under one origin: the queued transactions' nonces and the origin's delegation
      nonces form one gap-free, repeat-free interval in consumption order throughout the run, if and
      only if every step is guarded. */
  lemma {:induction false} NoncesInStepIffGuarded(s: State, es: seq<Event>, origin: Address)
    requires Initial(s) && Legal(es, origin)
    ensures AlwaysInStep(s, es, origin, Nonce(s.nonces, origin)) <==> AlwaysGuarded(s, es, origin)
    ensures UnderOrigin(Run(s, es), origin)
  {
    var first := Nonce(s.nonces, origin);
    if es == [] {
    } else {
      NoncesInStepIffGuarded(s, es[..|es| - 1], origin);
      UnderOriginStep(Run(s, es[..|es| - 1]), es[|es| - 1], origin);
      if AlwaysInStep(s, es[..|es| - 1], origin, first) {
        StepIffGuarded(Run(s, es[..|es| - 1]), es[|es| - 1], origin, first);
      }
    }
  }

  lemma UnderOriginStep(s: State, e: Event, origin: Address)
    requires UnderOrigin(s, origin) && Enabled(e, origin)
    ensures UnderOrigin(Step(s, e), origin)
  {
  }

  // ---------------------------------------------------------------------------------------------
  // Pending delegations of any authority
  // ---------------------------------------------------------------------------------------------

  /** Over every run, guarded or not, the pending delegations of each authority have consecutive
      nonces. */
  lemma {:induction false} PendingConsecutive(s: State, es: seq<Event>, a: Address)
    requires s.pending == []
    ensures var own := NoncesOf(Run(s, es).pending, a); own != [] ==> CountsFrom(own, own[0])
  {
    if es != [] {
      PendingConsecutive(s, es[..|es| - 1], a);
      PendingStep(Run(s, es[..|es| - 1]), es[|es| - 1], a);
    }
  }

  lemma PendingStep(s: State, e: Event, a: Address)
    requires var own := NoncesOf(s.pending, a); own != [] ==> CountsFrom(own, own[0])
    ensures var own := NoncesOf(Step(s, e).pending, a); own != [] ==> CountsFrom(own, own[0])
  {
    assert NoncesOf([], a) == [];
    hide NoncesOf, NextDelegationNonce;
    if e.AttachEvent? && Attach(s, e.auth).1.Accepted? {
      var own := NoncesOf(s.pending, a);
      NextNonceMeaning(s.pending, a, s.broadcast, Nonce(s.nonces, a));
      NoncesOfSnoc(s.pending, e.auth, a);
      CountsConcat(own, [e.auth.nonce], if own == [] then e.auth.nonce else own[0]);
    }
  }

  // ---------------------------------------------------------------------------------------------
  // The chain the queue is sent to
  // ---------------------------------------------------------------------------------------------

  /** The Behavior section of EIP-7702: an authorization counts, and uses up one nonce of its
      authority, only if it names the authority's nonce at that point; otherwise it is skipped. */
  function ApplyAuths(nonces: Nonces, auths: seq<Auth>): Nonces {
    if auths == [] then nonces
    else
      var before, last := ApplyAuths(nonces, auths[..|auths| - 1]), auths[|auths| - 1];
      if last.authority.Some? && Nonce(before, last.authority.value) == last.nonce
      then before[last.authority.value := last.nonce + 1]
      else before
  }

  /** No authorization of `a` is skipped. */
  predicate AuthsHonoured(nonces: Nonces, auths: seq<Auth>, a: Address) {
    auths != [] ==>
      && AuthsHonoured(nonces, auths[..|auths| - 1], a)
      && var before, last := ApplyAuths(nonces, auths[..|auths| - 1]), auths[|auths| - 1];
         (last.authority == Some(a) ==> Nonce(before, a) == last.nonce)
  }

  /** The sender's nonce is used up first, then the authorizations in list order. */
  function Charged(nonces: Nonces, tx: Tx): Nonces {
    nonces[tx.from := Nonce(nonces, tx.from) + 1]
  }

  function Chain(nonces: Nonces, txs: seq<Tx>): Nonces {
    if txs == [] then nonces
    else
      var last := txs[|txs| - 1];
      ApplyAuths(Charged(Chain(nonces, txs[..|txs| - 1]), last), last.auths)
  }

  /** Mined in order, every transaction of `a` names the right nonce and no authorization of `a` is
      skipped. */
  predicate Honoured(nonces: Nonces, txs: seq<Tx>, a: Address) {
    txs != [] ==>
      && Honoured(nonces, txs[..|txs| - 1], a)
      && var before, last := Chain(nonces, txs[..|txs| - 1]), txs[|txs| - 1];
         && (last.from == a ==> Nonce(before, a) == last.nonce)
         && AuthsHonoured(Charged(before, last), last.auths, a)
  }

  lemma {:induction false} AuthsHonouredIff(nonces: Nonces, auths: seq<Auth>, a: Address)
    ensures AuthsHonoured(nonces, auths, a) <==> CountsFrom(NoncesOf(auths, a), Nonce(nonces, a))
    ensures AuthsHonoured(nonces, auths, a) ==>
              Nonce(ApplyAuths(nonces, auths), a) == Nonce(nonces, a) + |NoncesOf(auths, a)|
  {
    if auths != [] {
      var before, last := auths[..|auths| - 1], auths[|auths| - 1];
      AuthsHonouredIff(nonces, before, a);
      if last.authority == Some(a) {
        CountsConcat(NoncesOf(before, a), [last.nonce], Nonce(nonces, a));
        CountsSingle(last.nonce, Nonce(nonces, a) + |NoncesOf(before, a)|);
      }
    }
  }

  lemma TxHonouredIff(nonces: Nonces, tx: Tx, a: Address)
    ensures (tx.from == a ==> Nonce(nonces, a) == tx.nonce) && AuthsHonoured(Charged(nonces, tx), tx.auths, a)
            <==> CountsFrom(ConsumedBy(tx, a), Nonce(nonces, a))
    ensures CountsFrom(ConsumedBy(tx, a), Nonce(nonces, a)) ==>
              Nonce(ApplyAuths(Charged(nonces, tx), tx.auths), a) == Nonce(nonces, a) + |ConsumedBy(tx, a)|
  {
    hide NoncesOf, CountsFrom, ApplyAuths, AuthsHonoured;
    AuthsHonouredIff(Charged(nonces, tx), tx.auths, a);
    CountsConcat([tx.nonce], NoncesOf(tx.auths, a), Nonce(nonces, a));
    CountsSingle(tx.nonce, Nonce(nonces, a));
  }

  /** For any queue and any account: the chain honours the account's transactions and authorizations
      exactly when the nonces they name count up from the account's nonce. */
  lemma {:induction false} HonouredIff(nonces: Nonces, txs: seq<Tx>, a: Address)
    ensures Honoured(nonces, txs, a) <==> CountsFrom(Consumed(txs, a), Nonce(nonces, a))
    ensures Honoured(nonces, txs, a) ==> Nonce(Chain(nonces, txs), a) == Nonce(nonces, a) + |Consumed(txs, a)|
  {
    if txs != [] {
      var before, last := txs[..|txs| - 1], txs[|txs| - 1];
      HonouredIff(nonces, before, a);
      TxHonouredIff(Chain(nonces, before), last, a);
      CountsConcat(Consumed(before, a), ConsumedBy(last, a), Nonce(nonces, a));
    }
  }

  /** The call hook is about to queue a transaction. */
  predicate Queues(s: State, e: Event) {
    e.CallEvent? && Applies(s, e.depth, e.caller) && !e.isStatic && !(s.blob && s.pending != [])
  }

  /** The chain that mines the queue in order honours every transaction and every authorization of the
      origin, and ends at the nonce the simulation has come to. */
  predicate ChainAgrees(nonces: Nonces, s: State, origin: Address) {
    Honoured(nonces, s.txs, origin) && Nonce(Chain(nonces, s.txs), origin) == Nonce(s.nonces, origin)
  }

  predicate ChainAlwaysAgrees(s: State, es: seq<Event>, origin: Address) {
    && (es != [] ==> ChainAlwaysAgrees(s, es[..|es| - 1], origin))
    && ChainAgrees(s.nonces, Run(s, es), origin)
  }

  /** What a step must satisfy, readable before it: a transaction that is queued takes along delegations
      of the origin that name the nonces after its own, and a broadcast create enters its frame. */
  predicate QueueGuard(s: State, e: Event, origin: Address) {
    && (Queues(s, e) ==> CountsFrom(NoncesOf(s.pending, origin), Nonce(s.nonces, origin) + 1))
    && (e.CreateEvent? && CreateApplies(s, e.depth, e.caller) ==> e.entered)
  }

  predicate AlwaysQueueGuarded(s: State, es: seq<Event>, origin: Address) {
    es != [] ==>
      AlwaysQueueGuarded(s, es[..|es| - 1], origin) && QueueGuard(Run(s, es[..|es| - 1]), es[|es| - 1], origin)
  }

  /** The same in terms of the nonces that the queue names. */
  lemma ChainAgreesIff(nonces: Nonces, s: State, origin: Address)
    ensures ChainAgrees(nonces, s, origin) <==>
              var queued, first := Consumed(s.txs, origin), Nonce(nonces, origin);
              CountsFrom(queued, first) && first + |queued| == Nonce(s.nonces, origin)
  {
    hide Honoured, Chain, Consumed, CountsFrom;
    HonouredIff(nonces, s.txs, origin);
  }

  lemma QueueCallStep(nonces: Nonces, s: State, e: Event, origin: Address)
    requires ChainAgrees(nonces, s, origin) && UnderOrigin(s, origin) && Queues(s, e)
    ensures ChainAgrees(nonces, Step(s, e), origin) <==> QueueGuard(s, e, origin)
  {
    hide Honoured, Chain, Consumed, CountsFrom, NoncesOf, ChainAgrees;
    var n, own, first := Nonce(s.nonces, origin), NoncesOf(s.pending, origin), Nonce(nonces, origin);
    ChainAgreesIff(nonces, s, origin);
    ChainAgreesIff(nonces, Step(s, e), origin);
    ConsumedSnoc(s.txs, Tx(origin, n, s.pending), origin);
    CountsSingle(n, n);
    CountsConcat([n], own, n);
    CountsConcat(Consumed(s.txs, origin), [n] + own, first);
  }

  lemma QueueCreateStep(nonces: Nonces, s: State, e: Event, origin: Address)
    requires ChainAgrees(nonces, s, origin) && UnderOrigin(s, origin) && e.CreateEvent?
    requires CreateApplies(s, e.depth, e.caller)
    ensures ChainAgrees(nonces, Step(s, e), origin) <==> QueueGuard(s, e, origin)
  {
    hide Honoured, Chain, Consumed, ConsumedBy, CountsFrom, NoncesOf, ChainAgrees;
    var n, first := Nonce(s.nonces, origin), Nonce(nonces, origin);
    ChainAgreesIff(nonces, s, origin);
    ChainAgreesIff(nonces, Step(s, e), origin);
    PlainTx(origin, n);
    ConsumedSnoc(s.txs, Tx(origin, n, []), origin);
    CountsSingle(n, n);
    CountsConcat(Consumed(s.txs, origin), [n], first);
  }

  /** Exactly the guarded steps keep the chain in agreement with the simulation. */
  lemma ChainStepIffGuarded(nonces: Nonces, s: State, e: Event, origin: Address)
    requires ChainAgrees(nonces, s, origin) && UnderOrigin(s, origin)
    ensures ChainAgrees(nonces, Step(s, e), origin) <==> QueueGuard(s, e, origin)
  {
    hide Honoured, Chain, CountsFrom, NoncesOf;
    if Queues(s, e) {
      QueueCallStep(nonces, s, e, origin);
    } else if e.CreateEvent? && CreateApplies(s, e.depth, e.caller) {
      QueueCreateStep(nonces, s, e, origin);
    } else {
      assert Step(s, e).txs == s.txs && Step(s, e).nonces == s.nonces;
    }
  }

  /** For every run under one origin: throughout the run the chain honours every transaction and every
      authorization of the origin and ends at the simulated nonce, if and only if every step is
      guarded. */
  lemma {:induction false} QueueHonouredIffGuarded(s: State, es: seq<Event>, origin: Address)
    requires Initial(s) && Legal(es, origin)
    ensures ChainAlwaysAgrees(s, es, origin) <==> AlwaysQueueGuarded(s, es, origin)
    ensures UnderOrigin(Run(s, es), origin)
  {
    if es != [] {
      var before, e := es[..|es| - 1], es[|es| - 1];
      QueueHonouredIffGuarded(s, before, origin);
      hide ChainAgrees, QueueGuard;
      if ChainAlwaysAgrees(s, before, origin) {
        ChainStepIffGuarded(s.nonces, Run(s, before), e, origin);
      }
      UnderOriginStep(Run(s, before), e, origin);
    }
  }

  /** In particular, over every run that keeps the nonces in one interval, the chain that mines the queue
      in order honours every transaction and every authorization of the origin, and ends at the nonce
      the simulation ended at. */
  lemma QueueIsHonoured(s: State, es: seq<Event>, origin: Address)
    requires Initial(s) && Legal(es, origin) && AlwaysGuarded(s, es, origin)
    ensures Honoured(s.nonces, Run(s, es).txs, origin)
    ensures Nonce(Chain(s.nonces, Run(s, es).txs), origin) == Nonce(Run(s, es).nonces, origin)
  {
    NoncesInStepIffGuarded(s, es, origin);
    HonouredIff(s.nonces, Run(s, es).txs, origin);
  }

  // ---------------------------------------------------------------------------------------------
  // Authorities other than the origin: their account nonce is not advanced by the simulation
  // ---------------------------------------------------------------------------------------------

  predicate OthersRestart(s: State, a: Address, n: nat) {
    && Nonce(s.nonces, a) == n
    && CountsFrom(NoncesOf(s.pending, a), n)
    && forall i :: 0 <= i < |s.txs| ==> s.txs[i].from != a && CountsFrom(NoncesOf(s.txs[i].auths, a), n)
  }

  lemma OthersStep(s: State, e: Event, origin: Address, a: Address, n: nat)
    requires OthersRestart(s, a, n) && UnderOrigin(s, origin) && Enabled(e, origin) && a != origin
    ensures OthersRestart(Step(s, e), a, n)
  {
    hide NoncesOf, CountsFrom, NextDelegationNonce;
    PlainTx(a, n);
    CountsSingle(n, n);
    if e.AttachEvent? {
      var own := NoncesOf(s.pending, a);
      NextNonceMeaning(s.pending, a, s.broadcast, n);
      NoncesOfSnoc(s.pending, e.auth, a);
      CountsConcat(own, [e.auth.nonce], n);
      CountsSingle(e.auth.nonce, n + |own|);
      if own != [] {
        CountsEnds(own, n);
      }
    }
  }

  predicate AtMostOneCarries(txs: seq<Tx>, a: Address) {
    forall i, j :: 0 <= i < j < |txs| ==> NoncesOf(txs[i].auths, a) == [] || NoncesOf(txs[j].auths, a) == []
  }

  lemma {:induction false} ConsumedEmptyIff(txs: seq<Tx>, a: Address)
    requires forall i :: 0 <= i < |txs| ==> txs[i].from != a
    ensures Consumed(txs, a) == [] <==> forall i :: 0 <= i < |txs| ==> NoncesOf(txs[i].auths, a) == []
  {
    if txs != [] {
      ConsumedEmptyIff(txs[..|txs| - 1], a);
      assert txs == txs[..|txs| - 1] + [txs[|txs| - 1]];
    }
  }

  lemma {:induction false} RestartsCollide(txs: seq<Tx>, a: Address, n: nat)
    requires forall i :: 0 <= i < |txs| ==> txs[i].from != a && CountsFrom(NoncesOf(txs[i].auths, a), n)
    ensures CountsFrom(Consumed(txs, a), n) <==> AtMostOneCarries(txs, a)
  {
    if txs != [] {
      var k := |txs| - 1;
      var before, batch := Consumed(txs[..k], a), NoncesOf(txs[k].auths, a);
      RestartsCollide(txs[..k], a, n);
      ConsumedEmptyIff(txs[..k], a);
      CountsConcat(before, batch, n);
      if before != [] {
        CountsOnce(batch, n, n + |before|);
      }
      CarriesSnoc(txs, a);
    }
  }

  lemma CarriesSnoc(txs: seq<Tx>, a: Address)
    requires txs != []
    ensures var k := |txs| - 1;
            AtMostOneCarries(txs, a) <==>
              && AtMostOneCarries(txs[..k], a)
              && (NoncesOf(txs[k].auths, a) == [] || forall i :: 0 <= i < k ==> NoncesOf(txs[..k][i].auths, a) == [])
  {
    hide NoncesOf;
    var k := |txs| - 1;
    assert forall i :: 0 <= i < k ==> txs[..k][i] == txs[i];
  }

  lemma OthersHonouredIffOnce(s: State, es: seq<Event>, origin: Address, a: Address)
    requires Initial(s) && Legal(es, origin) && a != origin
    ensures Honoured(s.nonces, Run(s, es).txs, a) <==> AtMostOneCarries(Run(s, es).txs, a)
  {
    var n := Nonce(s.nonces, a);
    OthersAlways(s, es, origin, a);
    HonouredIff(s.nonces, Run(s, es).txs, a);
    RestartsCollide(Run(s, es).txs, a, n);
  }

  /** What a step must satisfy for another authority, readable before it: a transaction takes the
      authority's delegations along only if none that is queued already does. */
  predicate OthersGuard(s: State, e: Event, a: Address) {
    Queues(s, e) && NoncesOf(s.pending, a) != [] ==>
      forall i :: 0 <= i < |s.txs| ==> NoncesOf(s.txs[i].auths, a) == []
  }

  predicate AlwaysOthersGuarded(s: State, es: seq<Event>, a: Address) {
    es != [] ==> AlwaysOthersGuarded(s, es[..|es| - 1], a) && OthersGuard(Run(s, es[..|es| - 1]), es[|es| - 1], a)
  }

  /** What the queue becomes: as it was, or longer by one transaction, which carries the pending
      delegations or none. */
  lemma QueueStep(s: State, e: Event)
    ensures var txs := Step(s, e).txs;
            if Queues(s, e) then exists o, n :: txs == s.txs + [Tx(o, n, s.pending)]
            else txs == s.txs || exists o, n :: txs == s.txs + [Tx(o, n, [])]
  {
  }

  lemma CarriesMore(txs: seq<Tx>, tx: Tx, a: Address)
    ensures AtMostOneCarries(txs + [tx], a) <==>
              && AtMostOneCarries(txs, a)
              && (NoncesOf(tx.auths, a) == [] || forall i :: 0 <= i < |txs| ==> NoncesOf(txs[i].auths, a) == [])
  {
    hide NoncesOf, AtMostOneCarries;
    CarriesSnoc(txs + [tx], a);
    assert (txs + [tx])[..|txs|] == txs;
  }

  lemma CarriesStep(s: State, e: Event, a: Address)
    ensures AtMostOneCarries(Step(s, e).txs, a) <==> AtMostOneCarries(s.txs, a) && OthersGuard(s, e, a)
  {
    QueueStep(s, e);
    hide NoncesOf, AtMostOneCarries, Step, Queues;
    if Queues(s, e) {
      var o, n :| Step(s, e).txs == s.txs + [Tx(o, n, s.pending)];
      CarriesMore(s.txs, Tx(o, n, s.pending), a);
    } else if Step(s, e).txs != s.txs {
      var o, n :| Step(s, e).txs == s.txs + [Tx(o, n, [])];
      CarriesMore(s.txs, Tx(o, n, []), a);
      PlainTx(a, 0);
    }
  }

  lemma {:induction false} CarriesIffGuarded(s: State, es: seq<Event>, a: Address)
    requires s.txs == []
    ensures AtMostOneCarries(Run(s, es).txs, a) <==> AlwaysOthersGuarded(s, es, a)
  {
    if es != [] {
      CarriesIffGuarded(s, es[..|es| - 1], a);
      CarriesStep(Run(s, es[..|es| - 1]), es[|es| - 1], a);
    }
  }

  /** Over every run, an authority other than the origin has all its authorizations honoured by the
      chain if and only if every step was guarded: the simulation does not advance the authority's
      nonce, and hands out the same nonces again for the next transaction. */
  lemma OthersHonouredIffGuarded(s: State, es: seq<Event>, origin: Address, a: Address)
    requires Initial(s) && Legal(es, origin) && a != origin
    ensures Honoured(s.nonces, Run(s, es).txs, a) <==> AlwaysOthersGuarded(s, es, a)
  {
    OthersHonouredIffOnce(s, es, origin, a);
    CarriesIffGuarded(s, es, a);
  }

  lemma {:induction false} OthersAlways(s: State, es: seq<Event>, origin: Address, a: Address)
    requires Initial(s) && Legal(es, origin) && a != origin
    ensures OthersRestart(Run(s, es), a, Nonce(s.nonces, a)) && UnderOrigin(Run(s, es), origin)
  {
    if es != [] {
      var r, e := Run(s, es[..|es| - 1]), es[|es| - 1];
      OthersAlways(s, es[..|es| - 1], origin, a);
      OthersStep(r, e, origin, a, Nonce(s.nonces, a));
      UnderOriginStep(r, e, origin);
    }
  }

  // ---------------------------------------------------------------------------------------------
  // What goes wrong outside the guard
  // ---------------------------------------------------------------------------------------------

  const ORIGIN: Address := 1
  const CALLER: Address := 9
  const ON := Settings(ORIGIN, CALLER, 1, false, false)
  const FRESH := State(None, [], false, [], map[])
  const OWN := Auth(Some(ORIGIN), 1)

  /** A create between the attachment and the call that carries it takes the delegation's nonce. */
  lemma CreateTakesPendingNonce()
    ensures var s := Step(Step(Step(Step(FRESH, StartEvent(ON)), AttachEvent(OWN)),
                               CreateEvent(1, CALLER, true)), CallEvent(1, CALLER, false));
            s.txs == [Tx(ORIGIN, 0, []), Tx(ORIGIN, 1, [OWN])]
  {
    var s1 := Step(FRESH, StartEvent(ON));
    var s2 := Step(s1, AttachEvent(OWN));
    var s3 := Step(s2, CreateEvent(1, CALLER, true));
    assert s2.pending == [OWN];
    assert s3.txs == [Tx(ORIGIN, 0, [])] && Nonce(s3.nonces, ORIGIN) == 1;
  }

  lemma TakenNonceIsNotHonoured()
    ensures !Honoured(map[], [Tx(ORIGIN, 0, []), Tx(ORIGIN, 1, [OWN])], ORIGIN)
  {
    hide Honoured, Consumed, NoncesOf;
    var first, second := Tx(ORIGIN, 0, []), Tx(ORIGIN, 1, [OWN]);
    HonouredIff(map[], [first] + [second], ORIGIN);
    PlainTx(ORIGIN, 0);
    NoncesOfOne(OWN, ORIGIN);
    ConsumedOne(first, ORIGIN);
    ConsumedSnoc([first], second, ORIGIN);
    assert ([0] + ([1] + [1]))[2] == 1;
    assert [first] + [second] == [first, second];
  }

  lemma NoncesOfOne(auth: Auth, a: Address)
    requires auth.authority == Some(a)
    ensures NoncesOf([auth], a) == [auth.nonce]
  {
    NoncesOfSnoc([], auth, a);
    assert [] + [auth] == [auth];
  }

  lemma ConsumedOne(tx: Tx, a: Address)
    ensures Consumed([tx], a) == ConsumedBy(tx, a)
  {
    ConsumedSnoc([], tx, a);
    assert [] + [tx] == [tx];
  }

  /** A delegation attached before the broadcast starts names the nonce of the transaction itself. */
  lemma EarlyAttachTakesTransactionNonce()
    ensures var auth := Auth(Some(ORIGIN), 0);
            var s := Step(Step(Step(FRESH, AttachEvent(auth)), StartEvent(ON)), CallEvent(1, CALLER, false));
            s.txs == [Tx(ORIGIN, 0, [auth])] && !Honoured(map[], s.txs, ORIGIN)
  {
    var auth := Auth(Some(ORIGIN), 0);
    var s1 := Step(FRESH, AttachEvent(auth));
    assert s1.pending == [auth];
    HonouredIff(map[], [Tx(ORIGIN, 0, [auth])], ORIGIN);
    NoncesOfOne(auth, ORIGIN);
    ConsumedOne(Tx(ORIGIN, 0, [auth]), ORIGIN);
    assert ([0] + [0])[1] == 0;
  }

  const OTHER: Address := 2
  const THEIRS := Auth(Some(OTHER), 0)
  const CALL_EVENT := CallEvent(1, CALLER, false)
  const ATTACH_ONCE := (([] + [StartEvent(ON)]) + [AttachEvent(THEIRS)]) + [CALL_EVENT]
  const ATTACH_TWICE := (ATTACH_ONCE + [AttachEvent(THEIRS)]) + [CALL_EVENT]

  lemma FirstAttached()
    ensures Step(Step(FRESH, StartEvent(ON)), AttachEvent(THEIRS)) == State(Some(ON), [THEIRS], false, [], map[])
  {
  }

  lemma RunOne(s: State, es: seq<Event>, e: Event)
    ensures Run(s, es + [e]) == Step(Run(s, es), e)
  {
    assert (es + [e])[..|es|] == es;
  }

  lemma FirstCarries()
    ensures Run(FRESH, ATTACH_ONCE) == State(Some(ON), [], false, [Tx(ORIGIN, 0, [THEIRS])], map[ORIGIN := 1])
  {
    hide Run;
    RunOne(FRESH, [], StartEvent(ON));
    RunOne(FRESH, [] + [StartEvent(ON)], AttachEvent(THEIRS));
    RunOne(FRESH, ([] + [StartEvent(ON)]) + [AttachEvent(THEIRS)], CALL_EVENT);
    RunNothing();
    FirstAttached();
    hide NoncesOf, Attach, Start;
    NoncesOfSnoc([], THEIRS, ORIGIN);
    PlainTx(ORIGIN, 0);
    assert [] + [THEIRS] == [THEIRS];
  }

  lemma RunNothing()
    ensures Run(FRESH, []) == FRESH
  {
  }

  lemma SecondCarries(s: State)
    requires s == State(Some(ON), [], false, [Tx(ORIGIN, 0, [THEIRS])], map[ORIGIN := 1])
    ensures Step(Step(s, AttachEvent(THEIRS)), CALL_EVENT).txs ==
              [Tx(ORIGIN, 0, [THEIRS]), Tx(ORIGIN, 1, [THEIRS])]
  {
    assert Step(s, AttachEvent(THEIRS)).pending == [THEIRS];
  }

  /** Two transactions that each carry a delegation of the same other authority name the same nonce,
      which the chain honours only once. */
  lemma SecondTransactionReusesNonce()
    ensures Run(FRESH, ATTACH_TWICE).txs == [Tx(ORIGIN, 0, [THEIRS]), Tx(ORIGIN, 1, [THEIRS])]
    ensures !Honoured(map[], Run(FRESH, ATTACH_TWICE).txs, OTHER)
  {
    hide Step, Run, Honoured, NoncesOf;
    RunOne(FRESH, ATTACH_ONCE, AttachEvent(THEIRS));
    RunOne(FRESH, ATTACH_ONCE + [AttachEvent(THEIRS)], CALL_EVENT);
    FirstCarries();
    SecondCarries(Run(FRESH, ATTACH_ONCE));
    OthersHonouredIffOnce(FRESH, ATTACH_TWICE, ORIGIN, OTHER);
    NoncesOfOne(THEIRS, OTHER);
    var txs := Run(FRESH, ATTACH_TWICE).txs;
    assert txs[0].auths == [THEIRS] && txs[1].auths == [THEIRS];
  }
}
