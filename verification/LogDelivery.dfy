/** Log delivery in anvil: a subscription that streams matching logs one by one and a filter that
    returns them in bulk, both fed by new-block notifications. */
module LogDelivery {
  import opened Wrappers

  type Hash = nat

  datatype RawLog = RawLog(address: nat, topics: seq<nat>, data: nat)

  datatype Block = Block(hash: Hash, number: nat, timestamp: nat, transactions: seq<Hash>)

  type Receipt = seq<RawLog>

  datatype Log = Log(
    inner: RawLog, blockHash: Hash, blockNumber: nat, transactionHash: Hash, transactionIndex: nat,
    logIndex: nat, blockTimestamp: nat)

  /** Whether a log of a block passes the filter's block range, block hash, address and topics. */
  type Filter = (Block, RawLog) -> bool

  /** The running log index is a 32-bit counter. */
  const INDEX_LIMIT: nat := 0x1_0000_0000

  // ---------------------------------------------------------------------------------------------
  // Matching logs of one block
  // ---------------------------------------------------------------------------------------------

  /** A log of a block with its transaction. */
  datatype Placed = Placed(tx: nat, hash: Hash, log: RawLog)

  function PlacedIn(tx: nat, hash: Hash, receipt: Receipt): seq<Placed> {
    seq(|receipt|, i requires 0 <= i < |receipt| => Placed(tx, hash, receipt[i]))
  }

  /** All logs of a block, in order. */
  function AllLogs(transactions: seq<Hash>, receipts: seq<Receipt>): seq<Placed>
    requires |receipts| <= |transactions|
  {
    if receipts == [] then []
    else
      var n := |receipts| - 1;
      AllLogs(transactions, receipts[..n]) + PlacedIn(n, transactions[n], receipts[n])
  }

  /** The delivered form of the log at position `p`. */
  function Stamp(block: Block, placed: Placed, p: nat): Log {
    Log(placed.log, block.hash, block.number, placed.hash, placed.tx, p % INDEX_LIMIT, block.timestamp)
  }

  /** The matching logs among `all`, each stamped with its position there. */
  function Select(block: Block, all: seq<Placed>, filter: Filter): seq<Log> {
    if all == [] then []
    else
      var n := |all| - 1;
      var before := Select(block, all[..n], filter);
      if filter(block, all[n].log) then before + [Stamp(block, all[n], n)] else before
  }

  function Matching(block: Block, receipts: seq<Receipt>, filter: Filter): seq<Log>
    requires |receipts| <= |block.transactions|
  {
    Select(block, AllLogs(block.transactions, receipts), filter)
  }

  lemma SelectSnoc(block: Block, all: seq<Placed>, placed: Placed, filter: Filter)
    ensures Select(block, all + [placed], filter) ==
              if filter(block, placed.log) then Select(block, all, filter) + [Stamp(block, placed, |all|)]
              else Select(block, all, filter)
  {
    assert (all + [placed])[..|all|] == all;
  }

  /** The function in its own form: nested loops with a running index. */
  method FilterLogs(block: Block, receipts: seq<Receipt>, filter: Filter) returns (logs: seq<Log>)
    requires |receipts| <= |block.transactions|
    ensures logs == Matching(block, receipts, filter)
  {
    hide Select;
    logs := [];
    var logIndex := 0;
    ghost var all: seq<Placed> := [];
    SelectNothing(block, filter);
    for r := 0 to |receipts|
      invariant all == AllLogs(block.transactions, receipts[..r])
      invariant logIndex == |all| % INDEX_LIMIT
      invariant logs == Select(block, all, filter)
    {
      var hash := block.transactions[r];
      ghost var start, placed := all, PlacedIn(r, hash, receipts[r]);
      for i := 0 to |receipts[r]|
        invariant all == start + placed[..i]
        invariant logIndex == |all| % INDEX_LIMIT
        invariant logs == Select(block, all, filter)
      {
        var log := receipts[r][i];
        SelectSnoc(block, all, Placed(r, hash, log), filter);
        if filter(block, log) {
          logs := logs + [Log(log, block.hash, block.number, hash, r, logIndex, block.timestamp)];
        }
        NextIndex(|all|);
        logIndex := (logIndex + 1) % INDEX_LIMIT;
        all := all + [Placed(r, hash, log)];
      }
      assert placed[..|receipts[r]|] == placed;
      assert receipts[..r + 1][..r] == receipts[..r];
    }
    assert receipts[..|receipts|] == receipts;
  }

  lemma SelectNothing(block: Block, filter: Filter)
    ensures Select(block, [], filter) == []
  {
  }

  lemma NextIndex(n: nat)
    ensures (n % INDEX_LIMIT + 1) % INDEX_LIMIT == (n + 1) % INDEX_LIMIT
  {
  }

  /** Which logs were selected: `ps` are the positions of exactly the matching logs, in order, and the
      result lists the logs at these positions. */
  ghost predicate Selects(block: Block, all: seq<Placed>, filter: Filter, logs: seq<Log>, ps: seq<nat>) {
    && |logs| == |ps|
    && (forall i :: 0 <= i < |ps| ==>
          ps[i] < |all| && filter(block, all[ps[i]].log) && logs[i] == Stamp(block, all[ps[i]], ps[i]))
    && (forall i, j :: 0 <= i < j < |ps| ==> ps[i] < ps[j])
    && (forall p :: 0 <= p < |all| && filter(block, all[p].log) ==> p in ps)
  }

  /** Selection keeps exactly the matching logs, in order, each with its position among all logs of the
      block, so the log index does not depend on the filter. */
  lemma {:induction false} SelectMeaning(block: Block, all: seq<Placed>, filter: Filter) returns (ps: seq<nat>)
    ensures Selects(block, all, filter, Select(block, all, filter), ps)
  {
    if all == [] {
      ps := [];
    } else {
      var n := |all| - 1;
      ps := SelectMeaning(block, all[..n], filter);
      if filter(block, all[n].log) {
        ps := ps + [n];
      }
    }
  }

  /** With no more logs in a block than the counter can tell apart, a delivered log is the one that
      stands at its log index. */
  lemma LogIndexIsPosition(block: Block, all: seq<Placed>, filter: Filter, i: nat)
    requires |all| <= INDEX_LIMIT && i < |Select(block, all, filter)|
    ensures var l := Select(block, all, filter)[i];
            && l.logIndex < |all| && filter(block, l.inner)
            && all[l.logIndex] == Placed(l.transactionIndex, l.transactionHash, l.inner)
            && l.blockHash == block.hash && l.blockNumber == block.number && l.blockTimestamp == block.timestamp
  {
    var ps := SelectMeaning(block, all, filter);
    hide Select;
    assert Select(block, all, filter)[i] == Stamp(block, all[ps[i]], ps[i]);
  }

  // ---------------------------------------------------------------------------------------------
  // The two consumers
  // ---------------------------------------------------------------------------------------------

  /** What the node has stored under a block hash: a block and its receipts, if both are there. */
  datatype Stored = Stored(block: Block, receipts: seq<Receipt>)

  type Store = map<Hash, Stored>

  predicate Consistent(store: Store) {
    forall h :: h in store ==> |store[h].receipts| <= |store[h].block.transactions|
  }

  /** The matching logs of a notified block; none if it is not stored. */
  function LogsOf(store: Store, filter: Filter, h: Hash): seq<Log>
    requires Consistent(store)
  {
    if h in store then Matching(store[h].block, store[h].receipts, filter) else []
  }

  function LogsOfAll(store: Store, filter: Filter, hs: seq<Hash>): seq<Log>
    requires Consistent(store)
  {
    if hs == [] then [] else LogsOfAll(store, filter, hs[..|hs| - 1]) + LogsOf(store, filter, hs[|hs| - 1])
  }

  lemma {:induction false} LogsOfAllConcat(store: Store, filter: Filter, x: seq<Hash>, y: seq<Hash>)
    requires Consistent(store)
    ensures LogsOfAll(store, filter, x + y) == LogsOfAll(store, filter, x) + LogsOfAll(store, filter, y)
  {
    hide LogsOf;
    if y == [] {
      assert x + y == x;
    } else {
      var n := |y| - 1;
      LogsOfAllConcat(store, filter, x, y[..n]);
      assert (x + y)[..|x + y| - 1] == x + y[..n];
      Assoc(LogsOfAll(store, filter, x), LogsOfAll(store, filter, y[..n]), LogsOf(store, filter, y[n]));
    }
  }

  lemma LogsOfNone(store: Store, filter: Filter)
    requires Consistent(store)
    ensures LogsOfAll(store, filter, []) == []
  {
  }

  lemma LogsOfOne(store: Store, filter: Filter, h: Hash)
    requires Consistent(store)
    ensures LogsOfAll(store, filter, [h]) == LogsOf(store, filter, h)
  {
    assert [h][..0] == [];
  }

  lemma OneMore(store: Store, filter: Filter, past: seq<Log>, all: seq<Hash>, k: nat)
    requires Consistent(store) && k < |all|
    ensures past + LogsOfAll(store, filter, all[..k + 1]) ==
              (past + LogsOfAll(store, filter, all[..k])) + LogsOf(store, filter, all[k])
  {
    hide LogsOf;
    assert all[..k + 1][..k] == all[..k];
    Assoc(past, LogsOfAll(store, filter, all[..k]), LogsOf(store, filter, all[k]));
  }

  /** Block and receipts are looked up; if both are there, the block's logs are filtered. */
  method Fetch(store: Store, filter: Filter, h: Hash) returns (logs: seq<Log>)
    requires Consistent(store)
    ensures logs == LogsOf(store, filter, h)
  {
    if h in store {
      logs := FilterLogs(store[h].block, store[h].receipts, filter);
    } else {
      logs := [];
    }
  }

  /** Notified hashes not yet taken from the channel, and whether its sender is gone. */
  datatype Channel = Channel(pending: seq<Hash>, closed: bool)

  datatype PollResult = Ready(log: Log) | Ended | Pending

  datatype Subscription = Subscription(channel: Channel, queued: seq<Log>)

  /** The first pending block is consumed. */
  function Taken(store: Store, filter: Filter, s: Subscription): Subscription
    requires Consistent(store) && s.channel.pending != []
  {
    Subscription(s.channel.(pending := s.channel.pending[1..]), LogsOf(store, filter, s.channel.pending[0]))
  }

  /** One poll of a subscription: at most one log is handed out. */
  function PollSubscription(store: Store, filter: Filter, s: Subscription): (Subscription, PollResult)
    requires Consistent(store)
    decreases |s.channel.pending|
  {
    if s.queued != [] then (s.(queued := s.queued[1..]), Ready(s.queued[0]))
    else if s.channel.pending == [] then (s, if s.channel.closed then Ended else Pending)
    else
      var next := Taken(store, filter, s);
      if s.channel.pending[0] !in store then (next, Pending) else PollSubscription(store, filter, next)
  }

  class LogsSubscription {
    var channel: Channel
    var queued: seq<Log>

    constructor (channel: Channel)
      ensures Value() == Subscription(channel, [])
    {
      this.channel, queued := channel, [];
    }

    function Value(): Subscription
      reads this
    {
      Subscription(channel, queued)
    }

    method Poll(store: Store, filter: Filter) returns (r: PollResult)
      requires Consistent(store)
      modifies this
      ensures (Value(), r) == PollSubscription(store, filter, old(Value()))
    {
      hide Matching;
      while true
        invariant PollSubscription(store, filter, Value()) == PollSubscription(store, filter, old(Value()))
        decreases |channel.pending|, |queued|
      {
        if queued != [] {
          var log := queued[0];
          queued := queued[1..];
          return Ready(log);
        }
        if channel.pending == [] {
          return if channel.closed then Ended else Pending;
        }
        var h := channel.pending[0];
        channel := channel.(pending := channel.pending[1..]);
        if h in store {
          var logs := FilterLogs(store[h].block, store[h].receipts, filter);
          if logs == [] {
            continue;
          }
          queued := logs;
        }
        if queued == [] {
          return Pending;
        }
      }
    }
  }

  class LogsFilter {
    var channel: Channel
    var historic: Option<seq<Log>>

    constructor (channel: Channel, historic: Option<seq<Log>>)
      ensures this.channel == channel && this.historic == historic
    {
      this.channel, this.historic := channel, historic;
    }

    /** Everything since the last poll; the historic logs once. */
    method Poll(store: Store, filter: Filter) returns (logs: seq<Log>)
      requires Consistent(store)
      modifies this
      ensures channel == old(channel).(pending := []) && historic == None
      ensures logs == (if old(historic).Some? then old(historic).value else []) +
                      LogsOfAll(store, filter, old(channel).pending)
    {
      hide LogsOfAll, LogsOf, Matching;
      LogsOfNone(store, filter);
      var past := if historic.Some? then historic.value else [];
      historic := None;
      logs := past;
      ghost var k, all := 0, channel.pending;
      assert all[..0] == [] && all[0..] == all && past + [] == past;
      while channel.pending != []
        invariant historic == None && channel.closed == old(channel).closed
        invariant k <= |all| && channel.pending == all[k..]
        invariant logs == past + LogsOfAll(store, filter, all[..k])
        decreases |all| - k
      {
        var h := channel.pending[0];
        channel := channel.(pending := channel.pending[1..]);
        OneMore(store, filter, past, all, k);
        var more := Fetch(store, filter, h);
        logs := logs + more;
        k := k + 1;
      }
      assert all[..|all|] == all;
    }
  }

  // ---------------------------------------------------------------------------------------------
  // Runs: the same notifications reach a subscription and a filter, polled at any times
  // ---------------------------------------------------------------------------------------------

  datatype Event = Notify(h: Hash) | Close | PollTheSubscription | PollTheFilter

  /** `emitted` and `returned` are what the consumers have handed out, `returned` without the historic
      logs; the `taken` lists are the blocks they have consumed. */
  datatype State = State(
    notified: seq<Hash>,
    sub: Subscription, emitted: seq<Log>, subTaken: seq<Hash>,
    filterChannel: Channel, returned: seq<Log>, filterTaken: seq<Hash>)

  const START := State([], Subscription(Channel([], false), []), [], [], Channel([], false), [], [])

  function Send(c: Channel, h: Hash): Channel {
    c.(pending := c.pending + [h])
  }

  function Step(store: Store, filter: Filter, s: State, e: Event): State
    requires Consistent(store)
  {
    match e
    case Notify(h) =>
      if s.sub.channel.closed || s.filterChannel.closed then s
      else s.(notified := s.notified + [h],
              sub := s.sub.(channel := Send(s.sub.channel, h)),
              filterChannel := Send(s.filterChannel, h))
    case Close =>
      s.(sub := s.sub.(channel := s.sub.channel.(closed := true)), filterChannel := s.filterChannel.(closed := true))
    case PollTheSubscription =>
      var (next, r) := PollSubscription(store, filter, s.sub);
      var used := |s.sub.channel.pending| - |next.channel.pending|;
      s.(sub := next,
         emitted := if r.Ready? then s.emitted + [r.log] else s.emitted,
         subTaken := s.subTaken + if 0 <= used <= |s.sub.channel.pending| then s.sub.channel.pending[..used] else [])
    case PollTheFilter =>
      s.(filterChannel := s.filterChannel.(pending := []),
         returned := s.returned + LogsOfAll(store, filter, s.filterChannel.pending),
         filterTaken := s.filterTaken + s.filterChannel.pending)
  }

  function Run(store: Store, filter: Filter, es: seq<Event>): State
    requires Consistent(store)
  {
    if es == [] then START else Step(store, filter, Run(store, filter, es[..|es| - 1]), es[|es| - 1])
  }

  function Out(r: PollResult): seq<Log> {
    if r.Ready? then [r.log] else []
  }

  /** From `s` to `next` a prefix of the pending blocks was consumed, and what was emitted and is left
      queued is what was queued and the matching logs of those blocks, in order. */
  predicate Conserves(store: Store, filter: Filter, s: Subscription, next: Subscription, out: seq<Log>)
    requires Consistent(store)
  {
    var used := |s.channel.pending| - |next.channel.pending|;
    && 0 <= used <= |s.channel.pending|
    && next.channel == s.channel.(pending := s.channel.pending[used..])
    && out + next.queued == s.queued + LogsOfAll(store, filter, s.channel.pending[..used])
  }

  lemma NothingTaken(store: Store, filter: Filter, s: Subscription, next: Subscription, out: seq<Log>)
    requires Consistent(store) && next.channel == s.channel && out + next.queued == s.queued
    ensures Conserves(store, filter, s, next, out)
  {
    hide LogsOfAll;
    LogsOfNone(store, filter);
    assert s.channel.pending[..0] == [] && s.channel.pending[0..] == s.channel.pending;
    assert s.queued + [] == s.queued;
  }

  lemma OneTaken(store: Store, filter: Filter, s: Subscription)
    requires Consistent(store) && s.queued == [] && s.channel.pending != []
    ensures Conserves(store, filter, s, Taken(store, filter, s), [])
  {
    hide LogsOfAll, LogsOf;
    LogsOfOne(store, filter, s.channel.pending[0]);
    assert s.channel.pending[..1] == [s.channel.pending[0]];
  }

  lemma OneThenRest(store: Store, filter: Filter, s: Subscription, next: Subscription, out: seq<Log>)
    requires Consistent(store) && s.queued == [] && s.channel.pending != []
    requires Conserves(store, filter, Taken(store, filter, s), next, out)
    ensures Conserves(store, filter, s, next, out)
  {
    hide LogsOfAll, LogsOf;
    var pending := s.channel.pending;
    var h, rest := pending[0], pending[1..];
    var used := |rest| - |next.channel.pending|;
    assert rest[used..] == pending[used + 1..];
    assert pending[..used + 1] == [h] + rest[..used];
    LogsOfAllConcat(store, filter, [h], rest[..used]);
    LogsOfOne(store, filter, h);
    assert [] + LogsOfAll(store, filter, pending[..used + 1]) == LogsOfAll(store, filter, pending[..used + 1]);
  }

  /** A poll consumes a prefix of the pending blocks, and neither loses, repeats nor reorders a log. */
  lemma {:induction false} PollConserves(store: Store, filter: Filter, s: Subscription)
    requires Consistent(store)
    ensures var (next, r) := PollSubscription(store, filter, s); Conserves(store, filter, s, next, Out(r))
    decreases |s.channel.pending|
  {
    hide Conserves, LogsOf, Consistent;
    var (next, r) := PollSubscription(store, filter, s);
    if s.queued != [] {
      assert [s.queued[0]] + s.queued[1..] == s.queued;
      NothingTaken(store, filter, s, next, Out(r));
    } else if s.channel.pending == [] {
      NothingTaken(store, filter, s, next, Out(r));
    } else if s.channel.pending[0] !in store {
      OneTaken(store, filter, s);
    } else {
      PollConserves(store, filter, Taken(store, filter, s));
      OneThenRest(store, filter, s, next, Out(r));
    }
  }

  /** Nothing is lost, repeated or reordered by either consumer. */
  predicate Inv(store: Store, filter: Filter, s: State)
    requires Consistent(store)
  {
    && s.subTaken + s.sub.channel.pending == s.notified
    && s.filterTaken + s.filterChannel.pending == s.notified
    && s.emitted + s.sub.queued == LogsOfAll(store, filter, s.subTaken)
    && s.returned == LogsOfAll(store, filter, s.filterTaken)
  }

  lemma PollSubStep(store: Store, filter: Filter, s: State)
    requires Consistent(store) && Inv(store, filter, s)
    ensures Inv(store, filter, Step(store, filter, s, PollTheSubscription))
  {
    hide LogsOfAll, PollSubscription;
    PollConserves(store, filter, s.sub);
    var (next, r) := PollSubscription(store, filter, s.sub);
    var pending := s.sub.channel.pending;
    var used := |pending| - |next.channel.pending|;
    LogsOfAllConcat(store, filter, s.subTaken, pending[..used]);
    assert pending[..used] + pending[used..] == pending;
    Assoc(s.subTaken, pending[..used], pending[used..]);
    Assoc(s.emitted, Out(r), next.queued);
    Assoc(s.emitted, s.sub.queued, LogsOfAll(store, filter, pending[..used]));
    assert s.emitted + [] == s.emitted;
  }

  lemma InvStep(store: Store, filter: Filter, s: State, e: Event)
    requires Consistent(store) && Inv(store, filter, s)
    ensures Inv(store, filter, Step(store, filter, s, e))
  {
    match e
    case Notify(h) =>
      assert s.subTaken + (s.sub.channel.pending + [h]) == s.subTaken + s.sub.channel.pending + [h];
      assert s.filterTaken + (s.filterChannel.pending + [h]) == s.filterTaken + s.filterChannel.pending + [h];
    case Close =>
    case PollTheSubscription => PollSubStep(store, filter, s);
    case PollTheFilter => LogsOfAllConcat(store, filter, s.filterTaken, s.filterChannel.pending);
  }

  /** For every notification sequence and polling schedule. */
  lemma {:induction false} AlwaysConserved(store: Store, filter: Filter, es: seq<Event>)
    requires Consistent(store)
    ensures Inv(store, filter, Run(store, filter, es))
  {
    if es != [] {
      AlwaysConserved(store, filter, es[..|es| - 1]);
      InvStep(store, filter, Run(store, filter, es[..|es| - 1]), es[|es| - 1]);
    }
  }

  /** Over the same consumed blocks, what the subscription emitted and still queues is exactly what the
      filter returned; before that, the one that has consumed less is a prefix of the other. */
  lemma ConsumersAgree(store: Store, filter: Filter, es: seq<Event>)
    requires Consistent(store)
    ensures var s := Run(store, filter, es);
            && (s.subTaken == s.filterTaken ==> s.emitted + s.sub.queued == s.returned)
            && (|s.subTaken| <= |s.filterTaken| ==> s.emitted + s.sub.queued <= s.returned)
            && (|s.filterTaken| <= |s.subTaken| ==> s.returned <= s.emitted + s.sub.queued)
  {
    AlwaysConserved(store, filter, es);
    var s := Run(store, filter, es);
    if |s.subTaken| <= |s.filterTaken| {
      TakenPrefix(s.subTaken, s.filterTaken, s.sub.channel.pending, s.filterChannel.pending);
      LogsOfAllConcat(store, filter, s.subTaken, s.filterTaken[|s.subTaken|..]);
    }
    if |s.filterTaken| <= |s.subTaken| {
      TakenPrefix(s.filterTaken, s.subTaken, s.filterChannel.pending, s.sub.channel.pending);
      LogsOfAllConcat(store, filter, s.filterTaken, s.subTaken[|s.filterTaken|..]);
    }
  }

  lemma TakenPrefix(x: seq<Hash>, y: seq<Hash>, xs: seq<Hash>, ys: seq<Hash>)
    requires |x| <= |y| && x + xs == y + ys
    ensures y == x + y[|x|..]
  {
    assert forall i :: 0 <= i < |x| ==> x[i] == (x + xs)[i] == (y + ys)[i] == y[i];
  }

  /** How many leading blocks are stored and have no matching logs. */
  function Quiet(store: Store, filter: Filter, pending: seq<Hash>): (k: nat)
    requires Consistent(store)
    ensures k <= |pending|
  {
    if pending == [] || pending[0] !in store || LogsOf(store, filter, pending[0]) != [] then 0
    else 1 + Quiet(store, filter, pending[1..])
  }

  lemma {:induction false} QuietMeaning(store: Store, filter: Filter, pending: seq<Hash>)
    requires Consistent(store)
    ensures var k := Quiet(store, filter, pending);
            && (forall i :: 0 <= i < k ==> pending[i] in store && LogsOf(store, filter, pending[i]) == [])
            && (k < |pending| ==> pending[k] !in store || LogsOf(store, filter, pending[k]) != [])
  {
    hide LogsOf, Consistent;
    if pending != [] && pending[0] in store && LogsOf(store, filter, pending[0]) == [] {
      QuietMeaning(store, filter, pending[1..]);
      assert forall i :: 0 < i < |pending| ==> pending[i] == pending[1..][i - 1];
    }
  }

  /** A poll reports nothing while notifications are left if and only if nothing was queued and the
      first block that is not quiet is not stored and not the last; that block is the last consumed. */
  lemma {:induction false} PendingWithWorkLeftIff(store: Store, filter: Filter, s: Subscription)
    requires Consistent(store)
    ensures var (next, r) := PollSubscription(store, filter, s);
            var k := Quiet(store, filter, s.channel.pending);
            && (r.Pending? && next.channel.pending != [] <==>
                  s.queued == [] && k + 1 < |s.channel.pending| && s.channel.pending[k] !in store)
            && (r.Pending? && next.channel.pending != [] ==> next.channel.pending == s.channel.pending[k + 1..])
    decreases |s.channel.pending|
  {
    hide LogsOf;
    var pending := s.channel.pending;
    if s.queued == [] && pending != [] && pending[0] in store {
      PendingWithWorkLeftIff(store, filter, Taken(store, filter, s));
    }
  }
}
