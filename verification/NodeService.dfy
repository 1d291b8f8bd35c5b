/** The node service of anvil: the miner feeds batches of transactions to a block producer that mines
    one block at a time, and every mined block is reported to the pool. */
module NodeService {
  import opened Wrappers

  type Transaction = nat

  type Batch = seq<Transaction>

  /** The chain: the batches mined so far. */
  datatype Backend = Backend(chain: seq<Batch>)

  datatype Outcome = Outcome(blockNumber: nat, batch: Batch)

  /** A spawned mining task: it owns the backend until it is done. */
  datatype Job = Job(backend: Backend, batch: Batch)

  function MinedOutcome(job: Job): Outcome {
    Outcome(|job.backend.chain|, job.batch)
  }

  function MinedBackend(job: Job): Backend {
    Backend(job.backend.chain + [job.batch])
  }

  datatype Producer = Producer(idle: Option<Backend>, mining: Option<Job>, queued: seq<Batch>)

  /** `pool` lists the outcomes reported to the pool, `fed` the batches the miner has returned. */
  datatype Service = Service(producer: Producer, pool: seq<Outcome>, fed: seq<Batch>)

  /** How one poll finds its surroundings: for each poll of a mining task whether it is done, and the
      batches the miner has ready. */
  datatype Schedule = Schedule(done: seq<bool>, ready: seq<Batch>)

  // ---------------------------------------------------------------------------------------------
  // Polling on values
  // ---------------------------------------------------------------------------------------------

  /** A task is spawned only if the backend is idle. */
  function Spawn(p: Producer): Producer {
    if p.queued != [] && p.idle.Some?
    then Producer(None, Some(Job(p.idle.value, p.queued[0])), p.queued[1..])
    else p
  }

  function PollNext(p: Producer, done: bool): (Producer, Option<Outcome>) {
    var q := Spawn(p);
    if q.mining.Some? && done
    then (Producer(Some(MinedBackend(q.mining.value)), None, q.queued), Some(MinedOutcome(q.mining.value)))
    else (q, None)
  }

  predicate First(done: seq<bool>) {
    done != [] && done[0]
  }

  function Rest(done: seq<bool>): seq<bool> {
    if done == [] then [] else done[1..]
  }

  /** Advance block production until it is pending. */
  function Advance(s: Service, done: seq<bool>): (Service, seq<bool>)
    decreases |done|
  {
    var (p, outcome) := PollNext(s.producer, First(done));
    if outcome.Some? then Advance(s.(producer := p, pool := s.pool + [outcome.value]), Rest(done))
    else (s.(producer := p), Rest(done))
  }

  function Feed(s: Service, batch: Batch): Service {
    s.(producer := s.producer.(queued := s.producer.queued + [batch]), fed := s.fed + [batch])
  }

  function Poll(s: Service, schedule: Schedule): Service
    decreases |schedule.ready|
  {
    var (advanced, done) := Advance(s, schedule.done);
    if schedule.ready == [] then advanced
    else Poll(Feed(advanced, schedule.ready[0]), Schedule(done, schedule.ready[1..]))
  }

  function Initial(): Service {
    Service(Producer(Some(Backend([])), None, []), [], [])
  }

  // ---------------------------------------------------------------------------------------------
  // The same in the service's own form
  // ---------------------------------------------------------------------------------------------

  class BlockProducer {
    var idleBackend: Option<Backend>
    var blockMining: Option<Job>
    var queued: seq<Batch>

    constructor (backend: Backend)
      ensures Value() == Producer(Some(backend), None, [])
    {
      idleBackend, blockMining, queued := Some(backend), None, [];
    }

    function Value(): Producer
      reads this
    {
      Producer(idleBackend, blockMining, queued)
    }

    method OnPollNext(done: bool) returns (r: Option<Outcome>)
      modifies this
      ensures (Value(), r) == PollNext(old(Value()), done)
    {
      if queued != [] {
        if idleBackend.Some? {
          var backend := idleBackend.value;
          idleBackend := None;
          var transactions := queued[0];
          queued := queued[1..];
          blockMining := Some(Job(backend, transactions));
        }
      }
      if blockMining.Some? {
        var mining := blockMining.value;
        blockMining := None;
        if done {
          idleBackend := Some(MinedBackend(mining));
          return Some(MinedOutcome(mining));
        } else {
          blockMining := Some(mining);
        }
      }
      return None;
    }
  }

  class NodeServiceTask {
    const producer: BlockProducer
    var pool: seq<Outcome>
    var fed: seq<Batch>

    constructor ()
      ensures Value() == Initial() && fresh(producer)
    {
      producer := new BlockProducer(Backend([]));
      pool, fed := [], [];
    }

    function Value(): Service
      reads this, producer
    {
      Service(producer.Value(), pool, fed)
    }

    method OnPoll(schedule: Schedule)
      modifies this, producer
      ensures Value() == Poll(old(Value()), schedule)
    {
      var done, ready := schedule.done, schedule.ready;
      while true
        invariant Poll(Value(), Schedule(done, ready)) == Poll(old(Value()), schedule)
        decreases |ready|
      {
        ghost var before, asked := Value(), done;
        var outcome := producer.OnPollNext(First(done));
        done := Rest(done);
        while outcome.Some?
          invariant Advance(before, asked) ==
                    if outcome.Some? then Advance(Value().(pool := pool + [outcome.value]), done) else (Value(), done)
          decreases |done|, outcome.Some?
        {
          pool := pool + [outcome.value];
          outcome := producer.OnPollNext(First(done));
          done := Rest(done);
        }
        if ready == [] {
          break;
        }
        producer.queued := producer.queued + [ready[0]];
        fed := fed + [ready[0]];
        ready := ready[1..];
      }
    }
  }

  // ---------------------------------------------------------------------------------------------
  // Runs
  // ---------------------------------------------------------------------------------------------

  function Batches(outcomes: seq<Outcome>): seq<Batch> {
    seq(|outcomes|, i requires 0 <= i < |outcomes| => outcomes[i].batch)
  }

  function InFlight(p: Producer): seq<Batch> {
    if p.mining.Some? then [p.mining.value.batch] else []
  }

  /** Whoever holds the backend. */
  function Holder(p: Producer): Option<Backend> {
    if p.idle.Some? then p.idle else if p.mining.Some? then Some(p.mining.value.backend) else None
  }

  /** Batches are mined first in, first out, each exactly once and reported once; the backend is held
      by exactly one of idle and mining.  That its chain and the block numbers go with the reports is
      how a mining task is modelled. */
  predicate Inv(s: Service) {
    var p := s.producer;
    && (p.idle.Some? <==> p.mining.None?)
    && Holder(p).Some? && Holder(p).value.chain == Batches(s.pool)
    && Batches(s.pool) + InFlight(p) + p.queued == s.fed
    && forall i :: 0 <= i < |s.pool| ==> s.pool[i].blockNumber == i
  }

  lemma SpawnKeeps(s: Service)
    requires Inv(s)
    ensures Inv(s.(producer := Spawn(s.producer)))
    ensures Spawn(s.producer).queued != [] ==> Spawn(s.producer).mining.Some?
  {
    var p := s.producer;
    if p.queued != [] && p.idle.Some? {
      assert Batches(s.pool) + [] + p.queued == Batches(s.pool) + [p.queued[0]] + p.queued[1..];
    }
  }

  lemma FinishKeeps(s: Service, job: Job)
    requires Inv(s) && s.producer.mining == Some(job)
    ensures var finished := Producer(Some(MinedBackend(job)), None, s.producer.queued);
            Inv(Service(finished, s.pool + [MinedOutcome(job)], s.fed))
  {
    assert Batches(s.pool + [MinedOutcome(job)]) == Batches(s.pool) + [job.batch];
    assert Batches(s.pool) + [job.batch] + [] + s.producer.queued == Batches(s.pool) + [job.batch] + s.producer.queued;
    assert |Batches(s.pool)| == |s.pool|;
  }

  lemma {:induction false} AdvanceKeeps(s: Service, done: seq<bool>)
    requires Inv(s)
    ensures var t := Advance(s, done).0;
            Inv(t) && t.fed == s.fed && (t.producer.queued != [] ==> t.producer.mining.Some?)
    decreases |done|
  {
    SpawnKeeps(s);
    var q := Spawn(s.producer);
    if q.mining.Some? && First(done) {
      FinishKeeps(s.(producer := q), q.mining.value);
      var (p, outcome) := PollNext(s.producer, true);
      AdvanceKeeps(s.(producer := p, pool := s.pool + [outcome.value]), Rest(done));
    }
  }

  lemma FeedKeeps(s: Service, batch: Batch)
    requires Inv(s)
    ensures Inv(Feed(s, batch))
  {
    var p := s.producer;
    assert Batches(s.pool) + InFlight(p) + (p.queued + [batch]) == Batches(s.pool) + InFlight(p) + p.queued + [batch];
  }

  /** Every poll keeps the invariant, takes in exactly what the miner had ready, and returns with a
      block being mined unless nothing is queued. */
  lemma {:induction false} PollKeeps(s: Service, schedule: Schedule)
    requires Inv(s)
    ensures var t := Poll(s, schedule);
            && Inv(t) && t.fed == s.fed + schedule.ready
            && (t.producer.queued != [] ==> t.producer.mining.Some?)
    decreases |schedule.ready|
  {
    hide Inv, Advance;
    var (advanced, done) := Advance(s, schedule.done);
    AdvanceKeeps(s, schedule.done);
    if schedule.ready != [] {
      FeedKeeps(advanced, schedule.ready[0]);
      PollKeeps(Feed(advanced, schedule.ready[0]), Schedule(done, schedule.ready[1..]));
      assert s.fed + [schedule.ready[0]] + schedule.ready[1..] == s.fed + schedule.ready;
    } else {
      assert s.fed + [] == s.fed;
    }
  }

  function Run(polls: seq<Schedule>): Service {
    if polls == [] then Initial() else Poll(Run(polls[..|polls| - 1]), polls[|polls| - 1])
  }

  function Offered(polls: seq<Schedule>): seq<Batch> {
    if polls == [] then [] else Offered(polls[..|polls| - 1]) + polls[|polls| - 1].ready
  }

  /** Over every run of the service: what the miner returned is what was mined and reported, then what
      is being mined, then the queue; and between polls a nonempty queue means a block is being mined. */
  lemma {:induction false} RunConserves(polls: seq<Schedule>)
    ensures var s := Run(polls);
            && Inv(s) && s.fed == Offered(polls)
            && Batches(s.pool) + InFlight(s.producer) + s.producer.queued == Offered(polls)
            && (s.producer.queued != [] ==> s.producer.mining.Some?)
  {
    if polls != [] {
      RunConserves(polls[..|polls| - 1]);
      PollKeeps(Run(polls[..|polls| - 1]), polls[|polls| - 1]);
    }
  }

  /** Every reported outcome stays reported: later polls only add to the end. */
  lemma {:induction false} ReportsOnlyGrow(s: Service, schedule: Schedule)
    ensures s.pool <= Poll(s, schedule).pool
    decreases |schedule.ready|
  {
    var (advanced, done) := Advance(s, schedule.done);
    AdvanceGrows(s, schedule.done);
    if schedule.ready != [] {
      ReportsOnlyGrow(Feed(advanced, schedule.ready[0]), Schedule(done, schedule.ready[1..]));
    }
  }

  lemma {:induction false} AdvanceGrows(s: Service, done: seq<bool>)
    ensures s.pool <= Advance(s, done).0.pool
    decreases |done|
  {
    var (p, outcome) := PollNext(s.producer, First(done));
    if outcome.Some? {
      AdvanceGrows(s.(producer := p, pool := s.pool + [outcome.value]), Rest(done));
    }
  }
}
