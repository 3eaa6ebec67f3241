/** The asynchronous side of the wallet: blocks are queued by `IngestBlock`, each with a goroutine that
    signals the one `chainSyncer`, while `UnwindBlock` acts at once. */
module ChainSync {
  import opened WalletTypes
  import opened Ledger
  import opened WalletSpec
  import opened WalletRuns

  datatype Syncer =
    | Waiting                // in its select
    | Signalled              // has taken a signal, has not popped yet
    | Holding(update: Update) // has popped, has not applied yet
    | Exited

  /** `launching` counts ingesters that have appended but not started their signaller, `signallers`
      those blocked in their select. `notified` is the chain as notified so far, a stack; `enqueued` and
      `applied` are histories. */
  datatype Sys = Sys(
    queue: seq<Update>, launching: nat, signallers: nat, syncer: Syncer, quit: bool, run: Run,
    notified: seq<Update>, enqueued: seq<Update>, applied: seq<Update>)

  datatype Event =
    | Append(update: Update)
    | Launch
    | Signal
    | GiveUp
    | Pop
    | Process(picks: map<(nat, nat), nat>)
    | SyncerQuit
    | Stop
    | Unwound
    | Use(action: Action)

  ghost function Start(env: Env): Sys
    requires env.derive(0).Some?
  {
    Sys([], 0, 0, Waiting, false, Init(env), [], [], [])
  }

  // ----- what the node notifies -----

  ghost predicate InUpdates(us: seq<Update>, hash: Hash) {
    exists i, p :: 0 <= i < |us| && 0 <= p < |us[i].txs| && us[i].txs[p].hash == hash
  }

  ghost predicate Extends(us: seq<Update>, u: Update) {
    && (us == [] || u.height == us[|us| - 1].height + 1)
    && (forall p :: 0 <= p < |u.txs| ==> !InUpdates(us, u.txs[p].hash))
    && (forall p, q :: 0 <= p < q < |u.txs| ==> u.txs[p].hash != u.txs[q].hash)
  }

  // ----- steps -----

  ghost predicate Can(env: Env, s: Sys, e: Event) {
    match e
    case Append(u) => Extends(s.notified, u)
    case Launch => s.launching > 0
    case Signal => s.signallers > 0 && s.syncer.Waiting?
    case GiveUp => s.signallers > 0 && s.quit
    case Pop => s.syncer.Signalled?
    case Process(picks) =>
      s.syncer.Holding? && PicksOk(BlockAt(env, s.run.wallet, s.syncer.update.height, s.syncer.update.txs, picks))
    case SyncerQuit => s.syncer.Waiting? && s.quit
    case Stop => !s.quit
    case Unwound => s.notified != []
    case Use(a) => !a.Ingest? && !a.UnwindTip? && Enabled(env, s.run, a)
  }

  /** The actions on the wallet, one or none, that an event amounts to. */
  function Effect(s: Sys, e: Event): seq<Action> {
    match e
    case Process(picks) =>
      if s.syncer.Holding? then [Ingest(s.syncer.update.height, s.syncer.update.txs, picks)] else []
    case Unwound => [UnwindTip]
    case Use(a) => [a]
    case _ => []
  }

  /** Popping an empty queue is where the source would index out of range, and a disconnect that meets a
      queue not drained is where it would dereference a missing entry; the state after either is of no
      consequence. */
  ghost function Do(env: Env, s: Sys, e: Event): Sys {
    match e
    case Append(u) =>
      s.(queue := s.queue + [u], launching := s.launching + 1,
         notified := s.notified + [u], enqueued := s.enqueued + [u])
    case Launch => if s.launching == 0 then s else s.(launching := s.launching - 1, signallers := s.signallers + 1)
    case Signal => if s.signallers == 0 then s else s.(signallers := s.signallers - 1, syncer := Signalled)
    case GiveUp => if s.signallers == 0 then s else s.(signallers := s.signallers - 1)
    case Pop => if s.queue == [] then s else s.(queue := s.queue[1..], syncer := Holding(s.queue[0]))
    case Process(_) =>
      if !s.syncer.Holding? then s
      else s.(syncer := Waiting, run := Next(env, s.run, Effect(s, e)[0]), applied := s.applied + [s.syncer.update])
    case SyncerQuit => s.(syncer := Exited)
    case Stop => s.(quit := true)
    case Unwound =>
      s.(run := Next(env, s.run, UnwindTip),
         notified := if s.notified == [] then [] else s.notified[..|s.notified| - 1])
    case Use(a) => s.(run := Next(env, s.run, a))
  }

  ghost function At(env: Env, evs: seq<Event>, n: nat): Sys
    requires env.derive(0).Some? && n <= |evs|
  {
    if n == 0 then Start(env) else Do(env, At(env, evs, n - 1), evs[n - 1])
  }

  ghost predicate PossibleAt(env: Env, evs: seq<Event>, i: nat)
    requires env.derive(0).Some? && i < |evs|
  {
    Can(env, At(env, evs, i), evs[i])
  }

  ghost predicate Possible(env: Env, evs: seq<Event>)
    requires env.derive(0).Some?
  {
    forall i :: 0 <= i < |evs| ==> PossibleAt(env, evs, i)
  }

  // ----- queue and signals -----

  function InFlight(s: Sys): seq<Update> {
    if s.syncer.Holding? then [s.syncer.update] else []
  }

  function Signals(s: Sys): nat {
    s.launching + s.signallers + (if s.syncer.Signalled? then 1 else 0)
  }

  /** Signals yet to be sent or taken but not yet followed by a pop never outnumber the queue, and
      match it until the wallet is stopped; what was applied, is being applied and is queued is, in
      this order, what was enqueued. */
  ghost predicate QueueOk(s: Sys) {
    && Signals(s) <= |s.queue|
    && (!s.quit ==> Signals(s) == |s.queue| && !s.syncer.Exited?)
    && s.enqueued == s.applied + InFlight(s) + s.queue
  }

  lemma StepQueue(env: Env, s: Sys, e: Event)
    requires QueueOk(s) && Can(env, s, e)
    ensures QueueOk(Do(env, s, e))
  {
    var s2 := Do(env, s, e);
    match e
    case Append(u) =>
      assert s.applied + InFlight(s) + (s.queue + [u]) == (s.applied + InFlight(s) + s.queue) + [u];
    case Pop =>
      assert s.queue == [s.queue[0]] + s.queue[1..];
      assert s.applied + [] + ([s.queue[0]] + s.queue[1..]) == s.applied + [s.queue[0]] + s.queue[1..];
    case Process(_) =>
      assert (s.applied + InFlight(s)) + [] + s.queue == s.applied + InFlight(s) + s.queue;
    case _ =>
  }

  /** Over every interleaving the syncer never pops an empty queue, and what it has applied is a prefix
      of what was enqueued. */
  lemma {:induction false} QueueSafe(env: Env, evs: seq<Event>, n: nat)
    requires env.derive(0).Some? && Possible(env, evs) && n <= |evs|
    ensures var s := At(env, evs, n);
            QueueOk(s) && (s.syncer.Signalled? ==> s.queue != []) && s.applied <= s.enqueued
  {
    if n > 0 {
      QueueSafe(env, evs, n - 1);
      assert PossibleAt(env, evs, n - 1);
      StepQueue(env, At(env, evs, n - 1), evs[n - 1]);
    }
  }

  ghost predicate Internal(e: Event) {
    e.Launch? || e.Signal? || e.GiveUp? || e.Pop? || e.Process? || e.SyncerQuit?
  }

  ghost predicate Quiet(env: Env, s: Sys) {
    forall e :: Internal(e) ==> !Can(env, s, e)
  }

  lemma PicksExist(b: Block) returns (picks: map<(nat, nat), nat>)
    ensures PicksOk(b.(picks := picks))
  {
    var paid := set p: nat, i: nat | p < |b.txs| && i < |b.txs[p].outputs| && Pays(b, p, i) :: (p, i);
    picks := map x | x in paid :: var k :| k in Matches(b.addrs, b.txs[x.0].outputs[x.1].pkScript); k;
    forall p: nat, i: nat | p < |b.txs| && i < |b.txs[p].outputs| && Pays(b.(picks := picks), p, i)
      ensures (p, i) in picks && picks[(p, i)] in Matches(b.addrs, b.txs[p].outputs[i].pkScript)
    {
      assert Pays(b, p, i);
      assert (p, i) in paid;
    }
  }

  lemma HolderCanProcess(env: Env, s: Sys) returns (picks: map<(nat, nat), nat>)
    requires s.syncer.Holding?
    ensures Can(env, s, Process(picks))
  {
    var b := BlockAt(env, s.run.wallet, s.syncer.update.height, s.syncer.update.txs, map[]);
    picks := PicksExist(b);
    assert b.(picks := picks) == BlockAt(env, s.run.wallet, s.syncer.update.height, s.syncer.update.txs, picks);
  }

  /** When no goroutine of the wallet can move, everything enqueued has been applied, unless the wallet
      was stopped; then the syncer has exited and no signaller is left behind. */
  lemma QuietIsDone(env: Env, s: Sys)
    requires QueueOk(s) && Quiet(env, s)
    ensures !s.quit ==> s.queue == [] && s.applied == s.enqueued && s.syncer.Waiting?
    ensures s.quit ==> s.syncer.Exited? && s.signallers == 0 && s.launching == 0
  {
    assert !Can(env, s, Launch) && !Can(env, s, Signal) && !Can(env, s, Pop) && !Can(env, s, GiveUp)
          && !Can(env, s, SyncerQuit);
    if s.syncer.Holding? {
      var picks := HolderCanProcess(env, s);
      assert false;
    }
  }

  function Work(s: Sys): nat {
    5 * s.launching + 4 * s.signallers +
    match s.syncer
    case Signalled => 3
    case Holding(_) => 2
    case Waiting => 1
    case Exited => 0
  }

  lemma InternalStep(env: Env, s: Sys, e: Event)
    requires QueueOk(s) && Internal(e) && Can(env, s, e)
    ensures Work(Do(env, s, e)) < Work(s)
  {
  }

  /** The state after internal steps taken one after the other from a given one. */
  ghost function Later(env: Env, s: Sys, evs: seq<Event>, n: nat): Sys
    requires n <= |evs|
  {
    if n == 0 then s else Do(env, Later(env, s, evs, n - 1), evs[n - 1])
  }

  ghost predicate InternalAt(env: Env, s: Sys, evs: seq<Event>, i: nat)
    requires i < |evs|
  {
    Internal(evs[i]) && Can(env, Later(env, s, evs, i), evs[i])
  }

  lemma {:induction false} InternalCount(env: Env, s: Sys, evs: seq<Event>, n: nat)
    requires QueueOk(s) && n <= |evs| && forall i :: 0 <= i < n ==> InternalAt(env, s, evs, i)
    ensures QueueOk(Later(env, s, evs, n)) && n + Work(Later(env, s, evs, n)) <= Work(s)
  {
    hide QueueOk, Can, Do, Work;
    if n > 0 {
      InternalCount(env, s, evs, n - 1);
      assert InternalAt(env, s, evs, n - 1);
      StepQueue(env, Later(env, s, evs, n - 1), evs[n - 1]);
      InternalStep(env, Later(env, s, evs, n - 1), evs[n - 1]);
    }
  }

  /** Left alone, the wallet's goroutines come to rest: from any reachable state they take at most five
      steps for each signaller not yet launched, four for each one waiting and three for the syncer. */
  lemma InternalRunsEnd(env: Env, before: seq<Event>, evs: seq<Event>)
    requires env.derive(0).Some? && Possible(env, before)
    requires forall i :: 0 <= i < |evs| ==> InternalAt(env, At(env, before, |before|), evs, i)
    ensures var s := At(env, before, |before|); |evs| <= 5 * s.launching + 4 * s.signallers + 3
  {
    hide Possible, At;
    QueueSafe(env, before, |before|);
    InternalCount(env, At(env, before, |before|), evs, |evs|);
  }

  // ----- refinement of the sequential wallet -----

  function Pending(s: Sys): seq<Update> {
    InFlight(s) + s.queue
  }

  ghost predicate DrainedAt(env: Env, evs: seq<Event>, i: nat)
    requires env.derive(0).Some? && i < |evs|
  {
    evs[i].Unwound? ==> Pending(At(env, evs, i)) == []
  }

  /** Every disconnect of the run comes when all queued blocks have been applied. */
  ghost predicate Drained(env: Env, evs: seq<Event>)
    requires env.derive(0).Some?
  {
    forall i :: 0 <= i < |evs| ==> DrainedAt(env, evs, i)
  }

  /** The sequential run an interleaving amounts to: each block is connected when it is applied. */
  ghost function Sequential(env: Env, evs: seq<Event>, n: nat): seq<Action>
    requires env.derive(0).Some? && n <= |evs|
  {
    if n == 0 then [] else Sequential(env, evs, n - 1) + Effect(At(env, evs, n - 1), evs[n - 1])
  }

  function Updates(chain: seq<Block>): seq<Update> {
    seq(|chain|, i requires 0 <= i < |chain| => Update(chain[i].height, chain[i].txs))
  }

  ghost predicate GoodAt(us: seq<Update>, i: int)
    requires 0 <= i < |us|
  {
    Extends(us[..i], us[i])
  }

  ghost predicate GoodUpdates(us: seq<Update>) {
    forall i :: 0 <= i < |us| ==> GoodAt(us, i)
  }

  lemma GoodUpdatesPush(us: seq<Update>, u: Update)
    requires GoodUpdates(us) && Extends(us, u)
    ensures GoodUpdates(us + [u])
  {
    forall i | 0 <= i < |us| + 1 ensures GoodAt(us + [u], i) {
      if i < |us| {
        assert GoodAt(us, i);
        assert (us + [u])[..i] == us[..i];
      } else {
        assert (us + [u])[..i] == us;
      }
    }
  }

  lemma GoodUpdatesPop(us: seq<Update>)
    requires GoodUpdates(us) && us != []
    ensures GoodUpdates(us[..|us| - 1])
  {
    var init := us[..|us| - 1];
    forall i | 0 <= i < |init| ensures GoodAt(init, i) {
      assert GoodAt(us, i);
      assert init[..i] == us[..i];
    }
  }

  /** The connected blocks followed by the pending ones are the chain notified. */
  ghost predicate InStep(s: Sys) {
    GoodUpdates(s.notified) && s.notified == Updates(s.run.chain) + Pending(s)
  }

  lemma ChainInUpdates(chain: seq<Block>, hash: Hash)
    ensures InChain(chain, hash) ==> InUpdates(Updates(chain), hash)
  {
    if InChain(chain, hash) {
      var i, q :| 0 <= i < |chain| && 0 <= q < |chain[i].txs| && chain[i].txs[q].hash == hash;
      assert Updates(chain)[i].txs[q].hash == hash;
    }
  }

  lemma PendingCanConnect(env: Env, s: Sys, picks: map<(nat, nat), nat>)
    requires InStep(s) && Can(env, s, Process(picks))
    ensures Enabled(env, s.run, Effect(s, Process(picks))[0])
  {
    var u, chain := s.syncer.update, s.run.chain;
    var done := Updates(chain);
    assert s.notified[|done|] == u;
    assert GoodAt(s.notified, |done|);
    assert s.notified[..|done|] == done;
    forall p | 0 <= p < |u.txs| ensures !InChain(chain, u.txs[p].hash) {
      ChainInUpdates(chain, u.txs[p].hash);
    }
  }

  lemma UseKeepsChain(env: Env, r: Run, a: Action)
    requires !a.Ingest? && !a.UnwindTip?
    ensures Next(env, r, a).chain == r.chain
  {
  }

  lemma StepEffect(env: Env, s: Sys, e: Event)
    requires InStep(s) && Can(env, s, e)
    requires e.Unwound? ==> Pending(s) == []
    ensures if Effect(s, e) == [] then Do(env, s, e).run == s.run
            else |Effect(s, e)| == 1 && Enabled(env, s.run, Effect(s, e)[0]) && Do(env, s, e).run
                  == Next(env, s.run, Effect(s, e)[0])
  {
    match e
    case Process(picks) => PendingCanConnect(env, s, picks);
    case Unwound => assert |s.run.chain| == |s.notified|;
    case _ =>
  }

  /** How a step changes what is pending. */
  lemma StepPending(env: Env, s: Sys, e: Event)
    requires QueueOk(s) && Can(env, s, e)
    requires e.Unwound? ==> Pending(s) == []
    ensures var s2 := Do(env, s, e);
            Pending(s2) ==
            if e.Append? then Pending(s) + [e.update]
            else if e.Process? then Pending(s)[1..]
            else Pending(s)
    ensures e.Process? ==> Pending(s) != [] && Pending(s)[0] == s.syncer.update
  {
    hide Next, Enabled, PicksOk, Extends, Effect;
    match e
    case Append(u) => assert InFlight(s) + (s.queue + [u]) == Pending(s) + [u];
    case Pop => assert Pending(s) == [] + s.queue && [s.queue[0]] + s.queue[1..] == s.queue;
    case Process(_) => assert Pending(s)[1..] == [] + s.queue;
    case _ =>
  }

  lemma AppendInStep(s: Sys, s2: Sys, u: Update)
    requires InStep(s) && Extends(s.notified, u)
    requires s2.notified == s.notified + [u] && s2.run == s.run && Pending(s2) == Pending(s) + [u]
    ensures InStep(s2)
  {
    GoodUpdatesPush(s.notified, u);
  }

  lemma ProcessInStep(s: Sys, s2: Sys, b: Block)
    requires InStep(s) && s2.notified == s.notified && s2.run.chain == s.run.chain + [b]
    requires Pending(s) == [Update(b.height, b.txs)] + Pending(s2)
    ensures InStep(s2)
  {
    assert Updates(s2.run.chain) == Updates(s.run.chain) + [Update(b.height, b.txs)];
  }

  lemma UnwindInStep(s: Sys, s2: Sys)
    requires InStep(s) && s.notified != [] && Pending(s) == [] && Pending(s2) == []
    requires s2.notified == s.notified[..|s.notified| - 1]
    requires s.run.chain != [] ==> s2.run.chain == Below(s.run.chain)
    ensures InStep(s2)
  {
    GoodUpdatesPop(s.notified);
    assert |s.run.chain| == |s.notified|;
    assert Updates(s2.run.chain) == s2.notified;
  }

  lemma StepInStep(env: Env, s: Sys, e: Event)
    requires InStep(s) && QueueOk(s) && Can(env, s, e)
    requires e.Unwound? ==> Pending(s) == []
    ensures InStep(Do(env, s, e))
  {
    hide GoodUpdates, Updates, QueueOk, Pending, Enabled, PicksOk, Extends;
    var s2 := Do(env, s, e);
    StepPending(env, s, e);
    if e.Append? {
      AppendInStep(s, s2, e.update);
    } else if e.Process? {
      ProcessInStep(s, s2, BlockAt(env, s.run.wallet, s.syncer.update.height, s.syncer.update.txs, e.picks));
    } else if e.Unwound? {
      UnwindInStep(s, s2);
    } else if e.Use? {
      UseKeepsChain(env, s.run, e.action);
    }
  }

  lemma {:induction false} RunInStep(env: Env, evs: seq<Event>, n: nat)
    requires env.derive(0).Some? && Possible(env, evs) && n <= |evs| && Drained(env, evs)
    ensures InStep(At(env, evs, n)) && QueueOk(At(env, evs, n))
  {
    if n > 0 {
      RunInStep(env, evs, n - 1);
      assert PossibleAt(env, evs, n - 1) && DrainedAt(env, evs, n - 1);
      StepInStep(env, At(env, evs, n - 1), evs[n - 1]);
      StepQueue(env, At(env, evs, n - 1), evs[n - 1]);
    }
  }

  lemma SequentialStep(env: Env, acts: seq<Action>, s: Sys, e: Event)
    requires env.derive(0).Some? && Legal(env, acts) && s.run == Exec(env, acts, |acts|)
    requires if Effect(s, e) == [] then Do(env, s, e).run == s.run
             else |Effect(s, e)| == 1 && Enabled(env, s.run, Effect(s, e)[0]) && Do(env, s, e).run
                   == Next(env, s.run, Effect(s, e)[0])
    ensures var more := acts + Effect(s, e); Legal(env, more) && Do(env, s, e).run == Exec(env, more, |more|)
  {
    if Effect(s, e) == [] {
      assert acts + Effect(s, e) == acts;
    } else {
      assert Effect(s, e) == [Effect(s, e)[0]];
      LegalPush(env, acts, Effect(s, e)[0]);
    }
  }

  /** The interleaving so far has done what its sequential run does. */
  ghost predicate Refined(env: Env, evs: seq<Event>, n: nat)
    requires env.derive(0).Some? && n <= |evs|
  {
    var acts := Sequential(env, evs, n);
    Legal(env, acts) && At(env, evs, n).run == Exec(env, acts, |acts|)
  }

  lemma StartRefined(env: Env, evs: seq<Event>)
    requires env.derive(0).Some?
    ensures Refined(env, evs, 0)
  {
  }

  lemma RefinedNext(env: Env, evs: seq<Event>, n: nat)
    requires env.derive(0).Some? && n < |evs| && Refined(env, evs, n)
    requires var s := At(env, evs, n);
             InStep(s) && Can(env, s, evs[n]) && (evs[n].Unwound? ==> Pending(s) == [])
    ensures Refined(env, evs, n + 1)
  {
    hide InStep, Can, Do, Exec, Legal, Next, Enabled, Effect;
    var s := At(env, evs, n);
    StepEffect(env, s, evs[n]);
    SequentialStep(env, Sequential(env, evs, n), s, evs[n]);
  }

  lemma {:induction false} RunRefined(env: Env, evs: seq<Event>, n: nat)
    requires env.derive(0).Some? && Possible(env, evs) && n <= |evs| && Drained(env, evs)
    ensures Refined(env, evs, n)
  {
    hide Refined, Possible, Drained, InStep, QueueOk, Can, Pending;
    if n == 0 {
      StartRefined(env, evs);
    } else {
      RunRefined(env, evs, n - 1);
      StepFacts(env, evs, n - 1);
      RefinedNext(env, evs, n - 1);
    }
  }

  /** Every interleaving that drains the queue before each disconnect ends in the wallet, coins,
      journal and all, of a legal sequential run, whose chain followed by the pending blocks is the
      chain notified. */
  lemma AsyncRefinesSequential(env: Env, evs: seq<Event>, n: nat)
    requires env.derive(0).Some? && Possible(env, evs) && n <= |evs| && Drained(env, evs)
    ensures var s, acts := At(env, evs, n), Sequential(env, evs, n);
            Legal(env, acts) && s.run == Exec(env, acts, |acts|) && s.notified == Updates(s.run.chain) + Pending(s)
  {
    hide Possible, Drained, QueueOk, Legal, Exec, At, GoodUpdates;
    RunRefined(env, evs, n);
    RunInStep(env, evs, n);
  }

  // ----- the order of notifications -----

  datatype Notice = Connected(update: Update) | Disconnected

  function NoticeOf(e: Event): seq<Notice> {
    match e
    case Append(u) => [Connected(u)]
    case Unwound => [Disconnected]
    case _ => []
  }

  function Notices(evs: seq<Event>, n: nat): seq<Notice>
    requires n <= |evs|
  {
    if n == 0 then [] else Notices(evs, n - 1) + NoticeOf(evs[n - 1])
  }

  function ChainStep(a: Action): seq<Notice> {
    match a
    case Ingest(height, txs, picks) => [Connected(Update(height, txs))]
    case UnwindTip => [Disconnected]
    case _ => []
  }

  function ChainSteps(acts: seq<Action>): seq<Notice> {
    if acts == [] then [] else ChainSteps(acts[..|acts| - 1]) + ChainStep(acts[|acts| - 1])
  }

  function AsNotices(us: seq<Update>): seq<Notice> {
    seq(|us|, i requires 0 <= i < |us| => Connected(us[i]))
  }

  lemma ChainStepsPush(acts: seq<Action>, more: seq<Action>)
    requires |more| <= 1
    ensures ChainSteps(acts + more) == ChainSteps(acts) + ChainSteps(more)
  {
    if more == [] {
      assert acts + more == acts;
    } else {
      assert (acts + more)[..|acts|] == acts;
      assert ChainSteps(more) == [] + ChainStep(more[0]);
    }
  }

  lemma NoticesPush(us: seq<Update>, u: Update)
    ensures AsNotices(us) + [Connected(u)] == AsNotices(us + [u])
  {
  }

  lemma NoticesPop(us: seq<Update>)
    requires us != []
    ensures AsNotices(us) == [Connected(us[0])] + AsNotices(us[1..])
  {
  }

  lemma EffectSteps(s: Sys, e: Event)
    requires e.Process? ==> s.syncer.Holding?
    requires e.Use? ==> !e.action.Ingest? && !e.action.UnwindTip?
    ensures ChainSteps(Effect(s, e)) ==
            if e.Process? then [Connected(s.syncer.update)] else if e.Unwound? then [Disconnected] else []
  {
    if Effect(s, e) != [] {
      var a := Effect(s, e)[0];
      assert Effect(s, e)[..0] == [];
      assert ChainSteps(Effect(s, e)) == [] + ChainStep(a);
    }
  }

  lemma PendingNotices(env: Env, s: Sys, e: Event)
    requires QueueOk(s) && Can(env, s, e)
    requires e.Unwound? ==> Pending(s) == []
    ensures AsNotices(Pending(s)) + NoticeOf(e) == ChainSteps(Effect(s, e)) + AsNotices(Pending(Do(env, s, e)))
  {
    EffectSteps(s, e);
    StepPending(env, s, e);
    var before := AsNotices(Pending(s));
    if e.Append? {
      NoticesPush(Pending(s), e.update);
    } else if e.Process? {
      NoticesPop(Pending(s));
      assert before + [] == before;
    } else {
      assert before + [] == [] + before;
      assert [] + [Disconnected] == [Disconnected] + [];
    }
  }

  /** The notices are those of the blocks the actions connect and disconnect, then of the pending ones. */
  ghost predicate InOrder(notices: seq<Notice>, acts: seq<Action>, s: Sys) {
    notices == ChainSteps(acts) + AsNotices(Pending(s))
  }

  lemma OrderStep(env: Env, s: Sys, e: Event, notices: seq<Notice>, acts: seq<Action>)
    requires QueueOk(s) && Can(env, s, e)
    requires e.Unwound? ==> Pending(s) == []
    requires InOrder(notices, acts, s)
    ensures InOrder(notices + NoticeOf(e), acts + Effect(s, e), Do(env, s, e))
  {
    PendingNotices(env, s, e);
    ChainStepsPush(acts, Effect(s, e));
    Rebracket(ChainSteps(acts), AsNotices(Pending(s)), NoticeOf(e), ChainSteps(Effect(s, e)),
          AsNotices(Pending(Do(env, s, e))));
  }

  lemma StepFacts(env: Env, evs: seq<Event>, n: nat)
    requires env.derive(0).Some? && Possible(env, evs) && n < |evs| && Drained(env, evs)
    ensures var s := At(env, evs, n);
            QueueOk(s) && InStep(s) && Can(env, s, evs[n]) && (evs[n].Unwound? ==> Pending(s) == [])
  {
    RunInStep(env, evs, n);
    assert PossibleAt(env, evs, n) && DrainedAt(env, evs, n);
  }

  ghost predicate OrderKept(env: Env, evs: seq<Event>, n: nat)
    requires env.derive(0).Some? && n <= |evs|
  {
    InOrder(Notices(evs, n), Sequential(env, evs, n), At(env, evs, n))
  }

  lemma OrderNext(env: Env, evs: seq<Event>, n: nat)
    requires env.derive(0).Some? && n < |evs| && OrderKept(env, evs, n)
    requires var s := At(env, evs, n); QueueOk(s) && Can(env, s, evs[n]) && (evs[n].Unwound? ==> Pending(s) == [])
    ensures OrderKept(env, evs, n + 1)
  {
    OrderStep(env, At(env, evs, n), evs[n], Notices(evs, n), Sequential(env, evs, n));
  }

  /** That sequential run connects and disconnects in the very order of the notifications. */
  lemma {:induction false} SequentialKeepsOrder(env: Env, evs: seq<Event>, n: nat)
    requires env.derive(0).Some? && Possible(env, evs) && n <= |evs| && Drained(env, evs)
    ensures OrderKept(env, evs, n)
  {
    hide OrderKept, Possible, Drained, InStep, QueueOk, Can, Pending;
    if n == 0 {
      StartInOrder(env, evs);
    } else {
      SequentialKeepsOrder(env, evs, n - 1);
      StepFacts(env, evs, n - 1);
      OrderNext(env, evs, n - 1);
    }
  }

  lemma StartInOrder(env: Env, evs: seq<Event>)
    requires env.derive(0).Some?
    ensures OrderKept(env, evs, 0)
  {
  }

  lemma Rebracket<T>(a: seq<T>, b: seq<T>, c: seq<T>, d: seq<T>, e: seq<T>)
    requires b + c == d + e
    ensures (a + b) + c == (a + d) + e
  {
    assert (a + b) + c == a + (b + c);
    assert (a + d) + e == a + (d + e);
  }

  // ----- why the queue must be drained -----

  /** If earlier disconnects met a drained queue, the next one finds the undo entry of its block exactly
      when the queue is drained again. */
  lemma UnwindFindsEntryIff(env: Env, evs: seq<Event>)
    requires env.derive(0).Some? && Possible(env, evs) && Drained(env, evs)
    requires At(env, evs, |evs|).notified != []
    ensures var s := At(env, evs, |evs|);
            s.notified[|s.notified| - 1].height in s.run.wallet.journal <==> Pending(s) == []
  {
    hide Possible, Drained, QueueOk, Legal, Exec, Sequential, At;
    var s, acts := At(env, evs, |evs|), Sequential(env, evs, |evs|);
    AsyncRefinesSequential(env, evs, |evs|);
    RunInStep(env, evs, |evs|);
    RunTracks(env, acts, |acts|);
    var done := Updates(s.run.chain);
    var tip := s.notified[|s.notified| - 1];
    if Pending(s) == [] {
      assert s.notified == done;
      assert Tip(s.run.chain) in s.run.chain;
    } else if tip.height in s.run.wallet.journal {
      var b :| b in s.run.chain && b.height == tip.height;
      var i :| 0 <= i < |s.run.chain| && s.run.chain[i] == b;
      assert s.notified[i] == done[i];
      UpdateHeights(s.notified, i, |s.notified| - 1);
      assert false;
    }
  }

  lemma {:induction false} UpdateHeights(us: seq<Update>, i: nat, j: nat)
    requires GoodUpdates(us) && i <= j < |us|
    ensures us[j].height == us[i].height + (j - i)
  {
    if i < j {
      UpdateHeights(us, i, j - 1);
      assert GoodAt(us, j);
      assert us[..j][j - 1] == us[j - 1];
    }
  }

  lemma {:induction false} AtPrefix(env: Env, evs: seq<Event>, m: nat, n: nat)
    requires env.derive(0).Some? && n <= m <= |evs|
    ensures At(env, evs[..m], n) == At(env, evs, n)
  {
    hide Do;
    if n > 0 {
      AtPrefix(env, evs, m, n - 1);
    }
  }

  lemma PrefixDrained(env: Env, evs: seq<Event>, m: nat)
    requires env.derive(0).Some? && Possible(env, evs) && m <= |evs|
    requires forall i :: 0 <= i < m ==> DrainedAt(env, evs, i)
    ensures Possible(env, evs[..m]) && Drained(env, evs[..m])
  {
    hide Can, Pending, At;
    forall i | 0 <= i < m ensures PossibleAt(env, evs[..m], i) && DrainedAt(env, evs[..m], i) {
      AtPrefix(env, evs, m, i);
      assert PossibleAt(env, evs, i) && DrainedAt(env, evs, i);
    }
  }

  /** The disconnect at step `i` finds the undo entry of the block it names, the tip notified last. */
  ghost predicate FindsAt(env: Env, evs: seq<Event>, i: nat)
    requires env.derive(0).Some? && i < |evs|
  {
    var s := At(env, evs, i);
    evs[i].Unwound? && s.notified != [] ==> s.notified[|s.notified| - 1].height in s.run.wallet.journal
  }

  lemma FindsIfDrained(env: Env, evs: seq<Event>, m: nat)
    requires env.derive(0).Some? && Possible(env, evs) && m < |evs|
    requires forall i :: 0 <= i < m ==> DrainedAt(env, evs, i)
    ensures FindsAt(env, evs, m) <==> DrainedAt(env, evs, m)
  {
    hide Pending, At;
    PrefixDrained(env, evs, m);
    AtPrefix(env, evs, m, m);
    assert PossibleAt(env, evs, m);
    if evs[m].Unwound? {
      UnwindFindsEntryIff(env, evs[..m]);
    }
  }

  lemma {:induction false} FindsMeansDrained(env: Env, evs: seq<Event>, m: nat)
    requires env.derive(0).Some? && Possible(env, evs) && m <= |evs|
    requires forall i :: 0 <= i < m ==> FindsAt(env, evs, i)
    ensures forall i :: 0 <= i < m ==> DrainedAt(env, evs, i)
  {
    hide Possible, FindsAt, DrainedAt;
    if m > 0 {
      FindsMeansDrained(env, evs, m - 1);
      FindsIfDrained(env, evs, m - 1);
    }
  }

  /** Over any interleaving, every disconnect finds its undo entry if and only if each meets a drained
      queue. */
  lemma EveryUnwindFindsEntryIff(env: Env, evs: seq<Event>)
    requires env.derive(0).Some? && Possible(env, evs)
    ensures (forall i :: 0 <= i < |evs| ==> FindsAt(env, evs, i)) <==> Drained(env, evs)
  {
    hide Possible, FindsAt, DrainedAt;
    if Drained(env, evs) {
      forall i | 0 <= i < |evs| ensures FindsAt(env, evs, i) {
        FindsIfDrained(env, evs, i);
      }
    }
    if forall i :: 0 <= i < |evs| ==> FindsAt(env, evs, i) {
      FindsMeansDrained(env, evs, |evs|);
    }
  }

  /** One block notified, its disconnect arriving before the syncer gets to it: a reachable state in
      which the entry `UnwindBlock` is about to use does not exist. */
  lemma EarlyUnwindFindsNothing(env: Env, u: Update)
    requires env.derive(0).Some? && Extends([], u)
    ensures Possible(env, [Append(u), Unwound])
    ensures u.height !in At(env, [Append(u), Unwound], 1).run.wallet.journal
  {
    var evs := [Append(u), Unwound];
    assert At(env, evs, 0) == Start(env);
    assert At(env, evs, 1) == Do(env, Start(env), Append(u));
    forall i | 0 <= i < |evs| ensures PossibleAt(env, evs, i) {
      assert i == 0 || i == 1;
    }
  }

  /** When the goroutines have come to rest the wallet is in step with the notified chain, whatever the
      interleaving, provided no block with a chained spend was disconnected. */
  lemma SettledWalletIsSynced(env: Env, evs: seq<Event>)
    requires env.derive(0).Some? && Possible(env, evs) && Drained(env, evs)
    requires CleanUnwinds(env, Sequential(env, evs, |evs|), |Sequential(env, evs, |evs|)|)
    requires var s := At(env, evs, |evs|); !s.quit && Quiet(env, s)
    ensures var s := At(env, evs, |evs|); Synced(s.run) && Updates(s.run.chain) == s.notified
  {
    var s, acts := At(env, evs, |evs|), Sequential(env, evs, |evs|);
    AsyncRefinesSequential(env, evs, |evs|);
    QueueSafe(env, evs, |evs|);
    QuietIsDone(env, s);
    ReorgRefinement(env, acts, |acts|);
  }
}
