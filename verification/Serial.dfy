// Any number of clients on one host: the lock makes every interleaving a serial run.
module Serial {
  import opened Records
  import opened Journals
  import opened Protocol

  /** A client takes one action, or stops for good, or the operator removes a lock nobody live holds. */
  datatype Event = Act(client: nat, outcome: Outcome) | Stop(client: nat) | Clear

  type Schedule = seq<Event>

  datatype System = System(world: World, pcs: seq<Pc>, stopped: set<nat>)

  /** Between acquire and release. */
  predicate Holding(pc: Pc) { !pc.Acquire? && !pc.Finished? }

  predicate Live(sys: System, i: nat) { i < |sys.pcs| && i !in sys.stopped }

  predicate LiveHolder(sys: System, i: nat) { Live(sys, i) && Holding(sys.pcs[i]) }

  ghost predicate SoundSystem(sys: System) { forall i :: 0 <= i < |sys.pcs| ==> Sound(sys.pcs[i]) }

  ghost function Move(registered: set<string>, sys: System, e: Event): (r: System)
    requires SoundSystem(sys)
    ensures SoundSystem(r) && |r.pcs| == |sys.pcs|
  {
    match e
    case Act(i, o) =>
      if !Live(sys, i) then sys
      else
        NextIsSound(registered, sys.pcs[i], sys.world, o);
        var c := Next(registered, sys.pcs[i], sys.world, o);
        sys.(world := c.world, pcs := sys.pcs[i := c.pc])
    case Stop(i) => sys.(stopped := sys.stopped + {i})
    case Clear =>
      if exists i :: LiveHolder(sys, i) then sys else sys.(world := sys.world.(locked := false))
  }

  function Starting(requests: seq<Request>): seq<Pc> {
    seq(|requests|, i requires 0 <= i < |requests| => Acquire(requests[i]))
  }

  ghost function Interleaved(registered: set<string>, requests: seq<Request>, w: World, s: Schedule): (r: System)
    ensures SoundSystem(r) && |r.pcs| == |requests|
    decreases |s|
  {
    if s == [] then System(w, Starting(requests), {})
    else Move(registered, Interleaved(registered, requests, w, s[..|s| - 1]), s[|s| - 1])
  }

  // -------------------------------------------------------------------------- serial runs

  /** One client's actions from the one that took the lock. */
  datatype Block = Block(client: nat, script: Script)

  ghost predicate ClientsOf(requests: seq<Request>, blocks: seq<Block>) {
    forall b <- blocks :: b.client < |requests|
  }

  function Unlocked(w: World): World { w.(locked := false) }

  /** The last block's client, run after all earlier blocks, on an unlocked host. */
  ghost function SerialConfig(registered: set<string>, requests: seq<Request>, blocks: seq<Block>, w: World): (r: Config)
    requires blocks != [] && ClientsOf(requests, blocks)
    ensures Sound(r.pc)
    decreases |blocks|, 0
  {
    var last := blocks[|blocks| - 1];
    assert last in blocks;
    Exec(registered, Config(Acquire(requests[last.client]), Unlocked(SerialWorld(registered, requests, blocks[..|blocks| - 1], w))),
         last.script)
  }

  ghost function SerialWorld(registered: set<string>, requests: seq<Request>, blocks: seq<Block>, w: World): World
    requires ClientsOf(requests, blocks)
    decreases |blocks|, 1
  {
    if blocks == [] then w else SerialConfig(registered, requests, blocks, w).world
  }

  predicate Takes(pc: Pc, w: World, o: Outcome) { pc.Acquire? && o.ok && !w.locked }

  /** The blocks an interleaving amounts to, in the order the lock was taken. */
  function NextBlocks(sys: System, blocks: seq<Block>, e: Event): seq<Block> {
    if e.Act? && Live(sys, e.client) && Takes(sys.pcs[e.client], sys.world, e.outcome) then
      blocks + [Block(e.client, [e.outcome])]
    else if e.Act? && LiveHolder(sys, e.client) && blocks != [] then
      var n := |blocks| - 1;
      blocks[..n] + [Block(blocks[n].client, blocks[n].script + [e.outcome])]
    else blocks
  }

  ghost function BlocksOf(registered: set<string>, requests: seq<Request>, w: World, s: Schedule): seq<Block>
    decreases |s|
  {
    if s == [] then []
    else
      var init := s[..|s| - 1];
      NextBlocks(Interleaved(registered, requests, w, init), BlocksOf(registered, requests, w, init), s[|s| - 1])
  }

  // ---------------------------------------------------------------------- one action

  /** The action goes the same way, and leaves the same, on two worlds that differ in the lock at most. */
  ghost predicate Alike(registered: set<string>, pc: Pc, w: World, v: World, o: Outcome)
    requires Sound(pc)
  {
    var c, d := Next(registered, pc, w, o), Next(registered, pc, v, o);
    c.pc == d.pc && Unlocked(c.world) == Unlocked(d.world)
  }

  lemma RollbacksActAlike(registered: set<string>, pc: Pc, w: World, v: World, o: Outcome)
    requires Sound(pc) && v == w.(locked := v.locked)
    requires pc.Load? || pc.Preflight? || pc.Reverting? || pc.Consume?
    ensures Alike(registered, pc, w, v, o)
  {
    hide Plan, PreflightPasses, Latest, Put, Resume, RunIds;
  }

  lemma SavesActAlike(registered: set<string>, pc: Pc, w: World, v: World, o: Outcome)
    requires Sound(pc) && v == w.(locked := v.locked)
    requires pc.Claim? || pc.Writing? || pc.Renaming? || pc.Publishing?
    ensures Alike(registered, pc, w, v, o)
  {
    hide Plan, Resume, Saved;
  }

  lemma StepsActAlike(registered: set<string>, pc: Pc, w: World, v: World, o: Outcome)
    requires Sound(pc) && v == w.(locked := v.locked)
    requires pc.Release? || pc.Checking? || pc.Polling? || pc.CapturingBefore? || pc.ApplyingStep? || pc.CapturingAfter? || pc.Dropping?
    ensures Alike(registered, pc, w, v, o)
  {
    hide Captured, Differ, Effect;
  }

  /** Past the lock, an action does not look at it. */
  lemma LockIsNotRead(registered: set<string>, pc: Pc, w: World, v: World, o: Outcome)
    requires Sound(pc) && Holding(pc) && Unlocked(w) == Unlocked(v)
    ensures Next(registered, pc, w, o).pc == Next(registered, pc, v, o).pc
    ensures Unlocked(Next(registered, pc, w, o).world) == Unlocked(Next(registered, pc, v, o).world)
  {
    hide Next, Sound;
    assert v == w.(locked := v.locked);
    if pc.Load? || pc.Preflight? || pc.Reverting? || pc.Consume? {
      RollbacksActAlike(registered, pc, w, v, o);
    } else if pc.Claim? || pc.Writing? || pc.Renaming? || pc.Publishing? {
      SavesActAlike(registered, pc, w, v, o);
    } else {
      StepsActAlike(registered, pc, w, v, o);
    }
  }

  /** A client that does not get the lock changes nothing but, perhaps, the lock. */
  lemma RefusedChangesNothing(registered: set<string>, pc: Pc, w: World, o: Outcome)
    requires Sound(pc) && !Holding(pc) && !Takes(pc, w, o)
    ensures Next(registered, pc, w, o).pc.Finished? && Unlocked(Next(registered, pc, w, o).world) == Unlocked(w)
    ensures w.locked ==> Next(registered, pc, w, o).world.locked
  {
  }

  lemma TakingLocks(registered: set<string>, pc: Pc, w: World, o: Outcome)
    requires Takes(pc, w, o)
    ensures Next(registered, pc, w, o) == Config(Started(pc.request), w.(locked := true)) && Holding(Started(pc.request))
  {
  }

  lemma HoldingKeepsLock(registered: set<string>, pc: Pc, w: World, o: Outcome)
    requires Sound(pc) && Holding(pc)
    ensures var c := Next(registered, pc, w, o);
      && !c.pc.Acquire? && (Holding(c.pc) ==> c.world.locked == w.locked)
  {
    hide Plan, PreflightPasses, Loaded, Captured, Differ, Effect, Put;
  }

  // -------------------------------------------------------------------- mutual exclusion

  /** At most one live client is between acquire and release, and the lock is there while it is. */
  ghost predicate Exclusive(sys: System) {
    forall i :: LiveHolder(sys, i) ==> sys.world.locked && forall j :: LiveHolder(sys, j) ==> i == j
  }

  lemma MoveKeepsExclusive(registered: set<string>, sys: System, e: Event)
    requires SoundSystem(sys) && Exclusive(sys)
    ensures Exclusive(Move(registered, sys, e))
  {
    hide Next, Sound;
    if e.Act? && Live(sys, e.client) {
      var i, o := e.client, e.outcome;
      var pc, w := sys.pcs[i], sys.world;
      var next := Move(registered, sys, e);
      forall k | LiveHolder(next, k) && k != i ensures LiveHolder(sys, k) {}
      if Takes(pc, w, o) {
        TakingLocks(registered, pc, w, o);
        assert forall k :: !LiveHolder(sys, k);
        hide Takes, Holding, Started;
      } else if Holding(pc) {
        HoldingKeepsLock(registered, pc, w, o);
        assert LiveHolder(sys, i);
        hide Takes, Started;
      } else {
        RefusedChangesNothing(registered, pc, w, o);
        hide Takes, Started;
      }
    } else {
      forall k | LiveHolder(Move(registered, sys, e), k) ensures LiveHolder(sys, k) {}
    }
  }

  /** In every interleaving at most one client is between acquire and release. */
  lemma {:induction false} MutualExclusion(registered: set<string>, requests: seq<Request>, w: World, s: Schedule)
    ensures Exclusive(Interleaved(registered, requests, w, s))
    decreases |s|
  {
    hide Move, Exclusive;
    if s == [] {
      NobodyHolds(System(w, Starting(requests), {}));
    } else {
      MutualExclusion(registered, requests, w, s[..|s| - 1]);
      MoveKeepsExclusive(registered, Interleaved(registered, requests, w, s[..|s| - 1]), s[|s| - 1]);
    }
  }

  lemma NobodyHolds(sys: System)
    requires forall i :: 0 <= i < |sys.pcs| ==> sys.pcs[i].Acquire?
    ensures Exclusive(sys)
  {
  }

  // ---------------------------------------------------------------------- serialisability

  /** The interleaving so far is the serial run of the blocks so far. */
  ghost predicate Agrees(registered: set<string>, requests: seq<Request>, w: World, sys: System, blocks: seq<Block>) {
    && |sys.pcs| == |requests| && ClientsOf(requests, blocks)
    && Unlocked(sys.world) == Unlocked(SerialWorld(registered, requests, blocks, w))
    && (forall b :: 0 <= b < |blocks| ==>
          sys.pcs[blocks[b].client] == SerialConfig(registered, requests, blocks[..b + 1], w).pc)
    && (forall a, b :: 0 <= a < b < |blocks| ==> blocks[a].client != blocks[b].client)
    && (forall i :: 0 <= i < |requests| && sys.pcs[i].Acquire? ==>
          sys.pcs[i] == Acquire(requests[i]) && forall b <- blocks :: b.client != i)
    && (forall i :: LiveHolder(sys, i) ==> blocks != [] && blocks[|blocks| - 1].client == i)
  }

  lemma PrefixBlocks(blocks: seq<Block>, b: Block, k: nat)
    requires k <= |blocks|
    ensures (blocks + [b])[..k] == blocks[..k]
  {
  }

  /** A client takes the lock: its block begins. */
  lemma TakingAgrees(registered: set<string>, requests: seq<Request>, w: World, sys: System, blocks: seq<Block>, i: nat, o: Outcome)
    requires SoundSystem(sys) && Exclusive(sys) && Agrees(registered, requests, w, sys, blocks)
    requires Live(sys, i) && Takes(sys.pcs[i], sys.world, o)
    ensures Agrees(registered, requests, w, Move(registered, sys, Act(i, o)), NextBlocks(sys, blocks, Act(i, o)))
  {
    var pc := sys.pcs[i];
    TakingLocks(registered, pc, sys.world, o);
    assert forall k :: !LiveHolder(sys, k);
    var next, blocks' := Move(registered, sys, Act(i, o)), blocks + [Block(i, [o])];
    assert blocks' == NextBlocks(sys, blocks, Act(i, o));
    assert next.pcs == sys.pcs[i := Started(pc.request)] && next.stopped == sys.stopped;
    assert next.world == sys.world.(locked := true);
    assert i < |requests| && pc == Acquire(requests[i]);
    hide Next, Holding, Started, SerialConfig, SerialWorld, Takes, Sound, Move, NextBlocks;
    NewBlock(registered, requests, w, blocks, i, o);
    SerialWorldOf(registered, requests, blocks', w);
    PrefixBlocks(blocks, Block(i, [o]), |blocks|);
    TakingBlocks(registered, requests, w, sys, blocks, next, blocks', i);
  }

  lemma NewBlock(registered: set<string>, requests: seq<Request>, w: World, blocks: seq<Block>, i: nat, o: Outcome)
    requires i < |requests| && ClientsOf(requests, blocks) && o.ok
    ensures var blocks' := blocks + [Block(i, [o])];
      && ClientsOf(requests, blocks')
      && SerialConfig(registered, requests, blocks', w) ==
         Config(Started(requests[i]), SerialWorld(registered, requests, blocks, w).(locked := true))
      && !Started(requests[i]).Acquire?
  {
    var blocks' := blocks + [Block(i, [o])];
    PrefixBlocks(blocks, Block(i, [o]), |blocks|);
    var v := Unlocked(SerialWorld(registered, requests, blocks, w));
    TakingLocks(registered, Acquire(requests[i]), v, o);
    hide Next, Started, SerialWorld;
    FirstAction(registered, Acquire(requests[i]), v, o);
    assert blocks'[..|blocks'| - 1] == blocks;
  }

  lemma TakingBlocks(registered: set<string>, requests: seq<Request>, w: World, sys: System, blocks: seq<Block>,
                     next: System, blocks': seq<Block>, i: nat)
    requires Agrees(registered, requests, w, sys, blocks) && i < |sys.pcs| && sys.pcs[i].Acquire?
    requires |blocks'| == |blocks| + 1 && blocks'[..|blocks|] == blocks && blocks'[|blocks|].client == i
    requires |next.pcs| == |sys.pcs| && next.pcs == sys.pcs[i := next.pcs[i]] && next.stopped == sys.stopped
    requires ClientsOf(requests, blocks') && !next.pcs[i].Acquire?
    requires next.pcs[i] == SerialConfig(registered, requests, blocks', w).pc
    requires Unlocked(next.world) == Unlocked(SerialWorld(registered, requests, blocks', w))
    requires forall k :: !LiveHolder(sys, k)
    ensures Agrees(registered, requests, w, next, blocks')
  {
    var n := |blocks|;
    assert forall b :: 0 <= b < n ==> blocks'[b] == blocks'[..n][b];
    forall b | 0 <= b < n ensures blocks'[b].client != i { assert blocks[b] in blocks; }
    TakingPcs(registered, requests, w, sys, blocks, next, blocks', i);
    TakingOthers(registered, requests, w, sys, blocks, next, blocks', i);
    DistinctClients(blocks, blocks', i);
    hide SerialConfig, SerialWorld, Sound, Holding, LiveHolder, ClientsOf, Unlocked;
  }

  lemma TakingPcs(registered: set<string>, requests: seq<Request>, w: World, sys: System, blocks: seq<Block>,
                  next: System, blocks': seq<Block>, i: nat)
    requires Agrees(registered, requests, w, sys, blocks) && i < |sys.pcs| && ClientsOf(requests, blocks')
    requires |blocks'| == |blocks| + 1 && blocks'[..|blocks|] == blocks && blocks'[|blocks|].client == i
    requires forall b :: 0 <= b < |blocks| ==> blocks'[b].client != i
    requires |next.pcs| == |sys.pcs| && next.pcs == sys.pcs[i := next.pcs[i]]
    requires next.pcs[i] == SerialConfig(registered, requests, blocks', w).pc
    ensures forall b :: 0 <= b < |blocks'| ==>
              blocks'[b].client < |next.pcs| && next.pcs[blocks'[b].client] == SerialConfig(registered, requests, blocks'[..b + 1], w).pc
  {
    hide SerialConfig, Agrees;
    forall b | 0 <= b < |blocks'|
      ensures blocks'[b].client < |next.pcs| && next.pcs[blocks'[b].client] == SerialConfig(registered, requests, blocks'[..b + 1], w).pc
    {
      TakingPc(registered, requests, w, sys, blocks, next, blocks', i, b);
    }
  }

  lemma DistinctClients(blocks: seq<Block>, blocks': seq<Block>, i: nat)
    requires forall a, b :: 0 <= a < b < |blocks| ==> blocks[a].client != blocks[b].client
    requires |blocks'| == |blocks| + 1 && blocks'[|blocks|].client == i
    requires forall b :: 0 <= b < |blocks| ==> blocks'[b] == blocks[b] && blocks'[b].client != i
    ensures forall a, b :: 0 <= a < b < |blocks'| ==> blocks'[a].client != blocks'[b].client
  {
  }

  lemma TakingPc(registered: set<string>, requests: seq<Request>, w: World, sys: System, blocks: seq<Block>,
                 next: System, blocks': seq<Block>, i: nat, b: nat)
    requires Agrees(registered, requests, w, sys, blocks) && i < |sys.pcs| && ClientsOf(requests, blocks') && b <= |blocks|
    requires |blocks'| == |blocks| + 1 && blocks'[..|blocks|] == blocks && blocks'[|blocks|].client == i
    requires b < |blocks| ==> blocks'[b].client != i
    requires |next.pcs| == |sys.pcs| && next.pcs == sys.pcs[i := next.pcs[i]]
    requires next.pcs[i] == SerialConfig(registered, requests, blocks', w).pc
    ensures blocks'[b].client < |next.pcs|
    ensures next.pcs[blocks'[b].client] == SerialConfig(registered, requests, blocks'[..b + 1], w).pc
  {
    hide SerialConfig, SerialWorld, Sound, Holding;
    var n := |blocks|;
    if b < n {
      assert blocks'[b] == blocks'[..n][b];
      assert blocks'[..b + 1] == blocks'[..n][..b + 1] == blocks[..b + 1];
      assert blocks[b] in blocks;
    } else {
      assert blocks'[..n + 1] == blocks';
    }
  }

  lemma TakingOthers(registered: set<string>, requests: seq<Request>, w: World, sys: System, blocks: seq<Block>,
                     next: System, blocks': seq<Block>, i: nat)
    requires Agrees(registered, requests, w, sys, blocks) && i < |sys.pcs|
    requires |blocks'| == |blocks| + 1 && blocks'[|blocks|].client == i
    requires forall b :: 0 <= b < |blocks| ==> blocks'[b] == blocks[b]
    requires |next.pcs| == |sys.pcs| && next.pcs == sys.pcs[i := next.pcs[i]] && next.stopped == sys.stopped
    requires !next.pcs[i].Acquire? && forall k :: !LiveHolder(sys, k)
    ensures forall k :: 0 <= k < |requests| && next.pcs[k].Acquire? ==>
              next.pcs[k] == Acquire(requests[k]) && forall b <- blocks' :: b.client != k
    ensures forall k :: LiveHolder(next, k) ==> k == i
  {
    hide SerialConfig, SerialWorld, Sound, Holding;
    forall k | 0 <= k < |requests| && next.pcs[k].Acquire?
      ensures next.pcs[k] == Acquire(requests[k]) && forall b <- blocks' :: b.client != k
    {
      assert sys.pcs[k].Acquire? && k != i;
      forall b <- blocks' ensures b.client != k {
        var x :| 0 <= x < |blocks'| && blocks'[x] == b;
        assert x < |blocks| ==> blocks[x] in blocks;
      }
    }
    forall k | LiveHolder(next, k) ensures k == i {
      assert k != i ==> LiveHolder(sys, k);
    }
  }

  lemma SerialWorldOf(registered: set<string>, requests: seq<Request>, blocks: seq<Block>, w: World)
    requires blocks != [] && ClientsOf(requests, blocks)
    ensures SerialWorld(registered, requests, blocks, w) == SerialConfig(registered, requests, blocks, w).world
  {
  }

  lemma FirstAction(registered: set<string>, pc: Pc, v: World, o: Outcome)
    requires pc.Acquire?
    ensures Exec(registered, Config(pc, v), [o]) == Next(registered, pc, v, o)
  {
    ExecSnoc(registered, Config(pc, v), [], o);
    assert [] + [o] == [o];
  }

  lemma SerialSnoc(registered: set<string>, requests: seq<Request>, w: World, blocks: seq<Block>, o: Outcome)
    requires blocks != [] && ClientsOf(requests, blocks)
    ensures var n := |blocks| - 1;
      var blocks' := blocks[..n] + [Block(blocks[n].client, blocks[n].script + [o])];
      var c := SerialConfig(registered, requests, blocks, w);
      && ClientsOf(requests, blocks')
      && SerialConfig(registered, requests, blocks', w) == Next(registered, c.pc, c.world, o)
  {
    var n := |blocks| - 1;
    var last := blocks[n];
    var b := Block(last.client, last.script + [o]);
    var blocks' := blocks[..n] + [b];
    assert last in blocks && blocks'[..n] == blocks[..n];
    var v := Unlocked(SerialWorld(registered, requests, blocks[..n], w));
    hide Next;
    ExecSnoc(registered, Config(Acquire(requests[last.client]), v), last.script, o);
  }

  /** The holder acts: its block, the last one, goes on. */
  lemma HoldingAgrees(registered: set<string>, requests: seq<Request>, w: World, sys: System, blocks: seq<Block>, i: nat, o: Outcome)
    requires SoundSystem(sys) && Exclusive(sys) && Agrees(registered, requests, w, sys, blocks) && LiveHolder(sys, i)
    ensures Agrees(registered, requests, w, Move(registered, sys, Act(i, o)), NextBlocks(sys, blocks, Act(i, o)))
  {
    var pc, n := sys.pcs[i], |blocks| - 1;
    var b := Block(i, blocks[n].script + [o]);
    var blocks', next := blocks[..n] + [b], Move(registered, sys, Act(i, o));
    assert blocks' == NextBlocks(sys, blocks, Act(i, o));
    SerialSnoc(registered, requests, w, blocks, o);
    SerialWorldOf(registered, requests, blocks, w);
    SerialWorldOf(registered, requests, blocks', w);
    assert blocks[..n + 1] == blocks && blocks'[..n + 1] == blocks';
    var c := SerialConfig(registered, requests, blocks, w);
    LockIsNotRead(registered, pc, sys.world, c.world, o);
    HoldingKeepsLock(registered, pc, sys.world, o);
    assert next.world == Next(registered, pc, sys.world, o).world && next.pcs[i] == Next(registered, pc, sys.world, o).pc;
    hide Next, SerialConfig, SerialWorld, Sound, Move;
    HoldingPcs(registered, requests, w, sys, blocks, next, blocks', i);
  }

  lemma HoldingPcs(registered: set<string>, requests: seq<Request>, w: World, sys: System, blocks: seq<Block>,
                   next: System, blocks': seq<Block>, i: nat)
    requires Agrees(registered, requests, w, sys, blocks) && LiveHolder(sys, i) && ClientsOf(requests, blocks')
    requires blocks != [] && |blocks'| == |blocks| && blocks'[..|blocks| - 1] == blocks[..|blocks| - 1]
    requires blocks'[|blocks| - 1].client == blocks[|blocks| - 1].client == i
    requires |next.pcs| == |sys.pcs| && next.pcs == sys.pcs[i := next.pcs[i]] && next.stopped == sys.stopped
    requires next.pcs[i] == SerialConfig(registered, requests, blocks', w).pc && !next.pcs[i].Acquire?
    requires Unlocked(next.world) == Unlocked(SerialWorld(registered, requests, blocks', w))
    ensures Agrees(registered, requests, w, next, blocks')
  {
    hide SerialConfig, SerialWorld, Sound, Holding, Unlocked;
    var n := |blocks| - 1;
    forall b | 0 <= b <= n ensures blocks'[b].client == blocks[b].client {
      assert b < n ==> blocks'[b] == blocks'[..n][b] && blocks[b] == blocks[..n][b];
    }
    forall b | 0 <= b <= n ensures next.pcs[blocks'[b].client] == SerialConfig(registered, requests, blocks'[..b + 1], w).pc {
      HoldingPc(registered, requests, w, sys, blocks, next, blocks', i, b);
    }
    HoldingOthers(registered, requests, w, sys, blocks, next, blocks', i);
  }

  lemma HoldingPc(registered: set<string>, requests: seq<Request>, w: World, sys: System, blocks: seq<Block>,
                  next: System, blocks': seq<Block>, i: nat, b: nat)
    requires Agrees(registered, requests, w, sys, blocks) && i < |requests| && ClientsOf(requests, blocks') && b < |blocks|
    requires |blocks'| == |blocks| && blocks'[..|blocks| - 1] == blocks[..|blocks| - 1]
    requires blocks'[|blocks| - 1].client == blocks[|blocks| - 1].client == i && blocks'[b].client == blocks[b].client
    requires |next.pcs| == |sys.pcs| && next.pcs == sys.pcs[i := next.pcs[i]]
    requires next.pcs[i] == SerialConfig(registered, requests, blocks', w).pc
    ensures blocks'[b].client < |next.pcs|
    ensures next.pcs[blocks'[b].client] == SerialConfig(registered, requests, blocks'[..b + 1], w).pc
  {
    var n := |blocks| - 1;
    hide SerialConfig, SerialWorld, Sound, Holding;
    assert blocks[b] in blocks;
    if b == n {
      assert blocks'[..n + 1] == blocks';
    } else {
      assert blocks'[..b + 1] == blocks'[..n][..b + 1] == blocks[..n][..b + 1] == blocks[..b + 1];
      assert blocks[b].client != blocks[n].client;
    }
  }

  lemma HoldingOthers(registered: set<string>, requests: seq<Request>, w: World, sys: System, blocks: seq<Block>,
                      next: System, blocks': seq<Block>, i: nat)
    requires Agrees(registered, requests, w, sys, blocks) && LiveHolder(sys, i) && |blocks'| == |blocks|
    requires forall b :: 0 <= b < |blocks| ==> blocks'[b].client == blocks[b].client
    requires |next.pcs| == |sys.pcs| && next.pcs == sys.pcs[i := next.pcs[i]] && next.stopped == sys.stopped
    requires !next.pcs[i].Acquire?
    ensures forall k :: 0 <= k < |requests| && next.pcs[k].Acquire? ==>
              next.pcs[k] == Acquire(requests[k]) && forall b <- blocks' :: b.client != k
    ensures forall k :: LiveHolder(next, k) ==> blocks' != [] && blocks'[|blocks'| - 1].client == k
  {
    hide SerialConfig, SerialWorld, Sound, Holding;
    forall k | 0 <= k < |requests| && next.pcs[k].Acquire?
      ensures next.pcs[k] == Acquire(requests[k]) && forall b <- blocks' :: b.client != k
    {
      assert k != i && sys.pcs[k].Acquire?;
      forall b <- blocks' ensures b.client != k {
        var x :| 0 <= x < |blocks'| && blocks'[x] == b;
        assert blocks[x] in blocks;
      }
    }
    forall k | LiveHolder(next, k) ensures LiveHolder(sys, k) {}
  }

  /** Nothing shared changes but, perhaps, the lock. */
  lemma QuietAgrees(registered: set<string>, requests: seq<Request>, w: World, sys: System, blocks: seq<Block>, next: System)
    requires Agrees(registered, requests, w, sys, blocks) && |next.pcs| == |sys.pcs|
    requires Unlocked(next.world) == Unlocked(sys.world) && sys.stopped <= next.stopped
    requires forall k :: 0 <= k < |sys.pcs| ==> next.pcs[k] == sys.pcs[k] || (sys.pcs[k].Acquire? && next.pcs[k].Finished?)
    ensures Agrees(registered, requests, w, next, blocks)
  {
    hide SerialConfig, SerialWorld;
    forall b | 0 <= b < |blocks| ensures next.pcs[blocks[b].client] == SerialConfig(registered, requests, blocks[..b + 1], w).pc {
      assert blocks[b] in blocks;
    }
    forall k | LiveHolder(next, k) ensures LiveHolder(sys, k) {}
  }

  lemma MoveAgrees(registered: set<string>, requests: seq<Request>, w: World, sys: System, blocks: seq<Block>, e: Event)
    requires SoundSystem(sys) && Exclusive(sys) && Agrees(registered, requests, w, sys, blocks)
    ensures Agrees(registered, requests, w, Move(registered, sys, e), NextBlocks(sys, blocks, e))
  {
    var next := Move(registered, sys, e);
    if e.Act? && Live(sys, e.client) {
      var i, o := e.client, e.outcome;
      if Takes(sys.pcs[i], sys.world, o) {
        TakingAgrees(registered, requests, w, sys, blocks, i, o);
      } else if Holding(sys.pcs[i]) {
        HoldingAgrees(registered, requests, w, sys, blocks, i, o);
      } else {
        RefusedChangesNothing(registered, sys.pcs[i], sys.world, o);
        if sys.pcs[i].Finished? { FinishedStays(registered, Config(sys.pcs[i], sys.world), o); }
        hide Next, Agrees, Takes;
        QuietAgrees(registered, requests, w, sys, blocks, next);
      }
    } else {
      hide Agrees;
      QuietAgrees(registered, requests, w, sys, blocks, next);
    }
  }

  lemma {:induction false} Serialisable(registered: set<string>, requests: seq<Request>, w: World, s: Schedule)
    ensures Agrees(registered, requests, w, Interleaved(registered, requests, w, s), BlocksOf(registered, requests, w, s))
    decreases |s|
  {
    hide Move, NextBlocks;
    if s == [] {
      NobodyHolds(System(w, Starting(requests), {}));
    } else {
      hide Agrees;
      var init := s[..|s| - 1];
      Serialisable(registered, requests, w, init);
      MutualExclusion(registered, requests, w, init);
      MoveAgrees(registered, requests, w, Interleaved(registered, requests, w, init), BlocksOf(registered, requests, w, init), s[|s| - 1]);
    }
  }

  /** The final host and journals are those of running the clients one after the other in the order they took the lock. */
  lemma InterleavingIsSerial(registered: set<string>, requests: seq<Request>, w: World, s: Schedule)
    ensures var end := Interleaved(registered, requests, w, s);
      var blocks := BlocksOf(registered, requests, w, s);
      && ClientsOf(requests, blocks)
      && (forall a, b :: 0 <= a < b < |blocks| ==> blocks[a].client != blocks[b].client)
      && Unlocked(end.world) == Unlocked(SerialWorld(registered, requests, blocks, w))
      && (forall b :: 0 <= b < |blocks| ==>
            end.pcs[blocks[b].client] == SerialConfig(registered, requests, blocks[..b + 1], w).pc)
  {
    Serialisable(registered, requests, w, s);
    hide Interleaved, BlocksOf, SerialConfig, SerialWorld;
  }
}
