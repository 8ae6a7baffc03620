/** Connection bootstrap of the Ethereum node (client/lib/ethereum/node.js):
    the probe loop of `initConnection` with its growing retry delay, and the
    readiness gate `initCollections` over the accounts and blocks read
    models. What the node answers on each probe, and the events each read
    model delivers, are inputs in arrival order; timers are recorded as the
    delays they are armed with. */
module Connection {

  /** The delay of the first probe, in milliseconds. */
  const FirstProbeDelay: nat := 100
  /** What each retry adds on top of doubling the previous delay. */
  const BackoffStep: nat := 1000

  /** How a promise stands once the given inputs have been delivered. */
  datatype Settlement<+T> = Pending | Resolved(value: T) | Rejected

  // ---------------------------------------------------------------------
  // Backoff

  /** The captured `timeout` after n calls of `retry` (`timeout += timeout + 1000`):
      the n-th retry waits 1000 * (2^n - 1) ms, that is 1000, 3000, 7000, ... */
  function Backoff(n: nat): (r: nat)
    ensures r == BackoffStep * (Pow2(n) - 1)
  {
    if n == 0 then 0 else Backoff(n - 1) + Backoff(n - 1) + BackoffStep
  }

  function Pow2(n: nat): nat
  {
    if n == 0 then 1 else 2 * Pow2(n - 1)
  }

  lemma {:induction false} BackoffStrictlyIncreasing(m: nat, n: nat)
    requires m < n
    ensures Backoff(m) < Backoff(n)
  {
    if m < n - 1 {
      BackoffStrictlyIncreasing(m, n - 1);
    }
  }

  /** Every retry waits at least as long as the first probe and all earlier retries together. */
  lemma {:induction false} BackoffExceedsHistory(n: nat)
    requires n >= 1
    ensures Backoff(n) >= FirstProbeDelay + SumBackoff(n - 1)
  {
    if n > 1 {
      BackoffExceedsHistory(n - 1);
    }
  }

  function SumBackoff(n: nat): nat
  {
    if n == 0 then 0 else SumBackoff(n - 1) + Backoff(n)
  }

  // ---------------------------------------------------------------------
  // One probe

  /** The node's answer to `getSyncing`: an error, a falsy result (not
      syncing) or a truthy one (still syncing). */
  datatype SyncReply = SyncError | NotSyncing | Syncing

  /** What one run of `tryConnection` observes. `injected` is whether the
      provider is the browser-injected wallet (Metamask); `sync` is only
      asked for when it is not. */
  datatype Probe = Probe(connected: bool, injected: bool, sync: SyncReply)

  datatype Decision = Retry | Ready

  function TryConnection(p: Probe): (d: Decision)
    ensures !p.connected ==> d == Retry
    ensures p.connected && p.injected ==> d == Ready
    ensures p.connected && !p.injected ==> (d == Ready <==> p.sync != Syncing)
  {
    if !p.connected then Retry
    else if p.injected then Ready
    else if p.sync == Syncing then Retry
    else Ready
  }

  /** Not connected retries whatever else the probe would report; an
      injected provider is ready whatever the node would say about syncing. */
  lemma DecisionOrder(p: Probe, injected: bool, sync: SyncReply)
    ensures !p.connected ==> TryConnection(p.(injected := injected, sync := sync)) == Retry
    ensures p.connected && p.injected ==> TryConnection(p.(sync := sync)) == Ready
  {
  }

  // ---------------------------------------------------------------------
  // The probe loop

  /** Some probe among those observed finds the node ready. */
  predicate NodeReady(probes: seq<Probe>)
  {
    exists j :: 0 <= j < |probes| && TryConnection(probes[j]) == Ready
  }

  /** The timers armed after n retries: the first probe, then each retry's delay. */
  function Schedule(n: nat): (s: seq<nat>)
    ensures |s| == n + 1 && s[0] == FirstProbeDelay
    ensures forall j :: 1 <= j <= n ==> s[j] == Backoff(j)
  {
    if n == 0 then [FirstProbeDelay] else Schedule(n - 1) + [Backoff(n)]
  }

  /** `initConnection`: probes 100 ms after the start, and after every
      `Retry` arms the next probe with the grown delay. `probes` are the
      observations of successive probes; when they run out before one is
      `Ready` the promise is still pending. `delays` lists every timer armed,
      in order. */
  method InitConnection(probes: seq<Probe>) returns (result: Settlement<bool>, delays: seq<nat>)
    ensures !result.Rejected?
    ensures result.Resolved? ==> result.value
    ensures result.Resolved? <==> NodeReady(probes)
    ensures 1 <= |delays| <= |probes| + 1
    ensures delays == Schedule(|delays| - 1)
    ensures forall j :: 0 <= j < |delays| - 1 ==> TryConnection(probes[j]) == Retry
    ensures result.Resolved? ==> |delays| <= |probes| && TryConnection(probes[|delays| - 1]) == Ready
    ensures result.Pending? ==> |delays| == |probes| + 1
  {
    var timeout: nat := 0;
    delays := [FirstProbeDelay];
    result := Pending;
    var i := 0;
    while i < |probes|
      invariant 0 <= i <= |probes|
      invariant timeout == Backoff(i)
      invariant delays == Schedule(i)
      invariant forall j :: 0 <= j < i ==> TryConnection(probes[j]) == Retry
    {
      if TryConnection(probes[i]) == Ready {
        result := Resolved(true);
        return;
      }
      timeout := timeout + timeout + BackoffStep;
      delays := delays + [timeout];
      i := i + 1;
    }
  }

  /** A node that is connected and not syncing on the first probe is ready
      after the 100 ms probe alone. */
  method ReadyOnFirstProbe() returns (result: Settlement<bool>, delays: seq<nat>)
    ensures result == Resolved(true) && delays == [FirstProbeDelay]
  {
    var probes := [Probe(true, false, NotSyncing)];
    assert TryConnection(probes[0]) == Ready;
    result, delays := InitConnection(probes);
    assert |delays| == 1;
    assert delays == [delays[0]];
  }

  // ---------------------------------------------------------------------
  // Read-model readiness

  /** An event reaching a read model's subscriber: a document added, or
      (accounts only) the reply to `getAccounts`. */
  datatype Signal = Added | AccountsListed(failed: bool, count: nat)

  /** The inputs of one side of the gate: whether documents already exist
      when `observe` is called (it then delivers them before returning),
      whether `init` throws, and what arrives afterwards. */
  datatype GateInputs = GateInputs(presentAtObserve: bool, initThrows: bool, later: seq<Signal>)

  predicate AccountsReadySignal(s: Signal)
  {
    s.Added? || (s.AccountsListed? && !s.failed && s.count < 1)
  }

  predicate AccountsFailSignal(s: Signal)
  {
    s.AccountsListed? && s.failed
  }

  /** An event that neither resolves nor rejects the accounts side. */
  predicate Quiet(s: Signal)
  {
    !AccountsReadySignal(s) && !AccountsFailSignal(s)
  }

  /** The i-th event is the first one that resolves or rejects the accounts side. */
  predicate FirstSettlingAt(later: seq<Signal>, i: int)
  {
    0 <= i < |later| && !Quiet(later[i]) && forall j :: 0 <= j < i ==> Quiet(later[j])
  }

  /** The first event that settles the accounts promise decides it: an added
      account or an empty account list resolves it, a failed `getAccounts`
      rejects it; later ones find it settled (and the observer stopped) and
      change nothing. */
  function FirstAccountsSettlement(later: seq<Signal>): (r: Settlement<bool>)
    ensures r.Resolved? ==> r.value
    ensures r.Pending? <==> forall i :: 0 <= i < |later| ==> !AccountsReadySignal(later[i]) && !AccountsFailSignal(later[i])
    ensures r.Resolved? <==> exists i :: FirstSettlingAt(later, i) && AccountsReadySignal(later[i])
    ensures r.Rejected? <==> exists i :: FirstSettlingAt(later, i) && AccountsFailSignal(later[i])
  {
    if later == [] then Pending
    else if AccountsReadySignal(later[0]) then
      assert FirstSettlingAt(later, 0);
      Resolved(true)
    else if AccountsFailSignal(later[0]) then
      assert FirstSettlingAt(later, 0);
      Rejected
    else
      var r := FirstAccountsSettlement(later[1..]);
      FirstSettlingShift(later);
      r
  }

  /** After a quiet first event, the first settling event is found one place
      later in the whole sequence than in its tail. */
  lemma FirstSettlingShift(later: seq<Signal>)
    requires |later| > 0 && Quiet(later[0])
    ensures forall i :: 1 <= i < |later| ==> later[i] == later[1..][i - 1]
    ensures forall i :: FirstSettlingAt(later, i) ==> i >= 1 && FirstSettlingAt(later[1..], i - 1)
    ensures forall i :: FirstSettlingAt(later[1..], i) ==> FirstSettlingAt(later, i + 1)
  {
    forall i | FirstSettlingAt(later[1..], i)
      ensures FirstSettlingAt(later, i + 1)
    {
      forall j | 0 <= j < i + 1
        ensures Quiet(later[j])
      {
        if j > 0 {
          assert later[j] == later[1..][j - 1];
        }
      }
    }
  }

  /** Events after the settling one are ignored. */
  lemma {:induction false} AccountsSettleOnce(settled: seq<Signal>, after: seq<Signal>)
    requires !FirstAccountsSettlement(settled).Pending?
    ensures FirstAccountsSettlement(settled + after) == FirstAccountsSettlement(settled)
  {
    assert (settled + after)[0] == settled[0];
    if !AccountsReadySignal(settled[0]) && !AccountsFailSignal(settled[0]) {
      assert (settled + after)[1..] == settled[1..] + after;
      AccountsSettleOnce(settled[1..], after);
    }
  }

  /** The accounts side: ready on the first document added (even one that
      `observe` delivers before returning) or on an empty account list;
      rejected when `init` throws or `getAccounts` fails. Resolving during
      the initial delivery takes the guard `if (accountObserver)` to read an
      unassigned handle as undefined, as it does once `const` is compiled to
      `var`; under native `const` that read would throw like the blocks
      side's `stop`. */
  function AccountsReadiness(g: GateInputs): (r: Settlement<bool>)
    ensures r.Resolved? ==> r.value
    ensures g.presentAtObserve ==> r == Resolved(true)
    ensures !g.presentAtObserve && g.initThrows ==> r == Rejected
    ensures !g.presentAtObserve && !g.initThrows ==> r == FirstAccountsSettlement(g.later)
  {
    if g.presentAtObserve then Resolved(true)
    else if g.initThrows then Rejected
    else FirstAccountsSettlement(g.later)
  }

  /** The blocks side as written. A block delivered while `observe` is still
      running calls `stop` on an observer handle that is not assigned yet, so
      the callback throws before `resolve`. What happens next depends on the
      observer library, whose code is not part of this model, and is the
      input `callbackThrowEscapes`. If the exception escapes `observe`, it
      ends the promise's executor before `init`, and the promise never
      settles. If the library catches and logs it, `observe` returns, and the
      side behaves as if no block had been present: it waits for the next
      block. */
  function BlocksReadinessAsWritten(g: GateInputs, callbackThrowEscapes: bool): (r: Settlement<bool>)
    ensures r.Resolved? ==> r.value
    ensures g.presentAtObserve && callbackThrowEscapes ==> r == Pending
    ensures !(g.presentAtObserve && callbackThrowEscapes) ==>
      (r.Resolved? <==> !g.initThrows && Added in g.later) && (r.Rejected? <==> g.initThrows)
  {
    if g.presentAtObserve && callbackThrowEscapes then Pending
    else if g.initThrows then Rejected
    else if Added in g.later then Resolved(true)
    else Pending
  }

  /** The blocks side as intended (guarded like the accounts side): ready on
      the first block, whenever it arrives; rejected when `init` throws. */
  function BlocksReadiness(g: GateInputs): (r: Settlement<bool>)
    ensures r.Resolved? ==> r.value
    ensures r.Resolved? <==> g.presentAtObserve || (!g.initThrows && Added in g.later)
    ensures r.Rejected? <==> !g.presentAtObserve && g.initThrows
  {
    if g.presentAtObserve then Resolved(true)
    else if g.initThrows then Rejected
    else if Added in g.later then Resolved(true)
    else Pending
  }

  /** The two differ only when blocks exist at subscription time. The guarded
      side is then ready at once; the code as written never settles, or
      (when the observer library swallows the exception) waits for a later
      block as a fresh subscription would. */
  lemma BlocksAsWrittenHangs(g: GateInputs, callbackThrowEscapes: bool)
    ensures g.presentAtObserve ==> BlocksReadiness(g) == Resolved(true)
    ensures g.presentAtObserve && callbackThrowEscapes ==> BlocksReadinessAsWritten(g, callbackThrowEscapes) == Pending
    ensures g.presentAtObserve && !callbackThrowEscapes ==>
      BlocksReadinessAsWritten(g, callbackThrowEscapes) == BlocksReadiness(g.(presentAtObserve := false))
    ensures !g.presentAtObserve ==> BlocksReadinessAsWritten(g, callbackThrowEscapes) == BlocksReadiness(g)
  {
  }

  /** `Promise.all` of the two sides, then `promises[0] && promises[1]`. */
  function InitCollections(accounts: Settlement<bool>, blocks: Settlement<bool>): (r: Settlement<bool>)
    ensures r.Rejected? <==> accounts.Rejected? || blocks.Rejected?
    ensures r.Resolved? <==> accounts.Resolved? && blocks.Resolved?
    ensures r.Resolved? ==> r.value == (accounts.value && blocks.value)
  {
    if accounts.Rejected? || blocks.Rejected? then Rejected
    else if accounts.Resolved? && blocks.Resolved? then Resolved(accounts.value && blocks.value)
    else Pending
  }

  /** The gate over both read models, with the guarded blocks side: it
      rejects as soon as either side rejects, and resolves once both are
      ready. */
  function CollectionsReadiness(accounts: GateInputs, blocks: GateInputs): (r: Settlement<bool>)
    ensures r.Resolved? ==> r.value
    ensures r.Rejected? <==>
      (!accounts.presentAtObserve && (accounts.initThrows || FirstAccountsSettlement(accounts.later).Rejected?))
      || (!blocks.presentAtObserve && blocks.initThrows)
    ensures r.Resolved? <==>
      (accounts.presentAtObserve || (!accounts.initThrows && FirstAccountsSettlement(accounts.later).Resolved?))
      && (blocks.presentAtObserve || (!blocks.initThrows && Added in blocks.later))
  {
    InitCollections(AccountsReadiness(accounts), BlocksReadiness(blocks))
  }

  /** The gate over both read models with the blocks side as written. */
  function CollectionsReadinessAsWritten(accounts: GateInputs, blocks: GateInputs, callbackThrowEscapes: bool): (r: Settlement<bool>)
    ensures r.Resolved? ==> r.value
    ensures r.Rejected? <==>
      (!accounts.presentAtObserve && (accounts.initThrows || FirstAccountsSettlement(accounts.later).Rejected?))
      || (!(blocks.presentAtObserve && callbackThrowEscapes) && blocks.initThrows)
    ensures r.Resolved? <==>
      (accounts.presentAtObserve || (!accounts.initThrows && FirstAccountsSettlement(accounts.later).Resolved?))
      && !(blocks.presentAtObserve && callbackThrowEscapes) && !blocks.initThrows && Added in blocks.later
  {
    InitCollections(AccountsReadiness(accounts), BlocksReadinessAsWritten(blocks, callbackThrowEscapes))
  }

  /** With blocks present at subscription and an escaping exception, the gate
      as written never resolves, and rejects only through the accounts side;
      the guarded gate resolves as soon as the accounts side is ready. */
  lemma CollectionsAsWrittenWaits(accounts: GateInputs, blocks: GateInputs)
    requires blocks.presentAtObserve
    ensures !CollectionsReadinessAsWritten(accounts, blocks, true).Resolved?
    ensures CollectionsReadinessAsWritten(accounts, blocks, true).Rejected? <==> AccountsReadiness(accounts).Rejected?
    ensures AccountsReadiness(accounts).Resolved? ==> CollectionsReadiness(accounts, blocks) == Resolved(true)
  {
  }

  /** An account list that is empty at subscription time makes the accounts
      side ready without any document arriving. */
  lemma EmptyAccountsAreReady(rest: seq<Signal>)
    ensures AccountsReadiness(GateInputs(false, false, [AccountsListed(false, 0)] + rest)) == Resolved(true)
  {
  }
}
