/**
 * A whole sweep against the chain: the requests, the gate's answers to them, and what is left for the next sweep.
 */
module Sweep {
  import opened Bytes
  import opened Policy
  import opened Metas
  import opened Decision
  import opened Gate
  import opened KeeperPolicy
  import opened HolderIndex
  import opened Keeper
  import Freezer

  type Outcome = Freezer.Outcome

  // ----- Freezing token accounts leaves every decision as it was

  /** A Token-2022 account of `mint`. */
  predicate IsTokenAccount(w: World, chain: Chain, mint: Address, ta: Address) {
    ta in chain && chain[ta].owner == w.tokenId && TokenAt(chain, ta).Some? && TokenAt(chain, ta).value.mint == mint
  }

  function FrozenData(data: seq<Byte>): seq<Byte>
    requires |data| > 108
  {
    data[108 := 2]
  }

  /** The chain with the accounts in `s` frozen. */
  function FrozenIn(chain: Chain, s: set<Address>): Chain {
    map a | a in chain ::
      if a in s && |chain[a].data| > 108 then Account(chain[a].owner, FrozenData(chain[a].data)) else chain[a]
  }

  predicate AllTokenAccounts(w: World, chain: Chain, s: set<Address>) {
    forall a :: a in s ==> a in chain && chain[a].owner == w.tokenId && TokenAt(chain, a).Some?
  }

  /** Token-2022 is not one of the programs whose accounts a policy reads. */
  predicate TokenIdApart(w: World, p: GatePolicy) {
    w.tokenId != p.issuerProgram && w.tokenId != w.sasId && w.tokenId != w.gateId
  }

  lemma TokenAfterFreeze(w: World, chain: Chain, s: set<Address>, ta: Address)
    requires AllTokenAccounts(w, chain, s)
    ensures TokenAt(FrozenIn(chain, s), ta)
         == if ta in s then Some(TokenAt(chain, ta).value.(state := Frozen)) else TokenAt(chain, ta)
  {
    if ta in s {
      var d := chain[ta].data;
      assert Slice(FrozenData(d), 0, 32) == Slice(d, 0, 32);
      assert Slice(FrozenData(d), 32, 32) == Slice(d, 32, 32);
      assert Slice(FrozenData(d), 64, 8) == Slice(d, 64, 8);
    }
  }

  lemma DecisionAfterFreeze(w: World, chain: Chain, s: set<Address>, p: GatePolicy, owner: Address, now: I64)
    requires AllTokenAccounts(w, chain, s) && TokenIdApart(w, p)
    ensures DecideFor(w, FrozenIn(chain, s), Freeze, p, owner, true, now)
         == DecideFor(w, chain, Freeze, p, owner, true, now)
    ensures Stored(w, chain, p) ==> Stored(w, FrozenIn(chain, s), p)
    ensures TextReason(w, FrozenIn(chain, s), p, owner) <==> TextReason(w, chain, p, owner)
  {
    var after := FrozenIn(chain, s);
    assert BlacklistOnChain(w, after, p, owner) == BlacklistOnChain(w, chain, p, owner);
    assert AllowlistOnChain(w, after, p, owner) == AllowlistOnChain(w, chain, p, owner);
    assert CredentialOnChain(w, after, p, owner, now) == CredentialOnChain(w, chain, p, owner, now);
  }

  /** Nor does it change what the keeper reads of an owner. */
  lemma ReadsAfterFreeze(w: World, chain: Chain, s: set<Address>, p: GatePolicy, owner: Address)
    requires AllTokenAccounts(w, chain, s) && TokenIdApart(w, p)
    ensures ReadsFrom(w, FrozenIn(chain, s), p, owner) == ReadsFrom(w, chain, p, owner)
  {
  }

  // ----- The gate's answer to one request

  /** Token ACL's `freeze_permissionless_idempotent` on `ta`, when the gate's verdict is `verdict`. */
  function FreezeOutcome(chain: Chain, ta: Address, verdict: Verdict): (Chain, Outcome)
    requires TokenAt(chain, ta).Some?
  {
    if TokenAt(chain, ta).value.state != Initialized then (chain, Freezer.AlreadyFrozen)
    else (if verdict.AllowWith? then FrozenIn(chain, {ta}) else chain, Freezer.OutcomeOf(verdict))
  }

  /** Caller, token account, mint, owner, flag account, extra-metas account (the last two play no part). */
  function BaseFor(w: World, caller: Address, q: FreezeRequest): seq<Address> {
    [caller, q.tokenAccount, q.mint, q.owner, w.systemId,
     w.pda(w.gateId, [Ascii("freeze_extra_account_metas"), q.mint])]
  }

  /** The gate would let anyone freeze `owner`'s accounts, for `reason`. */
  predicate GateFlags(w: World, chain: Chain, p: GatePolicy, owner: Address, now: I64, reason: Flag) {
    DecideFor(w, chain, Freeze, p, owner, true, now) == AllowWith(Flagged(reason))
  }

  /** A thawed account the gate would freeze now. */
  predicate Freezable(w: World, chain: Chain, p: GatePolicy, now: I64, ta: Address, owner: Address, reason: Flag) {
    && IsTokenAccount(w, chain, p.mint, ta)
    && TokenAt(chain, ta).value.owner == owner && TokenAt(chain, ta).value.state == Initialized
    && GateFlags(w, chain, p, owner, now, reason)
  }

  /** A thawed account whose owner the keeper's rule flags now. */
  predicate Asked(w: World, chain: Chain, p: GatePolicy, now: I64, ta: Address, owner: Address, reason: Flag) {
    && IsTokenAccount(w, chain, p.mint, ta)
    && TokenAt(chain, ta).value.owner == owner && TokenAt(chain, ta).value.state == Initialized
    && FreezeReason(p, ReadsFrom(w, chain, p, owner), now) == Some(reason)
  }

  /** What the keeper asks for is what the gate would freeze, but for owners whose blacklist reason is not text: of
      those the gate would freeze none. */
  lemma FreezableIsAsked(w: World, chain: Chain, p: GatePolicy, now: I64, ta: Address, owner: Address, reason: Flag)
    ensures Freezable(w, chain, p, now, ta, owner, reason)
       <==> Asked(w, chain, p, now, ta, owner, reason) && TextReason(w, chain, p, owner)
  {
    FreezeMirror(w, chain, p, owner, now);
  }

  lemma FrozenOnce(chain: Chain, s: set<Address>, ta: Address)
    requires ta !in s
    ensures FrozenIn(FrozenIn(chain, s), {ta}) == FrozenIn(chain, s + {ta})
  {
  }

  /** Freezes of other accounts that landed first change nothing for a request. */
  lemma GateAnswersStill(w: World, chain: Chain, s: set<Address>, p: GatePolicy, base: seq<Address>, owner: Address,
                         now: I64)
    requires AllTokenAccounts(w, chain, s) && TokenIdApart(w, p) && Stored(w, chain, p) && BaseKeys(base, p.mint, owner)
    ensures DecideOnChain(w, FrozenIn(chain, s), Freeze, p, base, p.mint, owner, true, now)
         == DecideFor(w, chain, Freeze, p, owner, true, now)
  {
    DecisionAfterFreeze(w, chain, s, p, owner, now);
    ResolvedDecision(w, FrozenIn(chain, s), Freeze, p, base, owner, true, now);
  }

  /** A request lands on a thawed account when other accounts are frozen already. */
  lemma LandsOnFrozen(w: World, chain: Chain, s: set<Address>, ta: Address, verdict: Verdict)
    requires AllTokenAccounts(w, chain, s) && ta !in s
    requires TokenAt(chain, ta).Some? && TokenAt(chain, ta).value.state == Initialized
    ensures TokenAt(FrozenIn(chain, s), ta).Some?
    ensures FreezeOutcome(FrozenIn(chain, s), ta, verdict)
         == (FrozenIn(chain, if verdict.AllowWith? then s + {ta} else s), Freezer.OutcomeOf(verdict))
  {
    TokenAfterFreeze(w, chain, s, ta);
    FrozenOnce(chain, s, ta);
  }

  // ----- The index and the chain

  /** The index tracks exactly the chain's accounts of `mint`, with their owners and states. */
  ghost predicate Agrees(w: World, chain: Chain, mint: Address, accounts: map<Address, TrackedAccount>) {
    && (forall ta :: ta in accounts <==> IsTokenAccount(w, chain, mint, ta))
    && (forall ta :: ta in accounts ==>
          accounts[ta] == TrackedAccount(TokenAt(chain, ta).value.owner, TokenAt(chain, ta).value.state))
  }

  lemma RefreshIsIdle(w: World, chain: Chain, mint: Address, accounts: map<Address, TrackedAccount>, read: set<Address>)
    requires Agrees(w, chain, mint, accounts)
    ensures Refreshed(accounts, chain, read) == accounts
  {
  }

  /** On an index that agrees with the chain, a check asks for the chain's thawed accounts of the flagged owners. */
  lemma WantedIsAsked(w: World, chain: Chain, p: GatePolicy, accounts: map<Address, TrackedAccount>, now: I64,
                      ta: Address, owner: Address, reason: Flag)
    requires Agrees(w, chain, p.mint, accounts)
    ensures Wanted(w, chain, p, accounts, now, ta, owner, reason) <==> Asked(w, chain, p, now, ta, owner, reason)
  {
  }

  function MarkFrozen(accounts: map<Address, TrackedAccount>, s: set<Address>): map<Address, TrackedAccount> {
    map ta | ta in accounts :: if ta in s then accounts[ta].(state := Frozen) else accounts[ta]
  }

  lemma AgreesAfterFreeze(w: World, chain: Chain, s: set<Address>, mint: Address,
                          accounts: map<Address, TrackedAccount>)
    requires Agrees(w, chain, mint, accounts) && AllTokenAccounts(w, chain, s)
    ensures Agrees(w, FrozenIn(chain, s), mint, MarkFrozen(accounts, s))
  {
    forall ta ensures TokenAt(FrozenIn(chain, s), ta)
                   == if ta in s then Some(TokenAt(chain, ta).value.(state := Frozen)) else TokenAt(chain, ta)
    {
      TokenAfterFreeze(w, chain, s, ta);
    }
  }

  /** Once some thawed accounts are frozen, the keeper asks for the others as before. */
  lemma AskedAfterFreeze(w: World, chain: Chain, s: set<Address>, p: GatePolicy, now: I64, ta: Address, owner: Address,
                         reason: Flag)
    requires AllTokenAccounts(w, chain, s) && TokenIdApart(w, p)
    ensures Asked(w, FrozenIn(chain, s), p, now, ta, owner, reason)
       <==> Asked(w, chain, p, now, ta, owner, reason) && ta !in s
  {
    TokenAfterFreeze(w, chain, s, ta);
    ReadsAfterFreeze(w, chain, s, p, owner);
  }

  // ----- Sweeps

  /** Everything the index tracks agrees with the snapshot. */
  ghost predicate InStep(w: World, chain: Chain, p: GatePolicy, mint: Address, accounts: map<Address, TrackedAccount>) {
    && p.mint == mint && Stored(w, chain, p) && TokenIdApart(w, p)
    && Agrees(w, chain, mint, accounts)
  }

  ghost predicate AllInStep(w: World, chain: Chain, policies: map<Address, GatePolicy>,
                            tracked: map<Address, map<Address, TrackedAccount>>)
  {
    tracked.Keys == policies.Keys && forall m :: m in policies ==> InStep(w, chain, policies[m], m, tracked[m])
  }

  /** `requests` are what the keeper asks for of the mints in `mints`. */
  ghost predicate Covers(w: World, chain: Chain, policies: map<Address, GatePolicy>, mints: set<Address>, now: I64,
                         requests: seq<FreezeRequest>)
    requires mints <= policies.Keys
  {
    forall q :: q in requests <==>
      q.mint in mints && Asked(w, chain, policies[q.mint], now, q.tokenAccount, q.owner, q.reason)
  }

  lemma CoversStep(w: World, chain: Chain, policies: map<Address, GatePolicy>, mints: set<Address>, m: Address,
                   now: I64,
                   requests: seq<FreezeRequest>, more: seq<FreezeRequest>)
    requires mints <= policies.Keys && m in policies && m !in mints && policies[m].mint == m
    requires Covers(w, chain, policies, mints, now, requests) && CoversMint(w, chain, policies[m], now, more)
    requires NoDuplicates(requests) && NoDuplicates(more)
    ensures Covers(w, chain, policies, mints + {m}, now, requests + more)
    ensures NoDuplicates(requests + more)
  {
    assert forall q :: q in requests + more <==> q in requests || q in more;
    forall i, j | 0 <= i < j < |requests + more| ensures (requests + more)[i] != (requests + more)[j] {
      if i < |requests| && |requests| <= j {
        assert requests[i].mint in mints && more[j - |requests|].mint == m;
      }
    }
  }

  ghost predicate CoversMint(w: World, chain: Chain, p: GatePolicy, now: I64, requests: seq<FreezeRequest>) {
    forall q :: q in requests <==>
      q.mint == p.mint && Asked(w, chain, p, now, q.tokenAccount, q.owner, q.reason)
  }

  lemma AnswersCover(k: Keeper, chain: Chain, p: GatePolicy, accounts: map<Address, TrackedAccount>, now: I64,
                     requests: seq<FreezeRequest>)
    requires InStep(k.w, chain, p, p.mint, accounts)
    requires k.AnswersFor(requests, chain, p, accounts, now, None)
    ensures CoversMint(k.w, chain, p, now, requests)
  {
    forall q: FreezeRequest
      ensures Wanted(k.w, chain, p, accounts, now, q.tokenAccount, q.owner, q.reason)
         <==> Asked(k.w, chain, p, now, q.tokenAccount, q.owner, q.reason)
    {
      WantedIsAsked(k.w, chain, p, accounts, now, q.tokenAccount, q.owner, q.reason);
    }
  }

  /** The index is sound and current, tracks `tracked` under `policies`, and lives in `s`. */
  ghost predicate Steady(k: Keeper, policies: map<Address, GatePolicy>,
                         tracked: map<Address, map<Address, TrackedAccount>>, s: set<object>)
    reads k.index, k.index.mints.Values
  {
    && k.index.Valid() && k.index.IsCurrent(k.w) && k.index.Within(s)
    && k.index.Policies() == policies && k.index.Tracked() == tracked
  }

  /** A check of a mint that is in step, with what it leaves alone. */
  method CheckFrame(k: Keeper, chain: Chain, m: Address, now: I64, ghost s: set<object>)
    returns (requests: seq<FreezeRequest>, ghost s': set<object>)
    requires k.index.Valid() && k.index.IsCurrent(k.w) && m in k.index.mints && k.index.Within(s)
    requires InStep(k.w, chain, k.index.mints[m].policy, m, k.index.mints[m].accounts)
    modifies s
    ensures k.index.Valid() && k.index.IsCurrent(k.w) && k.index.mints == old(k.index.mints)
    ensures k.index.Within(s') && fresh(s' - s)
    ensures k.index.Policies() == old(k.index.Policies()) && k.index.Tracked() == old(k.index.Tracked())
    ensures NoDuplicates(requests) && CoversMint(k.w, chain, k.index.mints[m].policy, now, requests)
  {
    ghost var entry := k.index.mints[m];
    requests := k.Check(chain, m, None, now);
    AnswersCover(k, chain, entry.policy, old(entry.accounts), now, requests);
    RefreshIsIdle(k.w, chain, m, old(entry.accounts), ThawedFor(old(entry.accounts), None));
    forall m' | m' in k.index.mints
      ensures k.index.mints[m'].policy == old(k.index.mints[m'].policy)
      ensures k.index.mints[m'].accounts == old(k.index.mints[m'].accounts)
    {
      assert m' == m || k.index.mints[m'] != entry;
    }
    s' := s + (set o | o in entry.owners :: entry.owners[o] as object);
  }

  method CheckInStep(k: Keeper, chain: Chain, m: Address, now: I64, ghost policies: map<Address, GatePolicy>,
                     ghost tracked: map<Address, map<Address, TrackedAccount>>, ghost s: set<object>)
    returns (requests: seq<FreezeRequest>, ghost s': set<object>)
    requires Steady(k, policies, tracked, s) && m in policies && InStep(k.w, chain, policies[m], m, tracked[m])
    modifies s
    ensures Steady(k, policies, tracked, s') && fresh(s' - s)
    ensures NoDuplicates(requests) && CoversMint(k.w, chain, policies[m], now, requests)
  {
    assert m in k.index.mints && k.index.mints[m].policy == policies[m] && k.index.mints[m].accounts == tracked[m];
    requests, s' := CheckFrame(k, chain, m, now, s);
    assert k.index.mints[m].policy == k.index.Policies()[m];
  }

  lemma MoveOver(all: set<Address>, rest: set<Address>, m: Address)
    requires rest <= all && m in rest
    ensures all - rest + {m} == all - (rest - {m})
  {
  }

  /** `requests` are what the mints outside `rest` ask for. */
  ghost predicate Checked(w: World, chain: Chain, policies: map<Address, GatePolicy>, rest: set<Address>, now: I64,
                          requests: seq<FreezeRequest>)
  {
    rest <= policies.Keys && NoDuplicates(requests) && Covers(w, chain, policies, policies.Keys - rest, now, requests)
  }

  lemma CheckedAll(w: World, chain: Chain, policies: map<Address, GatePolicy>, now: I64, requests: seq<FreezeRequest>)
    requires Checked(w, chain, policies, {}, now, requests)
    ensures NoDuplicates(requests) && Covers(w, chain, policies, policies.Keys, now, requests)
  {
    assert policies.Keys - {} == policies.Keys;
  }

  /** One more mint; `rest` are the mints not checked yet. */
  method CheckNext(k: Keeper, chain: Chain, rest: set<Address>, requests: seq<FreezeRequest>, now: I64,
                   ghost policies: map<Address, GatePolicy>, ghost tracked: map<Address, map<Address, TrackedAccount>>,
                   ghost s: set<object>)
    returns (all: seq<FreezeRequest>, rest': set<Address>, ghost s': set<object>)
    requires Steady(k, policies, tracked, s) && AllInStep(k.w, chain, policies, tracked)
    requires rest != {} && Checked(k.w, chain, policies, rest, now, requests)
    modifies s
    ensures Steady(k, policies, tracked, s') && fresh(s' - s)
    ensures rest' < rest && Checked(k.w, chain, policies, rest', now, all)
  {
    var m :| m in rest;
    rest' := rest - {m};
    assert InStep(k.w, chain, policies[m], m, tracked[m]);
    var more;
    more, s' := CheckInStep(k, chain, m, now, policies, tracked, s);
    CoversStep(k.w, chain, policies, policies.Keys - rest, m, now, requests, more);
    MoveOver(policies.Keys, rest, m);
    all := requests + more;
  }

  lemma CheckedNone(w: World, chain: Chain, policies: map<Address, GatePolicy>, now: I64)
    ensures Checked(w, chain, policies, policies.Keys, now, [])
  {
    assert policies.Keys - policies.Keys == {};
  }

  method Mints(k: Keeper, ghost policies: map<Address, GatePolicy>,
               ghost tracked: map<Address, map<Address, TrackedAccount>>, ghost s: set<object>)
    returns (mints: set<Address>)
    requires Steady(k, policies, tracked, s)
    ensures mints == policies.Keys
  {
    mints := k.index.mints.Keys;
  }

  /** Checks every mint against one snapshot: the requests are exactly what the keeper's rule asks for, each once. */
  method Checks(k: Keeper, chain: Chain, now: I64, ghost policies: map<Address, GatePolicy>,
                ghost tracked: map<Address, map<Address, TrackedAccount>>, ghost s: set<object>)
    returns (requests: seq<FreezeRequest>, ghost s': set<object>)
    requires Steady(k, policies, tracked, s) && AllInStep(k.w, chain, policies, tracked)
    modifies s
    ensures Steady(k, policies, tracked, s') && fresh(s' - s)
    ensures Checked(k.w, chain, policies, {}, now, requests)
  {
    requests, s' := [], s;
    var rest := Mints(k, policies, tracked, s);
    CheckedNone(k.w, chain, policies, now);
    while rest != {}
      invariant Steady(k, policies, tracked, s')
      invariant fresh(s' - s)
      invariant Checked(k.w, chain, policies, rest, now, requests)
      decreases rest
    {
      requests, rest, s' := CheckNext(k, chain, rest, requests, now, policies, tracked, s');
    }
  }

  // ----- Landing the requests

  function Marked(tracked: map<Address, map<Address, TrackedAccount>>, frozen: set<Address>)
    : map<Address, map<Address, TrackedAccount>>
  {
    map m | m in tracked :: MarkFrozen(tracked[m], frozen)
  }

  function Upsert(tracked: map<Address, map<Address, TrackedAccount>>, q: FreezeRequest)
    : map<Address, map<Address, TrackedAccount>>
    requires q.mint in tracked
  {
    var accounts: map<Address, TrackedAccount> := tracked[q.mint][q.tokenAccount := TrackedAccount(q.owner, Frozen)];
    tracked[q.mint := accounts]
  }

  lemma MarkAccount(accounts: map<Address, TrackedAccount>, frozen: set<Address>, ta: Address, owner: Address)
    requires ta in accounts && accounts[ta].owner == owner
    ensures MarkFrozen(accounts, frozen + {ta}) == MarkFrozen(accounts, frozen)[ta := TrackedAccount(owner, Frozen)]
  {
  }

  lemma MarkElsewhere(accounts: map<Address, TrackedAccount>, frozen: set<Address>, ta: Address)
    requires ta !in accounts
    ensures MarkFrozen(accounts, frozen + {ta}) == MarkFrozen(accounts, frozen)
  {
  }

  lemma MarkOne(tracked: map<Address, map<Address, TrackedAccount>>, frozen: set<Address>, q: FreezeRequest)
    requires q.mint in tracked && q.tokenAccount in tracked[q.mint]
    requires tracked[q.mint][q.tokenAccount].owner == q.owner
    requires forall m :: m in tracked && m != q.mint ==> q.tokenAccount !in tracked[m]
    ensures Marked(tracked, frozen + {q.tokenAccount}) == Upsert(Marked(tracked, frozen), q)
  {
    MarkAccount(tracked[q.mint], frozen, q.tokenAccount, q.owner);
    forall m | m in tracked && m != q.mint
      ensures MarkFrozen(tracked[m], frozen + {q.tokenAccount}) == MarkFrozen(tracked[m], frozen)
    {
      MarkElsewhere(tracked[m], frozen, q.tokenAccount);
    }
  }

  lemma TrackedOnce(w: World, chain: Chain, policies: map<Address, GatePolicy>,
                    tracked: map<Address, map<Address, TrackedAccount>>, q: FreezeRequest, now: I64)
    requires AllInStep(w, chain, policies, tracked) && q.mint in policies
    requires Asked(w, chain, policies[q.mint], now, q.tokenAccount, q.owner, q.reason)
    ensures q.tokenAccount in tracked[q.mint] && tracked[q.mint][q.tokenAccount].owner == q.owner
    ensures forall m :: m in tracked && m != q.mint ==> q.tokenAccount !in tracked[m]
  {
    assert InStep(w, chain, policies[q.mint], q.mint, tracked[q.mint]);
    forall m | m in tracked && m != q.mint ensures q.tokenAccount !in tracked[m] {
      assert InStep(w, chain, policies[m], m, tracked[m]);
    }
  }

  lemma MarkIsUpsert(w: World, chain: Chain, policies: map<Address, GatePolicy>,
                     tracked: map<Address, map<Address, TrackedAccount>>, frozen: set<Address>, q: FreezeRequest,
                     now: I64)
    requires AllInStep(w, chain, policies, tracked) && q.mint in policies
    requires Asked(w, chain, policies[q.mint], now, q.tokenAccount, q.owner, q.reason)
    ensures q.mint in tracked && Marked(tracked, frozen + {q.tokenAccount}) == Upsert(Marked(tracked, frozen), q)
  {
    TrackedOnce(w, chain, policies, tracked, q, now);
    MarkOne(tracked, frozen, q);
  }

  lemma MarkedNone(tracked: map<Address, map<Address, TrackedAccount>>)
    ensures Marked(tracked, {}) == tracked
  {
    assert forall m :: m in tracked ==> MarkFrozen(tracked[m], {}) == tracked[m];
  }

  lemma PoliciesKeyed(w: World, chain: Chain, policies: map<Address, GatePolicy>,
                      tracked: map<Address, map<Address, TrackedAccount>>)
    requires AllInStep(w, chain, policies, tracked)
    ensures forall m :: m in policies ==> policies[m].mint == m
  {
    forall m | m in policies ensures policies[m].mint == m {
      assert InStep(w, chain, policies[m], m, tracked[m]);
    }
  }

  /** Records a frozen account. */
  method Record(k: Keeper, q: FreezeRequest, ghost policies: map<Address, GatePolicy>,
                ghost tracked: map<Address, map<Address, TrackedAccount>>, ghost s: set<object>)
    requires Steady(k, policies, tracked, s) && q.mint in tracked
    modifies s
    ensures Steady(k, policies, Upsert(tracked, q), s)
  {
    ghost var v := k.index.AsView();
    var entry := k.index.mints[q.mint];
    assert entry.accounts == tracked[q.mint];
    var _ := entry.UpsertAccount(q.tokenAccount, TrackedAccount(q.owner, Frozen));
    assert k.index.AsView() == v;
    forall m | m in k.index.mints && m != q.mint ensures k.index.mints[m].accounts == old(k.index.mints[m].accounts) {
      assert k.index.mints[m] != entry;
    }
    assert k.index.Tracked() == Upsert(tracked, q);
    assert k.index.Policies() == policies;
  }

  /** The gate grants the request: the owner's blacklist reason is text. */
  predicate IsGranted(w: World, chain: Chain, policies: map<Address, GatePolicy>, q: FreezeRequest) {
    q.mint in policies && TextReason(w, chain, policies[q.mint], q.owner)
  }

  function Granted(w: World, chain: Chain, policies: map<Address, GatePolicy>, requests: seq<FreezeRequest>)
    : set<Address>
  {
    set q | q in requests && IsGranted(w, chain, policies, q) :: q.tokenAccount
  }

  /** The gate's answer to a request of a sweep: granted for the reason asked, or refused for the malformed entry. */
  function AnswerTo(w: World, chain: Chain, policies: map<Address, GatePolicy>, q: FreezeRequest): Verdict {
    if IsGranted(w, chain, policies, q) then AllowWith(Flagged(q.reason)) else DenyWith(BadRegistryEntry)
  }

  lemma RequestsApart(w: World, chain: Chain, policies: map<Address, GatePolicy>, now: I64,
                      requests: seq<FreezeRequest>, i: nat)
    requires NoDuplicates(requests) && i < |requests|
    requires Covers(w, chain, policies, policies.Keys, now, requests)
    requires forall m :: m in policies ==> policies[m].mint == m
    ensures requests[i].tokenAccount !in Granted(w, chain, policies, requests[..i])
    ensures Granted(w, chain, policies, requests[..i + 1])
         == Granted(w, chain, policies, requests[..i])
            + if IsGranted(w, chain, policies, requests[i]) then {requests[i].tokenAccount} else {}
    ensures AllTokenAccounts(w, chain, Granted(w, chain, policies, requests[..i + 1]))
  {
    var q := requests[i];
    forall j | 0 <= j < i ensures requests[j].tokenAccount != q.tokenAccount {
      var r := requests[j];
      assert r in requests && q in requests && r != q;
    }
    assert requests[..i + 1] == requests[..i] + [q];
    forall r | r in requests[..i] ensures r in requests {
    }
  }

  /** One request, sent: the gate decides through the list Token ACL resolves. */
  function Send(w: World, chain: Chain, p: GatePolicy, caller: Address, q: FreezeRequest, now: I64): (Chain, Outcome)
    requires TokenAt(chain, q.tokenAccount).Some?
  {
    FreezeOutcome(chain, q.tokenAccount,
                  DecideOnChain(w, chain, Freeze, p, BaseFor(w, caller, q), q.mint, q.owner, true, now))
  }

  lemma VerdictOnSent(w: World, chain: Chain, p: GatePolicy, caller: Address, q: FreezeRequest, now: I64,
                      start: Chain, policies: map<Address, GatePolicy>, frozen: set<Address>)
    requires CanLand(w, start, policies, q, now) && p == policies[q.mint]
    requires AllTokenAccounts(w, start, frozen) && chain == FrozenIn(start, frozen)
    ensures DecideOnChain(w, chain, Freeze, p, BaseFor(w, caller, q), q.mint, q.owner, true, now)
         == AnswerTo(w, start, policies, q)
  {
    AnswerIsTheGates(w, start, policies, q, now);
    GateAnswersStill(w, start, frozen, p, BaseFor(w, caller, q), q.owner, now);
  }

  /** A request of a sweep is answered as the gate would have at its start, after the freezes of `frozen`. */
  lemma SentIsAnswered(w: World, chain: Chain, p: GatePolicy, caller: Address, q: FreezeRequest, now: I64,
                       start: Chain, policies: map<Address, GatePolicy>, frozen: set<Address>)
    requires CanLand(w, start, policies, q, now) && p == policies[q.mint]
    requires AllTokenAccounts(w, start, frozen) && q.tokenAccount !in frozen && chain == FrozenIn(start, frozen)
    ensures TokenAt(chain, q.tokenAccount).Some?
    ensures var sent, granted := Send(w, chain, p, caller, q, now), IsGranted(w, start, policies, q);
      && sent.0 == FrozenIn(start, frozen + if granted then {q.tokenAccount} else {})
      && sent.1 == Freezer.OutcomeOf(AnswerTo(w, start, policies, q))
      && (granted <==> sent.1.Frozen? || sent.1.AlreadyFrozen?)
  {
    OnlyGrantsFreeze(w, start, policies, q);
    VerdictOnSent(w, chain, p, caller, q, now, start, policies, frozen);
    LandsOnFrozen(w, start, frozen, q.tokenAccount, AnswerTo(w, start, policies, q));
    assert frozen + {} == frozen;
  }

  lemma AnswerIsTheGates(w: World, chain: Chain, policies: map<Address, GatePolicy>, q: FreezeRequest, now: I64)
    requires q.mint in policies && Asked(w, chain, policies[q.mint], now, q.tokenAccount, q.owner, q.reason)
    ensures AnswerTo(w, chain, policies, q) == DecideFor(w, chain, Freeze, policies[q.mint], q.owner, true, now)
  {
    FreezeMirror(w, chain, policies[q.mint], q.owner, now);
  }

  lemma OnlyGrantsFreeze(w: World, chain: Chain, policies: map<Address, GatePolicy>, q: FreezeRequest)
    ensures var v := AnswerTo(w, chain, policies, q);
      && v.AllowWith? == IsGranted(w, chain, policies, q)
      && Freezer.OutcomeOf(v).Frozen? == IsGranted(w, chain, policies, q) && !Freezer.OutcomeOf(v).AlreadyFrozen?
  {
  }

  /** What the index holds once a request has been answered. */
  function Answered(tracked: map<Address, map<Address, TrackedAccount>>, q: FreezeRequest, granted: bool)
    : map<Address, map<Address, TrackedAccount>>
    requires q.mint in tracked
  {
    if granted then Upsert(tracked, q) else tracked
  }

  method LandOne(k: Keeper, chain: Chain, caller: Address, q: FreezeRequest, now: I64, ghost start: Chain,
                 ghost policies: map<Address, GatePolicy>, ghost tracked: map<Address, map<Address, TrackedAccount>>,
                 ghost frozen: set<Address>, ghost s: set<object>) returns (after: Chain, outcome: Outcome)
    requires CanLand(k.w, start, policies, q, now) && q.mint in tracked && Steady(k, policies, tracked, s)
    requires AllTokenAccounts(k.w, start, frozen) && q.tokenAccount !in frozen && chain == FrozenIn(start, frozen)
    modifies s
    ensures after == FrozenIn(start, frozen + if IsGranted(k.w, start, policies, q) then {q.tokenAccount} else {})
    ensures Steady(k, policies, Answered(tracked, q, IsGranted(k.w, start, policies, q)), s)
    ensures outcome == Freezer.OutcomeOf(AnswerTo(k.w, start, policies, q))
  {
    var p := k.index.mints[q.mint].policy;
    assert p == policies[q.mint];
    SentIsAnswered(k.w, chain, p, caller, q, now, start, policies, frozen);
    var sent := Send(k.w, chain, p, caller, q, now);
    after, outcome := sent.0, sent.1;
    Note(k, q, outcome, IsGranted(k.w, start, policies, q), policies, tracked, s);
  }

  /** The index learns of an account that is frozen. */
  method Note(k: Keeper, q: FreezeRequest, outcome: Outcome, ghost granted: bool, ghost policies: map<Address,
              GatePolicy>,
              ghost tracked: map<Address, map<Address, TrackedAccount>>, ghost s: set<object>)
    requires Steady(k, policies, tracked, s) && q.mint in tracked
    requires granted <==> outcome.Frozen? || outcome.AlreadyFrozen?
    modifies s
    ensures Steady(k, policies, Answered(tracked, q, granted), s)
  {
    if outcome.Frozen? || outcome.AlreadyFrozen? {
      Record(k, q, policies, tracked, s);
    }
  }

  /** The first `i` requests have been answered, and the index knows which were granted. */
  ghost predicate Landed(k: Keeper, start: Chain, requests: seq<FreezeRequest>, i: nat, after: Chain,
                         policies: map<Address, GatePolicy>, tracked: map<Address, map<Address, TrackedAccount>>,
                         s: set<object>)
    requires i <= |requests|
    reads k.index, k.index.mints.Values
  {
    var granted := Granted(k.w, start, policies, requests[..i]);
    && AllTokenAccounts(k.w, start, granted)
    && after == FrozenIn(start, granted)
    && Steady(k, policies, Marked(tracked, granted), s)
  }

  lemma LandedNone(k: Keeper, start: Chain, requests: seq<FreezeRequest>, policies: map<Address, GatePolicy>,
                   tracked: map<Address, map<Address, TrackedAccount>>, s: set<object>)
    requires Steady(k, policies, tracked, s)
    ensures Landed(k, start, requests, 0, start, policies, tracked, s)
  {
    MarkedNone(tracked);
    assert Granted(k.w, start, policies, requests[..0]) == {} && FrozenIn(start, {}) == start;
  }

  /** What the `i`-th request brings, after the ones before it. */
  lemma NextGranted(w: World, chain: Chain, policies: map<Address, GatePolicy>,
                    tracked: map<Address, map<Address, TrackedAccount>>, now: I64, requests: seq<FreezeRequest>, i: nat)
    requires AllInStep(w, chain, policies, tracked) && i < |requests|
    requires NoDuplicates(requests) && Covers(w, chain, policies, policies.Keys, now, requests)
    ensures var q, before := requests[i], Granted(w, chain, policies, requests[..i]);
      var granted := IsGranted(w, chain, policies, q);
      && CanLand(w, chain, policies, q, now) && q.mint in tracked && q.tokenAccount !in before
      && Granted(w, chain, policies, requests[..i + 1]) == before + (if granted then {q.tokenAccount} else {})
      && AllTokenAccounts(w, chain, Granted(w, chain, policies, requests[..i + 1]))
      && Marked(tracked, Granted(w, chain, policies, requests[..i + 1]))
           == Answered(Marked(tracked, before), q, granted)
  {
    PoliciesKeyed(w, chain, policies, tracked);
    RequestsApart(w, chain, policies, now, requests, i);
    CanLandAll(w, chain, policies, tracked, now, requests, requests[i]);
    MarkAnswered(w, chain, policies, tracked, Granted(w, chain, policies, requests[..i]), requests[i], now);
  }

  lemma CanLandAll(w: World, chain: Chain, policies: map<Address, GatePolicy>,
                   tracked: map<Address, map<Address, TrackedAccount>>, now: I64, requests: seq<FreezeRequest>,
                   q: FreezeRequest)
    requires AllInStep(w, chain, policies, tracked) && q in requests
    requires Covers(w, chain, policies, policies.Keys, now, requests)
    ensures CanLand(w, chain, policies, q, now) && q.mint in tracked
  {
    assert InStep(w, chain, policies[q.mint], q.mint, tracked[q.mint]);
  }

  lemma MarkAnswered(w: World, chain: Chain, policies: map<Address, GatePolicy>,
                     tracked: map<Address, map<Address, TrackedAccount>>, before: set<Address>, q: FreezeRequest,
                     now: I64)
    requires AllInStep(w, chain, policies, tracked) && CanLand(w, chain, policies, q, now)
    ensures var granted := IsGranted(w, chain, policies, q);
      q.mint in tracked
      && Marked(tracked, before + if granted then {q.tokenAccount} else {})
           == Answered(Marked(tracked, before), q, granted)
  {
    if IsGranted(w, chain, policies, q) {
      MarkIsUpsert(w, chain, policies, tracked, before, q, now);
    } else {
      assert before + {} == before;
    }
  }

  predicate CanLand(w: World, chain: Chain, policies: map<Address, GatePolicy>, q: FreezeRequest, now: I64) {
    && q.mint in policies && policies[q.mint].mint == q.mint
    && TokenIdApart(w, policies[q.mint]) && Stored(w, chain, policies[q.mint])
    && Asked(w, chain, policies[q.mint], now, q.tokenAccount, q.owner, q.reason)
  }

  /** The `i`-th request, after the ones before it. */
  method LandNext(k: Keeper, chain: Chain, caller: Address, requests: seq<FreezeRequest>, i: nat, now: I64,
                  ghost start: Chain, ghost policies: map<Address, GatePolicy>,
                  ghost tracked: map<Address, map<Address, TrackedAccount>>, ghost s: set<object>)
    returns (after: Chain, outcome: Outcome)
    requires AllInStep(k.w, start, policies, tracked) && i < |requests|
    requires NoDuplicates(requests) && Covers(k.w, start, policies, policies.Keys, now, requests)
    requires Landed(k, start, requests, i, chain, policies, tracked, s)
    modifies s
    ensures Landed(k, start, requests, i + 1, after, policies, tracked, s)
    ensures outcome == Freezer.OutcomeOf(AnswerTo(k.w, start, policies, requests[i]))
  {
    ghost var frozen := Granted(k.w, start, policies, requests[..i]);
    NextGranted(k.w, start, policies, tracked, now, requests, i);
    after, outcome := LandOne(k, chain, caller, requests[i], now, start, policies, Marked(tracked, frozen), frozen, s);
  }

  /** The outcomes so far are the gate's answers to the requests. */
  predicate AreAnswers(w: World, chain: Chain, policies: map<Address, GatePolicy>, requests: seq<FreezeRequest>,
                       outcomes: seq<Outcome>)
  {
    && |outcomes| <= |requests|
    && forall i :: 0 <= i < |outcomes| ==> outcomes[i] == Freezer.OutcomeOf(AnswerTo(w, chain, policies, requests[i]))
  }

  lemma OneMoreAnswer(w: World, chain: Chain, policies: map<Address, GatePolicy>, requests: seq<FreezeRequest>,
                      outcomes: seq<Outcome>, outcome: Outcome)
    requires AreAnswers(w, chain, policies, requests, outcomes) && |outcomes| < |requests|
    requires outcome == Freezer.OutcomeOf(AnswerTo(w, chain, policies, requests[|outcomes|]))
    ensures AreAnswers(w, chain, policies, requests, outcomes + [outcome])
  {
  }

  /** Every request of a sweep gets the gate's answer: granted for the reason the keeper named, or refused. */
  method Land(k: Keeper, chain: Chain, caller: Address, requests: seq<FreezeRequest>, now: I64,
              ghost policies: map<Address, GatePolicy>, ghost tracked: map<Address, map<Address, TrackedAccount>>,
              ghost s: set<object>) returns (after: Chain, outcomes: seq<Outcome>)
    requires AllInStep(k.w, chain, policies, tracked) && Steady(k, policies, tracked, s)
    requires NoDuplicates(requests) && Covers(k.w, chain, policies, policies.Keys, now, requests)
    modifies s
    ensures Landed(k, chain, requests, |requests|, after, policies, tracked, s)
    ensures AreAnswers(k.w, chain, policies, requests, outcomes) && |outcomes| == |requests|
  {
    after, outcomes := chain, [];
    LandedNone(k, chain, requests, policies, tracked, s);
    for i := 0 to |requests|
      invariant Landed(k, chain, requests, i, after, policies, tracked, s)
      invariant AreAnswers(k.w, chain, policies, requests, outcomes) && |outcomes| == i
    {
      var outcome;
      after, outcome := LandNext(k, after, caller, requests, i, now, chain, policies, tracked, s);
      OneMoreAnswer(k.w, chain, policies, requests, outcomes, outcome);
      outcomes := outcomes + [outcome];
    }
  }

  // ----- The whole sweep

  /** The keeper's view after a sweep's freezes is the chain's again. */
  lemma InStepAfter(w: World, chain: Chain, policies: map<Address, GatePolicy>,
                    tracked: map<Address, map<Address, TrackedAccount>>, frozen: set<Address>)
    requires AllInStep(w, chain, policies, tracked) && AllTokenAccounts(w, chain, frozen)
    ensures AllInStep(w, FrozenIn(chain, frozen), policies, Marked(tracked, frozen))
  {
    forall m | m in policies ensures InStep(w, FrozenIn(chain, frozen), policies[m], m, Marked(tracked, frozen)[m]) {
      assert InStep(w, chain, policies[m], m, tracked[m]);
      AgreesAfterFreeze(w, chain, frozen, m, tracked[m]);
      DecisionAfterFreeze(w, chain, frozen, policies[m], m, 0);
    }
  }

  /** Two requests for one token account are for one owner of one mint, and get one answer. */
  lemma GrantedTogether(w: World, chain: Chain, policies: map<Address, GatePolicy>, now: I64,
                        requests: seq<FreezeRequest>, q: FreezeRequest)
    requires Covers(w, chain, policies, policies.Keys, now, requests) && q in requests
    requires forall m :: m in policies ==> policies[m].mint == m
    ensures q.tokenAccount in Granted(w, chain, policies, requests) <==> IsGranted(w, chain, policies, q)
  {
  }

  /** After a sweep's freezes, what is asked for again is what was refused, and nothing is freezable. */
  lemma SweptClean(w: World, chain: Chain, policies: map<Address, GatePolicy>,
                   tracked: map<Address, map<Address, TrackedAccount>>, now: I64, requests: seq<FreezeRequest>,
                   q: FreezeRequest)
    requires AllInStep(w, chain, policies, tracked) && q.mint in policies
    requires AllTokenAccounts(w, chain, Granted(w, chain, policies, requests))
    requires Covers(w, chain, policies, policies.Keys, now, requests)
    ensures var after, p := FrozenIn(chain, Granted(w, chain, policies, requests)), policies[q.mint];
      && (Asked(w, after, p, now, q.tokenAccount, q.owner, q.reason)
          <==> q in requests && !IsGranted(w, chain, policies, q))
      && !Freezable(w, after, p, now, q.tokenAccount, q.owner, q.reason)
  {
    var granted, p := Granted(w, chain, policies, requests), policies[q.mint];
    PoliciesKeyed(w, chain, policies, tracked);
    assert InStep(w, chain, p, q.mint, tracked[q.mint]);
    AskedAfterFreeze(w, chain, granted, p, now, q.tokenAccount, q.owner, q.reason);
    if q in requests {
      GrantedTogether(w, chain, policies, now, requests, q);
    }
    FreezableIsAsked(w, FrozenIn(chain, granted), p, now, q.tokenAccount, q.owner, q.reason);
    DecisionAfterFreeze(w, chain, granted, p, q.owner, now);
  }

  lemma AskedAgain(w: World, chain: Chain, policies: map<Address, GatePolicy>,
                   tracked: map<Address, map<Address, TrackedAccount>>, now: I64, first: seq<FreezeRequest>,
                   second: seq<FreezeRequest>)
    requires AllInStep(w, chain, policies, tracked)
    requires AllTokenAccounts(w, chain, Granted(w, chain, policies, first))
    requires Covers(w, chain, policies, policies.Keys, now, first)
    requires Covers(w, FrozenIn(chain, Granted(w, chain, policies, first)), policies, policies.Keys, now, second)
    ensures forall q :: q in second <==> q in first && !IsGranted(w, chain, policies, q)
    ensures NothingFreezable(w, FrozenIn(chain, Granted(w, chain, policies, first)), policies, now)
  {
    forall q: FreezeRequest ensures q in second <==> q in first && !IsGranted(w, chain, policies, q) {
      if q.mint in policies {
        SweptClean(w, chain, policies, tracked, now, first, q);
      }
    }
    var after := FrozenIn(chain, Granted(w, chain, policies, first));
    forall m, ta, o, r | m in policies ensures !Freezable(w, after, policies[m], now, ta, o, r) {
      SweptClean(w, chain, policies, tracked, now, first, FreezeRequest(m, ta, o, r));
    }
  }

  ghost predicate NothingFreezable(w: World, chain: Chain, policies: map<Address, GatePolicy>, now: I64) {
    forall m, ta, o, r :: m in policies ==> !Freezable(w, chain, policies[m], now, ta, o, r)
  }

  /** The requests the gate grants are exactly the accounts it would freeze, each for its reason. */
  ghost predicate GrantsFreezable(w: World, chain: Chain, policies: map<Address, GatePolicy>, now: I64,
                                  requests: seq<FreezeRequest>)
  {
    forall q :: q in requests && IsGranted(w, chain, policies, q) <==>
      q.mint in policies && Freezable(w, chain, policies[q.mint], now, q.tokenAccount, q.owner, q.reason)
  }

  lemma AskedIsFreezable(w: World, chain: Chain, policies: map<Address, GatePolicy>, now: I64,
                         requests: seq<FreezeRequest>)
    requires Covers(w, chain, policies, policies.Keys, now, requests)
    ensures GrantsFreezable(w, chain, policies, now, requests)
  {
    forall q: FreezeRequest
      ensures q in requests && IsGranted(w, chain, policies, q) <==>
        q.mint in policies && Freezable(w, chain, policies[q.mint], now, q.tokenAccount, q.owner, q.reason)
    {
      if q.mint in policies {
        FreezableIsAsked(w, chain, policies[q.mint], now, q.tokenAccount, q.owner, q.reason);
      }
    }
  }

  /**
   * Two sweeps at one cluster time over a chain nothing else changes. The first asks, each once, for exactly the thawed
   * accounts whose owner the keeper's rule flags. Of these the gate grants exactly the ones it flags too, for the
   * reason asked, and refuses the others, whose owners have a blacklist reason that is not text, with
   * BAD_REGISTRY_ENTRY; nothing else changes on chain. Then no tracked thawed account is flagged by the gate, the index
   * agrees with the chain again, and the second asks for exactly what was refused: nothing, if every reason is text.
   */
  method SweepTwice(k: Keeper, chain: Chain, caller: Address, now: I64, ghost policies: map<Address, GatePolicy>,
                    ghost tracked: map<Address, map<Address, TrackedAccount>>, ghost s: set<object>)
    returns (first: seq<FreezeRequest>, after: Chain, outcomes: seq<Outcome>, second: seq<FreezeRequest>)
    requires Steady(k, policies, tracked, s) && AllInStep(k.w, chain, policies, tracked)
    modifies s
    ensures NoDuplicates(first) && Covers(k.w, chain, policies, policies.Keys, now, first)
    ensures GrantsFreezable(k.w, chain, policies, now, first)
    ensures AreAnswers(k.w, chain, policies, first, outcomes) && |outcomes| == |first|
    ensures after == FrozenIn(chain, Granted(k.w, chain, policies, first))
    ensures NothingFreezable(k.w, after, policies, now)
    ensures AllInStep(k.w, after, k.index.Policies(), k.index.Tracked()) && k.index.Policies() == policies
    ensures NoDuplicates(second)
    ensures forall q :: q in second <==> q in first && !IsGranted(k.w, chain, policies, q)
    ensures (forall m, o :: m in policies ==> TextReason(k.w, chain, policies[m], o)) ==> second == []
  {
    ghost var s1, s2;
    first, s1 := Checks(k, chain, now, policies, tracked, s);
    CheckedAll(k.w, chain, policies, now, first);
    AskedIsFreezable(k.w, chain, policies, now, first);
    after, outcomes := Land(k, chain, caller, first, now, policies, tracked, s1);
    assert first[..|first|] == first;
    ghost var granted := Granted(k.w, chain, policies, first);
    InStepAfter(k.w, chain, policies, tracked, granted);
    second, s2 := Checks(k, after, now, policies, Marked(tracked, granted), s1);
    CheckedAll(k.w, after, policies, now, second);
    AskedAgain(k.w, chain, policies, tracked, now, first, second);
    AllGranted(k.w, chain, policies, now, first, second);
  }

  lemma AllGranted(w: World, chain: Chain, policies: map<Address, GatePolicy>, now: I64, first: seq<FreezeRequest>,
                   second: seq<FreezeRequest>)
    requires Covers(w, chain, policies, policies.Keys, now, first)
    requires forall q :: q in second ==> q in first && !IsGranted(w, chain, policies, q)
    ensures (forall m, o :: m in policies ==> TextReason(w, chain, policies[m], o)) ==> second == []
  {
    if second != [] {
      assert second[0] in second;
    }
  }
}
