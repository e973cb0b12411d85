/**
 * The keeper's check of one mint against a chain snapshot: one batched read of every PDA and thawed token account of
 * the targeted owners, then a freeze request for each account still thawed whose owner the mirror flags.
 */
module Keeper {
  import opened Bytes
  import opened Policy
  import opened Registry
  import opened Decision
  import opened Gate
  import opened KeeperPolicy
  import opened HolderIndex
  import Attestations

  const BATCH: nat := 100

  datatype TokenAccount = TokenAccount(mint: Address, owner: Address, amount: nat, state: TokenState)

  function ByteState(b: Byte): Option<TokenState> {
    if b == 0 then Some(Uninitialized) else if b == 1 then Some(Initialized) else if b == 2 then Some(Frozen) else None
  }

  function DecodeTokenAccount(data: seq<Byte>): Option<TokenAccount> {
    if |data| < 165 || (|data| > 165 && data[165] != 2) then None
    else
      var state :- ByteState(data[108]);
      Some(TokenAccount(KeyAt(data, 0), KeyAt(data, 32), LeNat(Slice(data, 64, 8)), state))
  }

  /**
   * A Token-2022 account's bytes. The delegate (36 bytes) and what lies between state and account type (native reserve,
   * delegated amount and close authority, 56 bytes) are not read by the keeper. `extensions` is None for an account
   * without any, which is as long as a plain token account; any others start with the account type.
   */
  function SerializeTokenAccount(mint: Address, owner: Address, amount: U64, delegate: seq<Byte>, state: Byte,
                                 more: seq<Byte>, extensions: Option<seq<Byte>>): (data: seq<Byte>)
    requires |delegate| == 36 && |more| == 56
    ensures |data| == if extensions.Some? then 166 + |extensions.value| else 165
  {
    mint + owner + LeBytes(amount, 8) + delegate + [state] + more
    + (if extensions.Some? then [2] + extensions.value else [])
  }

  /** Every account Token-2022 writes is read back: its mint, owner, amount and state, with any extensions. */
  lemma TokenAccountRoundTrip(mint: Address, owner: Address, amount: U64, delegate: seq<Byte>, state: Byte,
                              more: seq<Byte>, extensions: Option<seq<Byte>>)
    requires |delegate| == 36 && |more| == 56
    ensures DecodeTokenAccount(SerializeTokenAccount(mint, owner, amount, delegate, state, more, extensions))
         == if state == 0 then Some(TokenAccount(mint, owner, amount, Uninitialized))
            else if state == 1 then Some(TokenAccount(mint, owner, amount, Initialized))
            else if state == 2 then Some(TokenAccount(mint, owner, amount, Frozen))
            else None
  {
    Pow256Values();
    LeRoundTrip(amount, 8);
    TokenAccountFields(mint, owner, amount, delegate, state, more, extensions);
  }

  lemma TokenAccountFields(mint: Address, owner: Address, amount: U64, delegate: seq<Byte>, state: Byte,
                           more: seq<Byte>, extensions: Option<seq<Byte>>)
    requires |delegate| == 36 && |more| == 56
    ensures var data := SerializeTokenAccount(mint, owner, amount, delegate, state, more, extensions);
      && KeyAt(data, 0) == mint && KeyAt(data, 32) == owner && Slice(data, 64, 8) == LeBytes(amount, 8)
      && data[108] == state && (extensions.Some? ==> data[165] == 2)
  {
    var data := SerializeTokenAccount(mint, owner, amount, delegate, state, more, extensions);
    assert data[..32] == mint && data[32..64] == owner && data[64..72] == LeBytes(amount, 8);
  }

  /** What is refused: too little data, another account type after it, or no such state. */
  lemma TokenAccountRefused(data: seq<Byte>)
    ensures DecodeTokenAccount(data).None? <==> |data| < 165 || (|data| > 165 && data[165] != 2) || data[108] > 2
  {
  }

  function TokenAt(chain: Chain, ta: Address): Option<TokenAccount> {
    if ta in chain then DecodeTokenAccount(chain[ta].data) else None
  }

  datatype FreezeRequest = FreezeRequest(mint: Address, tokenAccount: Address, owner: Address, reason: Flag)

  // ----- What a check asks for

  /** Index and chain have `ta` thawed, the index under `owner`, and the mirror flags `owner` with `reason`. */
  ghost predicate Wanted(w: World, chain: Chain, p: GatePolicy, accounts: map<Address, TrackedAccount>, now: I64,
                         ta: Address, owner: Address, reason: Flag)
  {
    && ta in accounts && accounts[ta] == TrackedAccount(owner, Initialized)
    && TokenAt(chain, ta).Some? && TokenAt(chain, ta).value.state == Initialized
    && FreezeReason(p, ReadsFrom(w, chain, p, owner), now) == Some(reason)
  }

  /** The token accounts in `read`, brought up to date with the chain. */
  function Refreshed(accounts: map<Address, TrackedAccount>, chain: Chain, read: set<Address>)
    : map<Address, TrackedAccount>
  {
    map ta | ta in accounts ::
      if ta in read && TokenAt(chain, ta).Some?
      then TrackedAccount(TokenAt(chain, ta).value.owner, TokenAt(chain, ta).value.state)
      else accounts[ta]
  }

  lemma RefreshedStep(accounts: map<Address, TrackedAccount>, chain: Chain, read: set<Address>, ta: Address)
    requires ta in accounts
    ensures Refreshed(accounts, chain, read + {ta})
         == if TokenAt(chain, ta).Some?
            then Refreshed(accounts, chain, read)
                 [ta := TrackedAccount(TokenAt(chain, ta).value.owner, TokenAt(chain, ta).value.state)]
            else Refreshed(accounts, chain, read)
  {
  }

  function ThawedOf(accounts: map<Address, TrackedAccount>, owners: set<Address>): set<Address> {
    set ta | ta in accounts && accounts[ta].owner in owners && accounts[ta].state == Initialized
  }

  /** The thawed accounts of the given owners; None is every owner. */
  function ThawedFor(accounts: map<Address, TrackedAccount>, owners: Option<seq<Address>>): set<Address> {
    set ta | && ta in accounts && accounts[ta].state == Initialized
             && (owners.Some? ==> accounts[ta].owner in owners.value)
  }

  ghost predicate NoDuplicates<T(!new)>(s: seq<T>) {
    forall i, j :: 0 <= i < j < |s| ==> s[i] != s[j]
  }

  /** The rule reads only what the policy consults. */
  lemma UnconsultedReadsDontMatter(p: GatePolicy, r: OwnerReads, r': OwnerReads, now: I64)
    requires r.ownerOffCurve == r'.ownerOffCurve
    requires p.checkBlacklist ==> r.blacklist == r'.blacklist
    requires p.allowlistMode != Off ==> r.allowlist == r'.allowlist
    requires p.requireSas ==> r.attestation == r'.attestation
    ensures FreezeReason(p, r, now) == FreezeReason(p, r', now)
  {
  }

  // ----- Reads

  /** getMultipleAccounts, which serves at most 100 addresses a call. */
  method GetMultipleAccounts(chain: Chain, addresses: seq<Address>) returns (out: seq<Option<Account>>)
    requires |addresses| <= 100
    ensures |out| == |addresses|
    ensures forall i :: 0 <= i < |addresses| ==> out[i] == Lookup(chain, addresses[i])
  {
    out := seq(|addresses|, i requires 0 <= i < |addresses| => Lookup(chain, addresses[i]));
  }

  /** Batched, the i-th account is the i-th address's. */
  method Accounts(chain: Chain, addresses: seq<Address>) returns (out: seq<Option<Account>>)
    ensures |out| == |addresses|
    ensures forall i :: 0 <= i < |addresses| ==> out[i] == Lookup(chain, addresses[i])
  {
    out := [];
    var i := 0;
    while i < |addresses|
      invariant i >= 0 && |out| == if i <= |addresses| then i else |addresses|
      invariant forall j :: 0 <= j < |out| ==> out[j] == Lookup(chain, addresses[j])
    {
      var end := if i + BATCH <= |addresses| then i + BATCH else |addresses|;
      var value := GetMultipleAccounts(chain, addresses[i..end]);
      out := out + value;
      i := i + BATCH;
    }
  }

  method ReadAll(chain: Chain, addresses: seq<Address>) returns (read: map<Address, Option<Account>>)
    ensures forall a :: a in addresses ==> a in read && read[a] == Lookup(chain, a)
  {
    var accounts := Accounts(chain, addresses);
    read := map[];
    for i := 0 to |addresses|
      invariant forall j :: 0 <= j < i ==> addresses[j] in read && read[addresses[j]] == Lookup(chain, addresses[j])
    {
      read := read[addresses[i] := accounts[i]];
    }
  }

  // ----- The index, listed

  method ThawedAccounts(entry: MintEntry, owner: Address) returns (r: seq<Address>)
    ensures NoDuplicates(r)
    ensures forall ta :: ta in r <==> ta in entry.accounts && entry.accounts[ta] == TrackedAccount(owner, Initialized)
  {
    r := [];
    var rest := entry.accounts.Keys;
    while rest != {}
      invariant rest <= entry.accounts.Keys && NoDuplicates(r)
      invariant forall ta :: ta in r <==>
        ta in entry.accounts && ta !in rest && entry.accounts[ta] == TrackedAccount(owner, Initialized)
      decreases rest
    {
      var ta :| ta in rest;
      if entry.accounts[ta].owner == owner && entry.accounts[ta].state == Initialized {
        r := r + [ta];
      }
      rest := rest - {ta};
    }
  }

  method OwnersWithThawedAccounts(entry: MintEntry) returns (r: seq<Address>)
    ensures NoDuplicates(r)
    ensures forall o :: o in r <==>
      exists ta :: ta in entry.accounts && entry.accounts[ta] == TrackedAccount(o, Initialized)
  {
    r := [];
    var rest := entry.accounts.Keys;
    while rest != {}
      invariant rest <= entry.accounts.Keys && NoDuplicates(r)
      invariant forall o :: o in r <==>
        exists ta :: ta in entry.accounts && ta !in rest && entry.accounts[ta] == TrackedAccount(o, Initialized)
      decreases rest
    {
      var ta :| ta in rest;
      var a := entry.accounts[ta];
      ghost var before := r;
      if a.state == Initialized && a.owner !in r {
        r := r + [a.owner];
      }
      rest := rest - {ta};
      forall o ensures o in r <==>
        exists t :: t in entry.accounts && t !in rest && entry.accounts[t] == TrackedAccount(o, Initialized)
      {
        if o in r && o !in before {
          assert entry.accounts[ta] == TrackedAccount(o, Initialized);
        } else if o in before {
          var t :| t in entry.accounts && t !in rest + {ta} && entry.accounts[t] == TrackedAccount(o, Initialized);
        }
      }
    }
  }

  class Keeper {
    const w: World
    const index: HolderIndex

    constructor (w: World)
      ensures this.w == w && fresh(index) && index.Valid() && index.IsCurrent(w) && index.mints == map[]
    {
      this.w := w;
      index := new HolderIndex();
    }

    /** None is "all": every owner with a thawed account. */
    method Targets(entry: MintEntry, owners: Option<seq<Address>>) returns (targets: seq<Address>)
      ensures (owners.Some? ==> NoDuplicates(owners.value)) ==> NoDuplicates(targets)
      ensures forall o :: o in targets <==>
        && (owners.Some? ==> o in owners.value)
        && exists ta :: ta in entry.accounts && entry.accounts[ta] == TrackedAccount(o, Initialized)
    {
      var thawedOwners := OwnersWithThawedAccounts(entry);
      if owners.None? {
        return thawedOwners;
      }
      targets := [];
      for i := 0 to |owners.value|
        invariant forall o :: o in targets <==> o in owners.value[..i] && o in thawedOwners
        invariant NoDuplicates(owners.value) ==> NoDuplicates(targets)
      {
        assert owners.value[..i + 1] == owners.value[..i] + [owners.value[i]];
        if owners.value[i] in thawedOwners {
          targets := targets + [owners.value[i]];
        }
      }
      assert owners.value[..|owners.value|] == owners.value;
    }

    method LoadFacts(entry: MintEntry, targets: seq<Address>) returns (facts: seq<OwnerFacts>)
      requires index.Valid() && index.IsCurrent(w) && index.Live(entry)
      modifies index`byAttestation, entry`owners
      ensures index.Valid() && index.IsCurrent(w) && index.mints == old(index.mints)
      ensures old(index.IsExact()) ==> index.IsExact()
      ensures forall o :: o in entry.owners ==> entry.owners[o] in old(entry.owners.Values) || fresh(entry.owners[o])
      ensures |facts| == |targets|
      ensures forall i :: 0 <= i < |facts| ==>
        && Fits(w, entry.policy, entry.mint, targets[i], facts[i])
        && (facts[i] in old(entry.owners.Values) || fresh(facts[i]))
    {
      facts := [];
      for i := 0 to |targets|
        invariant index.Valid() && index.IsCurrent(w) && index.mints == old(index.mints)
        invariant old(index.IsExact()) ==> index.IsExact()
        invariant |facts| == i
        invariant forall o :: o in entry.owners ==>
          entry.owners[o] in old(entry.owners.Values) || fresh(entry.owners[o])
        invariant forall j :: 0 <= j < i ==>
          && Fits(w, entry.policy, entry.mint, targets[j], facts[j])
          && (facts[j] in old(entry.owners.Values) || fresh(facts[j]))
      {
        var f := index.Owner(w, entry, targets[i]);
        facts := facts + [f];
      }
    }

    /** The token accounts to judge per owner, and every address to read for them. */
    method Plan(entry: MintEntry, facts: seq<OwnerFacts>) returns (tokens: seq<seq<Address>>, addresses: seq<Address>)
      ensures |tokens| == |facts|
      ensures forall i :: 0 <= i < |facts| ==> NoDuplicates(tokens[i]) && PdasIn(facts[i].pdas, addresses)
      ensures forall i, ta :: 0 <= i < |facts| ==>
        (ta in tokens[i] <==> ta in entry.accounts && entry.accounts[ta] == TrackedAccount(facts[i].owner, Initialized))
      ensures forall i, ta :: 0 <= i < |facts| && ta in tokens[i] ==> ta in addresses
    {
      tokens, addresses := [], [];
      for i := 0 to |facts|
        invariant |tokens| == i
        invariant forall j :: 0 <= j < i ==> NoDuplicates(tokens[j]) && PdasIn(facts[j].pdas, addresses)
        invariant forall j, ta :: 0 <= j < i ==>
          (ta in tokens[j] <==>
           ta in entry.accounts && entry.accounts[ta] == TrackedAccount(facts[j].owner, Initialized))
        invariant forall j, ta :: 0 <= j < i && ta in tokens[j] ==> ta in addresses
      {
        var p := facts[i].pdas;
        var thawed := ThawedAccounts(entry, facts[i].owner);
        addresses := addresses
          + (if p.attestation.Some? then [p.attestation.value] else [])
          + (if p.blacklist.Some? then [p.blacklist.value] else [])
          + (if p.allowlist.Some? then [p.allowlist.value] else [])
          + thawed;
        tokens := tokens + [thawed];
      }
    }

    static predicate PdasIn(p: Pdas, addresses: seq<Address>) {
      && (p.attestation.Some? ==> p.attestation.value in addresses)
      && (p.blacklist.Some? ==> p.blacklist.value in addresses)
      && (p.allowlist.Some? ==> p.allowlist.value in addresses)
    }

    /** Stores the owner's fresh reads; the rule then sees what it would see on the chain. */
    method UpdateReads(chain: Chain, p: GatePolicy, mint: Address, f: OwnerFacts, read: map<Address, Option<Account>>)
      requires p.mint == mint && Fits(w, p, mint, f.owner, f)
      requires PdasRead(f.pdas, read, chain)
      modifies f
      ensures forall now :: FreezeReason(p, f.Reads(), now) == FreezeReason(p, ReadsFrom(w, chain, p, f.owner), now)
    {
      if f.pdas.attestation.Some? {
        f.attestation := Some(Attestations.KeeperRead(read[f.pdas.attestation.value], w.sasId, p.sasCredential,
                                                      p.sasSchema, f.owner));
      }
      if f.pdas.blacklist.Some? {
        f.blacklist := Some(KeeperReadBlacklist(read[f.pdas.blacklist.value], p.issuerProgram, mint, f.owner));
      }
      if f.pdas.allowlist.Some? {
        f.allowlist := Some(KeeperReadAllowlist(read[f.pdas.allowlist.value], p.issuerProgram, mint, f.owner));
      }
      forall now ensures FreezeReason(p, f.Reads(), now) == FreezeReason(p, ReadsFrom(w, chain, p, f.owner), now) {
        UnconsultedReadsDontMatter(p, f.Reads(), ReadsFrom(w, chain, p, f.owner), now);
      }
    }

    /** Keeps the accounts that are still thawed, and records what was read. */
    method StillThawed(chain: Chain, entry: MintEntry, tokens: seq<Address>, read: map<Address, Option<Account>>,
                       ghost start: map<Address, TrackedAccount>, ghost done: set<Address>)
      returns (thawed: seq<Address>)
      requires NoDuplicates(tokens)
      requires entry.accounts == Refreshed(start, chain, done)
      requires forall ta :: ta in tokens ==> ta in start && ta in read && read[ta] == Lookup(chain, ta)
      modifies entry`accounts
      ensures entry.accounts == Refreshed(start, chain, done + (set ta | ta in tokens))
      ensures NoDuplicates(thawed)
      ensures forall ta :: ta in thawed <==>
        ta in tokens && TokenAt(chain, ta).Some? && TokenAt(chain, ta).value.state == Initialized
    {
      thawed := [];
      ghost var seen := {};
      assert done + seen == done;
      for i := 0 to |tokens|
        invariant seen == set ta | ta in tokens[..i]
        invariant entry.accounts == Refreshed(start, chain, done + seen)
        invariant NoDuplicates(thawed)
        invariant forall ta :: ta in thawed <==>
          ta in tokens[..i] && TokenAt(chain, ta).Some? && TokenAt(chain, ta).value.state == Initialized
      {
        var ta := tokens[i];
        assert tokens[..i + 1] == tokens[..i] + [ta] && ta !in tokens[..i];
        var raw := read[ta];
        var token := if raw.Some? then DecodeTokenAccount(raw.value.data) else None;
        assert token == TokenAt(chain, ta);
        if token.Some? {
          var _ := entry.UpsertAccount(ta, TrackedAccount(token.value.owner, token.value.state));
          if token.value.state == Initialized {
            thawed := thawed + [ta];
          }
        }
        RefreshedStep(start, chain, done + seen, ta);
        assert done + seen + {ta} == done + (seen + {ta});
        seen := seen + {ta};
      }
      assert tokens[..|tokens|] == tokens;
    }

    /** One owner's freezes: a request per account still thawed, if the rule flags the owner. */
    method Request(mint: Address, owner: Address, thawed: seq<Address>, reason: Option<Flag>,
                   requests: seq<FreezeRequest>)
      returns (r: seq<FreezeRequest>)
      requires NoDuplicates(thawed)
      ensures requests <= r
      ensures forall q :: q in r <==>
        q in requests || (reason == Some(q.reason) && q.tokenAccount in thawed && q.mint == mint && q.owner == owner)
      ensures NoDuplicates(requests) && (forall q :: q in requests ==> q.owner != owner) ==> NoDuplicates(r)
    {
      r := requests;
      if reason.None? {
        return;
      }
      for i := 0 to |thawed|
        invariant requests <= r
        invariant forall q :: q in r <==>
          || q in requests
          || (reason == Some(q.reason) && q.tokenAccount in thawed[..i] && q.mint == mint && q.owner == owner)
        invariant NoDuplicates(requests) && (forall q :: q in requests ==> q.owner != owner) ==> NoDuplicates(r)
      {
        assert thawed[..i + 1] == thawed[..i] + [thawed[i]] && thawed[i] !in thawed[..i];
        r := r + [FreezeRequest(mint, thawed[i], owner, reason.value)];
      }
      assert thawed[..|thawed|] == thawed;
    }

    ghost predicate Answers(requests: seq<FreezeRequest>, chain: Chain, p: GatePolicy,
                            accounts: map<Address, TrackedAccount>, now: I64, owners: set<Address>)
    {
      forall q :: q in requests <==>
        q.mint == p.mint && q.owner in owners && Wanted(w, chain, p, accounts, now, q.tokenAccount, q.owner, q.reason)
    }

    /** Judges one owner, after those in `owners`; `start` is the index's view when the plan was made. */
    method JudgeOwner(chain: Chain, entry: MintEntry, f: OwnerFacts, tokens: seq<Address>,
                      read: map<Address, Option<Account>>, now: I64, requests: seq<FreezeRequest>,
                      ghost start: map<Address, TrackedAccount>, ghost owners: set<Address>)
      returns (r: seq<FreezeRequest>)
      requires entry.policy.mint == entry.mint && Fits(w, entry.policy, entry.mint, f.owner, f)
      requires NoDuplicates(tokens) && PdasRead(f.pdas, read, chain)
      requires forall ta :: ta in tokens <==> ta in start && start[ta] == TrackedAccount(f.owner, Initialized)
      requires forall ta :: ta in tokens ==> ta in read && read[ta] == Lookup(chain, ta)
      requires entry.accounts == Refreshed(start, chain, ThawedOf(start, owners))
      requires Answers(requests, chain, entry.policy, start, now, owners)
      modifies entry`accounts, f
      ensures entry.accounts == Refreshed(start, chain, ThawedOf(start, owners + {f.owner}))
      ensures Answers(r, chain, entry.policy, start, now, owners + {f.owner})
      ensures NoDuplicates(requests) && f.owner !in owners ==> NoDuplicates(r)
    {
      UpdateReads(chain, entry.policy, entry.mint, f, read);
      var thawed := StillThawed(chain, entry, tokens, read, start, ThawedOf(start, owners));
      assert ThawedOf(start, owners + {f.owner}) == ThawedOf(start, owners) + (set ta | ta in tokens);
      var reason := FreezeReason(entry.policy, f.Reads(), now);
      r := Request(entry.mint, f.owner, thawed, reason, requests);
    }

    method Judge(chain: Chain, entry: MintEntry, targets: seq<Address>, facts: seq<OwnerFacts>,
                 tokens: seq<seq<Address>>,
                 read: map<Address, Option<Account>>, now: I64) returns (requests: seq<FreezeRequest>)
      requires entry.policy.mint == entry.mint && |tokens| == |facts| == |targets|
      requires forall i :: 0 <= i < |facts| ==> Fits(w, entry.policy, entry.mint, targets[i], facts[i])
      requires forall i :: 0 <= i < |facts| ==> NoDuplicates(tokens[i]) && PdasRead(facts[i].pdas, read, chain)
      requires forall i, ta :: 0 <= i < |facts| ==>
        (ta in tokens[i] <==> ta in entry.accounts && entry.accounts[ta] == TrackedAccount(targets[i], Initialized))
      requires forall i, ta :: 0 <= i < |facts| && ta in tokens[i] ==> ta in read && read[ta] == Lookup(chain, ta)
      modifies entry`accounts, facts
      ensures Answers(requests, chain, entry.policy, old(entry.accounts), now, set o | o in targets)
      ensures NoDuplicates(targets) ==> NoDuplicates(requests)
      ensures entry.accounts
           == Refreshed(old(entry.accounts), chain, ThawedOf(old(entry.accounts), set o | o in targets))
    {
      ghost var start := entry.accounts;
      ghost var owners: set<Address> := {};
      requests := [];
      assert Refreshed(start, chain, ThawedOf(start, {})) == start;
      for i := 0 to |facts|
        invariant owners == set o | o in targets[..i]
        invariant NoDuplicates(targets) ==> NoDuplicates(requests)
        invariant Answers(requests, chain, entry.policy, start, now, owners)
        invariant entry.accounts == Refreshed(start, chain, ThawedOf(start, owners))
      {
        assert targets[..i + 1] == targets[..i] + [targets[i]];
        requests := JudgeOwner(chain, entry, facts[i], tokens[i], read, now, requests, start, owners);
        owners := owners + {targets[i]};
      }
      assert targets[..|facts|] == targets;
    }

    static predicate PdasRead(p: Pdas, read: map<Address, Option<Account>>, chain: Chain) {
      && (p.attestation.Some? ==> IsRead(p.attestation.value, read, chain))
      && (p.blacklist.Some? ==> IsRead(p.blacklist.value, read, chain))
      && (p.allowlist.Some? ==> IsRead(p.allowlist.value, read, chain))
    }

    static predicate IsRead(a: Address, read: map<Address, Option<Account>>, chain: Chain) {
      a in read && read[a] == Lookup(chain, a)
    }

    /**
     * One check of a mint. With an index whose facts are current, the requests are exactly the accounts the index and
     * the chain both have thawed, of the targeted owners the mirror flags, each once, with the flag as reason. The
     * index ends with what was read.
     */
    method Check(chain: Chain, mint: Address, owners: Option<seq<Address>>, now: I64)
      returns (requests: seq<FreezeRequest>)
      requires index.Valid() && index.IsCurrent(w)
      requires mint in index.mints ==> index.mints[mint].policy.mint == mint
      modifies index`byAttestation
      modifies if mint in index.mints then {index.mints[mint]} else {}
      modifies if mint in index.mints then index.mints[mint].owners.Values else {}
      ensures index.Valid() && index.IsCurrent(w) && index.mints == old(index.mints)
      ensures mint !in index.mints ==> requests == []
      ensures mint in index.mints ==>
        var entry := index.mints[mint];
        && entry.policy == old(entry.policy)
        && AnswersFor(requests, chain, entry.policy, old(entry.accounts), now, owners)
        && entry.accounts == Refreshed(old(entry.accounts), chain, ThawedFor(old(entry.accounts), owners))
      ensures mint in index.mints ==> forall o :: o in index.mints[mint].owners ==>
        index.mints[mint].owners[o] in old(index.mints[mint].owners.Values) || fresh(index.mints[mint].owners[o])
      ensures (owners.Some? ==> NoDuplicates(owners.value)) ==> NoDuplicates(requests)
    {
      if mint !in index.mints {
        return [];
      }
      var entry := index.mints[mint];
      var targets := Targets(entry, owners);
      var facts := LoadFacts(entry, targets);
      requests := ReadAndJudge(chain, entry, targets, facts, now);
      TargetsSuffice(requests, chain, entry.policy, old(entry.accounts), now, targets, owners);
    }

    method ReadAndJudge(chain: Chain, entry: MintEntry, targets: seq<Address>, facts: seq<OwnerFacts>, now: I64)
      returns (requests: seq<FreezeRequest>)
      requires index.Valid() && index.IsCurrent(w)
      requires entry.policy.mint == entry.mint && |facts| == |targets|
      requires forall i :: 0 <= i < |facts| ==> Fits(w, entry.policy, entry.mint, targets[i], facts[i])
      modifies entry`accounts, facts
      ensures index.Valid() && index.IsCurrent(w)
      ensures Answers(requests, chain, entry.policy, old(entry.accounts), now, set o | o in targets)
      ensures NoDuplicates(targets) ==> NoDuplicates(requests)
      ensures entry.accounts
           == Refreshed(old(entry.accounts), chain, ThawedOf(old(entry.accounts), set o | o in targets))
    {
      var tokens, addresses := Plan(entry, facts);
      var read := ReadAll(chain, addresses);
      ghost var v := index.AsView();
      requests := Judge(chain, entry, targets, facts, tokens, read, now);
      assert index.AsView() == v;
    }

    ghost predicate AnswersFor(requests: seq<FreezeRequest>, chain: Chain, p: GatePolicy,
                               accounts: map<Address, TrackedAccount>, now: I64, owners: Option<seq<Address>>)
    {
      forall q :: q in requests <==>
        && q.mint == p.mint
        && (owners.Some? ==> q.owner in owners.value)
        && Wanted(w, chain, p, accounts, now, q.tokenAccount, q.owner, q.reason)
    }

    lemma TargetsSuffice(requests: seq<FreezeRequest>, chain: Chain, p: GatePolicy,
                         accounts: map<Address, TrackedAccount>, now: I64, targets: seq<Address>,
                         owners: Option<seq<Address>>)
      requires Answers(requests, chain, p, accounts, now, set o | o in targets)
      requires forall o :: o in targets <==>
        && (owners.Some? ==> o in owners.value)
        && exists ta :: ta in accounts && accounts[ta] == TrackedAccount(o, Initialized)
      ensures AnswersFor(requests, chain, p, accounts, now, owners)
      ensures ThawedOf(accounts, set o | o in targets) == ThawedFor(accounts, owners)
    {
      forall ta | ta in ThawedFor(accounts, owners)
        ensures accounts[ta].owner in targets
      {
        assert accounts[ta] == TrackedAccount(accounts[ta].owner, Initialized);
      }
    }
  }
}
