/**
 * Runs of the holder index: the steps the keeper's tasks take on it, in any order, with the halves of `owner()` as two
 * steps. What a run leaves behind is given by a value, and the index is proved to hold that value.
 */
module IndexRuns {
  import opened Bytes
  import opened Policy
  import opened HolderIndex

  /**
   * A derivation is one step; committing the `i`-th derivation so far is another, at any later time, any number of
   * times.
   */
  datatype Step =
    | SetMintStep(mint: Address, policyAddress: Address, policy: GatePolicy)
    | RemoveMintStep(mint: Address)
    | DeriveStep(mint: Address, owner: Address)
    | CommitStep(i: nat)

  // ----- Runs as values

  /** A mint entry, tracked or removed: a task that derived from it still holds it. */
  datatype Entry = Entry(mint: Address, policy: GatePolicy, owners: map<Address, Pdas>)

  datatype Derived = Derived(entry: nat, owner: Address, pdas: Pdas)

  /** Every entry so far, which are tracked, the (attestation, mint, owner) listed, and the derivations so far. */
  datatype Value = Value(
    entries: seq<Entry>,
    live: map<Address, nat>,
    listed: set<(Address, Address, Address)>,
    derived: seq<Derived>)

  predicate Sound(v: Value) {
    && (forall m :: m in v.live ==> v.live[m] < |v.entries| && v.entries[v.live[m]].mint == m)
    && (forall i :: 0 <= i < |v.derived| ==> v.derived[i].entry < |v.entries|)
  }

  function Unlisted(listed: set<(Address, Address, Address)>, mint: Address, owners: map<Address, Pdas>)
    : set<(Address, Address, Address)>
  {
    set t | t in listed && !(t.1 == mint && t.2 in owners && owners[t.2].attestation == Some(t.0))
  }

  function Advance(w: World, v: Value, step: Step): (r: Value)
    requires Sound(v)
    ensures Sound(r)
  {
    match step
    case SetMintStep(mint, _, policy) =>
      var empty := Entry(mint, policy, map[]);
      if mint !in v.live then v.(entries := v.entries + [empty], live := v.live[mint := |v.entries|])
      else
        var e := v.live[mint];
        v.(entries := v.entries[e := empty], listed := Unlisted(v.listed, mint, v.entries[e].owners))
    case RemoveMintStep(mint) =>
      if mint !in v.live then v
      else
        var e := v.live[mint];
        v.(entries := v.entries[e := v.entries[e].(owners := map[])], live := v.live - {mint},
           listed := Unlisted(v.listed, mint, v.entries[e].owners))
    case DeriveStep(mint, owner) =>
      if mint !in v.live || owner in v.entries[v.live[mint]].owners then v
      else
        var e := v.live[mint];
        v.(derived := v.derived + [Derived(e, owner, PdasFor(w, v.entries[e].policy, mint, owner))])
    case CommitStep(i) =>
      if i >= |v.derived| then v else Store(v, v.derived[i])
  }

  /** The first derivation stored for an owner stays; a new one is listed under its attestation, if it has one. */
  function Store(v: Value, d: Derived): (r: Value)
    requires Sound(v) && d.entry < |v.entries|
    ensures Sound(r)
  {
    var entry := v.entries[d.entry];
    if d.owner in entry.owners then v
    else
      v.(entries := v.entries[d.entry := entry.(owners := entry.owners[d.owner := d.pdas])],
         listed := v.listed
                   + if d.pdas.attestation.Some? then {(d.pdas.attestation.value, entry.mint, d.owner)} else {})
  }

  function After(w: World, steps: seq<Step>): (v: Value)
    ensures Sound(v)
  {
    if steps == [] then Value([], map[], {}, []) else Advance(w, After(w, steps[..|steps| - 1]), steps[|steps| - 1])
  }

  /** A tracked mint holds an owner whose facts name the attestation. */
  predicate Named(v: Value, t: (Address, Address, Address))
    requires Sound(v)
  {
    t.1 in v.live && t.2 in v.entries[v.live[t.1]].owners && v.entries[v.live[t.1]].owners[t.2].attestation == Some(t.0)
  }

  ghost predicate NothingMissing(v: Value)
    requires Sound(v)
  {
    forall t :: Named(v, t) ==> t in v.listed
  }

  ghost predicate ListedExactly(v: Value)
    requires Sound(v)
  {
    forall t :: Named(v, t) <==> t in v.listed
  }

  /** Every tracked owner's PDAs are those of its mint's present policy. */
  ghost predicate UpToDate(w: World, v: Value)
    requires Sound(v)
  {
    forall m, o :: m in v.live && o in v.entries[v.live[m]].owners ==>
      v.entries[v.live[m]].owners[o] == PdasFor(w, v.entries[v.live[m]].policy, m, o)
  }

  /** However the halves of `owner()` interleave with everything else, no tracked holder is missing. */
  lemma {:induction false} NeverMissing(w: World, steps: seq<Step>)
    ensures NothingMissing(After(w, steps))
  {
    if steps != [] {
      NeverMissing(w, steps[..|steps| - 1]);
      AdvanceKeepsAll(w, After(w, steps[..|steps| - 1]), steps[|steps| - 1]);
    }
  }

  lemma AdvanceKeepsAll(w: World, v: Value, step: Step)
    requires Sound(v) && NothingMissing(v)
    ensures NothingMissing(Advance(w, v, step))
  {
    var v' := Advance(w, v, step);
    forall t | Named(v', t) ensures t in v'.listed {
      assert t !in v.listed ==> !Named(v, t);
    }
  }

  /** Every commit that has something to store directly follows its derivation, as when `owner()` is not interrupted. */
  predicate Prompt(w: World, steps: seq<Step>) {
    forall n :: 0 <= n < |steps| ==> PromptAt(w, steps, n)
  }

  predicate PromptAt(w: World, steps: seq<Step>, n: nat)
    requires n < |steps|
  {
    steps[n].CommitStep? && steps[n].i < |After(w, steps[..n]).derived| ==>
      n > 0 && |After(w, steps[..n - 1]).derived| == steps[n].i
  }

  /** Without interruptions the reverse map lists exactly the tracked owners, and every owner is up to date. */
  lemma {:induction false} PromptIsExact(w: World, steps: seq<Step>)
    requires Prompt(w, steps)
    ensures ListedExactly(After(w, steps)) && UpToDate(w, After(w, steps))
    decreases |steps|
  {
    if steps != [] {
      var n := |steps| - 1;
      var before := steps[..n];
      forall k | 0 <= k < n ensures PromptAt(w, before, k) {
        assert PromptAt(w, steps, k);
        assert before[..k] == steps[..k];
        if k > 0 {
          assert before[..k - 1] == steps[..k - 1];
        }
      }
      PromptIsExact(w, before);
      assert PromptAt(w, steps, n);
      if steps[n].CommitStep? {
        if steps[n].i < |After(w, before).derived| {
          assert before[..n - 1] == steps[..n - 1];
          CommitAtOnce(w, After(w, steps[..n - 1]), steps[n - 1], steps[n].i);
        }
      } else {
        AdvanceKeepsExact(w, After(w, before), steps[n]);
      }
    }
  }

  lemma AdvanceKeepsExact(w: World, v: Value, step: Step)
    requires Sound(v) && ListedExactly(v) && UpToDate(w, v) && !step.CommitStep?
    ensures ListedExactly(Advance(w, v, step)) && UpToDate(w, Advance(w, v, step))
  {
    var v' := Advance(w, v, step);
    forall t ensures Named(v', t) <==> t in v'.listed {
      assert Named(v, t) <==> t in v.listed;
    }
  }

  /** A step that derives, and the commit of what it derived. */
  lemma CommitAtOnce(w: World, v: Value, step: Step, i: nat)
    requires Sound(v) && i == |v.derived|
    requires var u := Advance(w, v, step); i < |u.derived| && ListedExactly(u) && UpToDate(w, u)
    ensures var r := Advance(w, Advance(w, v, step), CommitStep(i)); ListedExactly(r) && UpToDate(w, r)
  {
    var u := Advance(w, v, step);
    var r := Advance(w, u, CommitStep(i));
    var d := u.derived[i];
    assert step.DeriveStep? && u.live[step.mint] == d.entry && d.owner == step.owner;
    forall t ensures Named(r, t) <==> t in r.listed {
      assert Named(u, t) <==> t in u.listed;
    }
  }

  // ----- The index holds the value

  ghost predicate Shows(w: World, entry: MintEntry, x: Entry)
    reads entry
  {
    && entry.mint == x.mint && entry.policy == x.policy && entry.owners.Keys == x.owners.Keys
    && forall o :: o in entry.owners ==> IsDerived(w, entry.owners[o], o, x.owners[o])
  }

  ghost predicate IsDerived(w: World, facts: OwnerFacts, owner: Address, pdas: Pdas) {
    facts.owner == owner && facts.pdas == pdas && facts.ownerOffCurve == w.offCurve(owner)
  }

  ghost predicate Lists(l: Listing, listed: set<(Address, Address, Address)>) {
    forall a, m, o :: (a, m, o) in listed <==> Listed(l, m, o, a)
  }

  ghost predicate AllShow(w: World, objects: seq<MintEntry>, entries: seq<Entry>)
    reads objects
  {
    && |objects| == |entries|
    && (forall i, j :: 0 <= i < j < |objects| ==> objects[i] != objects[j])
    && (forall i :: 0 <= i < |objects| ==> Shows(w, objects[i], entries[i]))
  }

  ghost predicate Tracks(mints: map<Address, MintEntry>, objects: seq<MintEntry>, live: map<Address, nat>) {
    mints.Keys == live.Keys && forall m :: m in live ==> live[m] < |objects| && mints[m] == objects[live[m]]
  }

  ghost predicate AllHeld(w: World, objects: seq<MintEntry>, held: seq<(MintEntry, OwnerFacts)>,
                          derived: seq<Derived>)
  {
    && |held| == |derived|
    && forall i :: 0 <= i < |held| ==>
         && derived[i].entry < |objects| && held[i].0 == objects[derived[i].entry]
         && IsDerived(w, held[i].1, derived[i].owner, derived[i].pdas)
  }

  /** `objects` are the entries so far and `held` the facts the tasks derived. */
  ghost predicate Represents(w: World, index: HolderIndex, objects: seq<MintEntry>, held: seq<(MintEntry, OwnerFacts)>,
                             v: Value)
    reads index, objects
  {
    && Sound(v) && AllShow(w, objects, v.entries) && Tracks(index.mints, objects, v.live)
    && Lists(index.byAttestation, v.listed) && AllHeld(w, objects, held, v.derived)
  }

  lemma UnlistedLists(l: Listing, l': Listing, listed: set<(Address, Address, Address)>, mint: Address,
                      owners: map<Address, OwnerFacts>, pdas: map<Address, Pdas>)
    requires Lists(l, listed) && Forgets(l, l', mint, owners) && owners.Keys == pdas.Keys
    requires forall o :: o in owners ==> owners[o].owner == o && owners[o].pdas == pdas[o]
    ensures Lists(l', Unlisted(listed, mint, pdas))
  {
    forall a, m, o ensures (a, m, o) in Unlisted(listed, mint, pdas) <==> Listed(l', m, o, a) {
      var key := PairKey(m, o);
      assert key in KeysOf(mint, owners, owners.Keys, a)
        <==> m == mint && o in owners && owners[o].pdas.attestation == Some(a) by {
        if key in KeysOf(mint, owners, owners.Keys, a) {
          var o' :| o' in owners && owners[o'].pdas.attestation == Some(a) && key == PairKey(mint, owners[o'].owner);
          PairKeyInjective(m, o, mint, o');
        }
      }
      assert (a, m, o) in listed <==> Listed(l, m, o, a);
    }
  }

  lemma AddedLists(l: Listing, l': Listing, listed: set<(Address, Address, Address)>, mint: Address, owner: Address,
                   attestation: Option<Address>)
    requires Lists(l, listed) && Adds(l, l', mint, owner, attestation)
    ensures Lists(l', listed + if attestation.Some? then {(attestation.value, mint, owner)} else {})
  {
    forall a, m, o
      ensures Listed(l', m, o, a) <==> (a, m, o) in listed || (attestation == Some(a) && m == mint && o == owner)
    {
      if PairKey(m, o) == PairKey(mint, owner) {
        PairKeyInjective(m, o, mint, owner);
      }
      assert (a, m, o) in listed <==> Listed(l, m, o, a);
    }
  }

  method TakeSet(w: World, index: HolderIndex, ghost objects: seq<MintEntry>, held: seq<(MintEntry, OwnerFacts)>,
                 ghost v: Value, step: Step)
    returns (ghost objects': seq<MintEntry>)
    requires index.Valid() && Represents(w, index, objects, held, v) && step.SetMintStep?
    modifies index, set i | 0 <= i < |objects| :: objects[i]
    ensures index.Valid() && Represents(w, index, objects', held, Advance(w, v, step))
    ensures objects <= objects' && forall i :: |objects| <= i < |objects'| ==> fresh(objects'[i])
  {
    if step.mint in index.mints {
      objects' := objects;
      TakeReplace(w, index, objects, held, v, step);
    } else {
      objects' := TakeNew(w, index, objects, held, v, step);
    }
  }

  method TakeNew(w: World, index: HolderIndex, ghost objects: seq<MintEntry>, held: seq<(MintEntry, OwnerFacts)>,
                 ghost v: Value, step: Step)
    returns (ghost objects': seq<MintEntry>)
    requires index.Valid() && Represents(w, index, objects, held, v) && step.SetMintStep? && step.mint !in v.live
    modifies index
    ensures index.Valid() && Represents(w, index, objects', held, Advance(w, v, step))
    ensures objects <= objects' && forall i :: |objects| <= i < |objects'| ==> fresh(objects'[i])
  {
    var entry := index.SetMint(step.mint, step.policyAddress, step.policy);
    objects' := objects + [entry];
    ghost var entries := v.entries + [Entry(step.mint, step.policy, map[])];
    forall i | 0 <= i < |objects'| ensures Shows(w, objects'[i], entries[i]) {
      assert i < |objects| ==> objects'[i] == objects[i] && entries[i] == v.entries[i];
    }
    assert AllShow(w, objects', entries);
    ObjectsGrow(w, old(index.mints), objects, held, v, entry, step.mint);
  }

  lemma ObjectsGrow(w: World, mints: map<Address, MintEntry>, objects: seq<MintEntry>,
                    held: seq<(MintEntry, OwnerFacts)>, v: Value, entry: MintEntry, mint: Address)
    requires Tracks(mints, objects, v.live) && AllHeld(w, objects, held, v.derived)
    ensures Tracks(mints[mint := entry], objects + [entry], v.live[mint := |objects|])
    ensures AllHeld(w, objects + [entry], held, v.derived)
  {
  }

  method TakeReplace(w: World, index: HolderIndex, ghost objects: seq<MintEntry>, held: seq<(MintEntry, OwnerFacts)>,
                     ghost v: Value, step: Step)
    requires index.Valid() && Represents(w, index, objects, held, v) && step.SetMintStep? && step.mint in v.live
    modifies index, set i | 0 <= i < |objects| :: objects[i]
    ensures index.Valid() && Represents(w, index, objects, held, Advance(w, v, step))
  {
    ghost var l, e := index.byAttestation, v.live[step.mint];
    ghost var owners := objects[e].owners;
    assert Shows(w, objects[e], v.entries[e]);
    var entry := index.SetMint(step.mint, step.policyAddress, step.policy);
    UnlistedLists(l, index.byAttestation, v.listed, step.mint, owners, v.entries[e].owners);
    ghost var entries := v.entries[e := Entry(step.mint, step.policy, map[])];
    forall i | 0 <= i < |objects| ensures Shows(w, objects[i], entries[i]) {
      assert i != e ==> objects[i] != entry;
    }
    assert AllShow(w, objects, entries);
    assert index.mints == old(index.mints);
  }

  method TakeRemove(w: World, index: HolderIndex, ghost objects: seq<MintEntry>, held: seq<(MintEntry, OwnerFacts)>,
                    ghost v: Value, step: Step)
    requires index.Valid() && Represents(w, index, objects, held, v) && step.RemoveMintStep?
    modifies index, set i | 0 <= i < |objects| :: objects[i]
    ensures index.Valid() && Represents(w, index, objects, held, Advance(w, v, step))
  {
    if step.mint !in index.mints {
      return;
    }
    ghost var l, e := index.byAttestation, v.live[step.mint];
    ghost var owners, entry := objects[e].owners, objects[e];
    assert Shows(w, entry, v.entries[e]);
    index.RemoveMint(step.mint);
    UnlistedLists(l, index.byAttestation, v.listed, step.mint, owners, v.entries[e].owners);
    ghost var entries := v.entries[e := v.entries[e].(owners := map[])];
    forall i | 0 <= i < |objects| ensures Shows(w, objects[i], entries[i]) {
      assert i != e ==> objects[i] != entry;
    }
    assert AllShow(w, objects, entries);
  }

  method TakeDerive(w: World, index: HolderIndex, ghost objects: seq<MintEntry>, held: seq<(MintEntry, OwnerFacts)>,
                    ghost v: Value, step: Step)
    returns (held': seq<(MintEntry, OwnerFacts)>)
    requires index.Valid() && Represents(w, index, objects, held, v) && step.DeriveStep?
    ensures Represents(w, index, objects, held', Advance(w, v, step))
  {
    held' := held;
    if step.mint in index.mints {
      var entry := index.mints[step.mint];
      assert Shows(w, entry, v.entries[v.live[step.mint]]);
      if step.owner !in entry.owners {
        var facts := index.Derive(w, entry, step.owner);
        held' := held + [(entry, facts)];
      }
    }
  }

  method TakeCommit(w: World, index: HolderIndex, ghost objects: seq<MintEntry>, held: seq<(MintEntry, OwnerFacts)>,
                    ghost v: Value, step: Step)
    requires index.Valid() && Represents(w, index, objects, held, v) && step.CommitStep?
    modifies index, set i | 0 <= i < |objects| :: objects[i]
    ensures index.Valid() && Represents(w, index, objects, held, Advance(w, v, step))
  {
    if step.i >= |held| {
      return;
    }
    var entry, facts := held[step.i].0, held[step.i].1;
    if facts.owner in entry.owners {
      CommitKnown(w, index, objects, held, v, step.i);
    } else {
      ghost var l, d := index.byAttestation, v.derived[step.i];
      assert Shows(w, entry, v.entries[d.entry]);
      var _ := index.Commit(entry, facts.owner, facts);
      AddedLists(l, index.byAttestation, v.listed, entry.mint, facts.owner, facts.pdas.attestation);
      ghost var before := v.entries[d.entry];
      ghost var entries := v.entries[d.entry := before.(owners := before.owners[d.owner := d.pdas])];
      forall i | 0 <= i < |objects| ensures Shows(w, objects[i], entries[i]) {
        assert i != d.entry ==> objects[i] != entry;
      }
      assert AllShow(w, objects, entries);
    }
  }

  method CommitKnown(w: World, index: HolderIndex, ghost objects: seq<MintEntry>, held: seq<(MintEntry, OwnerFacts)>,
                     ghost v: Value, i: nat)
    requires index.Valid() && Represents(w, index, objects, held, v)
    requires i < |held| && held[i].1.owner in held[i].0.owners
    modifies index, held[i].0
    ensures index.Valid() && Represents(w, index, objects, held, v)
  {
    var entry, facts := held[i].0, held[i].1;
    ghost var l := index.byAttestation;
    var _ := index.Commit(entry, facts.owner, facts);
    assert entry.owners == old(entry.owners);
    forall j | 0 <= j < |objects| ensures Shows(w, objects[j], v.entries[j]) {
    }
    assert AllShow(w, objects, v.entries);
    AddedLists(l, index.byAttestation, v.listed, entry.mint, facts.owner, None);
    assert v.listed + {} == v.listed;
  }

  method Take(w: World, index: HolderIndex, ghost objects: seq<MintEntry>, held: seq<(MintEntry, OwnerFacts)>,
              ghost v: Value, step: Step)
    returns (ghost objects': seq<MintEntry>, held': seq<(MintEntry, OwnerFacts)>)
    requires index.Valid() && Represents(w, index, objects, held, v)
    modifies index, set i | 0 <= i < |objects| :: objects[i]
    ensures index.Valid() && Represents(w, index, objects', held', Advance(w, v, step))
    ensures objects <= objects' && forall i :: |objects| <= i < |objects'| ==> fresh(objects'[i])
  {
    objects', held' := objects, held;
    match step
    case SetMintStep(_, _, _) =>
      objects' := TakeSet(w, index, objects, held, v, step);
    case RemoveMintStep(_) =>
      TakeRemove(w, index, objects, held, v, step);
    case DeriveStep(_, _) =>
      held' := TakeDerive(w, index, objects, held, v, step);
    case CommitStep(_) =>
      TakeCommit(w, index, objects, held, v, step);
  }

  lemma AfterStep(w: World, steps: seq<Step>, n: nat)
    requires n < |steps|
    ensures After(w, steps[..n + 1]) == Advance(w, After(w, steps[..n]), steps[n])
  {
    assert steps[..n + 1][..n] == steps[..n];
  }

  /**
   * Any run of steps, in any order, from an empty index: the index holds the run's value, so it tracks what the run
   * left tracked, with every owner stored where and as the run stored it, and lists what the run left listed. It misses
   * no tracked holder; and when nothing interrupted a derivation it is exact and current.
   */
  method AnyRun(w: World, steps: seq<Step>)
    returns (index: HolderIndex, held: seq<(MintEntry, OwnerFacts)>, ghost objects: seq<MintEntry>)
    ensures index.Valid() && Represents(w, index, objects, held, After(w, steps))
    ensures forall m, o, a :: Names(index.AsView(), m, o, a) ==> Listed(index.byAttestation, m, o, a)
    ensures Prompt(w, steps) ==> index.IsExact() && index.IsCurrent(w)
  {
    index := new HolderIndex();
    objects, held := [], [];
    for n := 0 to |steps|
      invariant index.Valid() && fresh(index) && Represents(w, index, objects, held, After(w, steps[..n]))
      invariant forall i :: 0 <= i < |objects| ==> fresh(objects[i])
    {
      AfterStep(w, steps, n);
      objects, held := Take(w, index, objects, held, After(w, steps[..n]), steps[n]);
    }
    assert steps[..|steps|] == steps;
    if Prompt(w, steps) {
      PromptIsExact(w, steps);
      ExactInIndex(w, index, objects, held, After(w, steps));
    }
  }

  lemma ExactInIndex(w: World, index: HolderIndex, objects: seq<MintEntry>, held: seq<(MintEntry, OwnerFacts)>,
                     v: Value)
    requires index.Valid() && Represents(w, index, objects, held, v) && ListedExactly(v) && UpToDate(w, v)
    ensures index.IsExact() && index.IsCurrent(w)
  {
    var view, l := index.AsView(), index.byAttestation;
    forall m | m in v.live ensures Shows(w, index.mints[m], v.entries[v.live[m]]) {
    }
    forall a, k | Holds(l, a, k) ensures exists m, o :: Names(view, m, o, a) && k == PairKey(m, o) {
      var m, o :| k == PairKey(m, o);
      assert Listed(l, m, o, a) && (a, m, o) in v.listed && Named(v, (a, m, o));
      assert Names(view, m, o, a);
    }
  }
}
