/** The reserve attestation on chain, and the service that keeps it up to date. */
module Attestor {
  import opened Bytes
  import opened Policy

  const MAX_URI_LEN: nat := 200

  /** What a validated source document says. `asOf` is any integer: it may not even fit the chain's clock. */
  datatype Report = Report(reserves: U64, asOf: int, uri: seq<Byte>)

  predicate Sound(r: Report) {
    |r.uri| <= MAX_URI_LEN
  }

  /** What the account says, and to whom it listens. */
  datatype Posted = Posted(attestor: Address, report: Report)

  datatype Reason =
    | FirstPost | Newer | Correction
    | NoAttestation | NotAttestor | OlderThanChain | Unchanged | FutureAsOf

  predicate Posts(r: Reason) {
    r.FirstPost? || r.Newer? || r.Correction?
  }

  /** Whether to post `report` over what the chain holds. */
  function Decide(report: Report, onChain: Option<Posted>, me: Address, now: I64): Reason {
    if onChain.None? then NoAttestation
    else
      var stored := onChain.value.report;
      if onChain.value.attestor != me then NotAttestor
      else if report.asOf > now then FutureAsOf
      else if report.asOf < stored.asOf then OlderThanChain
      else if report.asOf == stored.asOf then
        if report.reserves == stored.reserves && report.uri == stored.uri then Unchanged else Correction
      else if stored.asOf == 0 then FirstPost else Newer
  }

  datatype Outcome = Accepted | NotReserveAttestor | InvalidReserveAttestation

  predicate ValidPost(asOf: int, storedAsOf: int, now: I64, uriLen: nat) {
    asOf <= now && asOf >= storedAsOf && uriLen <= MAX_URI_LEN
  }

  class ReserveAttestation {
    var mint: Address
    var attestor: Address
    var reserves: U64
    var asOf: int
    var maxStaleness: int
    var reportUri: seq<Byte>
    var postedAt: int

    function Value(): Posted
      reads this
    {
      Posted(attestor, Report(reserves, asOf, reportUri))
    }

    /** No account holds a report from after its own post, from before 1970, or over the length limit. */
    predicate Valid()
      reads this
    {
      0 <= asOf <= postedAt && Sound(Value().report) && maxStaleness > 0 && mint != NO_KEY && attestor != NO_KEY
    }

    /** `init_if_needed`: a fresh account is zeroed, and its first attestor starts from the zero report. */
    constructor (mint: Address, attestor: Address, maxStaleness: int)
      requires mint != NO_KEY && attestor != NO_KEY && maxStaleness > 0
      ensures Valid() && Value() == Posted(attestor, Report(0, 0, []))
    {
      this.mint, this.attestor, this.maxStaleness := mint, attestor, maxStaleness;
      reserves, asOf, reportUri, postedAt := 0, 0, [], 0;
    }

    /** What one attestor posted is never carried over to another, and survives a change of the staleness window. */
    method SetAttestor(newAttestor: Address, newStaleness: int) returns (ok: bool)
      requires Valid()
      modifies this
      ensures Valid() && mint == old(mint)
      ensures ok <==> newStaleness > 0 && newAttestor != NO_KEY
      ensures !ok ==> Value() == old(Value()) && postedAt == old(postedAt) && maxStaleness == old(maxStaleness)
      ensures ok ==> maxStaleness == newStaleness
      ensures ok ==>
        Value() == if newAttestor == old(attestor) then old(Value()) else Posted(newAttestor, Report(0, 0, []))
    {
      if newStaleness <= 0 || newAttestor == NO_KEY {
        return false;
      }
      var reset := mint == NO_KEY || attestor != newAttestor;
      attestor := newAttestor;
      maxStaleness := newStaleness;
      if reset {
        reserves, asOf, reportUri, postedAt := 0, 0, [], 0;
      }
      return true;
    }

    /** A post replaces the whole report or nothing, and the measured time never falls. */
    method Attest(signer: Address, report: Report, now: I64) returns (r: Outcome)
      requires Valid()
      modifies this
      ensures Valid() && mint == old(mint) && attestor == old(attestor) && maxStaleness == old(maxStaleness)
      ensures r == Lands(old(Value()), signer, report, now)
      ensures Value().report == if r.Accepted? then report else old(Value().report)
      ensures postedAt == if r.Accepted? then now else old(postedAt)
      ensures asOf >= old(asOf)
    {
      if signer != attestor {
        return NotReserveAttestor;
      }
      if !ValidPost(report.asOf, asOf, now, |report.uri|) {
        return InvalidReserveAttestation;
      }
      reserves := report.reserves;
      asOf := report.asOf;
      reportUri := report.uri;
      postedAt := now;
      return Accepted;
    }
  }

  /** The chain's answer to a post. */
  function Lands(held: Posted, signer: Address, report: Report, now: I64): Outcome {
    if signer != held.attestor then NotReserveAttestor
    else if !ValidPost(report.asOf, held.report.asOf, now, |report.uri|) then InvalidReserveAttestation
    else Accepted
  }

  /** The chain refuses another signer first, then a report from the future, an older one, or a link over 200 bytes. */
  lemma LandsExactly(held: Posted, signer: Address, report: Report, now: I64)
    ensures var r := Lands(held, signer, report, now);
      && (r.NotReserveAttestor? <==> signer != held.attestor)
      && (r.Accepted?
          <==> signer == held.attestor && held.report.asOf <= report.asOf <= now && |report.uri| <= 200)
  {
  }

  /** The service posts exactly what the chain would accept and would change. */
  lemma DecideMirrorsChain(held: Posted, me: Address, report: Report, now: I64)
    requires Sound(report)
    ensures Posts(Decide(report, Some(held), me, now))
       <==> Lands(held, me, report, now).Accepted? && report != held.report
  {
  }

  /**
   * Which reason, each by its own condition: the conditions exclude each other, so their order plays no part.
   */
  lemma ReasonsExactly(report: Report, onChain: Option<Posted>, me: Address, now: I64)
    ensures var r := Decide(report, onChain, me, now);
      && (r.NoAttestation? <==> onChain.None?)
      && (r.NotAttestor? <==> onChain.Some? && onChain.value.attestor != me)
      && (r.FutureAsOf? <==> Mine(onChain, me) && report.asOf > now)
      && (r.OlderThanChain?
          <==> Mine(onChain, me) && report.asOf <= now && report.asOf < onChain.value.report.asOf)
      && (r.Unchanged? <==> Mine(onChain, me) && report.asOf <= now && report == onChain.value.report)
      && (r.Correction?
          <==> Mine(onChain, me) && report.asOf <= now && report != onChain.value.report
               && report.asOf == onChain.value.report.asOf)
      && (r.FirstPost?
          <==> Mine(onChain, me) && onChain.value.report.asOf == 0 && 0 < report.asOf <= now)
      && (r.Newer?
          <==> Mine(onChain, me) && onChain.value.report.asOf != 0
               && onChain.value.report.asOf < report.asOf <= now)
  {
  }

  predicate Mine(onChain: Option<Posted>, me: Address) {
    onChain.Some? && onChain.value.attestor == me
  }

  /**
   * A decision read off an earlier state is refused exactly when the attestor changed or a newer report landed in
   * between; time passing is harmless.
   */
  lemma LatePost(seen: Posted, held: Posted, me: Address, report: Report, readAt: I64, landsAt: I64)
    requires Sound(report) && Posts(Decide(report, Some(seen), me, readAt)) && readAt <= landsAt
    ensures Lands(held, me, report, landsAt).Accepted? <==> held.attestor == me && report.asOf >= held.report.asOf
  {
  }

  // ----- Runs of one service

  /** One tick: the report it read, the clock it decided by and the clock its transaction landed at. */
  datatype Tick = Tick(report: Report, readAt: I64, landsAt: I64)

  predicate Runs(ticks: seq<Tick>) {
    forall i :: 0 <= i < |ticks| ==> Sound(ticks[i].report) && ticks[i].readAt <= ticks[i].landsAt
  }

  /** The report left on chain. */
  function Settled(initial: Report, ticks: seq<Tick>): Report {
    if ticks == [] then initial
    else
      var before := Settled(initial, ticks[..|ticks| - 1]);
      var t := ticks[|ticks| - 1];
      if before.asOf <= t.report.asOf <= t.readAt then t.report else before
  }

  /** Tick `i` reported a measurement that was not in the future and not older than the initial one. */
  predicate Eligible(initial: Report, t: Tick) {
    initial.asOf <= t.report.asOf <= t.readAt
  }

  /** Index of the last eligible tick with the largest measured time. */
  ghost predicate Wins(initial: Report, ticks: seq<Tick>, k: int) {
    && 0 <= k < |ticks|
    && Eligible(initial, ticks[k])
    && (forall j :: 0 <= j < k && Eligible(initial, ticks[j]) ==> ticks[j].report.asOf <= ticks[k].report.asOf)
    && (forall j :: k < j < |ticks| && Eligible(initial, ticks[j]) ==> ticks[j].report.asOf < ticks[k].report.asOf)
  }

  predicate NoneEligible(initial: Report, ticks: seq<Tick>) {
    forall i :: 0 <= i < |ticks| ==> !Eligible(initial, ticks[i])
  }

  lemma {:induction false} Winner(initial: Report, ticks: seq<Tick>) returns (k: int)
    ensures if k < 0 then NoneEligible(initial, ticks) && Settled(initial, ticks) == initial
            else Wins(initial, ticks, k) && Settled(initial, ticks) == ticks[k].report
  {
    if ticks == [] {
      return -1;
    }
    var n := |ticks| - 1;
    var t := ticks[n];
    k := Winner(initial, ticks[..n]);
    assert forall j :: 0 <= j < n ==> ticks[..n][j] == ticks[j];
    if Settled(initial, ticks[..n]).asOf <= t.report.asOf <= t.readAt {
      k := n;
    }
  }

  /**
   * The chain ends with the report of the last tick among those with the largest measured time that was not in the
   * future when seen, or with the initial report when there is none.
   */
  lemma SettledIsLatest(initial: Report, ticks: seq<Tick>, k: int)
    requires Wins(initial, ticks, k) || (k == -1 && NoneEligible(initial, ticks))
    ensures Settled(initial, ticks) == if k < 0 then initial else ticks[k].report
    ensures Settled(initial, ticks).asOf >= initial.asOf
    ensures forall i :: 0 <= i < |ticks| && Eligible(initial, ticks[i]) ==>
      ticks[i].report.asOf <= Settled(initial, ticks).asOf
  {
    var j := Winner(initial, ticks);
    if j >= 0 && k >= 0 {
      assert j == k by {
        assert Eligible(initial, ticks[j]) && Eligible(initial, ticks[k]);
      }
    }
  }

  /** `tick`: read, decide, post. While no one else touches the account, no post is ever refused. */
  method RunTick(account: ReserveAttestation, me: Address, t: Tick, dryRun: bool)
    returns (reason: Reason, landed: Option<Outcome>)
    requires account.Valid() && Sound(t.report) && t.readAt <= t.landsAt
    modifies account
    ensures account.Valid() && account.attestor == old(account.attestor)
    ensures reason == Decide(t.report, Some(old(account.Value())), me, t.readAt)
    ensures landed == if Posts(reason) && !dryRun then Some(Accepted) else None
    ensures account.Value().report == if landed.Some? then t.report else old(account.Value().report)
    ensures account.postedAt == if landed.Some? then t.landsAt else old(account.postedAt)
  {
    reason := Decide(t.report, Some(account.Value()), me, t.readAt);
    if !Posts(reason) || dryRun {
      return reason, None;
    }
    var outcome := account.Attest(me, t.report, t.landsAt);
    return reason, Some(outcome);
  }

  /**
   * The service over any reports: every post is accepted, the account follows `Settled`, and only posts that change
   * what the chain says are sent.
   */
  method RunTicks(account: ReserveAttestation, me: Address, ticks: seq<Tick>) returns (posts: nat)
    requires account.Valid() && account.attestor == me && Runs(ticks)
    modifies account
    ensures account.Valid() && account.attestor == me
    ensures account.Value().report == Settled(old(account.Value().report), ticks)
    ensures posts == Changes(old(account.Value().report), ticks)
    ensures account.asOf >= old(account.asOf)
  {
    posts := 0;
    ghost var initial := account.Value().report;
    for i := 0 to |ticks|
      invariant account.Valid() && account.attestor == me
      invariant account.Value().report == Settled(initial, ticks[..i])
      invariant posts == Changes(initial, ticks[..i])
      invariant account.asOf >= initial.asOf
    {
      assert ticks[..i + 1][..i] == ticks[..i];
      var _, landed := RunTick(account, me, ticks[i], false);
      if landed.Some? {
        posts := posts + 1;
      }
    }
    assert ticks[..|ticks|] == ticks;
  }

  /** How often the settled report changes: no post repeats what the chain already says. */
  function Changes(initial: Report, ticks: seq<Tick>): nat {
    if ticks == [] then 0
    else
      var before := ticks[..|ticks| - 1];
      Changes(initial, before) + if Settled(initial, ticks) != Settled(initial, before) then 1 else 0
  }

  /** Polling the same source again, at any later times, posts nothing more. */
  lemma {:induction false} RepeatsChangeNothing(initial: Report, ticks: seq<Tick>, again: seq<Tick>)
    requires forall i :: 0 <= i < |again| ==>
      again[i].report == Settled(initial, ticks) || again[i].report.asOf < Settled(initial, ticks).asOf
    ensures Settled(initial, ticks + again) == Settled(initial, ticks)
    ensures Changes(initial, ticks + again) == Changes(initial, ticks)
    decreases |again|
  {
    if again == [] {
      assert ticks + again == ticks;
    } else {
      var n := |again| - 1;
      assert (ticks + again)[..|ticks| + n] == ticks + again[..n];
      RepeatsChangeNothing(initial, ticks, again[..n]);
    }
  }
}
