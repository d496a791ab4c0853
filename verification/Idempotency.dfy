/**
 * The Idempotency-Key protocol: claim and complete of
 * src/common/idempotency/idempotency-keys.repository.ts as a class over the
 * key rows, and the interceptor's claim, run, complete as steps that any number
 * of requests interleave. A claim is two steps: its upsert, and the read of one
 * that did not win, which finds whatever is committed by then. The stored
 * fingerprint is the canonical text it hashes.
 */
module Idempotency {
  import opened Wrappers
  import Text
  import J = CanonicalJson

  const STALE_CLAIM_MS := 30_000

  /** The unique key of a row. */
  datatype Slot = Slot(tenant: nat, key: string)

  datatype Row = Row(endpoint: J.Units, fingerprint: J.Units, createdAt: int, status: Option<nat>, response: Option<string>)

  type Rows = map<Slot, Row>

  datatype Request = Request(slot: Slot, endpoint: J.Units, body: Option<J.Json>)

  datatype Claim = Won | Replay(status: nat, response: string)

  datatype KeyError = KeyConflict | KeyInProgress | EmptyKey

  function Fingerprint(request: Request): J.Units {
    J.FingerprintText(request.endpoint, request.body)
  }

  /** Unresolved and strictly older than the window: only such a row may be taken over. */
  predicate IsStale(row: Row, now: int) {
    row.response.None? && row.createdAt < now - STALE_CLAIM_MS
  }

  predicate Wins(rows: Rows, slot: Slot, now: int) {
    slot !in rows || IsStale(rows[slot], now)
  }

  /** The rows once `request` has claimed: its own row if it won, untouched otherwise. */
  function AfterClaim(rows: Rows, request: Request, now: int): Rows {
    if request.slot !in rows then
      rows[request.slot := Row(request.endpoint, Fingerprint(request), now, None, None)]
    else if IsStale(rows[request.slot], now) then
      rows[request.slot := rows[request.slot].(endpoint := request.endpoint, fingerprint := Fingerprint(request), createdAt := now)]
    else rows
  }

  /** What a claim that did not win is told. */
  function Told(row: Row, fingerprint: J.Units): Result<Claim, KeyError> {
    if row.fingerprint != fingerprint then Err(KeyConflict)
    else if row.status.Some? && row.response.Some? then Ok(Replay(row.status.value, row.response.value))
    else Err(KeyInProgress)
  }

  function ClaimOutcome(rows: Rows, request: Request, now: int): Result<Claim, KeyError> {
    if Wins(rows, request.slot, now) then Ok(Won) else Told(rows[request.slot], Fingerprint(request))
  }

  /** What the read after a lost upsert finds, in the rows committed by then. */
  function Heard(rows: Rows, request: Request): Option<Result<Claim, KeyError>> {
    if request.slot in rows then Some(Told(rows[request.slot], Fingerprint(request))) else None
  }

  function AfterComplete(rows: Rows, slot: Slot, status: nat, response: Option<string>): Rows {
    if slot in rows then rows[slot := rows[slot].(status := Some(status), response := response)] else rows
  }

  /** What the handler behind the interceptor does with this request. */
  datatype Handler = Answers(response: Option<string>) | Throws

  datatype Reply = Response(value: Option<string>) | Refused(error: KeyError) | HandlerFailed

  class IdempotencyKeys {
    var rows: Rows

    constructor ()
      ensures rows == map[]
    {
      rows := map[];
    }

    /** The upsert: it inserts a row or takes a stale one over, and says whether it did. */
    method Upsert(request: Request, now: int) returns (won: bool)
      modifies this
      ensures rows == AfterClaim(old(rows), request, now)
      ensures won == Wins(old(rows), request.slot, now)
    {
      var staleThreshold := now - STALE_CLAIM_MS;
      won := false;
      if request.slot !in rows {
        rows := rows[request.slot := Row(request.endpoint, Fingerprint(request), now, None, None)];
        won := true;
      } else if rows[request.slot].response.None? && rows[request.slot].createdAt < staleThreshold {
        rows := rows[request.slot :=
          rows[request.slot].(endpoint := request.endpoint, fingerprint := Fingerprint(request), createdAt := now)];
        won := true;
      }
    }

    /** The read after an upsert that did not win; None if the row is gone. */
    method ReadBack(request: Request) returns (told: Option<Result<Claim, KeyError>>)
      ensures told == Heard(rows, request)
    {
      if request.slot !in rows {
        return None;
      }
      var existing := rows[request.slot];
      if existing.fingerprint != Fingerprint(request) {
        return Some(Err(KeyConflict));
      }
      if existing.status.Some? && existing.response.Some? {
        return Some(Ok(Replay(existing.status.value, existing.response.value)));
      }
      return Some(Err(KeyInProgress));
    }

    /** `claim`, with nothing between its statements. */
    method ClaimKey(request: Request, now: int) returns (claim: Result<Claim, KeyError>)
      modifies this
      ensures rows == AfterClaim(old(rows), request, now)
      ensures claim == ClaimOutcome(old(rows), request, now)
    {
      var won := Upsert(request, now);
      if won {
        return Ok(Won);
      }
      var told := ReadBack(request);
      return told.value;
    }

    method Complete(slot: Slot, status: nat, response: Option<string>)
      modifies this
      ensures rows == AfterComplete(old(rows), slot, status, response)
    {
      if slot in rows {
        rows := rows[slot := rows[slot].(status := Some(status), response := response)];
      }
    }

    /**
     * `intercept`, with no other request in between: the handler runs exactly
     * when there is no key or the claim wins, and only then is a row completed.
     */
    method Intercept(header: Option<string>, tenant: nat, endpoint: J.Units, body: Option<J.Json>, status: nat, handler: Handler, now: int)
      returns (reply: Reply, ran: bool)
      modifies this
      ensures header.None? || header == Some("") ==> ran && rows == old(rows)
      ensures header.Some? && header.value != "" && Trimmed(header.value) == "" ==>
                reply == Refused(EmptyKey) && !ran && rows == old(rows)
      ensures header.Some? && Trimmed(header.value) != "" ==>
                var request := Request(Slot(tenant, Trimmed(header.value)), endpoint, body);
                var claimed := AfterClaim(old(rows), request, now);
                && (ran <==> Wins(old(rows), request.slot, now))
                && rows == (if ran && handler.Answers? then AfterComplete(claimed, request.slot, status, handler.response) else claimed)
                && (!ran ==>
                      var row := old(rows)[request.slot];
                      reply == if row.fingerprint != Fingerprint(request) then Refused(KeyConflict)
                               else if row.status.Some? && row.response.Some? then Response(row.response)
                               else Refused(KeyInProgress))
      ensures ran ==> reply == if handler.Answers? then Response(handler.response) else HandlerFailed
    {
      ran := false;
      if header.None? || header.value == "" {
        ran := true;
        reply := if handler.Answers? then Response(handler.response) else HandlerFailed;
        return;
      }
      var key := Trimmed(header.value);
      if key == "" {
        reply := Refused(EmptyKey);
        return;
      }
      var claim := ClaimKey(Request(Slot(tenant, key), endpoint, body), now);
      match claim
      case Err(e) =>
        reply := Refused(e);
      case Ok(Replay(_, response)) =>
        reply := Response(Some(response));
      case Ok(Won) =>
        ran := true;
        if handler.Throws? {
          reply := HandlerFailed;
        } else {
          Complete(Slot(tenant, key), status, handler.response);
          reply := Response(handler.response);
        }
    }
  }

  /** String.prototype.trim. */
  function Trimmed(s: string): string
    decreases |s|
  {
    if s == "" then ""
    else if Text.IsSpace(s[0]) then Trimmed(s[1..])
    else if Text.IsSpace(s[|s| - 1]) then Trimmed(s[..|s| - 1])
    else s
  }

  predicate AllSpaces(s: string) {
    forall k :: 0 <= k < |s| ==> Text.IsSpace(s[k])
  }

  lemma {:induction false} OneMoreSpace(c: char, s: string, before: string, t: string, after: string)
    requires Text.IsSpace(c) && s == before + t + after && AllSpaces(before) && AllSpaces(after)
    ensures [c] + s == ([c] + before) + t + after && AllSpaces([c] + before)
    ensures s + [c] == before + t + (after + [c]) && AllSpaces(after + [c])
  {
  }

  /** `t` is `s` without spaces at its ends. */
  ghost predicate IsTrimmed(s: string, t: string) {
    && (exists before, after :: s == before + t + after && AllSpaces(before) && AllSpaces(after))
    && (t != "" ==> !Text.IsSpace(t[0]) && !Text.IsSpace(t[|t| - 1]))
  }

  lemma {:induction false} TrimmedOneMore(c: char, s: string, t: string)
    requires Text.IsSpace(c) && IsTrimmed(s, t)
    ensures IsTrimmed([c] + s, t) && IsTrimmed(s + [c], t)
  {
    var before, after :| s == before + t + after && AllSpaces(before) && AllSpaces(after);
    OneMoreSpace(c, s, before, t, after);
  }

  /** Trimming takes the spaces off both ends, and nothing else. */
  lemma {:induction false} TrimmedIs(s: string)
    ensures IsTrimmed(s, Trimmed(s))
    decreases |s|
  {
    if s == "" || (!Text.IsSpace(s[0]) && !Text.IsSpace(s[|s| - 1])) {
      assert s == "" + s + "" && AllSpaces("");
    } else if Text.IsSpace(s[0]) {
      TrimmedIs(s[1..]);
      TrimmedOneMore(s[0], s[1..], Trimmed(s[1..]));
      assert s == [s[0]] + s[1..];
    } else {
      var n := |s| - 1;
      TrimmedIs(s[..n]);
      TrimmedOneMore(s[n], s[..n], Trimmed(s[..n]));
      assert s == s[..n] + [s[n]];
    }
  }

  // ----- what a claim does to the rows, and what it is told -----

  /** A key is free if it has no row, or one without an answer that is more than 30 seconds old. */
  lemma {:induction false} WinsIff(rows: Rows, slot: Slot, now: int)
    ensures Wins(rows, slot, now) <==> slot !in rows || (rows[slot].response == None && now - rows[slot].createdAt > 30000)
  {
  }

  /** A claim that wins leaves its own unanswered row, taking over a status that was there; no other row changes. */
  lemma {:induction false} ClaimLeaves(rows: Rows, request: Request, now: int)
    ensures forall slot :: slot != request.slot ==>
              (slot in AfterClaim(rows, request, now) <==> slot in rows)
              && (slot in rows ==> AfterClaim(rows, request, now)[slot] == rows[slot])
    ensures request.slot in AfterClaim(rows, request, now)
    ensures var row := AfterClaim(rows, request, now)[request.slot];
            if Wins(rows, request.slot, now) then
              && row.endpoint == request.endpoint && row.fingerprint == Fingerprint(request) && row.createdAt == now
              && row.response == None && row.status == (if request.slot in rows then rows[request.slot].status else None)
            else row == rows[request.slot]
  {
  }

  /** A claim that does not win is told of a conflict, of the answer stored, or that there is none yet. */
  lemma {:induction false} ToldIs(row: Row, fingerprint: J.Units)
    ensures Told(row, fingerprint) == Err(KeyConflict) <==> row.fingerprint != fingerprint
    ensures row.fingerprint == fingerprint && row.status.Some? && row.response.Some? ==>
              Told(row, fingerprint) == Ok(Replay(row.status.value, row.response.value))
    ensures row.fingerprint == fingerprint && (row.status.None? || row.response.None?) ==> Told(row, fingerprint) == Err(KeyInProgress)
  {
  }

  /** Completing stores the status and the body in the key's row, and nothing else. */
  lemma {:induction false} CompleteLeaves(rows: Rows, slot: Slot, status: nat, response: Option<string>)
    ensures var after := AfterComplete(rows, slot, status, response);
            && after.Keys == rows.Keys && (forall other :: other in rows && other != slot ==> after[other] == rows[other])
            && (slot in rows ==> after[slot] == Row(rows[slot].endpoint, rows[slot].fingerprint, rows[slot].createdAt, Some(status), response))
  {
  }

  // ----- any number of requests at once -----

  datatype Phase = Running | Answered(status: nat, response: Option<string>) | Died

  /** One run of a handler: it won its key at `claimedAt`. */
  datatype Claimant = Claimant(slot: Slot, fingerprint: J.Units, claimedAt: int, phase: Phase)

  /**
   * Claimants are kept for good, so that runs can be counted; so are the
   * requests that lost their upsert, each of which reads its row back later.
   */
  datatype System = System(now: int, rows: Rows, claimants: seq<Claimant>, readers: seq<Request>)

  datatype Action =
    | Wait(ms: nat)
    | Ask(request: Request)
    | Answer(who: nat, status: nat, response: Option<string>)
    | Die(who: nat)

  predicate IsRunning(s: System, who: nat) {
    who < |s.claimants| && s.claimants[who].phase == Running
  }

  predicate Enabled(s: System, a: Action) {
    (a.Answer? ==> IsRunning(s, a.who)) && (a.Die? ==> IsRunning(s, a.who))
  }

  function Next(s: System, a: Action): System
    requires Enabled(s, a)
  {
    match a
    case Wait(ms) => s.(now := s.now + ms)
    case Ask(request) =>
      if Wins(s.rows, request.slot, s.now) then
        var claimant := Claimant(request.slot, Fingerprint(request), s.now, Running);
        s.(rows := AfterClaim(s.rows, request, s.now), claimants := s.claimants + [claimant])
      else s.(readers := s.readers + [request])
    case Answer(who, status, response) =>
      var c := s.claimants[who];
      s.(rows := AfterComplete(s.rows, c.slot, status, response),
         claimants := s.claimants[who := c.(phase := Answered(status, response))])
    case Die(who) => s.(claimants := s.claimants[who := s.claimants[who].(phase := Died)])
  }

  const START := System(0, map[], [], [])

  predicate IsLive(c: Claimant) {
    !c.phase.Died?
  }

  predicate LiveFor(s: System, who: nat, slot: Slot) {
    who < |s.claimants| && s.claimants[who].slot == slot && IsLive(s.claimants[who])
  }

  /** The row a live claimant left in the table. */
  predicate HoldsRow(rows: Rows, c: Claimant) {
    && c.slot in rows
    && var row := rows[c.slot];
       && row.fingerprint == c.fingerprint && row.createdAt == c.claimedAt
       && row.status == (if c.phase.Answered? then Some(c.phase.status) else None)
       && row.response == (if c.phase.Answered? then c.phase.response else None)
  }

  ghost predicate Inv(s: System) {
    && (forall i, j :: 0 <= i < j < |s.claimants| && s.claimants[i].slot == s.claimants[j].slot ==>
          !IsLive(s.claimants[i]) || !IsLive(s.claimants[j]))
    && (forall i :: 0 <= i < |s.claimants| && IsLive(s.claimants[i]) ==> HoldsRow(s.rows, s.claimants[i]))
    && (forall i :: 0 <= i < |s.claimants| ==> s.claimants[i].slot in s.rows)
    && (forall slot :: slot in s.rows && !(exists i :: LiveFor(s, i, slot)) ==>
          s.rows[slot].status.None? && s.rows[slot].response.None?)
  }

  /** A request that wins a key a live claimant still holds: the one way the handler runs twice for nothing. */
  ghost predicate Overruns(s: System, a: Action) {
    a.Ask? && Wins(s.rows, a.request.slot, s.now) && exists who :: LiveFor(s, who, a.request.slot)
  }

  /**
   * Exactly when that happens: the claimant has not answered with a body, and
   * the window since it claimed has passed.
   */
  lemma {:induction false} OverrunsIff(s: System, request: Request, who: nat)
    requires Inv(s) && LiveFor(s, who, request.slot)
    ensures Overruns(s, Ask(request)) <==>
              var c := s.claimants[who];
              (c.phase == Running || c.phase.response.None?) && s.now - c.claimedAt > STALE_CLAIM_MS
  {
    assert HoldsRow(s.rows, s.claimants[who]);
  }

  /** Every step but an overrun keeps at most one live claimant per key, with its row. */
  lemma {:induction false} StepKeeps(s: System, a: Action)
    requires Inv(s) && Enabled(s, a) && !Overruns(s, a)
    ensures Inv(Next(s, a))
  {
    match a {
      case Wait(_) =>
        forall slot, i: nat | LiveFor(s, i, slot) ensures LiveFor(Next(s, a), i, slot) {
        }
      case Ask(request) => AskKeeps(s, request);
      case Answer(who, status, response) => EndKeeps(s, a, who);
      case Die(who) => EndKeeps(s, a, who);
    }
  }

  lemma {:induction false} AskKeeps(s: System, request: Request)
    requires Inv(s) && !Overruns(s, Ask(request))
    ensures Inv(Next(s, Ask(request)))
  {
    var s' := Next(s, Ask(request));
    forall slot, i: nat | LiveFor(s, i, slot) ensures LiveFor(s', i, slot) {
      assert s'.claimants[i] == s.claimants[i];
    }
    if Wins(s.rows, request.slot, s.now) {
      var n := |s.claimants|;
      assert s'.claimants[n].slot == request.slot && LiveFor(s', n, request.slot);
      forall i | 0 <= i < n && s.claimants[i].slot == request.slot ensures !IsLive(s.claimants[i]) {
        assert !LiveFor(s, i, request.slot);
      }
      assert request.slot in s.rows ==> s.rows[request.slot].status.None?;
    }
  }

  lemma {:induction false} EndKeeps(s: System, a: Action, who: nat)
    requires Inv(s) && IsRunning(s, who) && (a.Answer? || a.Die?) && a.who == who
    ensures Inv(Next(s, a))
  {
    var s', slot := Next(s, a), s.claimants[who].slot;
    assert HoldsRow(s.rows, s.claimants[who]);
    forall i | 0 <= i < |s.claimants| && i != who && s.claimants[i].slot == slot ensures !IsLive(s'.claimants[i]) {
      assert s'.claimants[i] == s.claimants[i];
    }
    forall other, i: nat | LiveFor(s, i, other) && i != who ensures LiveFor(s', i, other) {
      assert s'.claimants[i] == s.claimants[i];
    }
    if a.Answer? {
      assert LiveFor(s', who, slot);
    } else {
      assert s'.rows[slot].status.None? && s'.rows[slot].response.None?;
    }
  }

  /** A request for a free key runs its handler, and once that has answered whoever asks next is told. */
  lemma {:induction false} OneGoesThrough(s: System, request: Request, status: nat, response: string, again: Request)
    requires Wins(s.rows, request.slot, s.now) && again.slot == request.slot
    ensures var who, asked := |s.claimants|, Next(s, Ask(request));
            && asked.claimants == s.claimants + [Claimant(request.slot, Fingerprint(request), s.now, Running)]
            && asked.readers == s.readers
            && Enabled(asked, Die(who)) && Enabled(asked, Answer(who, status, Some(response)))
            && var answered := Next(asked, Answer(who, status, Some(response)));
               && answered.claimants == s.claimants + [Claimant(request.slot, Fingerprint(request), s.now, Answered(status, Some(response)))]
               && !Enabled(answered, Die(who)) && Next(answered, Ask(again)) == answered.(readers := s.readers + [again])
               && Heard(answered.rows, again)
                  == Some(if Fingerprint(again) == Fingerprint(request) then Ok(Replay(status, response)) else Err(KeyConflict))
  {
    var who, asked := |s.claimants|, Next(s, Ask(request));
    assert asked.claimants[who] == Claimant(request.slot, Fingerprint(request), s.now, Running);
  }

  // ----- runs -----

  ghost predicate IsRun(states: seq<System>, actions: seq<Action>) {
    && |states| == |actions| + 1 && states[0] == START
    && forall k :: 0 <= k < |actions| ==> Enabled(states[k], actions[k]) && states[k + 1] == Next(states[k], actions[k])
  }

  /** What the protocol asks of claimants: a body in the answer, and an end within the window. */
  predicate IsPrompt(s: System, a: Action) {
    && (a.Answer? ==> a.response.Some?)
    && (a.Wait? ==> forall who :: 0 <= who < |s.claimants| && s.claimants[who].phase == Running ==>
                                    s.now + a.ms - s.claimants[who].claimedAt <= STALE_CLAIM_MS)
  }

  ghost predicate AllPrompt(states: seq<System>, actions: seq<Action>)
    requires |states| == |actions| + 1
  {
    forall k :: 0 <= k < |actions| ==> IsPrompt(states[k], actions[k])
  }

  /** Nobody runs past the window, and nobody answered without a body. */
  predicate InTime(s: System) {
    forall who :: 0 <= who < |s.claimants| ==>
      match s.claimants[who].phase
      case Running => s.now - s.claimants[who].claimedAt <= STALE_CLAIM_MS
      case Answered(_, response) => response.Some?
      case Died => true
  }

  lemma {:induction false} PromptRunsKeepInv(states: seq<System>, actions: seq<Action>)
    requires IsRun(states, actions) && AllPrompt(states, actions)
    ensures Inv(states[|actions|]) && InTime(states[|actions|])
    decreases |actions|
  {
    if actions != [] {
      var n := |actions| - 1;
      assert IsRun(states[..n + 1], actions[..n]);
      PromptRunsKeepInv(states[..n + 1], actions[..n]);
      PromptStep(states[n], actions[n]);
    }
  }

  lemma {:induction false} PromptStep(s: System, a: Action)
    requires Inv(s) && InTime(s) && Enabled(s, a) && IsPrompt(s, a)
    ensures !Overruns(s, a) && Inv(Next(s, a)) && InTime(Next(s, a))
  {
    if a.Ask? {
      forall who | LiveFor(s, who, a.request.slot) ensures !Overruns(s, a) {
        OverrunsIff(s, a.request, who);
      }
    }
    StepKeeps(s, a);
  }

  /** Runs of the handler for a key, and those of them that died. */
  function RunsFor(claimants: seq<Claimant>, slot: Slot): nat {
    if claimants == [] then 0
    else RunsFor(claimants[..|claimants| - 1], slot) + (if claimants[|claimants| - 1].slot == slot then 1 else 0)
  }

  function DeathsFor(claimants: seq<Claimant>, slot: Slot): nat {
    if claimants == [] then 0
    else
      var last := claimants[|claimants| - 1];
      DeathsFor(claimants[..|claimants| - 1], slot) + (if last.slot == slot && last.phase.Died? then 1 else 0)
  }

  lemma {:induction false} CountRuns(claimants: seq<Claimant>, slot: Slot)
    requires forall i, j :: 0 <= i < j < |claimants| && claimants[i].slot == claimants[j].slot == slot ==>
                              !IsLive(claimants[i]) || !IsLive(claimants[j])
    ensures RunsFor(claimants, slot) <= DeathsFor(claimants, slot) + 1
    ensures (forall i :: 0 <= i < |claimants| && claimants[i].slot == slot ==> !IsLive(claimants[i])) ==>
              RunsFor(claimants, slot) == DeathsFor(claimants, slot)
  {
    if claimants != [] {
      var front := claimants[..|claimants| - 1];
      CountRuns(front, slot);
      var last := claimants[|claimants| - 1];
      if last.slot == slot && IsLive(last) {
        assert forall i :: 0 <= i < |front| && front[i].slot == slot ==> !IsLive(front[i]);
      }
    }
  }

  /** In every run of prompt claimants, at most one handler runs per key, and no more runs than one plus the deaths. */
  lemma {:induction false} AtMostOneRuns(states: seq<System>, actions: seq<Action>, slot: Slot, i: nat, j: nat)
    requires IsRun(states, actions) && AllPrompt(states, actions)
    ensures var s := states[|actions|];
            && (IsRunning(s, i) && IsRunning(s, j) && s.claimants[i].slot == s.claimants[j].slot ==> i == j)
            && RunsFor(s.claimants, slot) <= 1 + DeathsFor(s.claimants, slot)
  {
    PromptRunsKeepInv(states, actions);
    CountRuns(states[|actions|].claimants, slot);
  }

  /** In every run of prompt claimants, a stored response is never changed again. */
  lemma {:induction false} CompletedIsForever(states: seq<System>, actions: seq<Action>, k: nat, slot: Slot)
    requires IsRun(states, actions) && AllPrompt(states, actions) && k <= |actions|
    requires slot in states[k].rows && states[k].rows[slot].response.Some?
    ensures slot in states[|actions|].rows && states[|actions|].rows[slot] == states[k].rows[slot]
    decreases |actions|
  {
    if k < |actions| {
      var n := |actions| - 1;
      assert IsRun(states[..n + 1], actions[..n]);
      CompletedIsForever(states[..n + 1], actions[..n], k, slot);
      PromptRunsKeepInv(states[..n + 1], actions[..n]);
      if actions[n].Answer? {
        assert HoldsRow(states[n].rows, states[n].claimants[actions[n].who]);
      }
    }
  }

  /**
   * Once a request was answered, every one with its key that reads from then on
   * replays exactly that answer if it goes to the same endpoint with the same
   * body up to key order, conflicts if not, and none runs the handler any more.
   */
  lemma {:induction false} RepeatsReplay(states: seq<System>, actions: seq<Action>, first: Request, again: Request, who: nat)
    requires IsRun(states, actions) && AllPrompt(states, actions)
    requires var s := states[|actions|];
             && who < |s.claimants| && s.claimants[who].slot == first.slot == again.slot
             && s.claimants[who].fingerprint == Fingerprint(first) && s.claimants[who].phase.Answered?
    requires J.NEWLINE !in first.endpoint && J.NEWLINE !in again.endpoint
    requires (first.body.Some? ==> J.IsBody(first.body.value)) && (again.body.Some? ==> J.IsBody(again.body.value))
    ensures var s := states[|actions|];
            var phase := s.claimants[who].phase;
            var same := first.endpoint == again.endpoint && J.Same(J.BodyOrEmpty(first.body), J.BodyOrEmpty(again.body));
            && phase.response.Some? && !Wins(s.rows, again.slot, s.now)
            && Heard(s.rows, again) == Some(if same then Ok(Replay(phase.status, phase.response.value)) else Err(KeyConflict))
            && Next(s, Ask(again)) == s.(readers := s.readers + [again])
  {
    PromptRunsKeepInv(states, actions);
    var s := states[|actions|];
    assert HoldsRow(s.rows, s.claimants[who]);
    J.FingerprintTextIsUnambiguous(first.endpoint, again.endpoint, first.body, again.body);
  }

  /**
   * A key whose claimants all died is free again exactly when the last claim is
   * older than the window; until then it is in progress, or a conflict.
   */
  lemma {:induction false} DeadClaimIsWinnable(states: seq<System>, actions: seq<Action>, request: Request)
    requires IsRun(states, actions) && AllPrompt(states, actions)
    requires var s := states[|actions|]; request.slot in s.rows && forall who :: !LiveFor(s, who, request.slot)
    ensures var s := states[|actions|];
            var row := s.rows[request.slot];
            ClaimOutcome(s.rows, request, s.now)
            == if s.now - row.createdAt > STALE_CLAIM_MS then Ok(Won)
               else if row.fingerprint != Fingerprint(request) then Err(KeyConflict)
               else Err(KeyInProgress)
  {
    PromptRunsKeepInv(states, actions);
  }

  /** Rows are never removed, so whoever lost its upsert finds one: `claim` never calls itself again. */
  lemma {:induction false} ReadersFindARow(states: seq<System>, actions: seq<Action>, k: nat)
    requires IsRun(states, actions) && k < |states[|actions|].readers|
    ensures Heard(states[|actions|].rows, states[|actions|].readers[k]).Some?
    decreases |actions|
  {
    if actions != [] {
      var n := |actions| - 1;
      assert IsRun(states[..n + 1], actions[..n]);
      if k < |states[n].readers| {
        ReadersFindARow(states[..n + 1], actions[..n], k);
      }
    }
  }

  /**
   * A request that lost to a claimant still at work, and reads after that one
   * answered, replays the answer although it asked before it was there.
   */
  lemma {:induction false} LateReadReplays(s: System, who: nat, request: Request, status: nat, response: string)
    requires Inv(s) && IsRunning(s, who) && s.claimants[who].slot == request.slot
    requires s.claimants[who].fingerprint == Fingerprint(request) && s.now - s.claimants[who].claimedAt <= STALE_CLAIM_MS
    ensures var lost := Next(s, Ask(request));
            && Heard(lost.rows, request) == Some(Err(KeyInProgress))
            && Heard(Next(lost, Answer(who, status, Some(response))).rows, request) == Some(Ok(Replay(status, response)))
  {
    assert HoldsRow(s.rows, s.claimants[who]);
  }

  // ----- why the claimants must be prompt -----

  /** A claimant that outlives the window runs beside a second one. */
  lemma {:induction false} SlowClaimantRunsBeside(s: System, first: Request, again: Request, late: nat)
    requires first.slot !in s.rows && again.slot == first.slot && late > STALE_CLAIM_MS
    ensures var one := Next(s, Ask(first));
            var two := Next(Next(one, Wait(late)), Ask(again));
            var n := |s.claimants|;
            IsRunning(two, n) && IsRunning(two, n + 1) && two.claimants[n].slot == two.claimants[n + 1].slot
  {
  }

  /** An answer without a body is not kept: after the window its key runs the handler again. */
  lemma {:induction false} BodilessAnswerRunsAgain(s: System, first: Request, again: Request, status: nat, late: nat)
    requires first.slot !in s.rows && again.slot == first.slot && late > STALE_CLAIM_MS
    ensures var n := |s.claimants|;
            var one := Next(s, Ask(first));
            IsRunning(one, n)
            && var answered := Next(one, Answer(n, status, None));
               var two := Next(Next(answered, Wait(late)), Ask(again));
               two.claimants[n].phase.Answered? && IsRunning(two, n + 1)
  {
  }
}
