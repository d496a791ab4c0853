/**
 * The re-encoded image cache of src/common/export/document-docx.service.ts: a
 * byte budget with oldest-first eviction, and one encode in flight per image.
 * `reencode` is split at its await; any other call may run in between. A key is
 * the text that is hashed.
 */
module EncodeCache {
  import opened Wrappers

  const CACHE_BYTES := 32 * 1024 * 1024

  type Key = string

  datatype Entry = Entry(key: Key, value: string)

  /** The encoded images, oldest first. */
  type Entries = seq<Entry>

  function Total(entries: Entries): nat {
    if entries == [] then 0 else |entries[0].value| + Total(entries[1..])
  }

  predicate HasKey(entries: Entries, key: Key) {
    exists k :: 0 <= k < |entries| && entries[k].key == key
  }

  function ValueOf(entries: Entries, key: Key): (value: Option<string>)
    ensures value.Some? <==> HasKey(entries, key)
    ensures value.Some? ==> Entry(key, value.value) in entries
  {
    if entries == [] then None
    else if entries[0].key == key then Some(entries[0].value)
    else
      assert HasKey(entries, key) <==> HasKey(entries[1..], key) by {
        if k :| 0 <= k < |entries| && entries[k].key == key {
          assert entries[1..][k - 1].key == key;
        }
      }
      ValueOf(entries[1..], key)
  }

  /** Without the oldest entries, until the rest is inside the budget. */
  function Trimmed(entries: Entries): (rest: Entries)
    ensures Total(rest) <= CACHE_BYTES
  {
    if Total(entries) <= CACHE_BYTES then entries else Trimmed(entries[1..])
  }

  /** A result worth keeping: not null, not empty, not kept already, and within the budget on its own. */
  predicate IsKept(entries: Entries, key: Key, result: Option<string>) {
    result.Some? && result.value != "" && !HasKey(entries, key) && |result.value| <= CACHE_BYTES
  }

  function Stored(entries: Entries, key: Key, result: Option<string>): Entries {
    if IsKept(entries, key, result) then Trimmed(entries + [Entry(key, result.value)]) else entries
  }

  datatype Found = Hit(value: string) | Joined(promise: nat) | Started

  /** What `reencode` does before it awaits. */
  function Looked(entries: Entries, encoding: map<Key, nat>, key: Key): Found {
    var cached := ValueOf(entries, key);
    if cached.Some? && cached.value != "" then Hit(cached.value)
    else if key in encoding then Joined(encoding[key])
    else Started
  }

  class ImageCache {
    var encoded: Entries
    var encodedBytes: int
    var encoding: map<Key, nat>

    constructor ()
      ensures encoded == [] && encodedBytes == 0 && encoding == map[]
    {
      encoded, encodedBytes, encoding := [], 0, map[];
    }

    /** Up to the await: a hit, the pending promise, or `next`, the promise of a new encode. */
    method Look(key: Key, next: nat) returns (found: Found)
      modifies this`encoding
      ensures found == Looked(encoded, old(encoding), key)
      ensures encoding == if found == Started then old(encoding)[key := next] else old(encoding)
    {
      var cached := ValueOf(encoded, key);
      if cached.Some? && cached.value != "" {
        return Hit(cached.value);
      }
      if key in encoding {
        return Joined(encoding[key]);
      }
      encoding := encoding[key := next];
      return Started;
    }

    /** The promise's `finally`. */
    method Settle(key: Key)
      modifies this`encoding
      ensures encoding == old(encoding) - {key}
    {
      encoding := encoding - {key};
    }

    /** After the await: keep the result, and evict from the oldest on. */
    method Store(key: Key, result: Option<string>)
      requires encodedBytes == Total(encoded)
      modifies this`encoded, this`encodedBytes
      ensures encoded == Stored(old(encoded), key, result) && encodedBytes == Total(encoded)
    {
      if result.Some? && result.value != "" && !HasKey(encoded, key) && |result.value| <= CACHE_BYTES {
        TotalAppends(encoded, Entry(key, result.value));
        encoded := encoded + [Entry(key, result.value)];
        encodedBytes := encodedBytes + |result.value|;
        ghost var all := encoded;
        while encodedBytes > CACHE_BYTES
          invariant encodedBytes == Total(encoded) && Trimmed(encoded) == Trimmed(all)
          decreases |encoded|
        {
          encodedBytes := encodedBytes - |encoded[0].value|;
          encoded := encoded[1..];
        }
      }
    }
  }

  lemma {:induction false} TotalAppends(entries: Entries, e: Entry)
    ensures Total(entries + [e]) == Total(entries) + |e.value|
  {
    if entries == [] {
      assert entries + [e] == [e] && [e][1..] == [];
    } else {
      assert (entries + [e])[1..] == entries[1..] + [e];
      TotalAppends(entries[1..], e);
    }
  }

  /** Eviction takes the oldest, and no more than it must. */
  lemma {:induction false} TrimmedIsLeast(entries: Entries) returns (n: nat)
    ensures n <= |entries| && Trimmed(entries) == entries[n..]
    ensures n > 0 ==> Total(entries[n - 1..]) > CACHE_BYTES
  {
    if Total(entries) <= CACHE_BYTES {
      n := 0;
    } else {
      var rest := entries[1..];
      var m := TrimmedIsLeast(rest);
      n := m + 1;
      assert rest[m..] == entries[n..];
      assert if m > 0 then rest[m - 1..] == entries[n - 1..] else entries[0..] == entries;
    }
  }

  /** And never the entry just stored, when it fits on its own. */
  lemma {:induction false} LastStays(entries: Entries)
    requires entries != [] && |entries[|entries| - 1].value| <= CACHE_BYTES
    ensures Trimmed(entries) != [] && Trimmed(entries)[|Trimmed(entries)| - 1] == entries[|entries| - 1]
  {
    assert Total(entries) == |entries[0].value| + Total(entries[1..]);
    if Total(entries) > CACHE_BYTES {
      LastStays(entries[1..]);
    }
  }

  lemma {:induction false} StoredIsThere(entries: Entries, key: Key, result: Option<string>)
    requires IsKept(entries, key, result)
    ensures Entry(key, result.value) in Stored(entries, key, result)
  {
    LastStays(entries + [Entry(key, result.value)]);
  }

  /** What is kept: a new image that fits into 32 MiB, and of the older ones as many of the latest as fit with it. */
  lemma {:induction false} StoredIs(entries: Entries, key: Key, result: Option<string>) returns (n: nat)
    ensures var isNew := result.Some? && result.value != "" && |result.value| <= 33554432 && forall e <- entries :: e.key != key;
            if isNew then
              var all := entries + [Entry(key, result.value)];
              && n <= |entries| && Stored(entries, key, result) == all[n..] && Total(all[n..]) <= 33554432
              && (n > 0 ==> Total(all[n - 1..]) > 33554432)
            else Stored(entries, key, result) == entries
  {
    n := 0;
    HasKeyIff(entries, key);
    if IsKept(entries, key, result) {
      var all := entries + [Entry(key, result.value)];
      n := TrimmedIsLeast(all);
      LastStays(all);
    }
  }

  lemma {:induction false} HasKeyIff(entries: Entries, key: Key)
    ensures HasKey(entries, key) <==> !(forall e <- entries :: e.key != key)
  {
    if k :| 0 <= k < |entries| && entries[k].key == key {
      assert entries[k] in entries;
    }
  }

  /** What a call finds: the image kept under its key, else the encode under way for it, else none. */
  lemma {:induction false} LookedIs(entries: Entries, encoding: map<Key, nat>, key: Key)
    requires forall j, k :: 0 <= j < k < |entries| ==> entries[j].key != entries[k].key
    requires forall e <- entries :: e.value != ""
    ensures forall e <- entries :: e.key == key ==> Looked(entries, encoding, key) == Hit(e.value)
    ensures (forall e <- entries :: e.key != key) ==>
              Looked(entries, encoding, key) == if key in encoding then Joined(encoding[key]) else Started
  {
    HasKeyIff(entries, key);
    forall e <- entries | e.key == key
      ensures Looked(entries, encoding, key) == Hit(e.value)
    {
      var v := ValueOf(entries, key).value;
      assert Entry(key, v) in entries;
      var j :| 0 <= j < |entries| && entries[j] == e;
      var k :| 0 <= k < |entries| && entries[k] == Entry(key, v);
      assert j == k;
    }
  }

  // ----- any calls, interleaved at their awaits -----

  datatype Outcome = Pending | Settled(result: Option<string>) | Rejected

  /** One call of fadeImage. */
  datatype Promise = Promise(key: Key, outcome: Outcome)

  datatype System = System(
    encoded: Entries,
    encodedBytes: int,
    encoding: map<Key, nat>,
    promises: seq<Promise>,
    waiting: map<nat, nat>) // each suspended call, and the promise it awaits

  datatype Action = Call(caller: nat, key: Key) | Finish(promise: nat, outcome: Outcome) | Resume(caller: nat)

  const START := System([], 0, map[], [], map[])

  predicate Enabled(s: System, a: Action) {
    match a
    case Call(caller, _) => caller !in s.waiting
    case Finish(p, outcome) => p < |s.promises| && s.promises[p].outcome == Pending && outcome != Pending
    case Resume(caller) =>
      caller in s.waiting && s.waiting[caller] < |s.promises| && s.promises[s.waiting[caller]].outcome != Pending
  }

  function Next(s: System, a: Action): System
    requires Enabled(s, a)
  {
    match a
    case Call(caller, key) =>
      (match Looked(s.encoded, s.encoding, key)
       case Hit(_) => s
       case Joined(p) => s.(waiting := s.waiting[caller := p])
       case Started =>
         s.(encoding := s.encoding[key := |s.promises|],
            promises := s.promises + [Promise(key, Pending)],
            waiting := s.waiting[caller := |s.promises|]))
    case Finish(p, outcome) =>
      var key := s.promises[p].key;
      s.(encoding := s.encoding - {key}, promises := s.promises[p := Promise(key, outcome)])
    case Resume(caller) =>
      var promise := s.promises[s.waiting[caller]];
      var woken := s.(waiting := s.waiting - {caller});
      if promise.outcome.Rejected? then woken
      else
        var encoded := Stored(s.encoded, promise.key, promise.outcome.result);
        woken.(encoded := encoded, encodedBytes := Total(encoded))
  }

  /** The image's encoding gave this value. */
  predicate Gave(promises: seq<Promise>, key: Key, value: string) {
    Promise(key, Settled(Some(value))) in promises
  }

  /** No image twice, and every value one that encoding gave. */
  predicate EntriesOk(entries: Entries, promises: seq<Promise>) {
    && (forall j, k :: 0 <= j < k < |entries| ==> entries[j].key != entries[k].key)
    && (forall k :: 0 <= k < |entries| ==> entries[k].value != "" && Gave(promises, entries[k].key, entries[k].value))
  }

  ghost predicate Inv(s: System) {
    && s.encodedBytes == Total(s.encoded) && s.encodedBytes <= CACHE_BYTES
    && EntriesOk(s.encoded, s.promises)
    && (forall key :: key in s.encoding ==>
          s.encoding[key] < |s.promises| && s.promises[s.encoding[key]] == Promise(key, Pending))
    && (forall p :: 0 <= p < |s.promises| && s.promises[p].outcome == Pending ==>
          s.promises[p].key in s.encoding && s.encoding[s.promises[p].key] == p)
    && (forall caller :: caller in s.waiting ==> s.waiting[caller] < |s.promises|)
  }

  lemma {:induction false} SuffixIsOk(entries: Entries, promises: seq<Promise>, n: nat)
    requires EntriesOk(entries, promises) && n <= |entries|
    ensures EntriesOk(entries[n..], promises)
  {
  }

  lemma {:induction false} StoreKeeps(entries: Entries, promises: seq<Promise>, key: Key, result: Option<string>)
    requires EntriesOk(entries, promises) && Promise(key, Settled(result)) in promises
    requires IsKept(entries, key, result)
    ensures EntriesOk(Stored(entries, key, result), promises)
  {
    var e := Entry(key, result.value);
    var all := entries + [e];
    assert EntriesOk(all, promises) by {
      assert Gave(promises, e.key, e.value);
    }
    var n := TrimmedIsLeast(all);
    SuffixIsOk(all, promises, n);
  }

  lemma {:induction false} GaveStays(promises: seq<Promise>, p: nat, after: Promise, key: Key, value: string)
    requires p < |promises| && promises[p].outcome == Pending && Gave(promises, key, value)
    ensures Gave(promises[p := after], key, value)
  {
    var k :| 0 <= k < |promises| && promises[k] == Promise(key, Settled(Some(value)));
    assert promises[p := after][k] == promises[k];
  }

  lemma {:induction false} MorePromises(entries: Entries, promises: seq<Promise>, promise: Promise)
    requires EntriesOk(entries, promises)
    ensures EntriesOk(entries, promises + [promise])
  {
  }

  lemma {:induction false} CallKeeps(s: System, caller: nat, key: Key)
    requires Inv(s) && Enabled(s, Call(caller, key))
    ensures Inv(Next(s, Call(caller, key)))
  {
    MorePromises(s.encoded, s.promises, Promise(key, Pending));
  }

  lemma {:induction false} FinishKeeps(s: System, p: nat, outcome: Outcome)
    requires Inv(s) && Enabled(s, Finish(p, outcome))
    ensures Inv(Next(s, Finish(p, outcome)))
  {
    forall k | 0 <= k < |s.encoded|
      ensures Gave(Next(s, Finish(p, outcome)).promises, s.encoded[k].key, s.encoded[k].value)
    {
      GaveStays(s.promises, p, Promise(s.promises[p].key, outcome), s.encoded[k].key, s.encoded[k].value);
    }
  }

  lemma {:induction false} ResumeKeeps(s: System, caller: nat)
    requires Inv(s) && Enabled(s, Resume(caller))
    ensures Inv(Next(s, Resume(caller)))
  {
    var promise := s.promises[s.waiting[caller]];
    if promise.outcome.Settled? && IsKept(s.encoded, promise.key, promise.outcome.result) {
      StoreKeeps(s.encoded, s.promises, promise.key, promise.outcome.result);
    }
  }

  lemma {:induction false} StepKeeps(s: System, a: Action)
    requires Inv(s) && Enabled(s, a)
    ensures Inv(Next(s, a))
  {
    match a {
      case Call(caller, key) => CallKeeps(s, caller, key);
      case Finish(p, outcome) => FinishKeeps(s, p, outcome);
      case Resume(caller) => ResumeKeeps(s, caller);
    }
  }

  ghost predicate IsRun(states: seq<System>, actions: seq<Action>) {
    && |states| == |actions| + 1 && states[0] == START
    && forall k :: 0 <= k < |actions| ==> Enabled(states[k], actions[k]) && states[k + 1] == Next(states[k], actions[k])
  }

  lemma {:induction false} RunsKeepInv(states: seq<System>, actions: seq<Action>)
    requires IsRun(states, actions)
    ensures Inv(states[|actions|])
    decreases |actions|
  {
    if actions != [] {
      var n := |actions| - 1;
      assert IsRun(states[..n + 1], actions[..n]);
      RunsKeepInv(states[..n + 1], actions[..n]);
      StepKeeps(states[n], actions[n]);
    }
  }

  /**
   * In every interleaving the byte count is that of the entries and inside the
   * budget, no image has two encodes in flight, and a hit returns what encoding
   * that image gave.
   */
  lemma {:induction false} CacheIsSound(states: seq<System>, actions: seq<Action>, key: Key, p: nat, q: nat)
    requires IsRun(states, actions)
    ensures var s := states[|actions|];
            && s.encodedBytes == Total(s.encoded) <= CACHE_BYTES
            && (p < |s.promises| && q < |s.promises| && s.promises[p] == s.promises[q] == Promise(key, Pending) ==> p == q)
            && (Looked(s.encoded, s.encoding, key).Hit? ==> Gave(s.promises, key, Looked(s.encoded, s.encoding, key).value))
  {
    RunsKeepInv(states, actions);
    var s := states[|actions|];
    if Looked(s.encoded, s.encoding, key).Hit? {
      var value := Looked(s.encoded, s.encoding, key).value;
      var k :| 0 <= k < |s.encoded| && s.encoded[k] == Entry(key, value);
    }
  }

  /**
   * A first download is a later hit: resuming from a kept result, the next call
   * for that image hits and gets that very result.
   */
  lemma {:induction false} ResumedIsAHit(states: seq<System>, actions: seq<Action>, caller: nat)
    requires IsRun(states, actions) && Enabled(states[|actions|], Resume(caller))
    requires var s := states[|actions|];
             var promise := s.promises[s.waiting[caller]];
             promise.outcome.Settled? && IsKept(s.encoded, promise.key, promise.outcome.result)
    ensures var s := states[|actions|];
            var promise, s' := s.promises[s.waiting[caller]], Next(s, Resume(caller));
            Looked(s'.encoded, s'.encoding, promise.key) == Hit(promise.outcome.result.value)
  {
    var s := states[|actions|];
    var promise, s' := s.promises[s.waiting[caller]], Next(s, Resume(caller));
    RunsKeepInv(states, actions);
    StepKeeps(s, Resume(caller));
    StoredIsThere(s.encoded, promise.key, promise.outcome.result);
    OnlyValue(s'.encoded, promise.key, promise.outcome.result.value);
  }

  lemma {:induction false} OnlyValue(entries: Entries, key: Key, value: string)
    requires Entry(key, value) in entries
    requires forall j, k :: 0 <= j < k < |entries| ==> entries[j].key != entries[k].key
    ensures ValueOf(entries, key) == Some(value)
  {
    var k :| 0 <= k < |entries| && entries[k] == Entry(key, value);
    assert HasKey(entries, key);
    var found := ValueOf(entries, key).value;
    var j :| 0 <= j < |entries| && entries[j] == Entry(key, found);
  }

  /** An image nobody has asked for is encoded once, and another call for it joins that encode. */
  lemma {:induction false} OneIsEncoded(s: System, caller: nat, other: nat, key: Key)
    requires Looked(s.encoded, s.encoding, key) == Started
    requires caller !in s.waiting && other !in s.waiting && caller != other
    ensures Enabled(s, Call(caller, key)) && Enabled(Next(s, Call(caller, key)), Call(other, key))
    ensures var p, asked := |s.promises|, Next(Next(s, Call(caller, key)), Call(other, key));
            && asked.promises == s.promises + [Promise(key, Pending)]
            && asked.waiting == s.waiting[caller := p][other := p] && asked.encoding == s.encoding[key := p]
            && asked.encoded == s.encoded
  {
    var first := Next(s, Call(caller, key));
    assert Looked(first.encoded, first.encoding, key) == Joined(|s.promises|);
  }

  /** An encode that is done is forgotten, and the first caller to go on keeps what it gave for the next call. */
  lemma {:induction false} OneIsKept(s: System, caller: nat, key: Key, value: string)
    requires Inv(s) && caller in s.waiting && !HasKey(s.encoded, key) && 0 < |value| <= CACHE_BYTES
    requires s.promises[s.waiting[caller]] == Promise(key, Pending)
    ensures var p := s.waiting[caller];
            && Enabled(s, Finish(p, Settled(Some(value)))) && !Enabled(s, Resume(caller))
            && var finished := Next(s, Finish(p, Settled(Some(value))));
               && finished.encoding == s.encoding - {key} && finished.encoded == s.encoded
               && Enabled(finished, Resume(caller))
               && var resumed := Next(finished, Resume(caller));
                  && resumed.waiting == s.waiting - {caller} && resumed.promises == finished.promises
                  && Looked(resumed.encoded, resumed.encoding, key) == Hit(value)
                  && Next(resumed, Call(caller, key)) == resumed
  {
    var finished := Next(s, Finish(s.waiting[caller], Settled(Some(value))));
    StepKeeps(s, Finish(s.waiting[caller], Settled(Some(value))));
    StepKeeps(finished, Resume(caller));
    StoredIsThere(finished.encoded, key, Some(value));
    OnlyValue(Next(finished, Resume(caller)).encoded, key, value);
  }
}
