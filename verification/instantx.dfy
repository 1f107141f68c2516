/** Collecting votes for transaction locks (src/instantx.cpp). The masternode list, signatures, the
    memory pool and the clock are answers that come with each message. */
module InstantX {
  import opened Transactions
  import opened Ordering

  const SIGNATURES_REQUIRED: int := 2
  const SIGNATURES_TOTAL: int := 4
  const HASH_RANGE: int := 0x1_0000_0000_0000_0000_0000_0000_0000_0000_0000_0000_0000_0000_0000_0000_0000_0000

  /** CConsensusVote. */
  datatype Vote = Vote(masternode: OutPoint, txHash: Hash, height: int, signature: seq<int>)

  /** CConsensusVote::GetHash, a sum of 256-bit numbers. */
  function VoteHash(v: Vote): Hash {
    (v.masternode.hash + v.masternode.n + v.txHash) % HASH_RANGE
  }

  /** CTransactionLock. */
  datatype Lock = Lock(txHash: Hash, height: int, votes: seq<Vote>, expiration: int, timeout: int)

  /** What a lock request needs of a transaction. */
  datatype LockTx = LockTx(txid: Hash, spends: seq<OutPoint>)

  /** The global maps. */
  datatype State = State(requests: map<Hash, LockTx>, rejected: map<Hash, LockTx>, votes: map<Hash, Vote>,
                         locks: map<Hash, Lock>, inputs: map<OutPoint, Hash>)

  const EMPTY: State := State(map[], map[], map[], map[], map[])

  /** The transaction that operator[] of mapTxLockReq makes up. */
  const BLANK: LockTx := LockTx(0, [])

  // ---------------------------------------------------------------- counting

  function CountTo(lock: Lock, n: nat): (c: nat)
    requires n <= |lock.votes|
    ensures c <= n
  {
    if n == 0 then 0 else CountTo(lock, n - 1) + if lock.votes[n - 1].height == lock.height then 1 else 0
  }

  /** CTransactionLock::CountSignatures. */
  method CountSignatures(lock: Lock) returns (n: int)
    ensures n == Signatures(lock)
  {
    if lock.height == 0 { return -1; }
    n := 0;
    for i := 0 to |lock.votes|
      invariant n == CountTo(lock, i)
    {
      if lock.votes[i].height == lock.height {
        n := n + 1;
      }
    }
  }

  function Signatures(lock: Lock): int {
    if lock.height == 0 then -1 else CountTo(lock, |lock.votes|)
  }

  /** The masternodes whose votes are counted. */
  ghost function VotersTo(lock: Lock, n: nat): set<OutPoint>
    requires n <= |lock.votes|
  {
    if n == 0 then {}
    else VotersTo(lock, n - 1) + if lock.votes[n - 1].height == lock.height then {lock.votes[n - 1].masternode} else {}
  }

  // ---------------------------------------------------------------- the invariant

  ghost predicate HasVote(s: State, h: Hash, i: nat) {
    h in s.locks && i < |s.locks[h].votes|
  }

  ghost predicate VoteOk(s: State, h: Hash, i: nat)
    requires HasVote(s, h, i)
  {
    s.locks[h].votes[i].txHash == h && VoteHash(s.locks[h].votes[i]) in s.votes
  }

  ghost predicate SameVote(s: State, h: Hash, i: nat, h': Hash, i': nat)
    requires HasVote(s, h, i) && HasVote(s, h', i')
  {
    VoteHash(s.locks[h].votes[i]) == VoteHash(s.locks[h'].votes[i'])
  }

  /** Votes lie in the lock of their transaction, their hashes are pairwise distinct over all live
      locks, and they stay in mapTxLockVote. */
  ghost predicate Inv(s: State) {
    && (forall h :: h in s.locks ==> s.locks[h].txHash == h)
    && (forall h, i: nat :: HasVote(s, h, i) ==> VoteOk(s, h, i))
    && (forall h, i: nat, h', i': nat :: HasVote(s, h, i) && HasVote(s, h', i') && SameVote(s, h, i, h', i') ==>
      h == h' && i == i')
  }

  /** Two votes of one lock come from different masternodes. */
  lemma DifferentVoters(s: State, h: Hash, i: nat, j: nat)
    requires Inv(s) && HasVote(s, h, i) && HasVote(s, h, j) && i != j
    ensures s.locks[h].votes[i].masternode != s.locks[h].votes[j].masternode
  {
    assert VoteOk(s, h, i) && VoteOk(s, h, j);
    assert !SameVote(s, h, i, h, j);
  }

  lemma {:induction false} VotersAre(lock: Lock, n: nat, m: OutPoint)
    requires n <= |lock.votes| && m in VotersTo(lock, n)
    ensures exists i :: 0 <= i < n && lock.votes[i].masternode == m
  {
    if m in VotersTo(lock, n - 1) {
      VotersAre(lock, n - 1, m);
    }
  }

  /** The first `n` votes come from different masternodes. */
  ghost predicate AllDifferent(lock: Lock, n: nat)
    requires n <= |lock.votes|
  {
    forall i, j :: 0 <= i < j < n ==> lock.votes[i].masternode != lock.votes[j].masternode
  }

  /** Then as many masternodes have voted as signatures are counted. */
  lemma {:induction false} VotersCounted(lock: Lock, n: nat)
    requires n <= |lock.votes| && AllDifferent(lock, n)
    ensures |VotersTo(lock, n)| == CountTo(lock, n)
  {
    if n > 0 {
      VotersCounted(lock, n - 1);
      if lock.votes[n - 1].masternode in VotersTo(lock, n - 1) {
        VotersAre(lock, n - 1, lock.votes[n - 1].masternode);
      }
      OneMoreVoter(lock, n);
    }
  }

  lemma OneMoreVoter(lock: Lock, n: nat)
    requires 0 < n <= |lock.votes| && lock.votes[n - 1].masternode !in VotersTo(lock, n - 1)
    ensures |VotersTo(lock, n)| == |VotersTo(lock, n - 1)| + if lock.votes[n - 1].height == lock.height then 1 else 0
  {
    assert VotersTo(lock, n - 1) + {} == VotersTo(lock, n - 1);
  }

  /** A complete lock has the votes of that many different masternodes. */
  lemma CompleteLock(s: State, h: Hash)
    requires Inv(s) && h in s.locks && Signatures(s.locks[h]) >= SIGNATURES_REQUIRED
    ensures |VotersTo(s.locks[h], |s.locks[h].votes|)| == Signatures(s.locks[h])
  {
    var lock := s.locks[h];
    forall i, j | 0 <= i < j < |lock.votes| ensures lock.votes[i].masternode != lock.votes[j].masternode {
      DifferentVoters(s, h, i, j);
    }
    VotersCounted(lock, |lock.votes|);
  }

  // ---------------------------------------------------------------- changes of the maps

  /** Changing heights and expirations, or adding an empty lock, leaves the votes. */
  ghost predicate SameVotes(s: State, t: State) {
    && (forall h :: h in s.votes ==> h in t.votes)
    && (forall h :: h in t.locks ==> t.locks[h].txHash == h && t.locks[h].votes == VotesOf(s, h))
  }

  ghost function VotesOf(s: State, h: Hash): seq<Vote> {
    if h in s.locks then s.locks[h].votes else []
  }

  lemma SameVotesKeepInv(s: State, t: State)
    requires Inv(s) && SameVotes(s, t)
    ensures Inv(t)
  {
    forall h, i: nat | HasVote(t, h, i) ensures VoteOk(t, h, i) {
      assert HasVote(s, h, i) && VoteOk(s, h, i);
    }
    forall h, i: nat, h', i': nat | HasVote(t, h, i) && HasVote(t, h', i') && SameVote(t, h, i, h', i')
      ensures h == h' && i == i' {
      assert HasVote(s, h, i) && HasVote(s, h', i') && SameVote(s, h, i, h', i');
    }
  }

  /** A vote with a new hash joins the lock of its transaction. */
  lemma AddVoteKeepsInv(s: State, t: State, v: Vote)
    requires Inv(s) && VoteHash(v) !in s.votes && v.txHash in s.locks
    requires t == s.(votes := s.votes[VoteHash(v) := v],
                     locks := s.locks[v.txHash := s.locks[v.txHash].(votes := s.locks[v.txHash].votes + [v])])
    ensures Inv(t)
  {
    var n := |s.locks[v.txHash].votes|;
    forall h, i: nat | HasVote(t, h, i) ensures VoteOk(t, h, i) && (HasVote(s, h, i) <==> !(h == v.txHash && i == n)) {
      if HasVote(s, h, i) {
        assert VoteOk(s, h, i);
      }
    }
    forall h, i: nat, h', i': nat | HasVote(t, h, i) && HasVote(t, h', i') && SameVote(t, h, i, h', i')
      ensures h == h' && i == i' {
      if HasVote(s, h, i) {
        assert VoteOk(s, h, i);
      }
      if HasVote(s, h', i') {
        assert VoteOk(s, h', i');
      }
      if HasVote(s, h, i) && HasVote(s, h', i') {
        assert SameVote(s, h, i, h', i');
      }
    }
  }

  ghost function HashesOf(votes: seq<Vote>): set<Hash> {
    set i | 0 <= i < |votes| :: VoteHash(votes[i])
  }

  /** A lock goes, and with it at most its own votes. */
  lemma DropLockKeepsInv(s: State, t: State, h: Hash)
    requires Inv(s) && h in s.locks && t.locks == s.locks - {h}
    requires forall x :: x in s.votes && x !in HashesOf(s.locks[h].votes) ==> x in t.votes
    ensures Inv(t)
  {
    forall x, i: nat | HasVote(t, x, i) ensures VoteOk(t, x, i) {
      assert HasVote(s, x, i) && VoteOk(s, x, i);
      if VoteHash(s.locks[x].votes[i]) in HashesOf(s.locks[h].votes) {
        var j :| 0 <= j < |s.locks[h].votes| && VoteHash(s.locks[h].votes[j]) == VoteHash(s.locks[x].votes[i]);
        assert HasVote(s, h, j) && SameVote(s, x, i, h, j);
      }
    }
    forall x, i: nat, x', i': nat | HasVote(t, x, i) && HasVote(t, x', i') && SameVote(t, x, i, x', i')
      ensures x == x' && i == i' {
      assert HasVote(s, x, i) && HasVote(s, x', i') && SameVote(s, x, i, x', i');
    }
  }

  // ---------------------------------------------------------------- what each message does

  const LOCK_LIFETIME: int := 20 * 60
  const LOCK_TIMEOUT: int := 5 * 60
  const MIN_INPUT_AGE: int := 9

  function NewLock(h: Hash, height: int, now: int): Lock {
    Lock(h, height, [], now + LOCK_LIFETIME, now + LOCK_TIMEOUT)
  }

  predicate TooNew(ages: seq<int>) {
    exists i :: 0 <= i < |ages| && ages[i] < MIN_INPUT_AGE
  }

  /** The height a lock is voted at: that of its first input, plus four. */
  function LockHeight(ages: seq<int>, best: int): int {
    best - (if ages == [] then 0 else ages[0]) + 4
  }

  /** CreateNewLock: a new lock, or a new height for the lock that the first votes have made. */
  function WithLock(s: State, h: Hash, height: int, now: int): State {
    s.(locks := s.locks[h := if h in s.locks then s.locks[h].(height := height) else NewLock(h, height, now)])
  }

  function FirstConflict(inputs: map<OutPoint, Hash>, tx: LockTx, from: nat): (i: nat)
    requires from <= |tx.spends|
    ensures from <= i <= |tx.spends|
    decreases |tx.spends| - from
  {
    if from == |tx.spends| then from
    else if tx.spends[from] in inputs && inputs[tx.spends[from]] != tx.txid then from
    else FirstConflict(inputs, tx, from + 1)
  }

  function Expire(locks: map<Hash, Lock>, h: Hash, now: int): map<Hash, Lock> {
    if h in locks then locks[h := locks[h].(expiration := now)] else locks
  }

  /** CheckForConflictingLocks: two conflicting locks expire at once. */
  function Cancelled(s: State, tx: LockTx, now: int): State {
    var i := FirstConflict(s.inputs, tx, 0);
    if i == |tx.spends| || tx.spends[i] !in s.inputs then s
    else s.(locks := Expire(Expire(s.locks, tx.txid, now), s.inputs[tx.spends[i]], now))
  }

  /** Inputs that are not locked yet are locked for a transaction. */
  function LockTo(inputs: map<OutPoint, Hash>, spends: seq<OutPoint>, h: Hash, n: nat): map<OutPoint, Hash>
    requires n <= |spends|
  {
    if n == 0 then inputs
    else
      var m := LockTo(inputs, spends, h, n - 1);
      if spends[n - 1] in m then m else m[spends[n - 1] := h]
  }

  /** What ProcessConsensusVote does once a lock is complete. */
  function Completed(s: State, h: Hash, now: int): State {
    var t := if h in s.requests then s else s.(requests := s.requests[h := BLANK]);
    var tx := t.requests[h];
    if FirstConflict(t.inputs, tx, 0) < |tx.spends| then Cancelled(t, tx, now)
    else t.(inputs := LockTo(t.inputs, tx.spends, h, |tx.spends|))
  }

  predicate Passes(rank: int, signed: bool) {
    rank != -1 && rank <= SIGNATURES_TOTAL && signed
  }

  /** AddSignature. */
  function WithVote(s: State, v: Vote): State
    requires v.txHash in s.locks
  {
    s.(locks := s.locks[v.txHash := s.locks[v.txHash].(votes := s.locks[v.txHash].votes + [v])])
  }

  /** ProcessConsensusVote for a vote that passes the tests. */
  function Counted(s: State, v: Vote, now: int): State {
    var t := if v.txHash in s.locks then s else s.(locks := s.locks[v.txHash := NewLock(v.txHash, 0, now)]);
    var u := WithVote(t, v);
    if Signatures(u.locks[v.txHash]) >= SIGNATURES_REQUIRED then Completed(u, v.txHash, now) else u
  }

  /** The message "txlvote". */
  function VoteStep(s: State, v: Vote, rank: int, signed: bool, now: int): State {
    if VoteHash(v) in s.votes then s
    else
      var t := s.(votes := s.votes[VoteHash(v) := v]);
      if Passes(rank, signed) then Counted(t, v, now) else t
  }

  /** CreateNewLock, which gives up on inputs that are too new. */
  function Opened(s: State, h: Hash, ages: seq<int>, best: int, now: int): State {
    if TooNew(ages) then s else WithLock(s, h, LockHeight(ages, best), now)
  }

  /** A request that the memory pool accepts; `own` is the vote of DoConsensusVote, if this node casts one. */
  function Accepted(s: State, tx: LockTx, own: Option<Vote>): State {
    s.(requests := s.requests[tx.txid := tx],
       votes := if own.Some? then s.votes[VoteHash(own.value) := own.value] else s.votes)
  }

  /** A request that the memory pool rejects. */
  function Rejected(s: State, tx: LockTx, now: int): State {
    var t := s.(rejected := s.rejected[tx.txid := tx], inputs := LockTo(s.inputs, tx.spends, tx.txid, |tx.spends|));
    if tx.txid in t.locks && Signatures(t.locks[tx.txid]) >= SIGNATURES_REQUIRED then Cancelled(t, tx, now) else t
  }

  /** The message "txlreq". */
  function RequestStep(s: State, tx: LockTx, valid: bool, ages: seq<int>, best: int, now: int, accepted: bool,
                       own: Option<Vote>): State {
    if tx.txid in s.requests || tx.txid in s.rejected || !valid then s
    else
      var t := Opened(s, tx.txid, ages, best, now);
      if accepted then Accepted(t, tx, own) else Rejected(t, tx, now)
  }

  function Without(m: map<Hash, Vote>, votes: seq<Vote>): map<Hash, Vote> {
    if votes == [] then m else Without(m, votes[..|votes| - 1]) - {VoteHash(votes[|votes| - 1])}
  }

  function Unlocked(inputs: map<OutPoint, Hash>, spends: seq<OutPoint>): map<OutPoint, Hash> {
    if spends == [] then inputs else Unlocked(inputs, spends[..|spends| - 1]) - {spends[|spends| - 1]}
  }

  /** An expired lock goes; its votes and inputs only if the transaction was requested. */
  function Removed(s: State, h: Hash): State
    requires h in s.locks
  {
    var id := s.locks[h].txHash;
    var t := if id in s.requests then
               s.(inputs := Unlocked(s.inputs, s.requests[id].spends), requests := s.requests - {id},
                  rejected := s.rejected - {id}, votes := Without(s.votes, s.locks[h].votes))
             else s;
    t.(locks := s.locks - {h})
  }

  function CleanTo(s: State, order: seq<Hash>, now: int, n: nat): State
    requires n <= |order|
  {
    if n == 0 then s
    else
      var t, h := CleanTo(s, order, now, n - 1), order[n - 1];
      if h in t.locks && now > t.locks[h].expiration then Removed(t, h) else t
  }

  /** CleanTransactionLocksList. */
  function Cleaned(s: State, now: int): State {
    CleanTo(s, Ascending(s.locks.Keys), now, |Ascending(s.locks.Keys)|)
  }

  // ---------------------------------------------------------------- every message keeps the invariant

  lemma CompletedSameVotes(s: State, h: Hash, now: int)
    requires Inv(s)
    ensures SameVotes(s, Completed(s, h, now))
  {
  }

  lemma VoteStepKeepsInv(s: State, v: Vote, rank: int, signed: bool, now: int)
    requires Inv(s)
    ensures Inv(VoteStep(s, v, rank, signed, now))
  {
    if VoteHash(v) !in s.votes {
      if Passes(rank, signed) {
        var t := if v.txHash in s.locks then s else s.(locks := s.locks[v.txHash := NewLock(v.txHash, 0, now)]);
        SameVotesKeepInv(s, t);
        var u := WithVote(t.(votes := t.votes[VoteHash(v) := v]), v);
        AddVoteKeepsInv(t, u, v);
        CompletedSameVotes(u, v.txHash, now);
        SameVotesKeepInv(u, Completed(u, v.txHash, now));
      } else {
        SameVotesKeepInv(s, VoteStep(s, v, rank, signed, now));
      }
    }
  }

  lemma OpenedSameVotes(s: State, h: Hash, ages: seq<int>, best: int, now: int)
    requires Inv(s)
    ensures SameVotes(s, Opened(s, h, ages, best, now))
  {
  }

  lemma CancelledSameVotes(s: State, t: State, tx: LockTx, now: int)
    requires SameVotes(s, t)
    ensures SameVotes(s, Cancelled(t, tx, now))
  {
  }

  lemma RejectedSameVotes(s: State, t: State, tx: LockTx, now: int)
    requires SameVotes(s, t)
    ensures SameVotes(s, Rejected(t, tx, now))
  {
    var u := t.(rejected := t.rejected[tx.txid := tx], inputs := LockTo(t.inputs, tx.spends, tx.txid, |tx.spends|));
    CancelledSameVotes(s, u, tx, now);
  }

  lemma RequestSameVotes(s: State, tx: LockTx, valid: bool, ages: seq<int>, best: int, now: int, accepted: bool,
                         own: Option<Vote>)
    requires Inv(s)
    ensures SameVotes(s, RequestStep(s, tx, valid, ages, best, now, accepted, own))
  {
    OpenedSameVotes(s, tx.txid, ages, best, now);
    RejectedSameVotes(s, Opened(s, tx.txid, ages, best, now), tx, now);
  }

  lemma {:induction false} WithoutHas(m: map<Hash, Vote>, votes: seq<Vote>, x: Hash)
    ensures x in Without(m, votes) <==> x in m && x !in HashesOf(votes)
  {
    if votes != [] {
      var last := |votes| - 1;
      WithoutHas(m, votes[..last], x);
      assert forall i :: 0 <= i < last ==> votes[..last][i] == votes[i];
      if x in HashesOf(votes) {
        var i :| 0 <= i < |votes| && VoteHash(votes[i]) == x;
        if i < last {
          assert VoteHash(votes[..last][i]) == x;
        }
      }
      if x in HashesOf(votes[..last]) {
        var i :| 0 <= i < last && VoteHash(votes[..last][i]) == x;
        assert VoteHash(votes[i]) == x;
      }
    }
  }

  lemma RemovedKeepsInv(s: State, h: Hash)
    requires Inv(s) && h in s.locks
    ensures Inv(Removed(s, h))
  {
    forall x | x in s.votes && x !in HashesOf(s.locks[h].votes) ensures x in Removed(s, h).votes {
      WithoutHas(s.votes, s.locks[h].votes, x);
    }
    DropLockKeepsInv(s, Removed(s, h), h);
  }

  lemma {:induction false} CleanToKeepsInv(s: State, order: seq<Hash>, now: int, n: nat)
    requires Inv(s) && n <= |order|
    ensures Inv(CleanTo(s, order, now, n))
  {
    if n > 0 {
      CleanToKeepsInv(s, order, now, n - 1);
      var t, h := CleanTo(s, order, now, n - 1), order[n - 1];
      if h in t.locks {
        RemovedKeepsInv(t, h);
      }
    }
  }

  // ---------------------------------------------------------------- runs

  datatype Event =
    | Request(tx: LockTx, valid: bool, ages: seq<int>, best: int, requestTime: int, accepted: bool, own: Option<Vote>)
    | Voted(vote: Vote, rank: int, signed: bool, voteTime: int)
    | Clean(cleanTime: int)

  function Step(s: State, e: Event): State {
    match e
    case Request(tx, valid, ages, best, now, accepted, own) => RequestStep(s, tx, valid, ages, best, now, accepted, own)
    case Voted(v, rank, signed, now) => VoteStep(s, v, rank, signed, now)
    case Clean(now) => Cleaned(s, now)
  }

  function Run(events: seq<Event>): State {
    if events == [] then EMPTY else Step(Run(events[..|events| - 1]), events[|events| - 1])
  }

  lemma StepKeepsInv(s: State, e: Event)
    requires Inv(s)
    ensures Inv(Step(s, e))
  {
    match e
    case Request(tx, valid, ages, best, now, accepted, own) =>
      RequestSameVotes(s, tx, valid, ages, best, now, accepted, own);
      SameVotesKeepInv(s, Step(s, e));
    case Voted(v, rank, signed, now) => VoteStepKeepsInv(s, v, rank, signed, now);
    case Clean(now) => CleanToKeepsInv(s, Ascending(s.locks.Keys), now, |Ascending(s.locks.Keys)|);
  }

  /** The invariant holds in every reachable state. */
  lemma {:induction false} RunKeepsInv(events: seq<Event>)
    ensures Inv(Run(events))
  {
    if events != [] {
      RunKeepsInv(events[..|events| - 1]);
      StepKeepsInv(Run(events[..|events| - 1]), events[|events| - 1]);
    }
  }

  /** A vote message of the run that passed the rank and signature tests. */
  ghost predicate PassedIn(events: seq<Event>, v: Vote) {
    exists j :: 0 <= j < |events| && PassedAt(events[j], v)
  }

  predicate PassedAt(e: Event, v: Vote) {
    e.Voted? && e.vote == v && Passes(e.rank, e.signed)
  }

  /** Where the votes of a lock after a step come from. */
  lemma StepVotes(s: State, e: Event, h: Hash, i: nat)
    requires Inv(s) && HasVote(Step(s, e), h, i)
    ensures (HasVote(s, h, i) && Step(s, e).locks[h].votes[i] == s.locks[h].votes[i])
      || PassedAt(e, Step(s, e).locks[h].votes[i])
  {
    match e
    case Request(tx, valid, ages, best, now, accepted, own) =>
      RequestSameVotes(s, tx, valid, ages, best, now, accepted, own);
    case Voted(v, rank, signed, now) =>
      VoteStepVotes(s, v, rank, signed, now, h, i);
    case Clean(now) =>
      CleanToVotes(s, Ascending(s.locks.Keys), now, |Ascending(s.locks.Keys)|, h);
  }

  lemma VoteStepVotes(s: State, v: Vote, rank: int, signed: bool, now: int, h: Hash, i: nat)
    requires Inv(s) && HasVote(VoteStep(s, v, rank, signed, now), h, i)
    ensures var w := VoteStep(s, v, rank, signed, now).locks[h].votes[i];
            (HasVote(s, h, i) && w == s.locks[h].votes[i]) || (w == v && Passes(rank, signed))
  {
    if VoteHash(v) !in s.votes && Passes(rank, signed) {
      var t := s.(votes := s.votes[VoteHash(v) := v]);
      var u := if v.txHash in t.locks then t else t.(locks := t.locks[v.txHash := NewLock(v.txHash, 0, now)]);
      CompletedVotes(WithVote(u, v), v.txHash, now, h);
    }
  }

  lemma CompletedVotes(s: State, id: Hash, now: int, h: Hash)
    requires h in Completed(s, id, now).locks
    ensures h in s.locks && Completed(s, id, now).locks[h].votes == s.locks[h].votes
  {
  }

  lemma {:induction false} CleanToVotes(s: State, order: seq<Hash>, now: int, n: nat, h: Hash)
    requires n <= |order| && h in CleanTo(s, order, now, n).locks
    ensures h in s.locks && CleanTo(s, order, now, n).locks[h] == s.locks[h]
  {
    if n > 0 {
      CleanToVotes(s, order, now, n - 1, h);
    }
  }

  /** Every vote of a live lock was checked for rank and signature when it was added. */
  lemma {:induction false} VotesWereChecked(events: seq<Event>, h: Hash, i: nat)
    requires HasVote(Run(events), h, i)
    ensures PassedIn(events, Run(events).locks[h].votes[i])
  {
    if events != [] {
      var front, e := events[..|events| - 1], events[|events| - 1];
      var v := Run(events).locks[h].votes[i];
      RunKeepsInv(front);
      StepVotes(Run(front), e, h, i);
      if !PassedAt(e, v) {
        VotesWereChecked(front, h, i);
        var j :| 0 <= j < |front| && PassedAt(front[j], v);
        assert PassedAt(events[j], v);
      }
    }
  }

  // ---------------------------------------------------------------- what completing a lock means

  /** An input that is locked for another transaction. */
  predicate Conflicts(inputs: map<OutPoint, Hash>, tx: LockTx, i: nat) {
    i < |tx.spends| && tx.spends[i] in inputs && inputs[tx.spends[i]] != tx.txid
  }

  lemma {:induction false} FirstConflictIs(inputs: map<OutPoint, Hash>, tx: LockTx, from: nat)
    requires from <= |tx.spends|
    ensures var i := FirstConflict(inputs, tx, from);
            && (i < |tx.spends| ==> Conflicts(inputs, tx, i))
            && forall j :: from <= j < i ==> !Conflicts(inputs, tx, j)
    decreases |tx.spends| - from
  {
    if from < |tx.spends| {
      FirstConflictIs(inputs, tx, from + 1);
    }
  }

  /** Locking touches the inputs that are not locked yet, and nothing else. */
  lemma {:induction false} LockToIs(inputs: map<OutPoint, Hash>, spends: seq<OutPoint>, h: Hash, n: nat, o: OutPoint)
    requires n <= |spends|
    ensures var m := LockTo(inputs, spends, h, n);
            if o in inputs then o in m && m[o] == inputs[o]
            else if o in spends[..n] then o in m && m[o] == h
            else o !in m
  {
    if n > 0 {
      LockToIs(inputs, spends, h, n - 1, o);
      assert spends[..n] == spends[..n - 1] + [spends[n - 1]];
    }
  }

  /** Requests lie under their own hash; an entry made up by operator[] spends nothing. */
  ghost predicate RequestsOk(s: State) {
    forall h :: h in s.requests ==> s.requests[h].txid == h || s.requests[h] == BLANK
  }

  /** Without a conflict, completing a lock leaves every input of the requested transaction locked for it,
      and changes nothing else. */
  lemma CompletedLocksInputs(s: State, h: Hash, now: int)
    requires RequestsOk(s) && h in s.requests
    requires forall i: nat :: !Conflicts(s.inputs, s.requests[h], i)
    ensures var t, spends := Completed(s, h, now), s.requests[h].spends;
            && t == s.(inputs := t.inputs)
            && (forall i :: 0 <= i < |spends| ==> spends[i] in t.inputs && t.inputs[spends[i]] == h)
            && (forall o :: o !in spends ==> (o in t.inputs <==> o in s.inputs))
            && (forall o :: o in s.inputs ==> o in t.inputs && t.inputs[o] == s.inputs[o])
  {
    var tx, t := s.requests[h], Completed(s, h, now);
    FirstConflictIs(s.inputs, tx, 0);
    assert tx.spends[..|tx.spends|] == tx.spends;
    forall i | 0 <= i < |tx.spends| ensures tx.spends[i] in t.inputs && t.inputs[tx.spends[i]] == h {
      assert !Conflicts(s.inputs, tx, i);
      LockToIs(s.inputs, tx.spends, h, |tx.spends|, tx.spends[i]);
    }
    forall o ensures o !in tx.spends ==> (o in t.inputs <==> o in s.inputs) {
      LockToIs(s.inputs, tx.spends, h, |tx.spends|, o);
    }
    forall o | o in s.inputs ensures o in t.inputs && t.inputs[o] == s.inputs[o] {
      LockToIs(s.inputs, tx.spends, h, |tx.spends|, o);
    }
  }

  /** With a conflict, the lock of the transaction and that of the first rival expire now, if they are
      live, and nothing else changes; in particular no input is locked. */
  lemma ConflictExpiresBoth(s: State, tx: LockTx, now: int, i: nat)
    requires Conflicts(s.inputs, tx, i) && forall j: nat :: j < i ==> !Conflicts(s.inputs, tx, j)
    ensures var t, rival := Cancelled(s, tx, now), s.inputs[tx.spends[i]];
            && t == s.(locks := t.locks) && t.locks.Keys == s.locks.Keys && rival != tx.txid
            && forall h :: h in s.locks ==>
                 t.locks[h] == if h == tx.txid || h == rival then s.locks[h].(expiration := now) else s.locks[h]
    ensures forall h :: h in s.requests && s.requests[h] == tx ==> Completed(s, h, now) == Cancelled(s, tx, now)
  {
    FirstConflictIs(s.inputs, tx, 0);
    assert FirstConflict(s.inputs, tx, 0) == i;
  }

  lemma {:induction false} CleanToRequests(s: State, order: seq<Hash>, now: int, n: nat)
    requires RequestsOk(s) && n <= |order|
    ensures RequestsOk(CleanTo(s, order, now, n))
  {
    if n > 0 {
      CleanToRequests(s, order, now, n - 1);
    }
  }

  lemma StepKeepsRequests(s: State, e: Event)
    requires RequestsOk(s)
    ensures RequestsOk(Step(s, e))
  {
    match e
    case Request(_, _, _, _, _, _, _) =>
    case Voted(_, _, _, _) =>
    case Clean(now) => CleanToRequests(s, Ascending(s.locks.Keys), now, |Ascending(s.locks.Keys)|);
  }

  /** So in every reachable state a lock that completes without a conflict locks all inputs of its request. */
  lemma {:induction false} RunKeepsRequests(events: seq<Event>)
    ensures RequestsOk(Run(events))
  {
    if events != [] {
      RunKeepsRequests(events[..|events| - 1]);
      StepKeepsRequests(Run(events[..|events| - 1]), events[|events| - 1]);
    }
  }

  // ---------------------------------------------------------------- which votes are counted

  /** The vote has joined the lock of its transaction. */
  ghost predicate Joins(s: State, t: State, v: Vote) {
    v.txHash in t.locks && t.locks[v.txHash].votes == VotesOf(s, v.txHash) + [v]
  }

  /** A vote is counted exactly if it passes the tests and no vote with its hash is stored yet; otherwise
      the locks stay as they are. */
  lemma CountedExactly(s: State, v: Vote, rank: int, signed: bool, now: int)
    requires Inv(s)
    ensures var t := VoteStep(s, v, rank, signed, now);
            && (Joins(s, t, v) <==> VoteHash(v) !in s.votes && Passes(rank, signed))
            && (!Joins(s, t, v) ==> t.locks == s.locks)
  {
    if VoteHash(v) !in s.votes && Passes(rank, signed) {
      var t := s.(votes := s.votes[VoteHash(v) := v]);
      var u := if v.txHash in t.locks then t else t.(locks := t.locks[v.txHash := NewLock(v.txHash, 0, now)]);
      CompletedKeepsVotes(WithVote(u, v), v.txHash, now, v.txHash);
    }
  }

  lemma CompletedKeepsVotes(s: State, id: Hash, now: int, h: Hash)
    requires h in s.locks
    ensures h in Completed(s, id, now).locks && Completed(s, id, now).locks[h].votes == s.locks[h].votes
  {
  }

  /** Votes are stored before they are tested, and the hash covers neither height nor signature. So a vote
      that fails the tests keeps out the one of the same masternode that would pass. */
  lemma FailedVoteKeepsOut(s: State, failed: Vote, v: Vote, rank: int, signed: bool, now: int)
    requires Inv(s) && VoteHash(v) !in s.votes && failed.masternode == v.masternode && failed.txHash == v.txHash
    requires Passes(rank, signed)
    ensures Joins(s, VoteStep(s, v, rank, signed, now), v)
    ensures var t := VoteStep(s, failed, rank, false, now);
            t.locks == s.locks && VoteStep(t, v, rank, signed, now).locks == s.locks
  {
    CountedExactly(s, v, rank, signed, now);
  }

  // ---------------------------------------------------------------- the handlers

  /** The vote of this node, if it is a masternode among the first four and can sign. */
  function OwnVote(h: Hash, height: int, masternode: Option<OutPoint>, rank: int,
                   signature: Option<seq<int>>): Option<Vote> {
    if masternode.Some? && Passes(rank, signature.Some?) then Some(Vote(masternode.value, h, height, signature.value))
      else None
  }

  method LockInputs(inputs: map<OutPoint, Hash>, spends: seq<OutPoint>, h: Hash) returns (r: map<OutPoint, Hash>)
    ensures r == LockTo(inputs, spends, h, |spends|)
  {
    r := inputs;
    for i := 0 to |spends|
      invariant r == LockTo(inputs, spends, h, i)
    {
      if spends[i] !in r {
        r := r[spends[i] := h];
      }
    }
  }

  method EraseVotes(m: map<Hash, Vote>, votes: seq<Vote>) returns (r: map<Hash, Vote>)
    ensures r == Without(m, votes)
  {
    r := m;
    for i := 0 to |votes|
      invariant r == Without(m, votes[..i])
    {
      assert votes[..i + 1][..i] == votes[..i];
      r := r - {VoteHash(votes[i])};
    }
    assert votes[..|votes|] == votes;
  }

  method EraseInputs(inputs: map<OutPoint, Hash>, spends: seq<OutPoint>) returns (r: map<OutPoint, Hash>)
    ensures r == Unlocked(inputs, spends)
  {
    r := inputs;
    for i := 0 to |spends|
      invariant r == Unlocked(inputs, spends[..i])
    {
      assert spends[..i + 1][..i] == spends[..i];
      r := r - {spends[i]};
    }
    assert spends[..|spends|] == spends;
  }

  /** The loop over the inputs of CreateNewLock, from the last one back; it ends with the first one. */
  method InputAge(ages: seq<int>) returns (ok: bool, age: int)
    ensures ok <==> !TooNew(ages)
    ensures ok ==> age == if ages == [] then 0 else ages[0]
  {
    age := 0;
    var i := |ages|;
    while i > 0
      invariant 0 <= i <= |ages| && (forall j :: i <= j < |ages| ==> ages[j] >= MIN_INPUT_AGE)
      invariant age == if i < |ages| then ages[i] else 0
    {
      i := i - 1;
      age := ages[i];
      if age < MIN_INPUT_AGE { return false, age; }
    }
    ok := true;
  }

  class LockTable {
    var requests: map<Hash, LockTx>
    var rejected: map<Hash, LockTx>
    var votes: map<Hash, Vote>
    var locks: map<Hash, Lock>
    var inputs: map<OutPoint, Hash>

    ghost function Now(): State
      reads this
    {
      State(requests, rejected, votes, locks, inputs)
    }

    constructor ()
      ensures Now() == EMPTY && Inv(Now())
    {
      requests, rejected, votes, locks, inputs := map[], map[], map[], map[], map[];
    }

    /** CreateNewLock. */
    method CreateNewLock(h: Hash, ages: seq<int>, best: int, now: int) returns (height: int)
      modifies this`locks
      ensures Now() == Opened(old(Now()), h, ages, best, now)
      ensures height == if TooNew(ages) then 0 else LockHeight(ages, best)
    {
      var ok, age := InputAge(ages);
      if !ok { return 0; }
      height := best - age + 4;
      if h !in locks {
        locks := locks[h := NewLock(h, height, now)];
      } else {
        locks := locks[h := locks[h].(height := height)];
      }
    }

    /** CheckForConflictingLocks. */
    method CheckForConflictingLocks(tx: LockTx, now: int) returns (found: bool)
      modifies this`locks
      ensures Now() == Cancelled(old(Now()), tx, now)
      ensures found <==> FirstConflict(inputs, tx, 0) < |tx.spends|
    {
      var i := 0;
      while i < |tx.spends|
        invariant i <= |tx.spends| && FirstConflict(inputs, tx, i) == FirstConflict(inputs, tx, 0)
          && locks == old(locks)
      {
        var o := tx.spends[i];
        if o in inputs && inputs[o] != tx.txid {
          if tx.txid in locks { locks := locks[tx.txid := locks[tx.txid].(expiration := now)]; }
          if inputs[o] in locks { locks := locks[inputs[o] := locks[inputs[o]].(expiration := now)]; }
          return true;
        }
        i := i + 1;
      }
      found := false;
    }

    /** DoConsensusVote: the vote is stored but not counted. */
    method DoConsensusVote(h: Hash, height: int, masternode: Option<OutPoint>, rank: int, signature: Option<seq<int>>)
      modifies this`votes
      ensures var own := OwnVote(h, height, masternode, rank, signature);
              votes == if own.Some? then old(votes)[VoteHash(own.value) := own.value] else old(votes)
    {
      if masternode.None? { return; }
      if rank == -1 || rank > SIGNATURES_TOTAL { return; }
      if signature.None? { return; }
      var v := Vote(masternode.value, h, height, signature.value);
      votes := votes[VoteHash(v) := v];
    }

    /** The message "txlreq". */
    method ProcessRequest(tx: LockTx, valid: bool, ages: seq<int>, best: int, now: int, accepted: bool,
                          masternode: Option<OutPoint>, rank: int, signature: Option<seq<int>>)
      modifies this
      ensures var height := if TooNew(ages) then 0 else LockHeight(ages, best);
              Now() == Step(old(Now()),
                Request(tx, valid, ages, best, now, accepted, OwnVote(tx.txid, height, masternode, rank, signature)))
      ensures Inv(old(Now())) ==> Inv(Now())
    {
      ghost var s := Now();
      ghost var height0 := if TooNew(ages) then 0 else LockHeight(ages, best);
      ghost var e := Request(tx, valid, ages, best, now, accepted,
        OwnVote(tx.txid, height0, masternode, rank, signature));
      if Inv(s) { StepKeepsInv(s, e); }
      if tx.txid in requests || tx.txid in rejected { return; }
      if !valid { return; }
      var height := CreateNewLock(tx.txid, ages, best, now);
      if accepted {
        DoConsensusVote(tx.txid, height, masternode, rank, signature);
        requests := requests[tx.txid := tx];
      } else {
        Reject(tx, now);
      }
      assert Now() == Step(s, e);
    }

    method Reject(tx: LockTx, now: int)
      modifies this`rejected, this`inputs, this`locks
      ensures Now() == Rejected(old(Now()), tx, now)
    {
      rejected := rejected[tx.txid := tx];
      inputs := LockInputs(inputs, tx.spends, tx.txid);
      if tx.txid in locks {
        var n := CountSignatures(locks[tx.txid]);
        if n >= SIGNATURES_REQUIRED {
          var found := CheckForConflictingLocks(tx, now);
        }
      }
    }

    /** ProcessConsensusVote: false means that the vote was not counted. */
    method ProcessConsensusVote(v: Vote, rank: int, signed: bool, now: int) returns (ok: bool)
      modifies this`locks, this`requests, this`inputs
      ensures ok <==> Passes(rank, signed)
      ensures Now() == if ok then Counted(old(Now()), v, now) else old(Now())
    {
      if rank == -1 { return false; }
      if rank > SIGNATURES_TOTAL { return false; }
      if !signed { return false; }
      if v.txHash !in locks {
        locks := locks[v.txHash := NewLock(v.txHash, 0, now)];
      }
      locks := locks[v.txHash := locks[v.txHash].(votes := locks[v.txHash].votes + [v])];
      ghost var u := Now();
      var n := CountSignatures(locks[v.txHash]);
      if n >= SIGNATURES_REQUIRED {
        Complete(v.txHash, now);
      }
      return true;
    }

    method Complete(h: Hash, now: int)
      modifies this`locks, this`requests, this`inputs
      ensures Now() == Completed(old(Now()), h, now)
    {
      if h !in requests {
        requests := requests[h := BLANK];
      }
      var tx := requests[h];
      var found := CheckForConflictingLocks(tx, now);
      if !found {
        inputs := LockInputs(inputs, tx.spends, h);
      }
    }

    /** The message "txlvote". */
    method ProcessVote(v: Vote, rank: int, signed: bool, now: int)
      modifies this
      ensures Now() == Step(old(Now()), Voted(v, rank, signed, now))
      ensures Inv(old(Now())) ==> Inv(Now())
    {
      ghost var s := Now();
      if Inv(s) { StepKeepsInv(s, Voted(v, rank, signed, now)); }
      if VoteHash(v) in votes { return; }
      votes := votes[VoteHash(v) := v];
      var counted := ProcessConsensusVote(v, rank, signed, now);
      assert Now() == VoteStep(s, v, rank, signed, now);
    }

    /** CleanTransactionLocksList. */
    method CleanTransactionLocksList(now: int)
      modifies this
      ensures Now() == Step(old(Now()), Clean(now))
      ensures Inv(old(Now())) ==> Inv(Now())
    {
      ghost var s := Now();
      if Inv(s) { StepKeepsInv(s, Clean(now)); }
      var order := Ascending(locks.Keys);
      var i := 0;
      while i < |order|
        invariant i <= |order| && Now() == CleanTo(s, order, now, i)
      {
        var h := order[i];
        if h in locks && now > locks[h].expiration {
          RemoveLock(h);
        }
        i := i + 1;
      }
    }

    method RemoveLock(h: Hash)
      requires h in locks
      modifies this
      ensures Now() == Removed(old(Now()), h)
    {
      var id := locks[h].txHash;
      if id in requests {
        inputs := EraseInputs(inputs, requests[id].spends);
        requests := requests - {id};
        rejected := rejected - {id};
        votes := EraseVotes(votes, locks[h].votes);
      }
      locks := locks - {h};
    }
  }
}
