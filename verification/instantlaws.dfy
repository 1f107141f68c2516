/** What the messages of InstantX achieve (src/instantx.cpp), said of votes, inputs, requests and expirations
    themselves: when votes lock the inputs of a transaction, and what a clean-up releases. */
module InstantLaws {
  import opened Transactions
  import opened Ordering
  import opened InstantX

  // ---------------------------------------------------------------- counting

  /** The positions of the votes for the height of the lock. */
  function Counting(lock: Lock, n: nat): set<nat>
    requires n <= |lock.votes|
  {
    set i: nat | i < n && lock.votes[i].height == lock.height
  }

  lemma {:induction false} CountIs(lock: Lock, n: nat)
    requires n <= |lock.votes|
    ensures CountTo(lock, n) == |Counting(lock, n)|
  {
    if n > 0 {
      CountIs(lock, n - 1);
      CountNext(lock, n - 1);
    } else {
      assert Counting(lock, 0) == {};
    }
  }

  lemma CountNext(lock: Lock, n: nat)
    requires n < |lock.votes|
    ensures |Counting(lock, n + 1)| == |Counting(lock, n)| + if lock.votes[n].height == lock.height then 1 else 0
  {
    var more := Counting(lock, n);
    if lock.votes[n].height == lock.height {
      assert Counting(lock, n + 1) == more + {n} && n !in more;
    } else {
      assert Counting(lock, n + 1) == more;
    }
  }

  /** Two of the votes are for the height of the lock, which is known. */
  ghost predicate Enough(lock: Lock) {
    lock.height != 0 && |Counting(lock, |lock.votes|)| >= 2
  }

  /** The lock of a transaction once a vote has joined it: a new one has no height yet, lives for twenty minutes
      and times out after five. */
  ghost function Joined(s: State, v: Vote, now: int): Lock {
    if v.txHash in s.locks then s.locks[v.txHash].(votes := s.locks[v.txHash].votes + [v])
    else Lock(v.txHash, 0, [v], now + 1200, now + 300)
  }

  lemma JoinedIs(s: State, v: Vote, now: int)
    ensures var t := if v.txHash in s.locks then s else s.(locks := s.locks[v.txHash := NewLock(v.txHash, 0, now)]);
            WithVote(t, v) == s.(locks := s.locks[v.txHash := Joined(s, v, now)])
    ensures Signatures(Joined(s, v, now)) >= 2 <==> Enough(Joined(s, v, now))
  {
    var lock := Joined(s, v, now);
    CountIs(lock, |lock.votes|);
    assert v.txHash !in s.locks ==> [] + [v] == [v];
  }

  /** Votes are told apart by the sum of outpoint and transaction alone: two outpoints with one sum clash. */
  lemma HashesClash(v: Vote, w: Vote)
    ensures VoteHash(v) == VoteHash(w) <==>
      (v.masternode.hash + v.masternode.n + v.txHash - w.masternode.hash - w.masternode.n - w.txHash) % HASH_RANGE == 0
  {
    SameRemainder(v.masternode.hash + v.masternode.n + v.txHash, w.masternode.hash + w.masternode.n + w.txHash,
      HASH_RANGE);
  }

  lemma SameRemainder(a: int, b: int, m: int)
    requires m > 0
    ensures a % m == b % m <==> (a - b) % m == 0
  {
    var q, r := a / m, b / m;
    assert a - b == m * (q - r) + (a % m - b % m);
    if a % m == b % m {
      Multiple(q - r, m);
    } else if (a - b) % m == 0 {
      var k := (a - b) / m - (q - r);
      assert m * k == a % m - b % m;
      assert k == 0 by { SmallMultiple(k, m); }
    }
  }

  lemma Multiple(k: int, m: int)
    requires m > 0
    ensures (m * k) % m == 0
  {
    assert m * k == m * k + 0;
    var q, r := (m * k) / m, (m * k) % m;
    assert m * (k - q) == r;
    SmallMultiple(k - q, m);
  }

  lemma SmallMultiple(k: int, m: int)
    requires m > 0 && -m < m * k < m
    ensures k == 0
  {
    LargeMultiple(k, m);
  }

  lemma LargeMultiple(k: int, m: int)
    requires m > 0
    ensures (k >= 1 ==> m * k >= m) && (k <= -1 ==> m * k <= -m)
  {
  }

  // ---------------------------------------------------------------- when votes lock inputs

  /** The vote counts: its hash is new, and it comes from one of the first four masternodes and is signed. */
  ghost predicate Counts(s: State, v: Vote, rank: int, signed: bool) {
    VoteHash(v) !in s.votes && rank != -1 && rank <= 4 && signed
  }

  /** The vote is stored and joins its lock; nothing else changes but what `locks`, `inputs` and `requests` say. */
  lemma VoteJoins(s: State, v: Vote, rank: int, signed: bool, now: int)
    requires Counts(s, v, rank, signed)
    ensures var u := s.(votes := s.votes[VoteHash(v) := v], locks := s.locks[v.txHash := Joined(s, v, now)]);
            VoteStep(s, v, rank, signed, now)
            == if Enough(Joined(s, v, now)) then Completed(u, v.txHash, now) else u
  {
    var t := s.(votes := s.votes[VoteHash(v) := v]);
    JoinedIs(t, v, now);
    assert Joined(t, v, now) == Joined(s, v, now);
  }

  /** A vote that does not count changes no lock, input or request. */
  lemma VoteIgnored(s: State, v: Vote, rank: int, signed: bool, now: int)
    requires !Counts(s, v, rank, signed)
    ensures VoteStep(s, v, rank, signed, now)
            == if VoteHash(v) in s.votes then s else s.(votes := s.votes[VoteHash(v) := v])
  {
  }

  /** Below two signatures the vote joins the lock, and inputs, requests and expirations stay. */
  lemma TooFewVotes(s: State, v: Vote, rank: int, signed: bool, now: int)
    requires Counts(s, v, rank, signed) && !Enough(Joined(s, v, now))
    ensures VoteStep(s, v, rank, signed, now)
            == s.(votes := s.votes[VoteHash(v) := v], locks := s.locks[v.txHash := Joined(s, v, now)])
  {
    VoteJoins(s, v, rank, signed, now);
  }

  /** Input `i` of the request is locked for another transaction. */
  ghost predicate LockedForRival(s: State, h: Hash, i: nat)
    requires h in s.requests
  {
    && i < |s.requests[h].spends|
    && s.requests[h].spends[i] in s.inputs && s.inputs[s.requests[h].spends[i]] != h
  }

  /** With two signatures, and no input locked for another transaction, every input of the request is locked for it.
      The vote joins the lock, and all else stays. */
  lemma VotesLockInputs(s: State, v: Vote, rank: int, signed: bool, now: int)
    requires RequestsOk(s) && Counts(s, v, rank, signed) && Enough(Joined(s, v, now)) && v.txHash in s.requests
    requires forall i: nat :: !LockedForRival(s, v.txHash, i)
    ensures var t, spends := VoteStep(s, v, rank, signed, now), s.requests[v.txHash].spends;
            && t == s.(votes := s.votes[VoteHash(v) := v], locks := s.locks[v.txHash := Joined(s, v, now)],
                       inputs := t.inputs)
            && t.inputs.Keys == s.inputs.Keys + (set o | o in spends)
            && forall o :: o in t.inputs ==> t.inputs[o] == if o in spends then v.txHash else s.inputs[o]
  {
    VoteJoins(s, v, rank, signed, now);
    var u := s.(votes := s.votes[VoteHash(v) := v], locks := s.locks[v.txHash := Joined(s, v, now)]);
    forall i: nat ensures !Conflicts(u.inputs, u.requests[v.txHash], i) {
      assert !LockedForRival(s, v.txHash, i);
      assert s.requests[v.txHash].txid == v.txHash || s.requests[v.txHash] == BLANK;
    }
    CompletedLocksInputs(u, v.txHash, now);
    LockedAre(u, v.txHash, now);
  }

  lemma LockedAre(s: State, h: Hash, now: int)
    requires h in s.requests && forall i: nat :: !LockedForRival(s, h, i)
    requires var t, spends := Completed(s, h, now), s.requests[h].spends;
             && (forall i :: 0 <= i < |spends| ==> spends[i] in t.inputs && t.inputs[spends[i]] == h)
             && (forall o :: o !in spends ==> (o in t.inputs <==> o in s.inputs))
             && (forall o :: o in s.inputs ==> o in t.inputs && t.inputs[o] == s.inputs[o])
    ensures var t, spends := Completed(s, h, now), s.requests[h].spends;
            && t.inputs.Keys == s.inputs.Keys + (set o | o in spends)
            && forall o :: o in t.inputs ==> t.inputs[o] == if o in spends then h else s.inputs[o]
  {
    var t, spends := Completed(s, h, now), s.requests[h].spends;
    forall o ensures o in t.inputs <==> o in s.inputs || o in spends {
      if o in spends {
        var i :| 0 <= i < |spends| && spends[i] == o;
        assert spends[i] in t.inputs;
      }
    }
  }

  /** With two signatures and a rival, the first of its inputs that is locked for another transaction makes both
      locks expire now, the rival's if it is live. The vote joins the lock, and all else stays. */
  lemma VotesMeetRival(s: State, v: Vote, rank: int, signed: bool, now: int, i: nat)
    requires RequestsOk(s) && Counts(s, v, rank, signed) && Enough(Joined(s, v, now)) && v.txHash in s.requests
    requires LockedForRival(s, v.txHash, i) && forall j: nat :: j < i ==> !LockedForRival(s, v.txHash, j)
    ensures var t, rival := VoteStep(s, v, rank, signed, now), s.inputs[s.requests[v.txHash].spends[i]];
            && t == s.(votes := s.votes[VoteHash(v) := v], locks := t.locks)
            && t.locks.Keys == s.locks.Keys + {v.txHash} && rival != v.txHash
            && t.locks[v.txHash] == Joined(s, v, now).(expiration := now)
            && forall h :: h in s.locks && h != v.txHash ==>
                 t.locks[h] == if h == rival then s.locks[h].(expiration := now) else s.locks[h]
  {
    VoteJoins(s, v, rank, signed, now);
    var u := s.(votes := s.votes[VoteHash(v) := v], locks := s.locks[v.txHash := Joined(s, v, now)]);
    var tx := s.requests[v.txHash];
    assert tx.txid == v.txHash || tx == BLANK;
    assert Conflicts(u.inputs, tx, i);
    forall j: nat | j < i ensures !Conflicts(u.inputs, tx, j) {
      assert !LockedForRival(s, v.txHash, j);
    }
    ConflictExpiresBoth(u, tx, now, i);
    assert Completed(u, v.txHash, now) == Cancelled(u, tx, now);
  }

  /** With two signatures for a transaction that nobody requested, an empty request is made up, and no input is
      locked. */
  lemma VotesWithoutRequest(s: State, v: Vote, rank: int, signed: bool, now: int)
    requires Counts(s, v, rank, signed) && Enough(Joined(s, v, now)) && v.txHash !in s.requests
    ensures VoteStep(s, v, rank, signed, now)
            == s.(votes := s.votes[VoteHash(v) := v], locks := s.locks[v.txHash := Joined(s, v, now)],
                  requests := s.requests[v.txHash := LockTx(0, [])])
  {
    VoteJoins(s, v, rank, signed, now);
  }

  /** So in every run: a vote that counts and is the second or a later one for the height of the lock locks every
      input of the request, if none is locked for another transaction. */
  lemma RunLocksInputs(events: seq<Event>, v: Vote, rank: int, signed: bool, now: int)
    requires var s := Run(events);
             && Counts(s, v, rank, signed) && Enough(Joined(s, v, now)) && v.txHash in s.requests
             && forall i: nat :: !LockedForRival(s, v.txHash, i)
    ensures var s, t := Run(events), Run(events + [Voted(v, rank, signed, now)]);
            && (forall o :: o in s.requests[v.txHash].spends ==> o in t.inputs && t.inputs[o] == v.txHash)
            && (forall o :: o !in s.requests[v.txHash].spends ==> (o in t.inputs <==> o in s.inputs))
            && forall o :: o in s.inputs ==> o in t.inputs && t.inputs[o] == s.inputs[o]
  {
    var s, e := Run(events), Voted(v, rank, signed, now);
    RunKeepsRequests(events);
    VotesLockInputs(s, v, rank, signed, now);
    RunNext(events, e);
    NoRivalSame(s, v.txHash);
  }

  lemma RunNext(events: seq<Event>, e: Event)
    ensures Run(events + [e]) == Step(Run(events), e)
  {
    assert (events + [e])[..|events|] == events;
  }

  lemma NoRivalSame(s: State, h: Hash)
    requires h in s.requests && forall i: nat :: !LockedForRival(s, h, i)
    ensures forall o :: o in s.requests[h].spends && o in s.inputs ==> s.inputs[o] == h
  {
    forall o | o in s.requests[h].spends && o in s.inputs ensures s.inputs[o] == h {
      var i :| 0 <= i < |s.requests[h].spends| && s.requests[h].spends[i] == o;
      assert !LockedForRival(s, h, i);
    }
  }

  // ---------------------------------------------------------------- what a request does

  /** A request is looked at if its transaction is neither stored nor rejected yet, and is valid. */
  ghost predicate Considered(s: State, tx: LockTx, valid: bool) {
    tx.txid !in s.requests && tx.txid !in s.rejected && valid
  }

  /** The lock after a request: if all inputs are nine blocks old, one at the height of the first input's block plus
      four, or the lock that votes made before with that height; none or the same one otherwise. */
  ghost predicate OpensLock(s: State, t: State, h: Hash, ages: seq<int>, best: int, now: int) {
    if forall i :: 0 <= i < |ages| ==> ages[i] >= 9 then
      var height := if ages == [] then best + 4 else best - ages[0] + 4;
      t.locks == s.locks[h := if h in s.locks then s.locks[h].(height := height)
                              else Lock(h, height, [], now + 1200, now + 300)]
    else t.locks == s.locks
  }

  /** An accepted request is stored, and opens the lock; of the rest only this node's own vote may be added. */
  lemma AcceptedRequest(s: State, tx: LockTx, valid: bool, ages: seq<int>, best: int, now: int, own: Option<Vote>)
    requires Considered(s, tx, valid)
    ensures var t := RequestStep(s, tx, valid, ages, best, now, true, own);
            && OpensLock(s, t, tx.txid, ages, best, now)
            && t.requests == s.requests[tx.txid := tx] && t.rejected == s.rejected && t.inputs == s.inputs
            && t.votes == match own case Some(v) => s.votes[VoteHash(v) := v] case None => s.votes
  {
  }

  /** A rejected one is kept as such, and its free inputs are locked for it. */
  lemma RejectedRequest(s: State, tx: LockTx, valid: bool, ages: seq<int>, best: int, now: int, own: Option<Vote>)
    requires Considered(s, tx, valid)
    ensures var t := RequestStep(s, tx, valid, ages, best, now, false, own);
            && t.requests == s.requests && t.rejected == s.rejected[tx.txid := tx] && t.votes == s.votes
            && LocksFree(s.inputs, t.inputs, tx)
  {
    OpenedIs(s, tx.txid, ages, best, now);
    RejectedIs(Opened(s, tx.txid, ages, best, now), tx, now);
  }

  lemma OpenedIs(s: State, h: Hash, ages: seq<int>, best: int, now: int)
    ensures var u := Opened(s, h, ages, best, now);
            OpensLock(s, u, h, ages, best, now) && u == s.(locks := u.locks)
  {
  }

  lemma CancelledIs(s: State, tx: LockTx, now: int)
    ensures Cancelled(s, tx, now) == s.(locks := Cancelled(s, tx, now).locks)
  {
  }

  lemma RejectedIs(u: State, tx: LockTx, now: int)
    ensures var t := Rejected(u, tx, now);
            && t.requests == u.requests && t.rejected == u.rejected[tx.txid := tx] && t.votes == u.votes
            && LocksFree(u.inputs, t.inputs, tx)
            && if tx.txid in u.locks && Enough(u.locks[tx.txid]) then RivalsExpire(u, t, tx, now)
               else t.locks == u.locks
  {
    var w := u.(rejected := u.rejected[tx.txid := tx], inputs := LockTo(u.inputs, tx.spends, tx.txid, |tx.spends|));
    LockToFree(u.inputs, tx);
    CancelledIs(w, tx, now);
    if tx.txid in u.locks {
      CountIs(u.locks[tx.txid], |u.locks[tx.txid].votes|);
      CancelledExpires(u, w, tx, now);
    }
  }

  ghost predicate LocksFree(inputs: map<OutPoint, Hash>, inputs': map<OutPoint, Hash>, tx: LockTx) {
    && inputs'.Keys == inputs.Keys + (set o | o in tx.spends)
    && forall o :: o in inputs' ==> inputs'[o] == if o in inputs then inputs[o] else tx.txid
  }

  lemma LockToFree(inputs: map<OutPoint, Hash>, tx: LockTx)
    ensures LocksFree(inputs, LockTo(inputs, tx.spends, tx.txid, |tx.spends|), tx)
  {
    var m := LockTo(inputs, tx.spends, tx.txid, |tx.spends|);
    assert tx.spends[..|tx.spends|] == tx.spends;
    forall o ensures if o in inputs then o in m && m[o] == inputs[o]
                     else if o in tx.spends then o in m && m[o] == tx.txid
                     else o !in m {
      LockToIs(inputs, tx.spends, tx.txid, |tx.spends|, o);
    }
  }

  /** It opens the lock too, and if that has enough votes and an input is locked for a rival, the lock and the first
      rival's expire now. */
  lemma RejectedLocks(s: State, tx: LockTx, valid: bool, ages: seq<int>, best: int, now: int, own: Option<Vote>)
    requires Considered(s, tx, valid)
    ensures var t := RequestStep(s, tx, valid, ages, best, now, false, own);
            var u := Opened(s, tx.txid, ages, best, now);
            && OpensLock(s, u, tx.txid, ages, best, now)
            && if tx.txid in u.locks && Enough(u.locks[tx.txid]) then RivalsExpire(u, t, tx, now)
               else t.locks == u.locks
  {
    OpenedIs(s, tx.txid, ages, best, now);
    RejectedIs(Opened(s, tx.txid, ages, best, now), tx, now);
  }

  lemma CancelledExpires(u: State, w: State, tx: LockTx, now: int)
    requires w.locks == u.locks && LocksFree(u.inputs, w.inputs, tx)
    ensures RivalsExpire(u, Cancelled(w, tx, now), tx, now)
  {
    SameFirstConflict(u.inputs, w.inputs, tx, 0);
    FirstConflictIs(u.inputs, tx, 0);
    forall i: nat | FirstRival(u.inputs, tx, i) ensures i == FirstConflict(u.inputs, tx, 0) {
    }
  }

  /** The locks of `t` are those of `u`, with that of the transaction and that of its first rival expired. */
  ghost predicate RivalsExpire(u: State, t: State, tx: LockTx, now: int) {
    && t.locks.Keys == u.locks.Keys
    && (forall i: nat :: FirstRival(u.inputs, tx, i) ==>
          forall h :: h in u.locks ==>
            t.locks[h] == if h == tx.txid || h == u.inputs[tx.spends[i]] then u.locks[h].(expiration := now)
                          else u.locks[h])
    && ((forall i: nat :: !Conflicts(u.inputs, tx, i)) ==> t.locks == u.locks)
  }

  ghost predicate FirstRival(inputs: map<OutPoint, Hash>, tx: LockTx, i: nat) {
    Conflicts(inputs, tx, i) && forall j: nat :: j < i ==> !Conflicts(inputs, tx, j)
  }

  lemma {:induction false} SameFirstConflict(m: map<OutPoint, Hash>, m': map<OutPoint, Hash>, tx: LockTx, from: nat)
    requires from <= |tx.spends|
    requires forall o :: o in tx.spends ==> o in m' && m'[o] == if o in m then m[o] else tx.txid
    ensures FirstConflict(m', tx, from) == FirstConflict(m, tx, from)
    decreases |tx.spends| - from
  {
    if from < |tx.spends| {
      SameFirstConflict(m, m', tx, from + 1);
    }
  }

  // ---------------------------------------------------------------- the order of request and votes

  /** A transaction of which nothing is known yet, with inputs that are old enough and free, and two votes of
      different hashes for the height at which it will be voted. */
  ghost predicate Fresh(s: State, tx: LockTx, ages: seq<int>, best: int, v: Vote, w: Vote) {
    && RequestsOk(s) && tx.txid !in s.requests && tx.txid !in s.rejected && tx.txid !in s.locks
    && (forall o :: o in tx.spends ==> o !in s.inputs)
    && ages != [] && (forall i :: 0 <= i < |ages| ==> ages[i] >= 9) && best - ages[0] + 4 != 0
    && v.txHash == w.txHash == tx.txid && v.height == w.height == best - ages[0] + 4
    && VoteHash(v) != VoteHash(w) && VoteHash(v) !in s.votes && VoteHash(w) !in s.votes
  }

  lemma OneVote(lock: Lock)
    requires |lock.votes| == 1
    ensures |Counting(lock, 1)| <= 1
  {
    assert Counting(lock, 1) <= {0};
    SubsetSize(Counting(lock, 1), {0});
  }

  lemma SubsetSize(a: set<nat>, b: set<nat>)
    requires a <= b
    ensures |a| <= |b|
  {
    assert b == a + (b - a);
  }

  lemma TwoVotes(lock: Lock)
    requires |lock.votes| == 2 && lock.votes[0].height == lock.votes[1].height == lock.height
    ensures |Counting(lock, 2)| == 2
  {
    assert Counting(lock, 2) == {0, 1};
  }

  /** Request first: the second vote locks every input. */
  lemma RequestThenVotes(s: State, tx: LockTx, ages: seq<int>, best: int, v: Vote, w: Vote, rank: int, rank': int,
                         now: int)
    requires Fresh(s, tx, ages, best, v, w) && rank != -1 && rank <= 4 && rank' != -1 && rank' <= 4
    ensures var t := RequestStep(s, tx, true, ages, best, now, true, None);
            var one := VoteStep(t, v, rank, true, now);
            var two := VoteStep(one, w, rank', true, now);
            && t.inputs == one.inputs == s.inputs
            && forall o :: o in tx.spends ==> o in two.inputs && two.inputs[o] == tx.txid
  {
    var t := RequestStep(s, tx, true, ages, best, now, true, None);
    assert t.locks[tx.txid].votes == [];
    OneVote(Joined(t, v, now));
    TooFewVotes(t, v, rank, true, now);
    var one := VoteStep(t, v, rank, true, now);
    TwoVotes(Joined(one, w, now));
    forall i: nat ensures !LockedForRival(one, tx.txid, i) {
    }
    VotesLockInputs(one, w, rank', true, now);
  }

  /** Request between the votes: so it does then. */
  lemma RequestBetweenVotes(s: State, tx: LockTx, ages: seq<int>, best: int, v: Vote, w: Vote, rank: int, rank': int,
                            now: int)
    requires Fresh(s, tx, ages, best, v, w) && rank != -1 && rank <= 4 && rank' != -1 && rank' <= 4
    ensures var one := VoteStep(s, v, rank, true, now);
            var t := RequestStep(one, tx, true, ages, best, now, true, None);
            var two := VoteStep(t, w, rank', true, now);
            && one.inputs == t.inputs == s.inputs
            && forall o :: o in tx.spends ==> o in two.inputs && two.inputs[o] == tx.txid
  {
    TooFewVotes(s, v, rank, true, now);
    var one := VoteStep(s, v, rank, true, now);
    var t := RequestStep(one, tx, true, ages, best, now, true, None);
    assert t.locks[tx.txid].votes + [w] == [v, w];
    TwoVotes(Joined(t, w, now));
    forall i: nat ensures !LockedForRival(t, tx.txid, i) {
    }
    VotesLockInputs(t, w, rank', true, now);
  }

  /** Votes first: the lock counts two signatures once the request arrives, and yet no input is locked; a request
      does not look at the votes. */
  lemma VotesThenRequest(s: State, tx: LockTx, ages: seq<int>, best: int, v: Vote, w: Vote, rank: int, rank': int,
                         now: int)
    requires Fresh(s, tx, ages, best, v, w) && rank != -1 && rank <= 4 && rank' != -1 && rank' <= 4
    ensures var one := VoteStep(s, v, rank, true, now);
            var two := VoteStep(one, w, rank', true, now);
            var t := RequestStep(two, tx, true, ages, best, now, true, None);
            && tx.txid in t.locks && Enough(t.locks[tx.txid]) && t.requests == s.requests[tx.txid := tx]
            && t.inputs == s.inputs
  {
    TooFewVotes(s, v, rank, true, now);
    var one := VoteStep(s, v, rank, true, now);
    TooFewVotes(one, w, rank', true, now);
    var two := VoteStep(one, w, rank', true, now);
    var t := RequestStep(two, tx, true, ages, best, now, true, None);
    assert two.locks[tx.txid].votes == [v] + [w];
    TwoVotes(t.locks[tx.txid]);
  }

  // ---------------------------------------------------------------- what a clean-up releases

  /** The lock is there, and expired. */
  ghost predicate Expired(s: State, now: int, h: Hash) {
    h in s.locks && now > s.locks[h].expiration
  }

  /** Something that goes with lock `h`: an input of its request, or the hash of one of its votes. */
  ghost predicate FreesInput(s: State, h: Hash, o: OutPoint) {
    h in s.requests && o in s.requests[h].spends
  }

  ghost predicate FreesVote(s: State, h: Hash, x: Hash) {
    h in s.requests && h in s.locks && x in HashesOf(s.locks[h].votes)
  }

  /** `t` is `s` without the locks in `gone`: with each that was requested its request, its inputs, whomever they
      are locked for, and its votes. */
  ghost predicate ClearedOf(s: State, t: State, gone: set<Hash>) {
    && t.locks == s.locks - gone
    && t.requests == s.requests - gone
    && (forall h :: h in t.rejected <==> h in s.rejected && !(h in gone && h in s.requests))
    && (forall h :: h in t.rejected ==> t.rejected[h] == s.rejected[h])
    && (forall o :: o in t.inputs <==> o in s.inputs && forall h :: h in gone ==> !FreesInput(s, h, o))
    && (forall o :: o in t.inputs ==> t.inputs[o] == s.inputs[o])
    && (forall x :: x in t.votes <==> x in s.votes && forall h :: h in gone ==> !FreesVote(s, h, x))
    && (forall x :: x in t.votes ==> t.votes[x] == s.votes[x])
  }

  lemma {:induction false} UnlockedHas(inputs: map<OutPoint, Hash>, spends: seq<OutPoint>, o: OutPoint)
    ensures o in Unlocked(inputs, spends) <==> o in inputs && o !in spends
    ensures o in Unlocked(inputs, spends) ==> Unlocked(inputs, spends)[o] == inputs[o]
  {
    if spends != [] {
      var last := |spends| - 1;
      UnlockedHas(inputs, spends[..last], o);
      assert spends == spends[..last] + [spends[last]];
    }
  }

  lemma {:induction false} WithoutSame(m: map<Hash, Vote>, votes: seq<Vote>, x: Hash)
    requires x in Without(m, votes)
    ensures x in m && Without(m, votes)[x] == m[x]
  {
    if votes != [] {
      WithoutSame(m, votes[..|votes| - 1], x);
    }
  }

  lemma ClearedInputs(s: State, t: State, gone: set<Hash>, h: Hash, o: OutPoint)
    requires Inv(s) && ClearedOf(s, t, gone) && h in t.locks
    ensures var u := Removed(t, h);
            && (o in u.inputs <==> o in s.inputs && forall x :: x in gone + {h} ==> !FreesInput(s, x, o))
            && (o in u.inputs ==> u.inputs[o] == s.inputs[o])
  {
    assert t.locks[h].txHash == h;
    if h in t.requests {
      UnlockedHas(t.inputs, t.requests[h].spends, o);
    }
    assert h in gone + {h};
    assert h !in gone;
    assert FreesInput(s, h, o) <==> h in t.requests && o in t.requests[h].spends;
  }

  lemma ClearedVotes(s: State, t: State, gone: set<Hash>, h: Hash, x: Hash)
    requires Inv(s) && ClearedOf(s, t, gone) && h in t.locks
    ensures var u := Removed(t, h);
            && (x in u.votes <==> x in s.votes && forall y :: y in gone + {h} ==> !FreesVote(s, y, x))
            && (x in u.votes ==> u.votes[x] == s.votes[x])
  {
    assert t.locks[h].txHash == h;
    WithoutHas(t.votes, t.locks[h].votes, x);
    if h in t.requests && x in Without(t.votes, t.locks[h].votes) {
      WithoutSame(t.votes, t.locks[h].votes, x);
    }
    assert h in gone + {h};
    assert FreesVote(s, h, x) <==> h in t.requests && x in HashesOf(t.locks[h].votes);
  }

  lemma ClearedNext(s: State, t: State, gone: set<Hash>, h: Hash)
    requires Inv(s) && ClearedOf(s, t, gone) && h in t.locks
    ensures ClearedOf(s, Removed(t, h), gone + {h})
  {
    assert t.locks[h].txHash == h;
    var u := Removed(t, h);
    forall o ensures o in u.inputs <==> o in s.inputs && forall x :: x in gone + {h} ==> !FreesInput(s, x, o) {
      ClearedInputs(s, t, gone, h, o);
    }
    forall o | o in u.inputs ensures u.inputs[o] == s.inputs[o] {
      ClearedInputs(s, t, gone, h, o);
    }
    forall x ensures x in u.votes <==> x in s.votes && forall y :: y in gone + {h} ==> !FreesVote(s, y, x) {
      ClearedVotes(s, t, gone, h, x);
    }
    forall x | x in u.votes ensures u.votes[x] == s.votes[x] {
      ClearedVotes(s, t, gone, h, x);
    }
    assert u.locks == s.locks - (gone + {h});
    assert u.requests == s.requests - (gone + {h});
  }

  ghost function GoneTo(s: State, order: seq<Hash>, now: int, n: nat): set<Hash>
    requires n <= |order|
  {
    set i | 0 <= i < n && Expired(s, now, order[i]) :: order[i]
  }

  lemma {:induction false} ClearedTo(s: State, order: seq<Hash>, now: int, n: nat)
    requires Inv(s) && n <= |order| && StrictlyAscending(order)
    ensures ClearedOf(s, CleanTo(s, order, now, n), GoneTo(s, order, now, n))
  {
    if n > 0 {
      var h, t := order[n - 1], CleanTo(s, order, now, n - 1);
      ClearedTo(s, order, now, n - 1);
      assert h !in GoneTo(s, order, now, n - 1);
      if Expired(s, now, h) {
        ClearedNext(s, t, GoneTo(s, order, now, n - 1), h);
        assert GoneTo(s, order, now, n) == GoneTo(s, order, now, n - 1) + {h};
      } else {
        assert GoneTo(s, order, now, n) == GoneTo(s, order, now, n - 1);
      }
    } else {
      assert GoneTo(s, order, now, 0) == {};
    }
  }

  /** A clean-up removes exactly the expired locks, with the request, inputs and votes of each that was requested. */
  lemma CleanedExactly(s: State, now: int)
    requires Inv(s)
    ensures ClearedOf(s, Cleaned(s, now), set h | h in s.locks && now > s.locks[h].expiration)
  {
    var order := Ascending(s.locks.Keys);
    AscendingLists(s.locks.Keys);
    ClearedTo(s, order, now, |order|);
    assert GoneTo(s, order, now, |order|) == set h | h in s.locks && now > s.locks[h].expiration;
  }

  /** So an input can be released while the lock it belongs to lives: it is, exactly if the request of some expired
      lock spends it too. */
  lemma LiveLockLosesInput(s: State, now: int, o: OutPoint)
    requires Inv(s) && o in s.inputs && s.inputs[o] in s.locks && now <= s.locks[s.inputs[o]].expiration
    ensures s.inputs[o] in Cleaned(s, now).locks
    ensures o !in Cleaned(s, now).inputs
            <==> exists h :: h in s.requests && h in s.locks && now > s.locks[h].expiration && o in s.requests[h].spends
  {
    CleanedExactly(s, now);
    var gone := set h | h in s.locks && now > s.locks[h].expiration;
    assert forall h :: h in gone ==> (FreesInput(s, h, o) <==> h in s.requests && o in s.requests[h].spends);
  }

  /** The state after two accepted requests for one input at times 0 and 1000, with votes for the second. */
  function TwoRequests(o: OutPoint, votes: seq<Vote>, stored: map<Hash, Vote>, inputs: map<OutPoint, Hash>): State {
    State(map[2 := LockTx(2, [o]), 1 := LockTx(1, [o])], map[], stored,
          map[2 := Lock(2, 95, [], 1200, 300), 1 := Lock(1, 95, votes, 2200, 1300)], inputs)
  }

  lemma RequestsMeet(o: OutPoint)
    ensures var s := RequestStep(EMPTY, LockTx(2, [o]), true, [9], 100, 0, true, None);
            RequestStep(s, LockTx(1, [o]), true, [9], 100, 1000, true, None) == TwoRequests(o, [], map[], map[])
  {
    AcceptedRequest(EMPTY, LockTx(2, [o]), true, [9], 100, 0, None);
    var s := RequestStep(EMPTY, LockTx(2, [o]), true, [9], 100, 0, true, None);
    AcceptedRequest(s, LockTx(1, [o]), true, [9], 100, 1000, None);
  }

  lemma FirstVote(o: OutPoint, v: Vote)
    requires v.txHash == 1 && v.height == 95
    ensures VoteStep(TwoRequests(o, [], map[], map[]), v, 1, true, 1000)
            == TwoRequests(o, [v], map[VoteHash(v) := v], map[])
  {
    var s := TwoRequests(o, [], map[], map[]);
    assert [] + [v] == [v];
    OneVote(Joined(s, v, 1000));
    TooFewVotes(s, v, 1, true, 1000);
  }

  lemma SecondVote(o: OutPoint, v: Vote, w: Vote)
    requires v.txHash == w.txHash == 1 && v.height == w.height == 95 && VoteHash(v) != VoteHash(w)
    ensures VoteStep(TwoRequests(o, [v], map[VoteHash(v) := v], map[]), w, 2, true, 1000)
            == TwoRequests(o, [v, w], map[VoteHash(v) := v, VoteHash(w) := w], map[o := 1])
  {
    var s := TwoRequests(o, [v], map[VoteHash(v) := v], map[]);
    assert [v] + [w] == [v, w];
    TwoVotes(Joined(s, w, 1000));
    forall i: nat ensures !LockedForRival(s, 1, i) {
    }
    VotesLockInputs(s, w, 2, true, 1000);
  }

  lemma FourSteps(d: Event, e: Event, f: Event, g: Event)
    ensures Inv(Step(Step(Step(Step(EMPTY, d), e), f), g))
  {
    StepKeepsInv(EMPTY, d);
    StepKeepsInv(Step(EMPTY, d), e);
    StepKeepsInv(Step(Step(EMPTY, d), e), f);
    StepKeepsInv(Step(Step(Step(EMPTY, d), e), f), g);
  }

  /** When the lock of the first request expires, that of the second, which has two votes, loses the input, long
      before it expires itself. */
  lemma LostInput(o: OutPoint, v: Vote, w: Vote) returns (s: State)
    requires v.txHash == w.txHash == 1 && v.height == w.height == 95 && VoteHash(v) != VoteHash(w)
    ensures s == Step(Step(Step(Step(EMPTY, Request(LockTx(2, [o]), true, [9], 100, 0, true, None)),
                                Request(LockTx(1, [o]), true, [9], 100, 1000, true, None)),
                           Voted(v, 1, true, 1000)), Voted(w, 2, true, 1000))
    ensures o in s.inputs && s.inputs[o] == 1 && 1 in s.locks && s.locks[1].expiration == 2200
    ensures o !in Cleaned(s, 1201).inputs && 1 in Cleaned(s, 1201).locks
  {
    RequestsMeet(o);
    FirstVote(o, v);
    SecondVote(o, v, w);
    s := TwoRequests(o, [v, w], map[VoteHash(v) := v, VoteHash(w) := w], map[o := 1]);
    FourSteps(Request(LockTx(2, [o]), true, [9], 100, 0, true, None),
      Request(LockTx(1, [o]), true, [9], 100, 1000, true, None), Voted(v, 1, true, 1000), Voted(w, 2, true, 1000));
    LosesInput(s, o);
  }

  lemma LosesInput(s: State, o: OutPoint)
    requires Inv(s) && o in s.inputs && s.inputs[o] == 1 && 1 in s.locks && s.locks[1].expiration == 2200
    requires 2 in s.locks && s.locks[2].expiration == 1200 && 2 in s.requests && o in s.requests[2].spends
    ensures o !in Cleaned(s, 1201).inputs && 1 in Cleaned(s, 1201).locks
  {
    LiveLockLosesInput(s, 1201, o);
  }

  // ---------------------------------------------------------------- why an input is locked

  /** A valid request of the run for transaction `h`, which spends the input, and what the memory pool said. */
  predicate Asked(e: Event, h: Hash, o: OutPoint, accepted: bool) {
    e.Request? && e.valid && e.accepted == accepted && e.tx.txid == h && o in e.tx.spends
  }

  ghost predicate AskedIn(events: seq<Event>, h: Hash, o: OutPoint, accepted: bool) {
    exists j :: 0 <= j < |events| && Asked(events[j], h, o, accepted)
  }

  /** Two different masternodes voted for the transaction at the same height, in messages that passed the tests. */
  ghost predicate TwoVoters(events: seq<Event>, h: Hash) {
    exists v, w :: PassedIn(events, v) && PassedIn(events, w) && Agree(v, w, h)
  }

  predicate Agree(v: Vote, w: Vote, h: Hash) {
    v.masternode != w.masternode && v.txHash == w.txHash == h && v.height == w.height != 0
  }

  lemma AskedLonger(events: seq<Event>, e: Event, h: Hash, o: OutPoint, accepted: bool)
    ensures AskedIn(events + [e], h, o, accepted) <==> AskedIn(events, h, o, accepted) || Asked(e, h, o, accepted)
  {
    var all := events + [e];
    if AskedIn(events, h, o, accepted) {
      var j :| 0 <= j < |events| && Asked(events[j], h, o, accepted);
      assert Asked(all[j], h, o, accepted);
    }
    if Asked(e, h, o, accepted) {
      assert all[|events|] == e;
    }
    if AskedIn(all, h, o, accepted) {
      var j :| 0 <= j < |all| && Asked(all[j], h, o, accepted);
      assert j < |events| ==> Asked(events[j], h, o, accepted);
    }
  }

  lemma PassedLonger(events: seq<Event>, e: Event, v: Vote)
    requires PassedIn(events, v)
    ensures PassedIn(events + [e], v)
  {
    var j :| 0 <= j < |events| && PassedAt(events[j], v);
    assert PassedAt((events + [e])[j], v);
  }

  lemma TwoVotersLonger(events: seq<Event>, e: Event, h: Hash)
    requires TwoVoters(events, h)
    ensures TwoVoters(events + [e], h)
  {
    var v, w :| PassedIn(events, v) && PassedIn(events, w) && Agree(v, w, h);
    PassedLonger(events, e, v);
    PassedLonger(events, e, w);
  }

  /** A request that is stored was accepted, or spends nothing. */
  lemma {:induction false} RequestsWereAsked(events: seq<Event>, h: Hash, o: OutPoint)
    requires h in Run(events).requests && o in Run(events).requests[h].spends
    ensures AskedIn(events, h, o, true)
  {
    if events != [] {
      var front, e := events[..|events| - 1], events[|events| - 1];
      assert events == front + [e];
      AskedLonger(front, e, h, o, true);
      RunKeepsInv(front);
      if !Asked(e, h, o, true) {
        RequestStays(Run(front), e, h, o);
        RequestsWereAsked(front, h, o);
      }
    }
  }

  lemma RequestStays(s: State, e: Event, h: Hash, o: OutPoint)
    requires Inv(s) && h in Step(s, e).requests && o in Step(s, e).requests[h].spends && !Asked(e, h, o, true)
    ensures h in s.requests && s.requests[h] == Step(s, e).requests[h]
  {
    match e
    case Request(tx, valid, ages, best, now, accepted, own) =>
      OpenedIs(s, tx.txid, ages, best, now);
      RejectedIs(Opened(s, tx.txid, ages, best, now), tx, now);
    case Voted(v, rank, signed, now) => MadeUp(s, v, rank, signed, now, h);
    case Clean(now) => OnlyCleared(s, now);
  }

  lemma MadeUp(s: State, v: Vote, rank: int, signed: bool, now: int, h: Hash)
    ensures var t := VoteStep(s, v, rank, signed, now);
            h in t.requests ==> t.requests[h] == BLANK || (h in s.requests && t.requests[h] == s.requests[h])
  {
  }

  lemma OnlyCleared(s: State, now: int)
    requires Inv(s)
    ensures var t := Cleaned(s, now);
            && (forall h :: h in t.requests ==> h in s.requests && t.requests[h] == s.requests[h])
            && (forall o :: o in t.inputs ==> o in s.inputs && t.inputs[o] == s.inputs[o])
  {
    CleanedExactly(s, now);
  }

  /** The step that locks an input: a rejected request, or a vote that completes the lock of a stored one. */
  ghost predicate Locks(s: State, e: Event, h: Hash, o: OutPoint) {
    || Asked(e, h, o, false)
    || (&& e.Voted? && e.vote.txHash == h && h in s.requests && o in s.requests[h].spends
        && Counts(s, e.vote, e.rank, e.signed) && Enough(Joined(s, e.vote, e.voteTime)))
  }

  lemma InputWasLocked(s: State, e: Event, o: OutPoint)
    requires Inv(s) && o in Step(s, e).inputs && !(o in s.inputs && s.inputs[o] == Step(s, e).inputs[o])
    ensures Locks(s, e, Step(s, e).inputs[o], o)
  {
    match e
    case Request(tx, valid, ages, best, now, accepted, own) =>
      LockToIs(s.inputs, tx.spends, tx.txid, |tx.spends|, o);
      assert tx.spends[..|tx.spends|] == tx.spends;
    case Voted(v, rank, signed, now) =>
      if Counts(s, v, rank, signed) {
        VoteJoins(s, v, rank, signed, now);
        VoteLocks(s, v, now, o);
      } else {
        VoteIgnored(s, v, rank, signed, now);
      }
    case Clean(now) => OnlyCleared(s, now);
  }

  lemma VoteLocks(s: State, v: Vote, now: int, o: OutPoint)
    requires var u := s.(votes := s.votes[VoteHash(v) := v], locks := s.locks[v.txHash := Joined(s, v, now)]);
             var t := Completed(u, v.txHash, now); o in t.inputs && !(o in s.inputs && s.inputs[o] == t.inputs[o])
    ensures var u := s.(votes := s.votes[VoteHash(v) := v], locks := s.locks[v.txHash := Joined(s, v, now)]);
            && v.txHash in s.requests && o in s.requests[v.txHash].spends
            && Completed(u, v.txHash, now).inputs[o] == v.txHash
  {
    var tx := if v.txHash in s.requests then s.requests[v.txHash] else BLANK;
    LockToIs(s.inputs, tx.spends, v.txHash, |tx.spends|, o);
    assert tx.spends[..|tx.spends|] == tx.spends;
  }

  /** A lock with enough votes has two of different masternodes, both checked. */
  lemma EnoughMeansTwo(events: seq<Event>, h: Hash)
    requires h in Run(events).locks && Enough(Run(events).locks[h])
    ensures TwoVoters(events, h)
  {
    var s := Run(events);
    var lock := s.locks[h];
    RunKeepsInv(events);
    var i, j := TwoOf(Counting(lock, |lock.votes|));
    DifferentVoters(s, h, i, j);
    assert VoteOk(s, h, i) && VoteOk(s, h, j);
    VotesWereChecked(events, h, i);
    VotesWereChecked(events, h, j);
    assert Agree(lock.votes[i], lock.votes[j], h);
  }

  lemma TwoOf(a: set<nat>) returns (i: nat, j: nat)
    requires |a| >= 2
    ensures i in a && j in a && i != j
  {
    i :| i in a;
    var rest := a - {i};
    assert |rest| >= 1;
    j :| j in rest;
  }

  /** In every run, an input is locked only for a transaction whose request spends it: one that the memory pool
      rejected, or one that it accepted and for which two different masternodes voted at one height. */
  lemma {:induction false} LockedInputHasCause(events: seq<Event>, o: OutPoint)
    requires o in Run(events).inputs
    ensures var h := Run(events).inputs[o];
            AskedIn(events, h, o, false) || (AskedIn(events, h, o, true) && TwoVoters(events, h))
  {
    if events != [] {
      var front, e := events[..|events| - 1], events[|events| - 1];
      assert events == front + [e];
      var s, h := Run(front), Run(events).inputs[o];
      RunKeepsInv(front);
      AskedLonger(front, e, h, o, true);
      AskedLonger(front, e, h, o, false);
      if o in s.inputs && s.inputs[o] == h {
        LockedInputHasCause(front, o);
        if TwoVoters(front, h) {
          TwoVotersLonger(front, e, h);
        }
      } else {
        InputWasLocked(s, e, o);
        if !Asked(e, h, o, false) {
          RequestsWereAsked(front, h, o);
          VoteKept(s, e);
          EnoughMeansTwo(events, h);
        }
      }
    }
  }

  lemma VoteKept(s: State, e: Event)
    requires e.Voted? && Counts(s, e.vote, e.rank, e.signed) && Enough(Joined(s, e.vote, e.voteTime))
    ensures var t := Step(s, e); e.vote.txHash in t.locks && Enough(t.locks[e.vote.txHash])
  {
    VoteJoins(s, e.vote, e.rank, e.signed, e.voteTime);
    var h, lock := e.vote.txHash, Joined(s, e.vote, e.voteTime);
    var t := Step(s, e);
    assert t.locks[h].votes == lock.votes && t.locks[h].height == lock.height;
    assert Counting(t.locks[h], |lock.votes|) == Counting(lock, |lock.votes|);
  }
}
