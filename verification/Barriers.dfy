/**
 The ack and vote rounds of the daemon in sample/mc-daemon (mc_system.c and mc_core.c): each system
 subscriber owns a bit; a round waits until the bits of all of them are set.
 */
module Barriers {
  import opened Trees
  import opened Bitmaps

  /** MC_BITMAP_SIZE and MC_CLIENT_MAX. */
  const SIZE: nat := 2
  const CLIENT_MAX: nat := SIZE * BITS

  /** struct mc_subscriber: `system` and `client` say whether its mask has the system and guard topics. */
  datatype Sub = Sub(index: nat, system: bool, client: bool)
  type Subs = map<Ptr, Sub>

  /** The synchors: their order in the array __mc_synchors. */
  const SLEEP: nat := 0
  const RESUME: nat := 1
  const REBOOT: nat := 2

  /** `wait` is the flag AF_WAIT; `signalled`: the waiter's condition was signalled while it waits. */
  datatype Synchor = Synchor(wait: bool, signalled: bool, ack: Words)
  datatype Referee = Referee(wait: bool, signalled: bool, vote: Words, approved: Words)

  // ---- subscribers and their indices ----

  /** Indices are distinct and within the bitmaps. */
  ghost predicate Indexed(subs: Subs) {
    && (forall p :: p in subs ==> subs[p].index < CLIENT_MAX)
    && (forall p, q :: p in subs && q in subs && subs[p].index == subs[q].index ==> p == q)
  }

  ghost function System(subs: Subs): set<Ptr> {
    set p | p in subs && subs[p].system
  }

  ghost function Indices(subs: Subs, who: set<Ptr>): set<nat> {
    set p | p in who && p in subs :: subs[p].index
  }

  lemma IndicesJoin(subs: Subs, who: set<Ptr>, p: Ptr, x: Sub)
    requires p !in subs && who <= subs.Keys
    ensures Indices(subs[p := x], who) == Indices(subs, who)
    ensures Indices(subs[p := x], who + {p}) == Indices(subs, who) + {x.index}
  {
    assert subs[p := x][p].index in Indices(subs[p := x], who + {p});
    forall q | q in who
      ensures subs[q].index in Indices(subs[p := x], who) && subs[q].index in Indices(subs[p := x], who + {p})
    {
      assert subs[p := x][q].index == subs[q].index;
    }
  }

  lemma IndicesLeave(subs: Subs, who: set<Ptr>, p: Ptr)
    requires p in subs && who <= subs.Keys && Indexed(subs)
    ensures Indices(subs - {p}, who - {p}) == Indices(subs, who) - {subs[p].index}
  {
    var t := subs - {p};
    forall q | q in who && q != p
      ensures subs[q].index in Indices(t, who - {p})
    {
      assert t[q].index == subs[q].index;
    }
  }

  lemma IndicesAdd(subs: Subs, who: set<Ptr>, p: Ptr)
    requires p in subs
    ensures Indices(subs, who + {p}) == Indices(subs, who) + {subs[p].index}
  {
    assert subs[p].index in Indices(subs, who + {p});
    forall q | q in who && q in subs
      ensures subs[q].index in Indices(subs, who + {p})
    {
    }
  }

  lemma IndicesDrop(subs: Subs, who: set<Ptr>, p: Ptr)
    requires p in subs && who <= subs.Keys && Indexed(subs)
    ensures Indices(subs, who - {p}) == Indices(subs, who) - {subs[p].index}
  {
    forall q | q in who && q != p
      ensures subs[q].index in Indices(subs, who - {p})
    {
    }
  }

  lemma IndicesSame(subs: Subs, a: set<Ptr>, b: set<Ptr>)
    requires Indexed(subs) && a <= subs.Keys && b <= subs.Keys
    ensures Indices(subs, a) == Indices(subs, b) <==> a == b
  {
    if Indices(subs, a) == Indices(subs, b) {
      forall p | p in subs
        ensures p in a <==> p in b
      {
        assert p in a <==> subs[p].index in Indices(subs, a);
        assert p in b <==> subs[p].index in Indices(subs, b);
      }
    }
  }

  lemma {:induction false} IndicesCount(subs: Subs)
    requires Indexed(subs)
    ensures |Indices(subs, subs.Keys)| == |subs|
    decreases |subs|
  {
    if subs == map[] {
      assert Indices(subs, subs.Keys) == {};
    } else {
      var p :| p in subs;
      var t := subs - {p};
      assert t.Keys == subs.Keys - {p};
      assert |subs.Keys| == |subs| && |t.Keys| == |t|;
      IndicesCount(t);
      IndicesLeave(subs, subs.Keys, p);
      assert subs[p].index in Indices(subs, subs.Keys);
    }
  }

  // ---- rounds ----

  ghost predicate Map(w: Words, subs: Subs, who: set<Ptr>) {
    |w| == SIZE && WordsOk(w) && who <= System(subs) && Members(w) == Indices(subs, who)
  }

  /** `who` has answered, or joined, since the round began; a waiter is signalled once that is everybody. */
  ghost predicate SynchorOk(y: Synchor, subs: Subs, who: set<Ptr>, exact: bool) {
    Map(y.ack, subs, who) && (exact && y.wait ==> (y.signalled <==> who == System(subs)))
  }

  /** The same for votes; `against` have voted no since the round began. */
  ghost predicate RefereeOk(z: Referee, subs: Subs, who: set<Ptr>, against: set<Ptr>) {
    && Map(z.vote, subs, who) && Map(z.approved, subs, System(subs) - against) && against <= System(subs)
    && (z.wait ==> (z.signalled <==> who == System(subs)))
  }

  /** is_bitmap_full: everybody is in it. */
  lemma FullMeans(w: Words, full: Words, subs: Subs, who: set<Ptr>)
    requires Indexed(subs) && Map(w, subs, who) && Map(full, subs, System(subs))
    ensures w == full <==> who == System(subs)
  {
    SameMembers(w, full);
    IndicesSame(subs, who, System(subs));
  }

  lemma MapSet(w: Words, subs: Subs, who: set<Ptr>, p: Ptr)
    requires Map(w, subs, who) && Indexed(subs) && p in System(subs)
    ensures Map(WithBit(w, subs[p].index), subs, who + {p})
  {
    WithBitIs(w, subs[p].index);
    IndicesAdd(subs, who, p);
  }

  lemma MapClear(w: Words, subs: Subs, who: set<Ptr>, p: Ptr)
    requires Map(w, subs, who) && Indexed(subs) && p in subs
    ensures Map(WithoutBit(w, subs[p].index), subs, who - {p})
  {
    WithoutBitIs(w, subs[p].index);
    IndicesDrop(subs, who, p);
  }

  lemma MapJoin(w: Words, subs: Subs, who: set<Ptr>, p: Ptr, x: Sub)
    requires Map(w, subs, who) && p !in subs && x.index < CLIENT_MAX
    ensures System(subs[p := x]) == if x.system then System(subs) + {p} else System(subs)
    ensures Map(w, subs[p := x], who)
    ensures x.system ==> Map(WithBit(w, x.index), subs[p := x], who + {p})
  {
    IndicesJoin(subs, who, p, x);
    WithBitIs(w, x.index);
  }

  lemma MapLeave(w: Words, subs: Subs, who: set<Ptr>, p: Ptr)
    requires Map(w, subs, who) && Indexed(subs) && p in subs
    ensures System(subs - {p}) == System(subs) - {p}
    ensures Map(WithoutBit(w, subs[p].index), subs - {p}, who - {p})
    ensures !subs[p].system ==> Map(w, subs - {p}, who)
  {
    WithoutBitIs(w, subs[p].index);
    IndicesLeave(subs, who, p);
    if !subs[p].system {
      assert who - {p} == who;
      assert subs[p].index !in Indices(subs, who);
    }
  }

  lemma MapEmpty(subs: Subs)
    ensures Map([0, 0], subs, {})
  {
    NoMembers([0, 0]);
  }

  /** pthread_cond_broadcast on the condition of a waiter, if there is one and `b` holds. */
  function Signal(y: Synchor, b: bool): Synchor {
    y.(signalled := y.signalled || (y.wait && b))
  }

  function SignalVote(z: Referee, b: bool): Referee {
    z.(signalled := z.signalled || (z.wait && b))
  }

  /** The waiter of a round, if there is one, is signalled if `b` holds; it goes on waiting for the mutex. */
  ghost predicate Woke(y: Synchor, y': Synchor, b: bool) {
    y'.wait == y.wait && (y'.signalled <==> y.signalled || (y.wait && b))
  }

  ghost predicate WokeVote(z: Referee, z': Referee, b: bool) {
    z'.wait == z.wait && (z'.signalled <==> z.signalled || (z.wait && b))
  }

  /** A system subscriber joins: its bits are set everywhere, as if it had answered. */
  function JoinSynchor(y: Synchor, nr: nat): Synchor
    requires nr < BITS * |y.ack|
  {
    y.(ack := WithBit(y.ack, nr))
  }

  function JoinReferee(z: Referee, nr: nat): Referee
    requires nr < BITS * |z.vote| && nr < BITS * |z.approved|
  {
    z.(vote := WithBit(z.vote, nr), approved := WithBit(z.approved, nr))
  }

  function LeaveSynchor(y: Synchor, nr: nat): Synchor
    requires nr < BITS * |y.ack|
  {
    y.(ack := WithoutBit(y.ack, nr))
  }

  function LeaveReferee(z: Referee, nr: nat): Referee
    requires nr < BITS * |z.vote| && nr < BITS * |z.approved|
  {
    z.(vote := WithoutBit(z.vote, nr), approved := WithoutBit(z.approved, nr))
  }

  lemma SynchorJoins(y: Synchor, subs: Subs, who: set<Ptr>, exact: bool, p: Ptr, x: Sub)
    requires SynchorOk(y, subs, who, exact) && p !in subs && x.index < CLIENT_MAX
    ensures x.system ==> SynchorOk(JoinSynchor(y, x.index), subs[p := x], who + {p}, exact)
    ensures !x.system ==> SynchorOk(y, subs[p := x], who, exact)
  {
    MapJoin(y.ack, subs, who, p, x);
    assert p !in System(subs);
    assert who + {p} == System(subs) + {p} <==> who == System(subs);
  }

  lemma RefereeJoins(z: Referee, subs: Subs, who: set<Ptr>, against: set<Ptr>, p: Ptr, x: Sub)
    requires RefereeOk(z, subs, who, against) && p !in subs && x.index < CLIENT_MAX
    ensures x.system ==> RefereeOk(JoinReferee(z, x.index), subs[p := x], who + {p}, against)
    ensures !x.system ==> RefereeOk(z, subs[p := x], who, against)
  {
    MapJoin(z.vote, subs, who, p, x);
    MapJoin(z.approved, subs, System(subs) - against, p, x);
    assert p !in System(subs);
    assert who + {p} == System(subs) + {p} <==> who == System(subs);
    assert System(subs) + {p} - against == System(subs) - against + {p};
  }

  lemma SynchorLeaves(y: Synchor, subs: Subs, who: set<Ptr>, exact: bool, p: Ptr, full: Words)
    requires SynchorOk(y, subs, who, exact) && Indexed(subs) && p in System(subs)
    requires Map(full, subs - {p}, System(subs) - {p})
    ensures var y' := LeaveSynchor(y, subs[p].index);
      && (y'.ack == full <==> who - {p} == System(subs) - {p})
      && SynchorOk(Signal(y', y'.ack == full), subs - {p}, who - {p}, exact)
    ensures forall b :: SynchorOk(Signal(LeaveSynchor(y, subs[p].index), b), subs - {p}, who - {p}, false)
  {
    MapLeave(y.ack, subs, who, p);
    FullMeans(LeaveSynchor(y, subs[p].index).ack, full, subs - {p}, who - {p});
  }

  lemma RefereeLeaves(z: Referee, subs: Subs, who: set<Ptr>, against: set<Ptr>, p: Ptr, full: Words)
    requires RefereeOk(z, subs, who, against) && Indexed(subs) && p in System(subs)
    requires Map(full, subs - {p}, System(subs) - {p})
    ensures var z' := LeaveReferee(z, subs[p].index);
      RefereeOk(SignalVote(z', z'.vote == full), subs - {p}, who - {p}, against - {p})
  {
    MapLeave(z.vote, subs, who, p);
    MapLeave(z.approved, subs, System(subs) - against, p);
    assert System(subs) - {p} - (against - {p}) == System(subs) - against - {p};
    FullMeans(LeaveReferee(z, subs[p].index).vote, full, subs - {p}, who - {p});
  }

  /** A vote comes in. */
  lemma RefereeVotes(z: Referee, subs: Subs, who: set<Ptr>, no: set<Ptr>, p: Ptr, approve: bool, full: Words,
                     z': Referee)
    requires RefereeOk(z, subs, who, no) && Indexed(subs) && p in System(subs) && Map(full, subs, System(subs))
    requires z'.vote == WithBit(z.vote, subs[p].index) && z'.wait == z.wait && z'.signalled == z.signalled
    requires z'.approved == if approve then z.approved else WithoutBit(z.approved, subs[p].index)
    ensures RefereeOk(SignalVote(z', z'.vote == full), subs, who + {p}, if approve then no else no + {p})
  {
    MapSet(z.vote, subs, who, p);
    MapClear(z.approved, subs, System(subs) - no, p);
    assert System(subs) - (no + {p}) == System(subs) - no - {p};
    FullMeans(z'.vote, full, subs, who + {p});
  }

  lemma OtherLeaves(y: Synchor, z: Referee, subs: Subs, who: set<Ptr>, votes: set<Ptr>, against: set<Ptr>,
                    exact: bool, p: Ptr)
    requires Indexed(subs) && p in subs && !subs[p].system
    ensures SynchorOk(y, subs, who, exact) ==> SynchorOk(y, subs - {p}, who, exact)
    ensures RefereeOk(z, subs, votes, against) ==> RefereeOk(z, subs - {p}, votes, against)
  {
    if SynchorOk(y, subs, who, exact) {
      MapLeave(y.ack, subs, who, p);
      assert System(subs) - {p} == System(subs);
    }
    if RefereeOk(z, subs, votes, against) {
      MapLeave(z.vote, subs, votes, p);
      MapLeave(z.approved, subs, System(subs) - against, p);
      assert System(subs) - {p} == System(subs);
    }
  }

  // ---- all rounds together ----

  datatype Rounds = Rounds(full: Words, synchors: seq<Synchor>, referees: seq<Referee>)

  /** Who has answered or joined, voted or joined, and voted no, since the last reset of each round. */
  datatype Answers = Answers(answered: seq<set<Ptr>>, voted: seq<set<Ptr>>, against: seq<set<Ptr>>)

  ghost predicate RoundsOk(r: Rounds, subs: Subs, g: Answers) {
    && Map(r.full, subs, System(subs))
    && |r.synchors| == |g.answered| == 3 && |r.referees| == |g.voted| == |g.against| == 2
    && (forall i :: 0 <= i < 3 ==> SynchorOk(r.synchors[i], subs, g.answered[i], i != RESUME))
    && (forall i :: 0 <= i < 2 ==> RefereeOk(r.referees[i], subs, g.voted[i], g.against[i]))
  }

  predicate Sized(r: Rounds) {
    && |r.full| == SIZE && |r.synchors| == 3 && |r.referees| == 2
    && (forall i :: 0 <= i < 3 ==> |r.synchors[i].ack| == SIZE)
    && (forall i :: 0 <= i < 2 ==> |r.referees[i].vote| == |r.referees[i].approved| == SIZE)
  }

  /** The set_bit calls of mc_ipc_register_process. */
  function JoinRounds(r: Rounds, nr: nat): Rounds
    requires Sized(r) && nr < CLIENT_MAX
  {
    Rounds(WithBit(r.full, nr),
           [JoinSynchor(r.synchors[0], nr), JoinSynchor(r.synchors[1], nr), JoinSynchor(r.synchors[2], nr)],
           [JoinReferee(r.referees[0], nr), JoinReferee(r.referees[1], nr)])
  }

  /** The clear_bit calls of mc_ipc_release_process. */
  function LeaveRounds(r: Rounds, nr: nat): Rounds
    requires Sized(r) && nr < CLIENT_MAX
  {
    Rounds(WithoutBit(r.full, nr),
           [LeaveSynchor(r.synchors[0], nr), LeaveSynchor(r.synchors[1], nr), LeaveSynchor(r.synchors[2], nr)],
           [LeaveReferee(r.referees[0], nr), LeaveReferee(r.referees[1], nr)])
  }

  /** Its wake-ups; the resume waiter is judged by the bitmap of the reboot round. */
  function WakeRounds(r: Rounds): Rounds
    requires Sized(r)
  {
    r.(synchors := [Signal(r.synchors[SLEEP], r.synchors[SLEEP].ack == r.full),
                    Signal(r.synchors[RESUME], r.synchors[REBOOT].ack == r.full),
                    Signal(r.synchors[REBOOT], r.synchors[REBOOT].ack == r.full)],
       referees := [SignalVote(r.referees[0], r.referees[0].vote == r.full),
                    SignalVote(r.referees[1], r.referees[1].vote == r.full)])
  }

  ghost function JoinAnswers(g: Answers, p: Ptr): Answers
    requires |g.answered| == 3 && |g.voted| == 2
  {
    g.(answered := [g.answered[0] + {p}, g.answered[1] + {p}, g.answered[2] + {p}],
       voted := [g.voted[0] + {p}, g.voted[1] + {p}])
  }

  ghost function LeaveAnswers(g: Answers, p: Ptr): Answers
    requires |g.answered| == 3 && |g.voted| == |g.against| == 2
  {
    Answers([g.answered[0] - {p}, g.answered[1] - {p}, g.answered[2] - {p}], [g.voted[0] - {p}, g.voted[1] - {p}],
            [g.against[0] - {p}, g.against[1] - {p}])
  }

  lemma RoundsJoin(r: Rounds, subs: Subs, g: Answers, p: Ptr, x: Sub)
    requires RoundsOk(r, subs, g) && p !in subs && x.index < CLIENT_MAX
    ensures x.system ==> RoundsOk(JoinRounds(r, x.index), subs[p := x], JoinAnswers(g, p))
    ensures !x.system ==> RoundsOk(r, subs[p := x], g)
  {
    MapJoin(r.full, subs, System(subs), p, x);
    forall i | 0 <= i < 3 {
      SynchorJoins(r.synchors[i], subs, g.answered[i], i != RESUME, p, x);
    }
    forall i | 0 <= i < 2 {
      RefereeJoins(r.referees[i], subs, g.voted[i], g.against[i], p, x);
    }
  }

  lemma RoundsLeave(r: Rounds, subs: Subs, g: Answers, p: Ptr)
    requires RoundsOk(r, subs, g) && p in System(subs) && Indexed(subs)
    ensures RoundsOk(WakeRounds(LeaveRounds(r, subs[p].index)), subs - {p}, LeaveAnswers(g, p))
  {
    MapLeave(r.full, subs, System(subs), p);
    var full := WithoutBit(r.full, subs[p].index);
    forall i | 0 <= i < 3 {
      SynchorLeaves(r.synchors[i], subs, g.answered[i], i != RESUME, p, full);
    }
    forall i | 0 <= i < 2 {
      RefereeLeaves(r.referees[i], subs, g.voted[i], g.against[i], p, full);
    }
  }

  lemma RoundsOther(r: Rounds, subs: Subs, g: Answers, p: Ptr)
    requires RoundsOk(r, subs, g) && p in subs && Indexed(subs) && !subs[p].system
    ensures RoundsOk(r, subs - {p}, g)
  {
    MapLeave(r.full, subs, System(subs), p);
    forall i | 0 <= i < 3 {
      OtherLeaves(r.synchors[i], r.referees[0], subs, g.answered[i], {}, {}, i != RESUME, p);
    }
    forall i | 0 <= i < 2 {
      OtherLeaves(r.synchors[0], r.referees[i], subs, {}, g.voted[i], g.against[i], true, p);
    }
  }

  /** Both cases of mc_ipc_release_process. */
  function RoundsAfter(r: Rounds, x: Sub): Rounds
    requires Sized(r) && x.index < CLIENT_MAX
  {
    if x.system then WakeRounds(LeaveRounds(r, x.index)) else r
  }

  ghost function AnswersAfter(g: Answers, x: Sub, p: Ptr): Answers
    requires |g.answered| == 3 && |g.voted| == |g.against| == 2
  {
    if x.system then LeaveAnswers(g, p) else g
  }

  lemma RoundsGone(r: Rounds, subs: Subs, g: Answers, p: Ptr)
    requires RoundsOk(r, subs, g) && p in subs && Indexed(subs)
    ensures Sized(r) && RoundsOk(RoundsAfter(r, subs[p]), subs - {p}, AnswersAfter(g, subs[p], p))
    ensures var r', g', all := RoundsAfter(r, subs[p]), AnswersAfter(g, subs[p], p), System(subs - {p});
      && (forall j :: 0 <= j < 3 ==>
            Woke(r.synchors[j], r'.synchors[j],
                 subs[p].system && g'.answered[if j == RESUME then REBOOT else j] == all))
      && forall j :: 0 <= j < 2 ==> WokeVote(r.referees[j], r'.referees[j], subs[p].system && g'.voted[j] == all)
  {
    if subs[p].system {
      RoundsLeave(r, subs, g, p);
      LeaveWakes(r, subs, g, p);
    } else {
      RoundsOther(r, subs, g, p);
    }
  }

  lemma LeaveWakes(r: Rounds, subs: Subs, g: Answers, p: Ptr)
    requires RoundsOk(r, subs, g) && p in System(subs) && Indexed(subs)
    ensures var r', g', all := WakeRounds(LeaveRounds(r, subs[p].index)), LeaveAnswers(g, p), System(subs - {p});
      && (forall j :: 0 <= j < 3 ==>
            Woke(r.synchors[j], r'.synchors[j], g'.answered[if j == RESUME then REBOOT else j] == all))
      && forall j :: 0 <= j < 2 ==> WokeVote(r.referees[j], r'.referees[j], g'.voted[j] == all)
  {
    MapLeave(r.full, subs, System(subs), p);
    var full := WithoutBit(r.full, subs[p].index);
    forall j | 0 <= j < 3
      ensures LeaveSynchor(r.synchors[j], subs[p].index).ack == full <==> g.answered[j] - {p} == System(subs) - {p}
    {
      SynchorLeaves(r.synchors[j], subs, g.answered[j], j != RESUME, p, full);
    }
    forall j | 0 <= j < 2
      ensures LeaveReferee(r.referees[j], subs[p].index).vote == full <==> g.voted[j] - {p} == System(subs) - {p}
    {
      MapLeave(r.referees[j].vote, subs, g.voted[j], p);
      FullMeans(LeaveReferee(r.referees[j], subs[p].index).vote, full, subs - {p}, g.voted[j] - {p});
    }
  }

  ghost predicate HasIndex(subs: Subs, k: nat) {
    exists p :: p in subs && subs[p].index == k
  }

  /** The least index that nobody has. */
  ghost predicate IsLeastFree(subs: Subs, nr: nat) {
    !HasIndex(subs, nr) && forall k :: 0 <= k < nr ==> HasIndex(subs, k)
  }

  /** The stock of indices and the number of subscribers agree with who is registered. */
  ghost predicate StockOk(stock: Words, subscribers: nat, subs: Subs) {
    && Indexed(subs) && subscribers == |subs|
    && |stock| == SIZE && WordsOk(stock) && Members(stock) == Indices(subs, subs.Keys)
  }

  lemma StockJoin(stock: Words, n: nat, subs: Subs, p: Ptr, x: Sub)
    requires StockOk(stock, n, subs) && p !in subs && x.index < CLIENT_MAX && !HasIndex(subs, x.index)
    ensures StockOk(WithBit(stock, x.index), n + 1, subs[p := x])
  {
    WithBitIs(stock, x.index);
    IndicesJoin(subs, subs.Keys, p, x);
    assert subs[p := x].Keys == subs.Keys + {p};
  }

  lemma StockLeave(stock: Words, n: nat, subs: Subs, p: Ptr)
    requires StockOk(stock, n, subs) && p in subs
    ensures n > 0 && StockOk(WithoutBit(stock, subs[p].index), n - 1, subs - {p})
  {
    WithoutBitIs(stock, subs[p].index);
    IndicesLeave(subs, subs.Keys, p);
    assert (subs - {p}).Keys == subs.Keys - {p};
    IndicesCount(subs);
    IndicesCount(subs - {p});
    assert subs[p].index in Indices(subs, subs.Keys);
  }

  /** What can happen to the daemon: its clients' messages, and the waiters of the rounds coming and going. */
  datatype Event =
    | Join(p: Ptr, admitted: bool, system: bool, client: bool)
    | Leave(p: Ptr)
    | Answer(p: Ptr, i: nat)
    | Ballot(p: Ptr, i: nat, approve: bool)
    | SyncBegins(i: nat)
    | SyncEnds(i: nat, timedOut: bool)
    | VoteBegins(i: nat)
    | VoteEnds(i: nat, timedOut: bool)

  /** A system subscriber without the guard topic: it is waited for, and its answers are refused. */
  ghost predicate Silent(subs: Subs, p: Ptr) {
    p in subs && subs[p].system && !subs[p].client
  }

  /** Where `p` is missing it stays missing. */
  ghost predicate StaysAway(g: Answers, g': Answers, p: Ptr) {
    && |g.answered| == |g'.answered| == 3 && |g.voted| == |g'.voted| == 2
    && (forall i :: 0 <= i < 3 && p !in g.answered[i] ==> p !in g'.answered[i])
    && (forall i :: 0 <= i < 2 && p !in g.voted[i] ==> p !in g'.voted[i])
  }

  lemma JoinAway(subs: Subs, g: Answers, q: Ptr, subs': Subs, g': Answers)
    requires |g.answered| == 3 && |g.voted| == 2 && q !in subs && q in subs' && subs' == subs[q := subs'[q]]
    requires g' == g || g' == JoinAnswers(g, q)
    ensures forall p :: Silent(subs, p) ==> Silent(subs', p) && StaysAway(g, g', p)
  {
  }

  lemma LeaveAway(subs: Subs, g: Answers, q: Ptr, subs': Subs, g': Answers)
    requires |g.answered| == 3 && |g.voted| == |g.against| == 2 && subs' == subs - {q}
    requires g' == g || g' == LeaveAnswers(g, q)
    ensures forall p :: Silent(subs, p) && p != q ==> Silent(subs', p) && StaysAway(g, g', p)
  {
  }

  /** A waiter goes on waiting, and a signal stays. */
  ghost predicate StillWaits(r: Rounds, r': Rounds, i: nat, k: nat)
    requires Sized(r) && Sized(r') && i < 3 && k < 2
  {
    && (r.synchors[i].wait ==> r'.synchors[i].wait && (r.synchors[i].signalled ==> r'.synchors[i].signalled))
    && (r.referees[k].wait ==> r'.referees[k].wait && (r.referees[k].signalled ==> r'.referees[k].signalled))
  }

  /** Nobody is signalled about a round in which somebody is missing. */
  lemma Absent(r: Rounds, subs: Subs, g: Answers, p: Ptr)
    requires RoundsOk(r, subs, g) && p in System(subs)
    ensures forall i :: 0 <= i < 3 && i != RESUME && p !in g.answered[i] && r.synchors[i].wait ==>
      !r.synchors[i].signalled
    ensures forall i :: 0 <= i < 2 && p !in g.voted[i] && r.referees[i].wait ==> !r.referees[i].signalled
  {
  }

  class Daemon {
    var subs: Subs
    var subscribers: nat
    var stock: Words
    var rounds: Rounds
    ghost var answers: Answers

    ghost predicate Valid()
      reads this
    {
      StockOk(stock, subscribers, subs) && RoundsOk(rounds, subs, answers)
    }

    constructor ()
      ensures Valid() && subs == map[]
    {
      var none: Words := [0, 0];
      subs, subscribers, stock := map[], 0, none;
      rounds := Rounds(none, seq(3, _ => Synchor(false, false, none)), seq(2, _ => Referee(false, false, none, none)));
      answers := Answers([{}, {}, {}], [{}, {}], [{}, {}]);
      MapEmpty(map[]);
      assert System(map[]) == {} && Indices(map[], {}) == {};
      assert System(map[]) - {} == {};
    }

    /** mc_index_alloc: the least free index. */
    method IndexAlloc() returns (i: nat)
      requires Valid() && subscribers < CLIENT_MAX
      modifies this`stock
      ensures i < CLIENT_MAX && IsLeastFree(subs, i)
      ensures stock == WithBit(old(stock), i)
    {
      IndicesCount(subs);
      FreeBit(stock);
      i := FirstBitZero(stock);
      forall k: nat | k < CLIENT_MAX
        ensures HasIndex(subs, k) <==> Test(stock, k)
      {
        assert k in Members(stock) <==> k in Indices(subs, subs.Keys);
      }
      stock := WithBit(stock, i);
    }

    /** mc_ipc_register_process; `admitted` is the outcome of the checks on the process and its mask. */
    method Register(p: Ptr, admitted: bool, system: bool, client: bool) returns (ok: bool)
      requires Valid() && p !in subs
      modifies this
      ensures Valid() && ok == (admitted && |old(subs)| < CLIENT_MAX)
      ensures !ok ==> subs == old(subs)
      ensures ok ==> exists nr :: IsLeastFree(old(subs), nr) && subs == old(subs)[p := Sub(nr, system, client)]
      ensures answers == if ok && system then JoinAnswers(old(answers), p) else old(answers)
      ensures forall j :: 0 <= j < 3 ==> Woke(old(rounds.synchors[j]), rounds.synchors[j], false)
      ensures forall j :: 0 <= j < 2 ==> WokeVote(old(rounds.referees[j]), rounds.referees[j], false)
    {
      if !admitted || subscribers >= CLIENT_MAX {
        return false;
      }
      ghost var stock0 := stock;
      var nr := IndexAlloc();
      var x := Sub(nr, system, client);
      StockJoin(stock0, subscribers, subs, p, x);
      Enter(p, x);
      subs := subs[p := x];
      subscribers := subscribers + 1;
      ok := true;
    }

    /** The set_bit calls, for a system subscriber. */
    method Enter(p: Ptr, x: Sub)
      requires RoundsOk(rounds, subs, answers) && p !in subs && x.index < CLIENT_MAX
      modifies this`rounds, this`answers
      ensures RoundsOk(rounds, subs[p := x], answers)
      ensures answers == if x.system then JoinAnswers(old(answers), p) else old(answers)
      ensures forall j :: 0 <= j < 3 ==> Woke(old(rounds.synchors[j]), rounds.synchors[j], false)
      ensures forall j :: 0 <= j < 2 ==> WokeVote(old(rounds.referees[j]), rounds.referees[j], false)
    {
      RoundsJoin(rounds, subs, answers, p, x);
      if x.system {
        rounds := JoinRounds(rounds, x.index);
        answers := JoinAnswers(answers, p);
      }
    }

    /** mc_ipc_release_process: the subscriber's bits and its index are given back, and waiters woken. */
    method Release(p: Ptr)
      requires Valid() && p in subs
      modifies this
      ensures Valid() && subs == old(subs) - {p}
      ensures answers == AnswersAfter(old(answers), old(subs[p]), p)
      ensures forall j :: 0 <= j < 3 ==>
        Woke(old(rounds.synchors[j]), rounds.synchors[j],
             old(subs[p]).system && answers.answered[if j == RESUME then REBOOT else j] == System(subs))
      ensures forall j :: 0 <= j < 2 ==>
        WokeVote(old(rounds.referees[j]), rounds.referees[j], old(subs[p]).system && answers.voted[j] == System(subs))
    {
      var x := subs[p];
      StockLeave(stock, subscribers, subs, p);
      RoundsGone(rounds, subs, answers, p);
      rounds, answers := RoundsAfter(rounds, x), AnswersAfter(answers, x, p);
      stock := WithoutBit(stock, x.index);
      subs := subs - {p};
      subscribers := subscribers - 1;
    }

    /** mcd_client_ack_msg; only a guarded client's cookie is accepted. */
    method Ack(p: Ptr, i: nat) returns (ok: bool)
      requires Valid() && p in subs && i < 3
      modifies this`rounds, this`answers
      ensures Valid() && ok == (subs[p].client && subs[p].system)
      ensures answers ==
        if ok then old(answers).(answered := old(answers.answered)[i := old(answers.answered[i]) + {p}])
        else old(answers)
      ensures forall j :: 0 <= j < 3 ==>
        Woke(old(rounds.synchors[j]), rounds.synchors[j], j == i && ok && answers.answered[i] == System(subs))
      ensures rounds.referees == old(rounds.referees) && rounds.full == old(rounds.full)
    {
      if !subs[p].client || !subs[p].system {
        return false;
      }
      var y := JoinSynchor(rounds.synchors[i], subs[p].index);
      MapSet(rounds.synchors[i].ack, subs, answers.answered[i], p);
      FullMeans(y.ack, rounds.full, subs, answers.answered[i] + {p});
      rounds := rounds.(synchors := rounds.synchors[i := Signal(y, y.ack == rounds.full)]);
      answers := answers.(answered := answers.answered[i := answers.answered[i] + {p}]);
      ok := true;
    }

    /** mcd_client_vote_msg. */
    method Vote(p: Ptr, i: nat, approve: bool) returns (ok: bool)
      requires Valid() && p in subs && i < 2
      modifies this`rounds, this`answers
      ensures Valid() && ok == (subs[p].client && subs[p].system)
      ensures ok ==> answers.voted == old(answers.voted)[i := old(answers.voted[i]) + {p}]
      ensures ok ==> answers.answered == old(answers.answered)
      ensures ok && approve ==> answers.against == old(answers.against)
      ensures ok && !approve ==> answers.against == old(answers.against)[i := old(answers.against[i]) + {p}]
      ensures !ok ==> answers == old(answers)
      ensures rounds.synchors == old(rounds.synchors) && rounds.full == old(rounds.full)
      ensures forall j :: 0 <= j < 2 ==>
        WokeVote(old(rounds.referees[j]), rounds.referees[j], j == i && ok && answers.voted[i] == System(subs))
    {
      if !subs[p].client || !subs[p].system {
        return false;
      }
      var nr := subs[p].index;
      var z := rounds.referees[i];
      ghost var who, no := answers.voted[i], answers.against[i];
      z := z.(vote := WithBit(z.vote, nr));
      if !approve {
        z := z.(approved := WithoutBit(z.approved, nr));
      }
      RefereeVotes(rounds.referees[i], subs, who, no, p, approve, rounds.full, z);
      rounds := rounds.(referees := rounds.referees[i := SignalVote(z, z.vote == rounds.full)]);
      answers := answers.(voted := answers.voted[i := who + {p}],
                          against := if approve then answers.against else answers.against[i := no + {p}]);
      ok := true;
    }

    /** mc_synchor_wait up to the wait, by the only waiter of the round; `done` if there is nothing to wait for. */
    method BeginSync(i: nat) returns (done: bool)
      requires Valid() && i < 3 && !rounds.synchors[i].wait
      modifies this`rounds, this`answers
      ensures Valid() && answers == old(answers).(answered := old(answers.answered)[i := {}])
      ensures rounds.synchors[i].wait == !done && (done <==> System(subs) == {}) && !rounds.synchors[i].signalled
      ensures rounds == old(rounds).(synchors := old(rounds.synchors)[i := rounds.synchors[i]])
    {
      MapEmpty(subs);
      FullMeans([0, 0], rounds.full, subs, {});
      done := [0, 0] == rounds.full;
      rounds := rounds.(synchors := rounds.synchors[i := Synchor(!done, false, [0, 0])]);
      answers := answers.(answered := answers.answered[i := {}]);
    }

    /** The waiter is back, signalled or timed out: without a time-out everybody registered has answered or joined. */
    method EndSync(i: nat, timedOut: bool) returns (err: bool)
      requires Valid() && i < 3 && rounds.synchors[i].wait && (timedOut || rounds.synchors[i].signalled)
      modifies this`rounds
      ensures Valid() && !rounds.synchors[i].wait && err == timedOut
      ensures !err && i != RESUME ==> answers.answered[i] == System(subs)
      ensures rounds == old(rounds).(synchors := old(rounds.synchors)[i := old(rounds.synchors[i]).(wait := false)])
    {
      rounds := rounds.(synchors := rounds.synchors[i := rounds.synchors[i].(wait := false)]);
      err := timedOut;
    }

    /** mc_referee_wait up to the wait. */
    method BeginVote(i: nat) returns (done: bool)
      requires Valid() && i < 2 && !rounds.referees[i].wait
      modifies this`rounds, this`answers
      ensures Valid()
      ensures answers == old(answers).(voted := old(answers.voted)[i := {}], against := old(answers.against)[i := {}])
      ensures rounds.referees[i].wait == !done && (done <==> System(subs) == {}) && !rounds.referees[i].signalled
      ensures rounds == old(rounds).(referees := old(rounds.referees)[i := rounds.referees[i]])
    {
      MapEmpty(subs);
      FullMeans([0, 0], rounds.full, subs, {});
      assert System(subs) - {} == System(subs);
      done := [0, 0] == rounds.full;
      rounds := rounds.(referees := rounds.referees[i := Referee(!done, false, [0, 0], rounds.full)]);
      answers := answers.(voted := answers.voted[i := {}], against := answers.against[i := {}]);
    }

    /** The rest of it: approved exactly if nobody registered has voted no since the round began. */
    method EndVote(i: nat, timedOut: bool) returns (approved: bool)
      requires Valid() && i < 2 && (rounds.referees[i].wait ==> timedOut || rounds.referees[i].signalled)
      modifies this`rounds
      ensures Valid() && !rounds.referees[i].wait
      ensures approved <==> answers.against[i] == {}
      ensures old(rounds.referees[i].wait) && !timedOut ==> answers.voted[i] == System(subs)
      ensures rounds == old(rounds).(referees := old(rounds.referees)[i := old(rounds.referees[i]).(wait := false)])
    {
      var z := rounds.referees[i];
      FullMeans(z.approved, rounds.full, subs, System(subs) - answers.against[i]);
      rounds := rounds.(referees := rounds.referees[i := z.(wait := false)]);
      approved := z.approved == rounds.full;
    }

    /** One event, if it can occur now. */
    method Handle(e: Event, ghost i: nat, ghost k: nat)
      requires Valid() && i < 3 && k < 2
      modifies this
      ensures Valid()
      ensures forall p :: Silent(old(subs), p) && e != Leave(p) ==>
        Silent(subs, p) && StaysAway(old(answers), answers, p)
      ensures !(e.SyncEnds? && e.i == i) && !(e.VoteEnds? && e.i == k) ==> StillWaits(old(rounds), rounds, i, k)
    {
      match e
      case Join(_, _, _, _) => HandleJoin(e, i, k);
      case Leave(_) => HandleLeave(e, i, k);
      case Answer(_, _) => HandleAnswer(e, i, k);
      case Ballot(_, _, _) => HandleBallot(e, i, k);
      case SyncBegins(_) => HandleSync(e, i, k);
      case SyncEnds(_, _) => HandleSync(e, i, k);
      case VoteBegins(_) => HandleVote(e, i, k);
      case VoteEnds(_, _) => HandleVote(e, i, k);
    }

    method HandleJoin(e: Event, ghost i: nat, ghost k: nat)
      requires Valid() && i < 3 && k < 2 && e.Join?
      modifies this
      ensures Valid() && StillWaits(old(rounds), rounds, i, k)
      ensures forall p :: Silent(old(subs), p) ==> Silent(subs, p) && StaysAway(old(answers), answers, p)
      ensures e.admitted && |old(subs)| < CLIENT_MAX ==> e.p in subs
    {
      if e.p !in subs {
        var ok := Register(e.p, e.admitted, e.system, e.client);
        if ok {
          JoinAway(old(subs), old(answers), e.p, subs, answers);
        }
      }
    }

    method HandleLeave(e: Event, ghost i: nat, ghost k: nat)
      requires Valid() && i < 3 && k < 2 && e.Leave?
      modifies this
      ensures Valid() && StillWaits(old(rounds), rounds, i, k)
      ensures forall p :: Silent(old(subs), p) && p != e.p ==> Silent(subs, p) && StaysAway(old(answers), answers, p)
      ensures e.p !in subs
    {
      if e.p in subs {
        Release(e.p);
        LeaveAway(old(subs), old(answers), e.p, subs, answers);
      }
    }

    method HandleAnswer(e: Event, ghost i: nat, ghost k: nat)
      requires Valid() && i < 3 && k < 2 && e.Answer?
      modifies this`rounds, this`answers
      ensures Valid() && StillWaits(old(rounds), rounds, i, k)
      ensures forall p :: Silent(subs, p) ==> StaysAway(old(answers), answers, p)
      ensures e.p in subs && e.i < 3 && subs[e.p].client && subs[e.p].system ==> e.p in answers.answered[e.i]
    {
      if e.p in subs && e.i < 3 {
        var _ := Ack(e.p, e.i);
      }
    }

    method HandleBallot(e: Event, ghost i: nat, ghost k: nat)
      requires Valid() && i < 3 && k < 2 && e.Ballot?
      modifies this`rounds, this`answers
      ensures Valid() && StillWaits(old(rounds), rounds, i, k)
      ensures forall p :: Silent(subs, p) ==> StaysAway(old(answers), answers, p)
      ensures e.p in subs && e.i < 2 && subs[e.p].client && subs[e.p].system ==> e.p in answers.voted[e.i]
    {
      if e.p in subs && e.i < 2 {
        var _ := Vote(e.p, e.i, e.approve);
      }
    }

    method HandleSync(e: Event, ghost i: nat, ghost k: nat)
      requires Valid() && i < 3 && k < 2 && (e.SyncBegins? || e.SyncEnds?)
      modifies this`rounds, this`answers
      ensures Valid() && forall p :: StaysAway(old(answers), answers, p)
      ensures !(e.SyncEnds? && e.i == i) ==> StillWaits(old(rounds), rounds, i, k)
      ensures e.SyncBegins? && e.i < 3 && !old(rounds.synchors[e.i].wait) ==>
        rounds.synchors[e.i].wait == (System(subs) != {}) && answers.answered[e.i] == {}
      ensures e.SyncEnds? && e.i < 3 && (e.timedOut || old(rounds.synchors[e.i].signalled)) ==>
        !rounds.synchors[e.i].wait
    {
      if e.SyncBegins? {
        if e.i < 3 && !rounds.synchors[e.i].wait {
          var _ := BeginSync(e.i);
        }
      } else if e.i < 3 && rounds.synchors[e.i].wait && (e.timedOut || rounds.synchors[e.i].signalled) {
        var _ := EndSync(e.i, e.timedOut);
      }
    }

    method HandleVote(e: Event, ghost i: nat, ghost k: nat)
      requires Valid() && i < 3 && k < 2 && (e.VoteBegins? || e.VoteEnds?)
      modifies this`rounds, this`answers
      ensures Valid() && forall p :: StaysAway(old(answers), answers, p)
      ensures !(e.VoteEnds? && e.i == k) ==> StillWaits(old(rounds), rounds, i, k)
      ensures e.VoteBegins? && e.i < 2 && !old(rounds.referees[e.i].wait) ==>
        rounds.referees[e.i].wait == (System(subs) != {}) && answers.voted[e.i] == {}
      ensures e.VoteEnds? && e.i < 2 && (e.timedOut || old(rounds.referees[e.i].signalled)) ==>
        !rounds.referees[e.i].wait
    {
      if e.VoteBegins? {
        if e.i < 2 && !rounds.referees[e.i].wait {
          var _ := BeginVote(e.i);
        }
      } else if e.i < 2 && rounds.referees[e.i].wait && (e.timedOut || rounds.referees[e.i].signalled) {
        var _ := EndVote(e.i, e.timedOut);
      }
    }

    /**
     Any run.  As long as a silent subscriber that a round waits for stays registered, the waiter of that
     round, and of every later one of its kind, is not signalled.
     */
    method Replay(es: seq<Event>, ghost p: Ptr)
      requires Valid() && Silent(subs, p) && Leave(p) !in es
      modifies this
      ensures Valid() && Silent(subs, p)
      ensures forall i :: 0 <= i < 3 && p !in old(answers.answered[i]) ==>
        p !in answers.answered[i] && (i != RESUME && rounds.synchors[i].wait ==> !rounds.synchors[i].signalled)
      ensures forall i :: 0 <= i < 2 && p !in old(answers.voted[i]) ==>
        p !in answers.voted[i] && (rounds.referees[i].wait ==> !rounds.referees[i].signalled)
    {
      for n := 0 to |es|
        invariant Valid() && Silent(subs, p) && StaysAway(old(answers), answers, p)
      {
        Handle(es[n], 0, 0);
      }
      Absent(rounds, subs, answers, p);
    }

    /**
     Any run in which the waiters of a round and of a vote do not come back: they still wait, what signals
     they had they keep, and they are signalled exactly if everybody registered has answered, or voted.
     */
    method ReplayWait(es: seq<Event>, ghost i: nat, ghost k: nat)
      requires Valid() && i < 3 && k < 2
      requires forall e :: e in es ==> !(e.SyncEnds? && e.i == i) && !(e.VoteEnds? && e.i == k)
      modifies this
      ensures Valid() && StillWaits(old(rounds), rounds, i, k)
      ensures i != RESUME && rounds.synchors[i].wait ==>
        (rounds.synchors[i].signalled <==> answers.answered[i] == System(subs))
      ensures rounds.referees[k].wait ==> (rounds.referees[k].signalled <==> answers.voted[k] == System(subs))
    {
      for n := 0 to |es|
        invariant Valid() && StillWaits(old(rounds), rounds, i, k)
      {
        Handle(es[n], i, k);
      }
    }
  }

  /** In every state each bitmap is a part of the full one, and so are the indices in stock. */
  lemma Subsets(r: Rounds, stock: Words, n: nat, subs: Subs, g: Answers)
    requires RoundsOk(r, subs, g) && StockOk(stock, n, subs)
    ensures forall i :: 0 <= i < 3 ==> Members(r.synchors[i].ack) <= Members(r.full)
    ensures forall i :: 0 <= i < 2 ==>
      Members(r.referees[i].vote) <= Members(r.full) && Members(r.referees[i].approved) <= Members(r.full)
    ensures Members(r.full) <= Members(stock) && |Members(stock)| == n <= CLIENT_MAX
  {
    IndicesCount(subs);
    AtMost(Members(stock), CLIENT_MAX);
  }

  lemma {:induction false} AtMost(s: set<nat>, n: nat)
    requires forall k :: k in s ==> k < n
    ensures |s| <= n
  {
    if n > 0 {
      AtMost(s - {n - 1}, n - 1);
    } else {
      assert s == {};
    }
  }

  /**
   A subscriber leaves while somebody waits for the resume round.  The waiter is signalled exactly if
   the others have answered the reboot round.
   */
  lemma ResumeAtRelease(r: Rounds, subs: Subs, g: Answers, p: Ptr)
    requires RoundsOk(r, subs, g) && Indexed(subs) && p in System(subs)
    requires r.synchors[RESUME].wait && !r.synchors[RESUME].signalled
    ensures WakeRounds(LeaveRounds(r, subs[p].index)).synchors[RESUME].signalled <==>
            g.answered[REBOOT] - {p} == System(subs) - {p}
  {
    MapLeave(r.full, subs, System(subs), p);
    SynchorLeaves(r.synchors[REBOOT], subs, g.answered[REBOOT], true, p, WithoutBit(r.full, subs[p].index));
  }

  /** Two guarded system subscribers, after they have joined. */
  lemma TwoJoined() returns (r: Rounds, subs: Subs, g: Answers)
    ensures RoundsOk(r, subs, g) && Indexed(subs) && System(subs) == {1, 2}
  {
    var none: Words := [0, 0];
    MapEmpty(map[]);
    var y, z := Synchor(false, false, none), Referee(false, false, none, none);
    var r0, g0 := Rounds(none, [y, y, y], [z, z]), Answers([{}, {}, {}], [{}, {}], [{}, {}]);
    assert System(map[]) - {} == System(map[]) == {};
    RoundsJoin(r0, map[], g0, 1, Sub(0, true, true));
    var r1, g1 := JoinRounds(r0, 0), JoinAnswers(g0, 1);
    RoundsJoin(r1, map[1 := Sub(0, true, true)], g1, 2, Sub(1, true, true));
    r, g := JoinRounds(r1, 1), JoinAnswers(g1, 2);
    subs := map[1 := Sub(0, true, true)][2 := Sub(1, true, true)];
  }

  /** And somebody waiting for the resume round. */
  lemma TwoWait(resumed: set<Ptr>, rebooted: set<Ptr>) returns (r: Rounds, subs: Subs, g: Answers)
    requires resumed <= {1} && rebooted <= {1, 2}
    ensures RoundsOk(r, subs, g) && Indexed(subs) && System(subs) == {1, 2}
    ensures r.synchors[RESUME].wait && !r.synchors[RESUME].signalled
    ensures g.answered[RESUME] == resumed && g.answered[REBOOT] == rebooted
  {
    r, subs, g := TwoJoined();
    var a := Acks(subs, resumed);
    var b := Acks(subs, rebooted);
    r := r.(synchors := r.synchors[RESUME := Synchor(true, false, a)][REBOOT := Synchor(false, false, b)]);
    g := g.(answered := g.answered[RESUME := resumed][REBOOT := rebooted]);
  }

  /** The bitmap of some subscribers. */
  lemma {:induction false} Acks(subs: Subs, who: set<Ptr>) returns (w: Words)
    requires Indexed(subs) && who <= System(subs)
    ensures Map(w, subs, who)
    decreases |who|
  {
    if who == {} {
      w := [0, 0];
      MapEmpty(subs);
    } else {
      var p :| p in who;
      var v := Acks(subs, who - {p});
      MapSet(v, subs, who - {p}, p);
      assert who - {p} + {p} == who;
      w := WithBit(v, subs[p].index);
    }
  }

  /** So it can be woken although one who stays has not answered. */
  lemma ResumeMisled() returns (r: Rounds, subs: Subs, g: Answers)
    ensures RoundsOk(r, subs, g) && Indexed(subs) && System(subs) == {1, 2}
    ensures r.synchors[RESUME].wait && !r.synchors[RESUME].signalled && g.answered[RESUME] == {}
    ensures WakeRounds(LeaveRounds(r, subs[2].index)).synchors[RESUME].signalled
  {
    r, subs, g := TwoWait({}, {1, 2});
    ResumeAtRelease(r, subs, g, 2);
  }

  /** And it can be left waiting although all who stay have answered. */
  lemma ResumeUnheard() returns (r: Rounds, subs: Subs, g: Answers)
    ensures RoundsOk(r, subs, g) && Indexed(subs) && System(subs) == {1, 2}
    ensures r.synchors[RESUME].wait && !r.synchors[RESUME].signalled && g.answered[RESUME] == System(subs) - {2}
    ensures !WakeRounds(LeaveRounds(r, subs[2].index)).synchors[RESUME].signalled
  {
    r, subs, g := TwoWait({1}, {});
    ResumeAtRelease(r, subs, g, 2);
    assert 1 in System(subs) - {2};
  }
}
