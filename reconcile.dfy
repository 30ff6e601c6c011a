/**
 * One pass of `background_membership_checker`: for every user with pending
 * notices and every group they are pending in, ask whether the user has now
 * joined all of the group's required channels; if so, delete every notice
 * recorded for that pair and clear its records. Deleting a message is an
 * action whose failure is swallowed, so the tick reports the locations it
 * asked to delete.
 */
module Reconcile {
  import opened Wrappers
  import opened Membership
  import opened Settings
  import opened Ledger
  import opened Store

  /** The tick's test for one pair: the group requires at least one channel
      and every one of them reports the user as a member. */
  predicate PairReady(t: GroupTable, oracle: MembershipOracle, u: UserId, g: GroupId) {
    var channels := GetRequiredChannels(t, g);
    channels != [] && AllJoined(oracle, u, channels)
  }

  /** The pairs of the ledger that one tick clears. */
  ghost function ReadyPairs(l: seq<Notice>, t: GroupTable, oracle: MembershipOracle): set<Pair> {
    set p | p in Pairs(l) && PairReady(t, oracle, p.0, p.1)
  }

  /** The `fully_joined` loop: stops at the first channel that does not
      report membership. */
  method FullyJoined(user: UserId, channels: seq<string>, oracle: MembershipOracle) returns (fully: bool)
    ensures fully <==> AllJoined(oracle, user, channels)
  {
    fully := true;
    var i := 0;
    while i < |channels|
      invariant 0 <= i <= |channels|
      invariant fully
      invariant forall k :: 0 <= k < i ==> Joined(oracle, user, channels[k])
    {
      var res := UserIsMemberOfChannel(oracle(user, channels[i]));
      if res != Some(true) {
        fully := false;
        break;
      }
      i := i + 1;
    }
  }

  /** Deletes every notice recorded for one pair, then clears its records. */
  method ClearPair(db: Db, u: UserId, g: GroupId) returns (deleted: seq<Location>)
    modifies db
    ensures deleted == JoinMessages(old(db.pending), u, g)
    ensures db.pending == WithoutPair(old(db.pending), u, g)
    ensures db.groups == old(db.groups)
  {
    var msgs := JoinMessages(db.pending, u, g);
    deleted := [];
    for i := 0 to |msgs|
      invariant deleted == msgs[..i]
    {
      deleted := deleted + [msgs[i]];
    }
    assert msgs[..|msgs|] == msgs;
    db.DeleteJoinMessages(u, g);
  }

  /** The pairs of one user that one tick clears. */
  ghost function UserReadyPairs(l: seq<Notice>, t: GroupTable, oracle: MembershipOracle, u: UserId): set<Pair> {
    set p | p in Pairs(l) && p.0 == u && PairReady(t, oracle, p.0, p.1)
  }

  /** Clearing one more pair, not cleared before, extends both the ledger
      filter and the deleted locations. */
  lemma ClearStep(l0: seq<Notice>, cleared: set<Pair>, more: set<Pair>)
    requires cleared !! more
    ensures Select(WithoutPairs(l0, cleared), more) == Select(l0, more)
    ensures WithoutPairs(WithoutPairs(l0, cleared), more) == WithoutPairs(l0, cleared + more)
    ensures multiset(Locations(Select(l0, cleared + more)))
         == multiset(Locations(Select(l0, cleared))) + multiset(Locations(Select(l0, more)))
  {
    SelectWithout(l0, cleared, more);
    assert more - cleared == more;
    WithoutPairsTwice(l0, cleared, more);
    SelectUnion(l0, cleared, more);
  }

  /** The body of `for group_id in group_ids`: skip a group without
      required channels, skip a user still missing a channel, otherwise
      delete the pair's notices and clear its records. */
  method VisitPair(db: Db, oracle: MembershipOracle, u: UserId, g: GroupId) returns (gone: seq<Location>)
    modifies db
    ensures db.groups == old(db.groups)
    ensures PairReady(old(db.groups), oracle, u, g) ==>
              gone == JoinMessages(old(db.pending), u, g) && db.pending == WithoutPair(old(db.pending), u, g)
    ensures !PairReady(old(db.groups), oracle, u, g) ==> gone == [] && db.pending == old(db.pending)
  {
    gone := [];
    var channels := GetRequiredChannels(db.groups, g);
    if channels == [] {
      return;
    }
    var fully := FullyJoined(u, channels, oracle);
    if !fully {
      return;
    }
    gone := ClearPair(db, u, g);
  }

  /** The ready pairs of `u` among the groups `gs`. */
  ghost function ReadyAmong(l: seq<Notice>, t: GroupTable, oracle: MembershipOracle, u: UserId,
                            gs: seq<GroupId>): set<Pair> {
    set g | g in gs && (u, g) in Pairs(l) && PairReady(t, oracle, u, g) :: (u, g)
  }

  lemma ReadyAmongSnoc(l: seq<Notice>, t: GroupTable, oracle: MembershipOracle, u: UserId,
                       gs: seq<GroupId>, g: GroupId)
    ensures ReadyAmong(l, t, oracle, u, gs + [g])
         == ReadyAmong(l, t, oracle, u, gs)
            + if (u, g) in Pairs(l) && PairReady(t, oracle, u, g) then {(u, g)} else {}
    ensures g !in gs ==> (u, g) !in ReadyAmong(l, t, oracle, u, gs)
  {
  }

  /** Visiting the next pending group `g` of `u`: if the pair is ready, its
      records are the next ones cleared and its notices the next ones
      deleted; otherwise nothing more is cleared. */
  lemma GroupStep(l0: seq<Notice>, t0: GroupTable, oracle: MembershipOracle, u: UserId,
                  groups: seq<GroupId>, j: nat)
    requires groups == PendingGroups(l0, u) && j < |groups|
    ensures var g := groups[j];
            var cleared := ReadyAmong(l0, t0, oracle, u, groups[..j]);
            var next := ReadyAmong(l0, t0, oracle, u, groups[..j + 1]);
            && (PairReady(t0, oracle, u, g) ==>
                  && WithoutPair(WithoutPairs(l0, cleared), u, g) == WithoutPairs(l0, next)
                  && multiset(Locations(Select(l0, cleared))) + multiset(JoinMessages(WithoutPairs(l0, cleared), u, g))
                     == multiset(Locations(Select(l0, next))))
            && (!PairReady(t0, oracle, u, g) ==> next == cleared)
  {
    var g := groups[j];
    var cleared := ReadyAmong(l0, t0, oracle, u, groups[..j]);
    var next := ReadyAmong(l0, t0, oracle, u, groups[..j + 1]);
    assert g !in groups[..j] by {
      forall i | 0 <= i < j ensures groups[..j][i] != g {
        assert groups[i] != groups[j];
      }
    }
    assert (u, g) in Pairs(l0);
    assert (u, g) !in cleared && next == cleared + if PairReady(t0, oracle, u, g) then {(u, g)} else {} by {
      assert groups[..j + 1] == groups[..j] + [g];
      ReadyAmongSnoc(l0, t0, oracle, u, groups[..j], g);
    }
    if PairReady(t0, oracle, u, g) {
      ClearStep(l0, cleared, {(u, g)});
    }
  }

  /** Once every pending group of `u` is visited, the pairs cleared are all
      ready pairs of `u`. */
  lemma AllGroupsVisited(l0: seq<Notice>, t0: GroupTable, oracle: MembershipOracle, u: UserId,
                         groups: seq<GroupId>)
    requires groups == PendingGroups(l0, u)
    ensures ReadyAmong(l0, t0, oracle, u, groups) == UserReadyPairs(l0, t0, oracle, u)
  {
  }

  /** The body of `for user_id in users`: every pending group of the user is
      visited. */
  method ReconcileUser(db: Db, oracle: MembershipOracle, u: UserId) returns (deleted: seq<Location>)
    modifies db
    ensures db.groups == old(db.groups)
    ensures db.pending == WithoutPairs(old(db.pending), UserReadyPairs(old(db.pending), old(db.groups), oracle, u))
    ensures multiset(deleted)
         == multiset(Locations(Select(old(db.pending), UserReadyPairs(old(db.pending), old(db.groups), oracle, u))))
  {
    ghost var l0 := db.pending;
    ghost var t0 := db.groups;
    deleted := [];
    WithoutNoPairs(l0);
    SelectNone(l0);
    var groups := PendingGroups(db.pending, u);
    var j := 0;
    assert ReadyAmong(l0, t0, oracle, u, groups[..0]) == {};
    while j < |groups|
      invariant 0 <= j <= |groups|
      invariant db.groups == t0
      invariant db.pending == WithoutPairs(l0, ReadyAmong(l0, t0, oracle, u, groups[..j]))
      invariant multiset(deleted) == multiset(Locations(Select(l0, ReadyAmong(l0, t0, oracle, u, groups[..j]))))
    {
      GroupStep(l0, t0, oracle, u, groups, j);
      var gone := VisitPair(db, oracle, u, groups[j]);
      deleted := deleted + gone;
      j := j + 1;
    }
    assert groups[..j] == groups;
    AllGroupsVisited(l0, t0, oracle, u, groups);
  }

  /** The ready pairs of the users `us`. */
  ghost function ReadyOfUsers(l: seq<Notice>, t: GroupTable, oracle: MembershipOracle, us: seq<UserId>): set<Pair> {
    set p | p in Pairs(l) && p.0 in us && PairReady(t, oracle, p.0, p.1)
  }

  lemma ReadyOfUsersSnoc(l: seq<Notice>, t: GroupTable, oracle: MembershipOracle, us: seq<UserId>, u: UserId)
    ensures ReadyOfUsers(l, t, oracle, us + [u]) == ReadyOfUsers(l, t, oracle, us) + UserReadyPairs(l, t, oracle, u)
    ensures u !in us ==> ReadyOfUsers(l, t, oracle, us) !! UserReadyPairs(l, t, oracle, u)
    ensures forall p :: p in ReadyOfUsers(l, t, oracle, us) ==> p.0 in us
  {
  }

  /** Visiting the next pending user: the pairs that user's visit clears
      are exactly that user's ready pairs, which extend the pairs cleared so
      far. */
  lemma UserTurn(l0: seq<Notice>, t0: GroupTable, oracle: MembershipOracle, users: seq<UserId>, i: nat)
    requires users == PendingUsers(l0) && i < |users|
    ensures var u := users[i];
            var cleared := ReadyOfUsers(l0, t0, oracle, users[..i]);
            var l1 := WithoutPairs(l0, cleared);
            var mine := UserReadyPairs(l1, t0, oracle, u);
            var next := ReadyOfUsers(l0, t0, oracle, users[..i + 1]);
            && WithoutPairs(l1, mine) == WithoutPairs(l0, next)
            && multiset(Locations(Select(l0, cleared))) + multiset(Locations(Select(l1, mine)))
               == multiset(Locations(Select(l0, next)))
  {
    var u := users[i];
    var cleared := ReadyOfUsers(l0, t0, oracle, users[..i]);
    var mine := UserReadyPairs(l0, t0, oracle, u);
    assert users[..i + 1] == users[..i] + [u];
    assert u !in users[..i] by {
      forall k | 0 <= k < i ensures users[..i][k] != u {
        assert users[k] != users[i];
      }
    }
    ReadyOfUsersSnoc(l0, t0, oracle, users[..i], u);
    UserStep(l0, t0, oracle, cleared, u);
    ClearStep(l0, cleared, mine);
  }

  /** Every user with a record is visited, so the pairs cleared by the
      whole tick are all ready pairs. */
  lemma AllUsersVisited(l0: seq<Notice>, t0: GroupTable, oracle: MembershipOracle, users: seq<UserId>)
    requires users == PendingUsers(l0)
    ensures ReadyOfUsers(l0, t0, oracle, users) == ReadyPairs(l0, t0, oracle)
  {
    forall p | p in Pairs(l0) ensures p.0 in users {
      var n :| n in l0 && PairOf(n) == p;
    }
  }

  /** One iteration of the `while True` loop, without the sleep. */
  method ReconcileTick(db: Db, oracle: MembershipOracle) returns (deleted: seq<Location>)
    modifies db
    ensures db.groups == old(db.groups)
    ensures db.pending == WithoutPairs(old(db.pending), ReadyPairs(old(db.pending), old(db.groups), oracle))
    ensures multiset(deleted)
         == multiset(Locations(Select(old(db.pending), ReadyPairs(old(db.pending), old(db.groups), oracle))))
  {
    ghost var l0 := db.pending;
    ghost var t0 := db.groups;
    deleted := [];
    WithoutNoPairs(l0);
    SelectNone(l0);
    var users := PendingUsers(db.pending);
    var i := 0;
    assert ReadyOfUsers(l0, t0, oracle, users[..0]) == {};
    while i < |users|
      invariant 0 <= i <= |users|
      invariant db.groups == t0
      invariant db.pending == WithoutPairs(l0, ReadyOfUsers(l0, t0, oracle, users[..i]))
      invariant multiset(deleted) == multiset(Locations(Select(l0, ReadyOfUsers(l0, t0, oracle, users[..i]))))
    {
      UserTurn(l0, t0, oracle, users, i);
      var gone := ReconcileUser(db, oracle, users[i]);
      deleted := deleted + gone;
      i := i + 1;
    }
    assert users[..i] == users;
    AllUsersVisited(l0, t0, oracle, users);
  }

  /** Pairs of other users cleared earlier in the tick do not change which
      pairs of `u` are ready. */
  lemma UserStep(l0: seq<Notice>, t0: GroupTable, oracle: MembershipOracle, cleared: set<Pair>, u: UserId)
    requires forall p :: p in cleared ==> p.0 != u
    ensures UserReadyPairs(WithoutPairs(l0, cleared), t0, oracle, u) == UserReadyPairs(l0, t0, oracle, u)
  {
    PairsWithout(l0, cleared);
  }

  // ---------------------------------------------------------------------
  // What one tick guarantees
  // ---------------------------------------------------------------------

  /** A pair whose group requires channels that the user has all joined:
      every notice recorded for it is among the deletions... */
  lemma ReadyPairDeleted(l: seq<Notice>, t: GroupTable, oracle: MembershipOracle, u: UserId, g: GroupId)
    requires (u, g) in Pairs(l) && PairReady(t, oracle, u, g)
    ensures multiset(JoinMessages(l, u, g)) <= multiset(Locations(Select(l, ReadyPairs(l, t, oracle))))
  {
    var ready := ReadyPairs(l, t, oracle);
    assert (u, g) in ready;
    SelectMember(l, ready, (u, g));
  }

  /** ... and none of its records is left. */
  lemma ReadyPairCleared(l: seq<Notice>, t: GroupTable, oracle: MembershipOracle, u: UserId, g: GroupId)
    requires (u, g) in Pairs(l) && PairReady(t, oracle, u, g)
    ensures JoinMessages(WithoutPairs(l, ReadyPairs(l, t, oracle)), u, g) == []
  {
    var ready := ReadyPairs(l, t, oracle);
    var p := (u, g);
    assert p in ready;
    SelectWithout(l, ready, {p});
    assert {p} - ready == {};
    SelectNone(l);
  }

  /** A pair whose group requires no channel, or whose user still misses or
      cannot be checked in one of them, keeps every record it had. */
  lemma UnreadyPairKept(l: seq<Notice>, t: GroupTable, oracle: MembershipOracle, u: UserId, g: GroupId)
    requires !PairReady(t, oracle, u, g)
    ensures JoinMessages(WithoutPairs(l, ReadyPairs(l, t, oracle)), u, g) == JoinMessages(l, u, g)
  {
    var ready := ReadyPairs(l, t, oracle);
    SelectWithout(l, ready, {(u, g)});
    assert {(u, g)} - ready == {(u, g)};
  }

  /** Only notices of ready pairs are deleted. */
  lemma OnlyReadyDeleted(l: seq<Notice>, t: GroupTable, oracle: MembershipOracle, loc: Location)
    requires loc in Locations(Select(l, ReadyPairs(l, t, oracle)))
    ensures exists n :: n in l && LocationOf(n) == loc && PairReady(t, oracle, n.user, n.group)
  {
    var ready := ReadyPairs(l, t, oracle);
    var sel := Select(l, ready);
    var k :| 0 <= k < |sel| && Locations(sel)[k] == loc;
    var n := sel[k];
    SelectCount(l, ready, n);
    assert multiset(sel)[n] > 0;
  }

  /** With the same settings and the same answers, a second tick finds no
      ready pair: one tick settles everything it can. */
  lemma TickSettles(l: seq<Notice>, t: GroupTable, oracle: MembershipOracle)
    ensures ReadyPairs(WithoutPairs(l, ReadyPairs(l, t, oracle)), t, oracle) == {}
  {
    PairsWithout(l, ReadyPairs(l, t, oracle));
  }
}
