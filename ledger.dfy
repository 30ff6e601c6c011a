/**
 * The `pending_join_msgs` table as a value: a sequence of notice records in
 * insertion order, duplicates allowed, and the queries the DB methods run
 * over it (`get_join_messages`, `get_pending_groups_for_user`, the
 * `SELECT DISTINCT user_id` of the reconciliation tick) together with the
 * filter `delete_join_messages` applies.
 */
module Ledger {
  import opened Membership
  import opened Settings

  type ChatId = int
  type MessageId = int

  /** One row of `pending_join_msgs`: a notice shown to `user` about `group`,
      posted in chat `chat` as message `message`. */
  datatype Notice = Notice(user: UserId, group: GroupId, chat: ChatId, message: MessageId)

  /** The `(chat_id, message_id)` pair `get_join_messages` yields. */
  datatype Location = Location(chat: ChatId, message: MessageId)

  type Pair = (UserId, GroupId)

  function PairOf(n: Notice): Pair {
    (n.user, n.group)
  }

  function LocationOf(n: Notice): Location {
    Location(n.chat, n.message)
  }

  /** The `(user, group)` pairs that have at least one record. */
  ghost function Pairs(l: seq<Notice>): set<Pair> {
    set n | n in l :: PairOf(n)
  }

  // ---------------------------------------------------------------------
  // Filters by (user, group)
  // ---------------------------------------------------------------------

  /** The records whose pair is in `pairs`, in table order; every such record
      is kept as often as it occurs. */
  function Select(l: seq<Notice>, pairs: set<Pair>): (r: seq<Notice>)
    ensures |r| <= |l|
    ensures forall i :: 0 <= i < |r| ==> PairOf(r[i]) in pairs
    decreases |l|
  {
    if l == [] then []
    else
      var rest := Select(l[1..], pairs);
      if PairOf(l[0]) in pairs then [l[0]] + rest else rest
  }

  /** The records whose pair is not in `pairs`, in table order: what is left
      after `delete_join_messages` has run for every pair of `pairs`. */
  function WithoutPairs(l: seq<Notice>, pairs: set<Pair>): (r: seq<Notice>)
    ensures |r| <= |l|
    ensures forall i :: 0 <= i < |r| ==> PairOf(r[i]) !in pairs
    decreases |l|
  {
    if l == [] then []
    else
      var rest := WithoutPairs(l[1..], pairs);
      if PairOf(l[0]) in pairs then rest else [l[0]] + rest
  }

  /** Selecting keeps every record of a selected pair as often as it occurs
      and drops every other record. */
  lemma {:induction false} SelectCount(l: seq<Notice>, pairs: set<Pair>, n: Notice)
    ensures multiset(Select(l, pairs))[n] == if PairOf(n) in pairs then multiset(l)[n] else 0
    decreases |l|
  {
    if l != [] {
      SelectCount(l[1..], pairs, n);
      assert l == [l[0]] + l[1..];
    }
  }

  /** Removing pairs drops every record of a removed pair and keeps every
      other record as often as it occurs. */
  lemma {:induction false} WithoutPairsCount(l: seq<Notice>, pairs: set<Pair>, n: Notice)
    ensures multiset(WithoutPairs(l, pairs))[n] == if PairOf(n) in pairs then 0 else multiset(l)[n]
    decreases |l|
  {
    if l != [] {
      WithoutPairsCount(l[1..], pairs, n);
      assert l == [l[0]] + l[1..];
    }
  }

  /** The locations of a list of records, in order. */
  function Locations(ns: seq<Notice>): (r: seq<Location>)
    ensures |r| == |ns|
    ensures forall i :: 0 <= i < |ns| ==> r[i] == LocationOf(ns[i])
    decreases |ns|
  {
    if ns == [] then [] else [LocationOf(ns[0])] + Locations(ns[1..])
  }

  lemma {:induction false} LocationsCount(ns: seq<Notice>, p: Pair, loc: Location)
    requires forall i :: 0 <= i < |ns| ==> PairOf(ns[i]) == p
    ensures multiset(Locations(ns))[loc] == multiset(ns)[Notice(p.0, p.1, loc.chat, loc.message)]
    decreases |ns|
  {
    if ns != [] {
      var rest := ns[1..];
      assert forall i :: 0 <= i < |rest| ==> PairOf(rest[i]) == p by {
        forall i | 0 <= i < |rest| ensures PairOf(rest[i]) == p {
          assert rest[i] == ns[i + 1];
        }
      }
      LocationsCount(rest, p, loc);
      var first, target := LocationOf(ns[0]), Notice(p.0, p.1, loc.chat, loc.message);
      assert Locations(ns) == [first] + Locations(rest);
      assert ns == [ns[0]] + rest;
      assert PairOf(ns[0]) == p;
      assert first == loc <==> ns[0] == target;
    }
  }

  /** `get_join_messages(u, g)`: every location saved for the pair, as often
      as it was saved, and nothing else. */
  function JoinMessages(l: seq<Notice>, u: UserId, g: GroupId): (r: seq<Location>)
    ensures forall loc :: multiset(r)[loc] == multiset(l)[Notice(u, g, loc.chat, loc.message)]
  {
    var sel := Select(l, {(u, g)});
    forall loc ensures multiset(Locations(sel))[loc] == multiset(l)[Notice(u, g, loc.chat, loc.message)] {
      LocationsCount(sel, (u, g), loc);
      SelectCount(l, {(u, g)}, Notice(u, g, loc.chat, loc.message));
    }
    Locations(sel)
  }

  /** `delete_join_messages(u, g)`: every record of the pair goes, every other
      record stays, as often as it occurred. */
  function WithoutPair(l: seq<Notice>, u: UserId, g: GroupId): (r: seq<Notice>)
    ensures forall n :: multiset(r)[n] == if n.user == u && n.group == g then 0 else multiset(l)[n]
  {
    forall n ensures multiset(WithoutPairs(l, {(u, g)}))[n] == if n.user == u && n.group == g then 0 else multiset(l)[n] {
      WithoutPairsCount(l, {(u, g)}, n);
    }
    WithoutPairs(l, {(u, g)})
  }

  // ---------------------------------------------------------------------
  // SELECT DISTINCT
  // ---------------------------------------------------------------------

  /** The first occurrence of every value, in order of first occurrence. */
  function Distinct(xs: seq<int>): (r: seq<int>)
    ensures forall x :: x in r <==> x in xs
    ensures forall i, j :: 0 <= i < j < |r| ==> r[i] != r[j]
    decreases |xs|
  {
    if xs == [] then []
    else
      var init := xs[..|xs| - 1];
      var last := xs[|xs| - 1];
      assert xs == init + [last];
      var d := Distinct(init);
      if last in d then d else d + [last]
  }

  /** The groups of the records of `u`, in table order. */
  function GroupsOf(l: seq<Notice>, u: UserId): (r: seq<GroupId>)
    ensures forall g :: g in r <==> (u, g) in Pairs(l)
    decreases |l|
  {
    if l == [] then []
    else
      PairsCons(l);
      var rest := GroupsOf(l[1..], u);
      if l[0].user == u then [l[0].group] + rest else rest
  }

  lemma PairsCons(l: seq<Notice>)
    requires l != []
    ensures Pairs(l) == {PairOf(l[0])} + Pairs(l[1..])
  {
    assert l == [l[0]] + l[1..];
    forall p | p in Pairs(l) ensures p in {PairOf(l[0])} + Pairs(l[1..]) {
      var n :| n in l && PairOf(n) == p;
      if n != l[0] {
        assert n in l[1..];
      }
    }
  }

  /** The users of all records, in table order. */
  function UsersOf(l: seq<Notice>): (r: seq<UserId>)
    ensures forall u :: u in r <==> exists n :: n in l && n.user == u
    decreases |l|
  {
    if l == [] then []
    else
      assert l == [l[0]] + l[1..];
      assert forall n :: n in l <==> n == l[0] || n in l[1..];
      [l[0].user] + UsersOf(l[1..])
  }

  /** `get_pending_groups_for_user(u)`: each group with a record for `u`,
      exactly once. */
  function PendingGroups(l: seq<Notice>, u: UserId): (r: seq<GroupId>)
    ensures forall g :: g in r <==> (u, g) in Pairs(l)
    ensures forall i, j :: 0 <= i < j < |r| ==> r[i] != r[j]
  {
    Distinct(GroupsOf(l, u))
  }

  /** `SELECT DISTINCT user_id FROM pending_join_msgs`: each user with a
      record, exactly once. */
  function PendingUsers(l: seq<Notice>): (r: seq<UserId>)
    ensures forall u :: u in r <==> exists n :: n in l && n.user == u
    ensures forall i, j :: 0 <= i < j < |r| ==> r[i] != r[j]
  {
    Distinct(UsersOf(l))
  }

  // ---------------------------------------------------------------------
  // Laws
  // ---------------------------------------------------------------------

  lemma {:induction false} SelectAppend(l: seq<Notice>, n: Notice, pairs: set<Pair>)
    ensures Select(l + [n], pairs) == Select(l, pairs) + (if PairOf(n) in pairs then [n] else [])
    decreases |l|
  {
    var x := if PairOf(n) in pairs then [n] else [];
    if l == [] {
      assert [n][1..] == [];
      assert Select([n], pairs) == x + Select([], pairs);
    } else {
      SelectAppend(l[1..], n, pairs);
      assert (l + [n])[0] == l[0];
      assert (l + [n])[1..] == l[1..] + [n];
      var rest := Select(l[1..], pairs);
      assert Select(l + [n], pairs) == (if PairOf(l[0]) in pairs then [l[0]] else []) + (rest + x);
      assert Select(l, pairs) == (if PairOf(l[0]) in pairs then [l[0]] else []) + rest;
    }
  }

  /** `save_join_message` then `get_join_messages`: the saved location comes
      last, after everything saved before for the pair; other pairs see no
      change. */
  lemma SaveThenGet(l: seq<Notice>, n: Notice, u: UserId, g: GroupId)
    ensures JoinMessages(l + [n], u, g)
         == JoinMessages(l, u, g) + (if PairOf(n) == (u, g) then [LocationOf(n)] else [])
  {
    var s := Select(l, {(u, g)});
    var x := if PairOf(n) == (u, g) then [n] else [];
    assert Select(l + [n], {(u, g)}) == s + x by {
      SelectAppend(l, n, {(u, g)});
    }
    assert Locations(s + x) == Locations(s) + Locations(x) by {
      LocationsAppend(s, x);
    }
    assert Locations(x) == if PairOf(n) == (u, g) then [LocationOf(n)] else [];
  }

  lemma LocationsAppend(a: seq<Notice>, b: seq<Notice>)
    ensures Locations(a + b) == Locations(a) + Locations(b)
  {
    var r := Locations(a + b);
    assert forall i :: 0 <= i < |a| ==> r[i] == LocationOf(a[i]);
    assert forall i :: |a| <= i < |a| + |b| ==> r[i] == LocationOf(b[i - |a|]);
  }

  /** `delete_join_messages(u, g)` then `get_join_messages(u, g)` finds
      nothing, and every other pair reads back what it read before. */
  lemma {:induction false} DeleteThenGet(l: seq<Notice>, u: UserId, g: GroupId, u': UserId, g': GroupId)
    ensures JoinMessages(WithoutPair(l, u, g), u', g')
         == if (u', g') == (u, g) then [] else JoinMessages(l, u', g')
  {
    SelectWithout(l, {(u, g)}, {(u', g')});
    if (u', g') == (u, g) {
      assert {(u', g')} - {(u, g)} == {};
      SelectNone(WithoutPair(l, u, g));
    } else {
      assert {(u', g')} - {(u, g)} == {(u', g')};
    }
  }

  lemma {:induction false} SelectNone(l: seq<Notice>)
    ensures Select(l, {}) == []
    decreases |l|
  {
    if l != [] {
      SelectNone(l[1..]);
    }
  }

  lemma {:induction false} WithoutNoPairs(l: seq<Notice>)
    ensures WithoutPairs(l, {}) == l
    decreases |l|
  {
    if l != [] {
      WithoutNoPairs(l[1..]);
      assert [l[0]] + l[1..] == l;
    }
  }

  /** Selecting among the records left after removing some pairs selects the
      remaining pairs from the original table. */
  lemma {:induction false} SelectWithout(l: seq<Notice>, removed: set<Pair>, pairs: set<Pair>)
    ensures Select(WithoutPairs(l, removed), pairs) == Select(l, pairs - removed)
    decreases |l|
  {
    if l != [] {
      SelectWithout(l[1..], removed, pairs);
    }
  }

  /** Two rounds of deletion are one deletion of both sets of pairs. */
  lemma {:induction false} WithoutPairsTwice(l: seq<Notice>, s: set<Pair>, t: set<Pair>)
    ensures WithoutPairs(WithoutPairs(l, s), t) == WithoutPairs(l, s + t)
    decreases |l|
  {
    if l != [] {
      WithoutPairsTwice(l[1..], s, t);
    }
  }

  /** The locations selected for two disjoint sets of pairs are those of each
      set, counted with multiplicity. */
  lemma {:induction false} SelectUnion(l: seq<Notice>, s: set<Pair>, t: set<Pair>)
    requires s !! t
    ensures multiset(Locations(Select(l, s + t)))
         == multiset(Locations(Select(l, s))) + multiset(Locations(Select(l, t)))
    decreases |l|
  {
    if l != [] {
      SelectUnion(l[1..], s, t);
      var n := l[0];
      var a := Select(l[1..], s + t);
      var b := Select(l[1..], s);
      var c := Select(l[1..], t);
      if PairOf(n) in s {
        assert Locations([n] + a) == [LocationOf(n)] + Locations(a);
        assert Locations([n] + b) == [LocationOf(n)] + Locations(b);
      } else if PairOf(n) in t {
        assert Locations([n] + a) == [LocationOf(n)] + Locations(a);
        assert Locations([n] + c) == [LocationOf(n)] + Locations(c);
      }
    }
  }

  /** The locations selected for one pair are among those selected for any
      set of pairs containing it. */
  lemma SelectMember(l: seq<Notice>, s: set<Pair>, p: Pair)
    requires p in s
    ensures multiset(Locations(Select(l, {p}))) <= multiset(Locations(Select(l, s)))
  {
    var rest := s - {p};
    assert rest + {p} == s;
    SelectUnion(l, rest, {p});
    var a := multiset(Locations(Select(l, rest)));
    var b := multiset(Locations(Select(l, {p})));
    assert multiset(Locations(Select(l, s))) == a + b;
  }

  /** The pairs left after a deletion are the old pairs minus the deleted ones. */
  lemma PairsWithout(l: seq<Notice>, s: set<Pair>)
    ensures Pairs(WithoutPairs(l, s)) == Pairs(l) - s
  {
    var r := WithoutPairs(l, s);
    forall p | p in Pairs(l) - s ensures p in Pairs(r) {
      var n :| n in l && PairOf(n) == p;
      WithoutPairsCount(l, s, n);
      assert multiset(r)[n] == multiset(l)[n] > 0;
    }
    forall p | p in Pairs(r) ensures p in Pairs(l) - s {
      var n :| n in r && PairOf(n) == p;
      WithoutPairsCount(l, s, n);
      assert multiset(l)[n] == multiset(r)[n] > 0;
    }
  }
}
