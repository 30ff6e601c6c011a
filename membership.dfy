/**
 * The membership verifier: how `is_user_admin_or_owner` and
 * `user_is_member_of_channel` read the status that `get_chat_member`
 * reports, and which required channels a user has not joined.
 * `get_chat_member` itself is an oracle: a total function from the
 * question to its answer, where `Failed` stands for a raised `TelegramError`.
 */
module Membership {
  import opened Wrappers

  type UserId = int

  /** The status of a chat member record (Telegram's `creator` is `Owner`,
      its `kicked` is `Banned`). */
  datatype Status = Owner | Administrator | Member | Restricted | Left | Banned

  /** What one `get_chat_member` call yields: a status, or an error. */
  datatype Lookup = Found(status: Status) | Failed

  /** `get_chat_member(channel, user)` for every user and channel asked about. */
  type MembershipOracle = (UserId, string) -> Lookup

  /** `is_user_admin_or_owner`: only an administrator or owner record passes;
      every other status, and every error, reads as "not an admin". */
  function IsUserAdminOrOwner(answer: Lookup): (r: bool)
    ensures r ==> answer.Found?
    ensures r <==> answer in {Found(Administrator), Found(Owner)}
  {
    match answer
    case Found(s) => s == Administrator || s == Owner
    case Failed => false
  }

  /** `user_is_member_of_channel`: owner, administrator, member and restricted
      records count as membership, left and banned do not, and an error gives
      the third answer `None`. */
  function UserIsMemberOfChannel(answer: Lookup): (r: Option<bool>)
    ensures r.None? <==> answer.Failed?
    ensures r == Some(true) <==> answer.Found? && answer.status !in {Left, Banned}
  {
    match answer
    case Failed => None
    case Found(s) =>
      match s
      case Owner | Administrator | Member | Restricted => Some(true)
      case Left | Banned => Some(false)
  }

  /** An admin or owner of a chat is always a member of it by the second
      mapping, and an error never passes either test. */
  lemma AdminIsMember(answer: Lookup)
    ensures IsUserAdminOrOwner(answer) ==> UserIsMemberOfChannel(answer) == Some(true)
    ensures answer.Failed? ==> !IsUserAdminOrOwner(answer) && UserIsMemberOfChannel(answer) != Some(true)
  {
  }

  /** The callers' test `if not res` negated: only `True` passes, so an
      unknown answer (`None`) counts as not joined. */
  predicate Joined(oracle: MembershipOracle, user: UserId, channel: string) {
    UserIsMemberOfChannel(oracle(user, channel)) == Some(true)
  }

  predicate AllJoined(oracle: MembershipOracle, user: UserId, channels: seq<string>) {
    forall k :: 0 <= k < |channels| ==> Joined(oracle, user, channels[k])
  }

  /** `not_member_channels`: the required channels, in order, that the user
      has not joined. */
  function FailingChannels(channels: seq<string>, user: UserId, oracle: MembershipOracle): (r: seq<string>)
    ensures |r| <= |channels|
    ensures r == [] <==> AllJoined(oracle, user, channels)
    decreases |channels|
  {
    if channels == [] then []
    else
      var init := channels[..|channels| - 1];
      var last := channels[|channels| - 1];
      assert channels == init + [last];
      var r0 := FailingChannels(init, user, oracle);
      if Joined(oracle, user, last) then r0 else r0 + [last]
  }

  /** The list holds exactly the configured channels the user has not
      joined. */
  lemma {:induction false} FailingChannelsMembers(channels: seq<string>, user: UserId, oracle: MembershipOracle)
    ensures forall ch :: ch in FailingChannels(channels, user, oracle) <==> ch in channels && !Joined(oracle, user, ch)
    decreases |channels|
  {
    if channels != [] {
      var init, last := channels[..|channels| - 1], channels[|channels| - 1];
      assert channels == init + [last];
      FailingChannelsMembers(init, user, oracle);
      FailingChannelsSnoc(init, last, user, oracle);
    }
  }

  /** One more configured channel adds itself to the end of the list
      exactly when the user has not joined it. */
  lemma FailingChannelsSnoc(channels: seq<string>, ch: string, user: UserId, oracle: MembershipOracle)
    ensures FailingChannels(channels + [ch], user, oracle)
         == if Joined(oracle, user, ch) then FailingChannels(channels, user, oracle)
            else FailingChannels(channels, user, oracle) + [ch]
  {
    var c := channels + [ch];
    assert c[..|c| - 1] == channels;
    assert c[|c| - 1] == ch;
  }

  /** The failing channels of a concatenation are those of each part, in
      order: the list keeps the configured order and every repetition. */
  lemma {:induction false} FailingChannelsConcat(a: seq<string>, b: seq<string>, user: UserId, oracle: MembershipOracle)
    ensures FailingChannels(a + b, user, oracle)
         == FailingChannels(a, user, oracle) + FailingChannels(b, user, oracle)
    decreases |b|
  {
    if b == [] {
      assert a + b == a;
    } else {
      var b0, last := b[..|b| - 1], b[|b| - 1];
      assert b == b0 + [last];
      assert a + b == (a + b0) + [last];
      FailingChannelsConcat(a, b0, user, oracle);
      FailingChannelsSnoc(b0, last, user, oracle);
      FailingChannelsSnoc(a + b0, last, user, oracle);
      if !Joined(oracle, user, last) {
        var fa, fb0 := FailingChannels(a, user, oracle), FailingChannels(b0, user, oracle);
        assert (fa + fb0) + [last] == fa + (fb0 + [last]);
      }
    }
  }
}
