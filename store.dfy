/**
 * The `DB` class: the two tables of the bot, held in memory and updated in
 * place. `groups` is the settings table, `pending` the `pending_join_msgs`
 * table in insertion order. Each write method is stated against the value
 * functions of `Settings` and `Ledger`, whose laws are proved there.
 */
module Store {
  import opened Text
  import opened Settings
  import opened Ledger
  import opened Membership

  class Db {
    var groups: GroupTable
    var pending: seq<Notice>

    /** A fresh database: both tables empty. */
    constructor ()
      ensures groups == map[] && pending == []
    {
      groups := map[];
      pending := [];
    }

    /** `ensure_group`: inserts the default row for an unknown group. */
    method EnsureGroup(gid: GroupId)
      modifies this
      ensures groups == WithGroup(old(groups), gid)
      ensures pending == old(pending)
    {
      if gid !in groups {
        groups := groups[gid := DEFAULT_ROW];
      }
    }

    /** `set_required_channels`. */
    method SetRequiredChannels(gid: GroupId, channels: seq<string>)
      modifies this
      ensures groups == WithRequiredChannels(old(groups), gid, channels)
      ensures pending == old(pending)
    {
      EnsureGroup(gid);
      WithGroupThenUpdate(old(groups), gid, groups[gid].(requiredChannels := Join(channels)));
      groups := groups[gid := groups[gid].(requiredChannels := Join(channels))];
    }

    /** `set_banned_keywords`. */
    method SetBannedKeywords(gid: GroupId, keywords: seq<string>)
      modifies this
      ensures groups == WithBannedKeywords(old(groups), gid, keywords)
      ensures pending == old(pending)
    {
      EnsureGroup(gid);
      WithGroupThenUpdate(old(groups), gid, groups[gid].(bannedKeywords := Join(keywords)));
      groups := groups[gid := groups[gid].(bannedKeywords := Join(keywords))];
    }

    /** `set_enforce_membership`. */
    method SetEnforceMembership(gid: GroupId, value: bool)
      modifies this
      ensures groups == WithEnforceMembership(old(groups), gid, value)
      ensures pending == old(pending)
    {
      EnsureGroup(gid);
      WithGroupThenUpdate(old(groups), gid, groups[gid].(enforceMembership := value));
      groups := groups[gid := groups[gid].(enforceMembership := value)];
    }

    /** `set_enforce_adblock`. */
    method SetEnforceAdblock(gid: GroupId, value: bool)
      modifies this
      ensures groups == WithEnforceAdblock(old(groups), gid, value)
      ensures pending == old(pending)
    {
      EnsureGroup(gid);
      WithGroupThenUpdate(old(groups), gid, groups[gid].(enforceAdblock := value));
      groups := groups[gid := groups[gid].(enforceAdblock := value)];
    }

    /** `save_join_message`: appends one record. */
    method SaveJoinMessage(user: UserId, gid: GroupId, chat: ChatId, message: MessageId)
      modifies this
      ensures pending == old(pending) + [Notice(user, gid, chat, message)]
      ensures groups == old(groups)
    {
      pending := pending + [Notice(user, gid, chat, message)];
    }

    /** `delete_join_messages`: removes every record of one (user, group) pair. */
    method DeleteJoinMessages(user: UserId, gid: GroupId)
      modifies this
      ensures pending == WithoutPair(old(pending), user, gid)
      ensures groups == old(groups)
    {
      pending := WithoutPairs(pending, {(user, gid)});
    }
  }
}
