/**
 * `membership_and_adblock_handler`: what the bot does with one incoming
 * group message. Telegram is replaced by its answers: `admin` is what
 * `get_chat_member(chat, sender)` reported, `oracle` answers every
 * membership question, `promptSent` is the id of the posted join prompt
 * (`None` when that send raised, which ends the handler) and `dmSent` the id
 * of the private notice (`None` when that send failed and was swallowed).
 * The handler's effects are a list of actions and the writes to the store.
 */
module Moderation {
  import opened Wrappers
  import opened Text
  import opened Classifier
  import opened Membership
  import opened Settings
  import opened Ledger
  import opened Store

  datatype ChatKind = Private | Group | Supergroup | Channel

  /** The parts of `update.message` the handler reads. */
  datatype Message = Message(
    chat: GroupId,
    kind: ChatKind,
    sender: UserId,
    id: MessageId,
    text: Option<string>,
    caption: Option<string>)

  /** Why a message was removed by the content filter. */
  datatype Violation = AdvertOrLink | BannedWord(keyword: string)

  /** One inline keyboard button of the join prompt. */
  datatype Button = Button(title: string, url: string)

  /** What the handler asks Telegram to do, in order. Deletion failures are
      swallowed, so a deletion is an attempt whatever its outcome. */
  datatype Action =
    | DeleteMessage(chat: ChatId, message: MessageId)
    | SendWarning(chat: ChatId, user: UserId, reason: Violation)
    | SendJoinPrompt(chat: ChatId, user: UserId, buttons: seq<Button>)
    | SendDirectNotice(user: UserId)

  /** What handling one update does: the settings table afterwards, the
      actions issued and the records appended to `pending_join_msgs`. */
  datatype Response = Response(groups: GroupTable, actions: seq<Action>, notices: seq<Notice>)

  predicate IsGroupChat(kind: ChatKind) {
    kind == Group || kind == Supergroup
  }

  /** `msg.text or msg.caption or ""`: an absent or empty text falls through
      to the caption, and an absent or empty caption to the empty string. */
  function MessageText(m: Message): (r: string)
    ensures m.text.Some? && m.text.value != "" ==> r == m.text.value
    ensures (m.text.None? || m.text.value == "") && m.caption.Some? ==> r == m.caption.value
    ensures (m.text.None? || m.text.value == "") && m.caption.None? ==> r == ""
  {
    if m.text.Some? && m.text.value != "" then m.text.value
    else if m.caption.Some? && m.caption.value != "" then m.caption.value
    else ""
  }

  /** `c.replace('@', '')`: every `@` removed, every other character kept in
      order. */
  function WithoutAt(s: string): (r: string)
    ensures '@' !in r
    ensures forall c :: c in r <==> c in s && c != '@'
    ensures '@' !in s ==> r == s
    ensures forall c :: multiset(r)[c] == if c == '@' then 0 else multiset(s)[c]
    decreases |s|
  {
    if s == [] then []
    else
      assert s == [s[0]] + s[1..];
      var rest := WithoutAt(s[1..]);
      if s[0] == '@' then rest else [s[0]] + rest
  }

  /** A channel name written `@name` links to `name` when `name` itself holds
      no `@`. */
  lemma LeadingAtDropped(name: string)
    requires '@' !in name
    ensures WithoutAt(['@'] + name) == name
  {
    assert (['@'] + name)[1..] == name;
  }

  /** Removing `@` keeps the order of everything else: it distributes over
      concatenation. */
  lemma {:induction false} WithoutAtConcat(a: string, b: string)
    ensures WithoutAt(a + b) == WithoutAt(a) + WithoutAt(b)
    decreases |a|
  {
    if a == [] {
      assert a + b == b;
    } else {
      assert (a + b)[0] == a[0];
      assert (a + b)[1..] == a[1..] + b;
      WithoutAtConcat(a[1..], b);
    }
  }

  /** The button link for a channel: `https://t.me/` and the channel name. */
  function JoinUrl(channel: string): (r: string)
    ensures |r| >= 13 && r[..13] == "https://t.me/"
    ensures '@' !in r
    ensures '@' !in channel ==> r == "https://t.me/" + channel
  {
    "https://t.me/" + WithoutAt(channel)
  }

  /** One button per failing channel, in the same order, all carrying the
      group's button text. */
  function JoinButtons(title: string, channels: seq<string>): (r: seq<Button>)
    ensures |r| == |channels|
    ensures forall i :: 0 <= i < |r| ==> r[i] == Button(title, JoinUrl(channels[i]))
  {
    seq(|channels|, i requires 0 <= i < |channels| => Button(title, JoinUrl(channels[i])))
  }

  /** The first banned keyword the content filter acts on, if any: `if bad_kw`
      also skips an empty keyword, which the getters never return. */
  function BadKeyword(text: string, keywords: seq<string>): (r: Option<string>)
    ensures r.Some? ==> r == FindBannedKeyword(text, keywords) && r.value != ""
    ensures r.Some? <==> exists k :: 0 <= k < |keywords| && keywords[k] != ""
                                     && Mentions(text, keywords[k])
                                     && forall j :: 0 <= j < k ==> !Mentions(text, keywords[j])
  {
    var kw := FindBannedKeyword(text, keywords);
    if kw.Some? && kw.value != "" then kw else None
  }

  /** The handler's verdict on one group message. */
  datatype Decision = Ignore | Remove(reason: Violation) | Prompt(failing: seq<string>)

  /** The decision of the handler once the group's settings are read:
      admins pass; with the content filter on, links come first and banned
      words second; then, with membership enforced and channels configured,
      a sender missing some channel is prompted. */
  function Decide(isAdmin: bool, row: GroupRow, channels: seq<string>, keywords: seq<string>,
                  text: string, failing: seq<string>): Decision
  {
    if isAdmin then Ignore
    else if row.enforceAdblock && (ContainsUrl(text) || ContainsTmeLink(text)) then Remove(AdvertOrLink)
    else if row.enforceAdblock && BadKeyword(text, keywords).Some? then
      Remove(BannedWord(BadKeyword(text, keywords).value))
    else if !row.enforceMembership || channels == [] || failing == [] then Ignore
    else Prompt(failing)
  }

  /** The actions that carry out a decision. The private notice is only
      attempted once the prompt was posted. */
  function ActionsFor(m: Message, d: Decision, title: string, promptSent: Option<MessageId>): seq<Action> {
    match d
    case Ignore => []
    case Remove(reason) => [DeleteMessage(m.chat, m.id), SendWarning(m.chat, m.sender, reason)]
    case Prompt(failing) =>
      [DeleteMessage(m.chat, m.id), SendJoinPrompt(m.chat, m.sender, JoinButtons(title, failing))]
      + if promptSent.Some? then [SendDirectNotice(m.sender)] else []
  }

  /** The ledger records written for a decision: the prompt, then the private
      notice if it went out. */
  function NoticesFor(m: Message, d: Decision, promptSent: Option<MessageId>, dmSent: Option<MessageId>): seq<Notice> {
    if !d.Prompt? || promptSent.None? then []
    else
      [Notice(m.sender, m.chat, m.chat, promptSent.value)]
      + if dmSent.Some? then [Notice(m.sender, m.chat, m.sender, dmSent.value)] else []
  }

  /** The decision for an update in a group chat, on the table after
      `ensure_group`. */
  function DecisionFor(m: Message, t1: GroupTable, admin: Lookup, oracle: MembershipOracle): Decision
    requires m.chat in t1
  {
    var channels := GetRequiredChannels(t1, m.chat);
    Decide(IsUserAdminOrOwner(admin), GetGroup(t1, m.chat).value, channels,
           GetBannedKeywords(t1, m.chat), MessageText(m), FailingChannels(channels, m.sender, oracle))
  }

  /** The whole handler as a function of the update, the table before it and
      the answers Telegram gives. */
  function Respond(update: Option<Message>, t: GroupTable, admin: Lookup, oracle: MembershipOracle,
                   promptSent: Option<MessageId>, dmSent: Option<MessageId>): (r: Response)
    ensures |r.actions| <= 3 && |r.notices| <= 2
    ensures r.notices != [] ==> promptSent.Some? && |r.actions| == 3
    ensures update.None? || !IsGroupChat(update.value.kind) ==> r.groups == t && r.actions == [] && r.notices == []
    ensures update.Some? && IsGroupChat(update.value.kind) ==> r.groups == WithGroup(t, update.value.chat)
  {
    if update.None? || !IsGroupChat(update.value.kind) then Response(t, [], [])
    else
      var m := update.value;
      var t1 := WithGroup(t, m.chat);
      var d := DecisionFor(m, t1, admin, oracle);
      Response(t1, ActionsFor(m, d, GetGroup(t1, m.chat).value.joinButtonText, promptSent),
               NoticesFor(m, d, promptSent, dmSent))
  }

  lemma RespondInGroup(m: Message, t: GroupTable, admin: Lookup, oracle: MembershipOracle,
                       promptSent: Option<MessageId>, dmSent: Option<MessageId>)
    requires IsGroupChat(m.kind)
    ensures var t1 := WithGroup(t, m.chat);
            var d := DecisionFor(m, t1, admin, oracle);
            Respond(Some(m), t, admin, oracle, promptSent, dmSent)
            == Response(t1, ActionsFor(m, d, GetGroup(t1, m.chat).value.joinButtonText, promptSent),
                        NoticesFor(m, d, promptSent, dmSent))
  {
  }

  /** The loop collecting `not_member_channels`. */
  method NotMemberChannels(user: UserId, channels: seq<string>, oracle: MembershipOracle)
    returns (failing: seq<string>)
    ensures failing == FailingChannels(channels, user, oracle)
  {
    failing := [];
    var i := 0;
    while i < |channels|
      invariant 0 <= i <= |channels|
      invariant failing == FailingChannels(channels[..i], user, oracle)
    {
      var ch := channels[i];
      var res := UserIsMemberOfChannel(oracle(user, ch));
      assert channels[..i + 1] == channels[..i] + [ch];
      FailingChannelsSnoc(channels[..i], ch, user, oracle);
      if res != Some(true) {
        failing := failing + [ch];
      }
      i := i + 1;
    }
    assert channels[..i] == channels;
  }

  /** The checks of the handler after the settings are read, in the order
      the source makes them; the membership loop runs only when reached. */
  method Assess(isAdmin: bool, row: GroupRow, channels: seq<string>, keywords: seq<string>,
                m: Message, oracle: MembershipOracle)
    returns (d: Decision)
    ensures d == Decide(isAdmin, row, channels, keywords, MessageText(m),
                        FailingChannels(channels, m.sender, oracle))
  {
    if isAdmin {
      return Ignore;
    }
    if row.enforceAdblock {
      var text := MessageText(m);
      if ContainsUrl(text) || ContainsTmeLink(text) {
        return Remove(AdvertOrLink);
      }
      var badKw := FindBannedKeyword(text, keywords);
      if badKw.Some? && badKw.value != "" {
        return Remove(BannedWord(badKw.value));
      }
    }
    if !row.enforceMembership || channels == [] {
      return Ignore;
    }
    var failing := NotMemberChannels(m.sender, channels, oracle);
    if failing == [] {
      return Ignore;
    }
    return Prompt(failing);
  }

  /** Carries out a decision: deletes, warns or prompts, and records the
      prompt and the private notice in the ledger. */
  method Enforce(db: Db, m: Message, d: Decision, title: string,
                 promptSent: Option<MessageId>, dmSent: Option<MessageId>)
    returns (actions: seq<Action>)
    modifies db
    ensures actions == ActionsFor(m, d, title, promptSent)
    ensures db.pending == old(db.pending) + NoticesFor(m, d, promptSent, dmSent)
    ensures db.groups == old(db.groups)
  {
    match d
    case Ignore =>
      actions := [];
    case Remove(reason) =>
      actions := [DeleteMessage(m.chat, m.id), SendWarning(m.chat, m.sender, reason)];
    case Prompt(failing) =>
      actions := [DeleteMessage(m.chat, m.id), SendJoinPrompt(m.chat, m.sender, JoinButtons(title, failing))];
      if promptSent.None? {
        return;
      }
      var prompt := Notice(m.sender, m.chat, m.chat, promptSent.value);
      db.SaveJoinMessage(m.sender, m.chat, m.chat, promptSent.value);
      actions := actions + [SendDirectNotice(m.sender)];
      if dmSent.Some? {
        var dm := Notice(m.sender, m.chat, m.sender, dmSent.value);
        db.SaveJoinMessage(m.sender, m.chat, m.sender, dmSent.value);
        assert db.pending == old(db.pending) + ([prompt] + [dm]);
      }
  }

  /** `membership_and_adblock_handler` on the store: ignore updates without a
      message and chats that are not groups, make sure the group has a row,
      read its settings, decide, then act. */
  method HandleMessage(db: Db, update: Option<Message>, admin: Lookup, oracle: MembershipOracle,
                       promptSent: Option<MessageId>, dmSent: Option<MessageId>)
    returns (actions: seq<Action>)
    modifies db
    ensures var r := Respond(update, old(db.groups), admin, oracle, promptSent, dmSent);
            actions == r.actions && db.groups == r.groups && db.pending == old(db.pending) + r.notices
  {
    if update.None? || !IsGroupChat(update.value.kind) {
      return [];
    }
    var m := update.value;
    RespondInGroup(m, db.groups, admin, oracle, promptSent, dmSent);
    db.EnsureGroup(m.chat);
    var row := GetGroup(db.groups, m.chat).value;
    var channels := GetRequiredChannels(db.groups, m.chat);
    var keywords := GetBannedKeywords(db.groups, m.chat);
    var d := Assess(IsUserAdminOrOwner(admin), row, channels, keywords, m, oracle);
    actions := Enforce(db, m, d, row.joinButtonText, promptSent, dmSent);
  }

  // ---------------------------------------------------------------------
  // What the handler guarantees
  // ---------------------------------------------------------------------

  /** The settings row, channel list and keyword list the handler reads for
      a message's group (after `ensure_group`). */
  function RowFor(t: GroupTable, m: Message): GroupRow {
    GetGroup(WithGroup(t, m.chat), m.chat).value
  }

  function ChannelsFor(t: GroupTable, m: Message): seq<string> {
    GetRequiredChannels(WithGroup(t, m.chat), m.chat)
  }

  function KeywordsFor(t: GroupTable, m: Message): seq<string> {
    GetBannedKeywords(WithGroup(t, m.chat), m.chat)
  }

  /** The content filter has nothing against the message: it is off, or the
      text has no link and mentions no banned keyword. */
  ghost predicate Clean(t: GroupTable, m: Message) {
    var text := MessageText(m);
    var kws := KeywordsFor(t, m);
    !RowFor(t, m).enforceAdblock
    || (!ContainsUrl(text) && !ContainsTmeLink(text) && forall j :: 0 <= j < |kws| ==> !Mentions(text, kws[j]))
  }

  /** Admins and owners pass untouched, although their group's row has
      already been created. */
  lemma AdminsPass(m: Message, t: GroupTable, admin: Lookup, oracle: MembershipOracle,
                   promptSent: Option<MessageId>, dmSent: Option<MessageId>)
    requires IsGroupChat(m.kind) && IsUserAdminOrOwner(admin)
    ensures var r := Respond(Some(m), t, admin, oracle, promptSent, dmSent);
            r.actions == [] && r.notices == [] && r.groups == WithGroup(t, m.chat)
  {
  }

  /** With the filter on, a message with a link is deleted and warned about,
      whatever the sender's memberships: the link test comes before the
      keyword test and ends the handler. */
  lemma LinksRemoved(m: Message, t: GroupTable, admin: Lookup, oracle: MembershipOracle,
                     promptSent: Option<MessageId>, dmSent: Option<MessageId>)
    requires IsGroupChat(m.kind) && !IsUserAdminOrOwner(admin)
    requires RowFor(t, m).enforceAdblock
    requires ContainsUrl(MessageText(m)) || ContainsTmeLink(MessageText(m))
    ensures var r := Respond(Some(m), t, admin, oracle, promptSent, dmSent);
            r.actions == [DeleteMessage(m.chat, m.id), SendWarning(m.chat, m.sender, AdvertOrLink)]
            && r.notices == []
  {
  }

  /** With the filter on and no link, a message mentioning any banned keyword
      is deleted, and the warning names the first keyword of the list that it
      mentions, in its configured spelling. */
  lemma {:induction false} BannedWordsRemoved(m: Message, t: GroupTable, admin: Lookup, oracle: MembershipOracle,
                                              promptSent: Option<MessageId>, dmSent: Option<MessageId>, k: nat)
    requires IsGroupChat(m.kind) && !IsUserAdminOrOwner(admin)
    requires RowFor(t, m).enforceAdblock
    requires !ContainsUrl(MessageText(m)) && !ContainsTmeLink(MessageText(m))
    requires k < |KeywordsFor(t, m)| && Mentions(MessageText(m), KeywordsFor(t, m)[k])
    ensures var r := Respond(Some(m), t, admin, oracle, promptSent, dmSent);
            var kws := KeywordsFor(t, m);
            r.notices == []
            && exists j :: 0 <= j <= k && Mentions(MessageText(m), kws[j])
                           && (forall i :: 0 <= i < j ==> !Mentions(MessageText(m), kws[i]))
                           && r.actions == [DeleteMessage(m.chat, m.id), SendWarning(m.chat, m.sender, BannedWord(kws[j]))]
  {
    var kws := KeywordsFor(t, m);
    var j := FirstMention(MessageText(m), kws, k);
    RespondInGroup(m, t, admin, oracle, promptSent, dmSent);
    assert DecisionFor(m, WithGroup(t, m.chat), admin, oracle) == Remove(BannedWord(kws[j]));
  }

  /** On a list of parsed keywords the filter acts on the first mentioned
      keyword, which comes no later than any mentioned one. */
  lemma FirstMention(text: string, kws: seq<string>, k: nat) returns (j: nat)
    requires AllEntries(kws) && k < |kws| && Mentions(text, kws[k])
    ensures j <= k && Mentions(text, kws[j]) && (forall i :: 0 <= i < j ==> !Mentions(text, kws[i]))
    ensures BadKeyword(text, kws) == Some(kws[j])
  {
    var found := FindBannedKeyword(text, kws);
    j :| 0 <= j < |kws| && kws[j] == found.value && Mentions(text, kws[j])
         && forall i :: 0 <= i < j ==> !Mentions(text, kws[i]);
    assert IsListEntry(kws[j]);
  }

  /** A clean message passes when membership is not enforced or the group
      requires no channel. */
  lemma UnenforcedPass(m: Message, t: GroupTable, admin: Lookup, oracle: MembershipOracle,
                       promptSent: Option<MessageId>, dmSent: Option<MessageId>)
    requires IsGroupChat(m.kind) && Clean(t, m)
    requires !RowFor(t, m).enforceMembership || ChannelsFor(t, m) == []
    ensures var r := Respond(Some(m), t, admin, oracle, promptSent, dmSent);
            r.actions == [] && r.notices == []
  {
    CleanPassesFilter(m, t);
  }

  /** A clean message from a sender who has joined every required channel
      passes. */
  lemma MembersPass(m: Message, t: GroupTable, admin: Lookup, oracle: MembershipOracle,
                    promptSent: Option<MessageId>, dmSent: Option<MessageId>)
    requires IsGroupChat(m.kind) && Clean(t, m)
    requires AllJoined(oracle, m.sender, ChannelsFor(t, m))
    ensures var r := Respond(Some(m), t, admin, oracle, promptSent, dmSent);
            r.actions == [] && r.notices == []
  {
    CleanPassesFilter(m, t);
  }

  lemma CleanPassesFilter(m: Message, t: GroupTable)
    requires Clean(t, m)
    ensures var text := MessageText(m);
            !RowFor(t, m).enforceAdblock
            || (!ContainsUrl(text) && !ContainsTmeLink(text) && BadKeyword(text, KeywordsFor(t, m)).None?)
  {
  }

  /** A clean message from a non-admin who has not joined every required
      channel of a group that enforces membership is deleted and answered with
      a prompt holding one button per missing channel, in configured order,
      each linking to `https://t.me/` and the channel name without `@`. One
      ledger record is written for the prompt if it was posted, and a second
      one, addressed to the sender's private chat, only if the private notice
      went out too. */
  lemma NonMembersPrompted(m: Message, t: GroupTable, admin: Lookup, oracle: MembershipOracle,
                           promptSent: Option<MessageId>, dmSent: Option<MessageId>)
    requires IsGroupChat(m.kind) && !IsUserAdminOrOwner(admin) && Clean(t, m)
    requires RowFor(t, m).enforceMembership
    requires !AllJoined(oracle, m.sender, ChannelsFor(t, m))
    ensures var r := Respond(Some(m), t, admin, oracle, promptSent, dmSent);
            var failing := FailingChannels(ChannelsFor(t, m), m.sender, oracle);
            && failing != []
            && |r.actions| >= 2
            && r.actions[0] == DeleteMessage(m.chat, m.id)
            && r.actions[1].SendJoinPrompt? && r.actions[1].chat == m.chat && r.actions[1].user == m.sender
            && |r.actions[1].buttons| == |failing|
            && (forall i :: 0 <= i < |failing| ==>
                  r.actions[1].buttons[i] == Button(RowFor(t, m).joinButtonText, "https://t.me/" + WithoutAt(failing[i])))
            && (|r.actions| == 3 <==> promptSent.Some?)
            && (|r.actions| == 3 ==> r.actions[2] == SendDirectNotice(m.sender))
            && |r.notices| == (if promptSent.None? then 0 else if dmSent.None? then 1 else 2)
            && (promptSent.Some? ==> r.notices[0] == Notice(m.sender, m.chat, m.chat, promptSent.value))
            && (|r.notices| == 2 ==> r.notices[1] == Notice(m.sender, m.chat, m.sender, dmSent.value))
  {
    var t1, title := WithGroup(t, m.chat), RowFor(t, m).joinButtonText;
    var failing := FailingChannels(ChannelsFor(t, m), m.sender, oracle);
    assert DecisionFor(m, t1, admin, oracle) == Prompt(failing) by {
      CleanPassesFilter(m, t);
      assert ChannelsFor(t, m) != [];
    }
    var acts := ActionsFor(m, Prompt(failing), title, promptSent);
    var notes := NoticesFor(m, Prompt(failing), promptSent, dmSent);
    assert Respond(Some(m), t, admin, oracle, promptSent, dmSent) == Response(t1, acts, notes) by {
      RespondInGroup(m, t, admin, oracle, promptSent, dmSent);
    }
    PromptShape(m, failing, title, promptSent, dmSent);
  }

  /** The actions and records for a prompt, read off their definitions. */
  lemma PromptShape(m: Message, failing: seq<string>, title: string,
                    promptSent: Option<MessageId>, dmSent: Option<MessageId>)
    ensures var acts := ActionsFor(m, Prompt(failing), title, promptSent);
            var notes := NoticesFor(m, Prompt(failing), promptSent, dmSent);
            && |acts| == (if promptSent.Some? then 3 else 2)
            && acts[0] == DeleteMessage(m.chat, m.id)
            && acts[1] == SendJoinPrompt(m.chat, m.sender, JoinButtons(title, failing))
            && (promptSent.Some? ==> acts[2] == SendDirectNotice(m.sender))
            && |notes| == (if promptSent.None? then 0 else if dmSent.None? then 1 else 2)
            && (promptSent.Some? ==> notes[0] == Notice(m.sender, m.chat, m.chat, promptSent.value))
            && (|notes| == 2 ==> notes[1] == Notice(m.sender, m.chat, m.sender, dmSent.value))
  {
  }
}
