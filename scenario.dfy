/**
 * One complete round, on concrete values: an admin sets `@chan1` as the
 * required channel of a group; a user who has left that channel writes
 * "hello" and is prompted; once the user has joined, one reconciliation
 * tick deletes both notices and empties the ledger.
 */
module Scenario {
  import opened Wrappers
  import opened Text
  import opened Classifier
  import opened Membership
  import opened Settings
  import opened Ledger
  import opened Moderation
  import opened Reconcile

  const GROUP: GroupId := -1001
  const USER: UserId := 42

  /** The settings table after `/setchannel @chan1` in a new group. */
  function Configured(): GroupTable {
    WithRequiredChannels(map[], GROUP, ParseList("@chan1"))
  }

  function Hello(): Message {
    Message(GROUP, Supergroup, USER, 7, Some("hello"), None)
  }

  /** Telegram's answers before and after the user joins `@chan1`. */
  function HasLeft(u: UserId, channel: string): Lookup { Found(Left) }
  function HasJoined(u: UserId, channel: string): Lookup { Found(Member) }

  lemma ParsedChannel()
    ensures ParseList("@chan1") == ["@chan1"]
  {
    SplitNoComma("@chan1");
    StripStripped("@chan1");
    NormalizeKeeps(["@chan1"]);
  }

  lemma ConfiguredChannels()
    ensures GetRequiredChannels(Configured(), GROUP) == ["@chan1"]
  {
    ParsedChannel();
    SetChannelCommandRoundTrip(map[], GROUP, "@chan1");
  }

  lemma ConfiguredRow()
    ensures GROUP in Configured()
    ensures Configured()[GROUP] == DEFAULT_ROW.(requiredChannels := Configured()[GROUP].requiredChannels)
  {
  }

  lemma ConfiguredKeywords()
    ensures GetBannedKeywords(Configured(), GROUP) == DEFAULT_BANNED_KEYWORDS
  {
    ConfiguredRow();
    DefaultKeywordsParse();
  }

  lemma ConfiguredSettings()
    ensures ChannelsFor(Configured(), Hello()) == ["@chan1"]
    ensures KeywordsFor(Configured(), Hello()) == DEFAULT_BANNED_KEYWORDS
    ensures RowFor(Configured(), Hello()).enforceMembership
    ensures RowFor(Configured(), Hello()).joinButtonText == DEFAULT_JOIN_BUTTON_TEXT
    ensures WithGroup(Configured(), GROUP) == Configured()
  {
    ConfiguredRow();
    ConfiguredChannels();
    ConfiguredKeywords();
  }

  /** A keyword with a letter the text lacks is not mentioned in it. */
  lemma MissingLetter(text: string, kw: string, k: nat)
    requires k < |kw| && LowerChar(kw[k]) !in Lower(text)
    ensures !Mentions(text, kw)
  {
    if Mentions(text, kw) {
      OccursChars(Lower(kw), Lower(text), LowerChar(kw[k]));
    }
  }

  lemma LowerHello()
    ensures Lower("hello") == "hello"
  {
  }

  lemma HelloHasNoLink()
    ensures !ContainsUrl("hello") && !ContainsTmeLink("hello")
  {
    UrlNeedsDotOrColon("hello");
    if ContainsTmeLink("hello") {
      TmeLinkIsUrl("hello");
    }
  }

  /** Each default keyword holds a letter that "hello" lacks. */
  lemma HelloHasNoKeyword()
    ensures forall j :: 0 <= j < |DEFAULT_BANNED_KEYWORDS| ==> !Mentions("hello", DEFAULT_BANNED_KEYWORDS[j])
  {
    LowerHello();
    var kws := DEFAULT_BANNED_KEYWORDS;
    forall j | 0 <= j < |kws| ensures !Mentions("hello", kws[j]) {
      var at := if j == 10 then 1 else 0;
      assert kws[j][at] in "pdbcfgsaw";
      MissingLetter("hello", kws[j], at);
    }
  }

  /** "hello" has no link and mentions none of the default keywords. */
  lemma HelloIsClean()
    ensures Clean(Configured(), Hello())
  {
    ConfiguredSettings();
    assert MessageText(Hello()) == "hello";
    HelloHasNoLink();
    HelloHasNoKeyword();
  }

  lemma ChannelLink()
    ensures "https://t.me/" + WithoutAt("@chan1") == "https://t.me/chan1"
  {
    assert "@chan1" == ['@'] + "chan1";
    LeadingAtDropped("chan1");
  }

  lemma StillAway()
    ensures FailingChannels(ChannelsFor(Configured(), Hello()), USER, HasLeft) == ["@chan1"]
    ensures !AllJoined(HasLeft, USER, ChannelsFor(Configured(), Hello()))
  {
    ConfiguredSettings();
    assert !Joined(HasLeft, USER, "@chan1");
    var init: seq<string> := ["@chan1"][..0];
    assert FailingChannels(init, USER, HasLeft) == [];
  }

  /** A clean message from a user missing exactly one channel is met with
      a prompt for that channel. */
  lemma SingleChannelDecision(m: Message, t: GroupTable, admin: Lookup, oracle: MembershipOracle, channel: string)
    requires !IsUserAdminOrOwner(admin) && Clean(t, m)
    requires RowFor(t, m).enforceMembership
    requires FailingChannels(ChannelsFor(t, m), m.sender, oracle) == [channel]
    ensures DecisionFor(m, WithGroup(t, m.chat), admin, oracle) == Prompt([channel])
  {
    CleanPassesFilter(m, t);
    assert ChannelsFor(t, m) != [];
  }

  /** The actions for a one-channel prompt whose posting succeeded. */
  lemma SingleChannelActions(m: Message, title: string, channel: string, url: string, prompt: MessageId)
    requires "https://t.me/" + WithoutAt(channel) == url
    ensures ActionsFor(m, Prompt([channel]), title, Some(prompt))
         == [DeleteMessage(m.chat, m.id), SendJoinPrompt(m.chat, m.sender, [Button(title, url)]),
             SendDirectNotice(m.sender)]
  {
    assert JoinButtons(title, [channel]) == [Button(title, url)];
  }

  /** A one-channel prompt decision, with both sends succeeding, gives the
      delete, the one-button prompt and the private notice, and both
      records. */
  lemma PromptResponse(m: Message, t: GroupTable, admin: Lookup, oracle: MembershipOracle,
                       prompt: MessageId, dm: MessageId, channel: string, url: string)
    requires IsGroupChat(m.kind)
    requires DecisionFor(m, WithGroup(t, m.chat), admin, oracle) == Prompt([channel])
    requires "https://t.me/" + WithoutAt(channel) == url
    ensures Respond(Some(m), t, admin, oracle, Some(prompt), Some(dm))
         == Response(WithGroup(t, m.chat),
                     [DeleteMessage(m.chat, m.id),
                      SendJoinPrompt(m.chat, m.sender, [Button(RowFor(t, m).joinButtonText, url)]),
                      SendDirectNotice(m.sender)],
                     [Notice(m.sender, m.chat, m.chat, prompt), Notice(m.sender, m.chat, m.sender, dm)])
  {
    var title := RowFor(t, m).joinButtonText;
    SingleChannelActions(m, title, channel, url, prompt);
    RespondInGroup(m, t, admin, oracle, Some(prompt), Some(dm));
  }

  /** A clean message from a user missing exactly one channel, with both
      sends succeeding. */
  lemma SinglePrompt(m: Message, t: GroupTable, admin: Lookup, oracle: MembershipOracle,
                     prompt: MessageId, dm: MessageId, channel: string, url: string)
    requires IsGroupChat(m.kind) && !IsUserAdminOrOwner(admin) && Clean(t, m)
    requires RowFor(t, m).enforceMembership
    requires FailingChannels(ChannelsFor(t, m), m.sender, oracle) == [channel]
    requires "https://t.me/" + WithoutAt(channel) == url
    ensures Respond(Some(m), t, admin, oracle, Some(prompt), Some(dm))
         == Response(WithGroup(t, m.chat),
                     [DeleteMessage(m.chat, m.id),
                      SendJoinPrompt(m.chat, m.sender, [Button(RowFor(t, m).joinButtonText, url)]),
                      SendDirectNotice(m.sender)],
                     [Notice(m.sender, m.chat, m.chat, prompt), Notice(m.sender, m.chat, m.sender, dm)])
  {
    SingleChannelDecision(m, t, admin, oracle, channel);
    PromptResponse(m, t, admin, oracle, prompt, dm, channel, url);
  }

  /** "hello" comes from a plain member of the group and is clean. */
  lemma HelloFromMember()
    ensures IsGroupChat(Hello().kind) && !IsUserAdminOrOwner(Found(Member)) && Clean(Configured(), Hello())
  {
    HelloIsClean();
  }

  /** The user has left `@chan1`: the message is deleted, a prompt with one
      button to `https://t.me/chan1` is posted, the private notice is sent,
      and both notices are recorded for (user, group). */
  lemma PromptedWhileAway()
    ensures Respond(Some(Hello()), Configured(), Found(Member), HasLeft, Some(501), Some(502))
         == Response(Configured(),
                     [DeleteMessage(GROUP, 7),
                      SendJoinPrompt(GROUP, USER, [Button(DEFAULT_JOIN_BUTTON_TEXT, "https://t.me/chan1")]),
                      SendDirectNotice(USER)],
                     [Notice(USER, GROUP, GROUP, 501), Notice(USER, GROUP, USER, 502)])
  {
    HelloFromMember();
    ConfiguredSettings();
    StillAway();
    ChannelLink();
    SinglePrompt(Hello(), Configured(), Found(Member), HasLeft, 501, 502, "@chan1", "https://t.me/chan1");
  }

  /** The ledger after the prompt. */
  function Recorded(): seq<Notice> {
    [Notice(USER, GROUP, GROUP, 501), Notice(USER, GROUP, USER, 502)]
  }

  lemma RecordedPairs()
    ensures Pairs(Recorded()) == {(USER, GROUP)}
  {
    assert PairOf(Recorded()[0]) == (USER, GROUP);
  }

  /** While the user is still away, a tick leaves the ledger as it is. */
  lemma TickWhileAway()
    ensures ReadyPairs(Recorded(), Configured(), HasLeft) == {}
  {
    ConfiguredSettings();
    RecordedPairs();
    assert !PairReady(Configured(), HasLeft, USER, GROUP) by {
      assert !Joined(HasLeft, USER, ChannelsFor(Configured(), Hello())[0]);
    }
  }

  /** Once the user has joined, the pair has channels, all joined. */
  lemma JoinedReady()
    ensures PairReady(Configured(), HasJoined, USER, GROUP)
  {
    ConfiguredSettings();
    assert ChannelsFor(Configured(), Hello()) == GetRequiredChannels(Configured(), GROUP);
  }

  /** A ledger holding one pair, which is ready, has exactly that pair ready. */
  lemma OnlyPairReady(l: seq<Notice>, t: GroupTable, oracle: MembershipOracle, p: Pair)
    requires Pairs(l) == {p} && PairReady(t, oracle, p.0, p.1)
    ensures ReadyPairs(l, t, oracle) == {p}
  {
  }

  /** Once the user has joined, the recorded pair is the one a tick clears. */
  lemma TickAfterJoining()
    ensures ReadyPairs(Recorded(), Configured(), HasJoined) == {(USER, GROUP)}
  {
    RecordedPairs();
    JoinedReady();
    OnlyPairReady(Recorded(), Configured(), HasJoined, (USER, GROUP));
  }

  /** Clearing that pair deletes the prompt in the group and the notice in
      the private chat, and leaves the ledger empty. */
  lemma ClearedAfterJoining()
    ensures WithoutPairs(Recorded(), {(USER, GROUP)}) == []
    ensures Locations(Select(Recorded(), {(USER, GROUP)})) == [Location(GROUP, 501), Location(USER, 502)]
  {
  }
}
