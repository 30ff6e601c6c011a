# Membership and ad-block moderation bot, modelled in Dafny

`bot.py` is a Telegram group moderation bot. For each group it keeps settings in a
`groups` table:

- the channels a member must have joined;
- the banned keywords;
- a membership switch and an ad-block switch;
- the text of the join button.

It also keeps a `pending_join_msgs` ledger of join prompts it has posted. On every
group message the handler `membership_and_adblock_handler` does the following, in
order:

1. It lets admins and owners through.
2. With the ad-block switch on, it deletes and warns about links, then about banned
   keywords.
3. With the membership switch on, it deletes the message of a sender who has not
   joined every required channel. It then posts a prompt with one join button per
   missing channel, sends the sender a private notice, and records both notices in
   the ledger.

A background loop runs every few seconds. For every pending (user, group) pair
whose user has since joined all of the group's channels, it deletes the recorded
notices and clears the pair.

The model has these parts:

- **Text** (`text.dfy`): ASCII lower-casing, `strip()`, `split(",")`, `",".join`
  and substring search.
- **Classifier** (`classifier.dfy`): `URL_REGEX` as an explicit predicate anchored
  at a position, `contains_url`, `contains_tme_link` and the first-match keyword
  search.
- **Membership** (`membership.dfy`): the two status mappings, and the list of
  failing channels the handler builds.
- **Settings** (`settings.dfy`): the settings table as a map from group id to a row.
  It has `get_group`, `ensure_group`, the four setters as functions on the table,
  and the comma-list parser used by the getters and by `/setchannel` and
  `/setkeywords`.
- **Ledger** (`ledger.dfy`): the notice table as a sequence of records in insertion
  order, with duplicates. It has the queries `get_join_messages`,
  `get_pending_groups_for_user` and `SELECT DISTINCT user_id`, and the filter that
  `delete_join_messages` applies.
- **Store** (`store.dfy`): the `DB` class. Its two tables are fields that its
  methods update in place, and each method is stated against the functions of
  Settings and Ledger.
- **Moderation** (`moderation.dfy`): the handler as the method `HandleMessage`,
  which updates the store and returns the Telegram actions it takes. It is built
  from `Assess` (the checks, with the loop collecting the failing channels) and
  `Enforce` (the actions and ledger writes). The specification function `Respond`
  computes the same thing, and lemmas state what the handler guarantees.
- **Reconcile** (`reconcile.dfy`): one iteration of `background_membership_checker`.
  Its nested loops are the methods `ReconcileTick`, `ReconcileUser`, `VisitPair`,
  `FullyJoined` (with its `break`) and `ClearPair`. They are proved against the
  set of "ready" pairs the tick clears.
- **Scenario** (`scenario.dfy`): one concrete round on literal values. An admin sets
  `@chan1`, a user who has left it writes "hello" and is prompted, and after the
  user joins, a tick deletes both notices and empties the ledger.

Telegram is replaced by parameters:

- the `get_chat_member` answer for the sender in the group: a status, or `Failed`
  for an error;
- a membership oracle, a function from (user, channel) to such an answer;
- the message id of the posted prompt, or `None` if posting raised;
- the message id of the private notice, or `None` if it raised.

The handler returns the actions it performs: delete, warn, prompt, private notice.
The tick returns the locations it asked to delete.

Two behaviours of the code are worth stating outright, and the model keeps both:

- `get_banned_keywords` falls back to the default list only when the stored
  string is empty, not when parsing yields no entry. So `/setkeywords ,` brings the
  defaults back.
- The handler acts on a keyword only when it is truthy (`if bad_kw`). The getters
  never return an empty keyword, so this changes nothing in practice. It is
  modelled anyway, in `BadKeyword`.

## Model

`UrlAt` (the four alternatives of `URL_REGEX`) and `Decide`, `ActionsFor` and
`NoticesFor` (the handler's branches, its actions and its ledger writes) are
specification definitions. What they state is given by the rows of the members
that use them: `SearchFrom` and `ContainsUrl` for the first; `Respond`, `Assess`,
`Enforce`, `HandleMessage` and the handler lemmas for the others.

| member | source | states |
|---|---|---|
| Text.LowerChar | bot.py:279-281 | `lower()` on one character maps an upper-case ASCII letter to the lower-case letter at the same position of the alphabet, and leaves every other character unchanged |
| Text.Lower | bot.py:279-281 | `lower()` keeps the length and lower-cases each character in place |
| Text.Strip | bot.py:186 | `strip()` yields the slice of the input that has only whitespace before and after it and no whitespace at either end: the input minus its leading and trailing whitespace |
| Text.StripBlank | bot.py:186 | `strip()` yields the empty string exactly when the input is all whitespace, so `if s.strip()` drops exactly the blank pieces |
| Text.StripChars | bot.py:186 | `strip()` adds no character to its input |
| Text.StripStripped | bot.py:186 | `strip()` leaves a stripped string unchanged, so it is idempotent |
| Text.Join | bot.py:178 | `",".join` is empty exactly for the empty list and for the list holding one empty string |
| Text.Split | bot.py:186 | `split(",")` yields at least one piece, and no piece holds a comma |
| Text.SplitNoComma | bot.py:186 | a string without a comma splits into itself alone |
| Text.SplitJoin | bot.py:178-186 | splitting a comma-joined non-empty list of comma-free strings gives the list back |
| Text.ContainsIsOccurs | bot.py:276 | the scan for `needle in hay` is true exactly when the needle occurs at some index of the haystack |
| Classifier.SearchFrom | bot.py:264-273 | `re.search` from position i succeeds exactly when one of the pattern's alternatives matches at some index at or after i |
| Classifier.ContainsUrl | bot.py:272-273 | `contains_url` holds exactly when an `http://`, `https://`, `www.` or `t.me/` literal (any case) followed by a non-whitespace character, or a non-whitespace character, a dot and two ASCII letters, starts at some index |
| Classifier.ContainsTmeLink | bot.py:275-276 | `contains_tme_link` holds exactly when `t.me/` occurs somewhere in the lower-cased text |
| Classifier.TmeLinkIsUrl | bot.py:264-276 | every text for which `contains_tme_link` holds also satisfies `contains_url` |
| Classifier.ExampleUrlDetected | bot.py:264-273 | any text holding `http://example.com` is flagged |
| Classifier.FileNameFlagged | bot.py:268 | the domain alternative also flags a file name such as `see file.txt` |
| Classifier.UrlNeedsDotOrColon | bot.py:264-273 | a text with neither `.` nor `:` is never flagged |
| Classifier.ScanKeywords | bot.py:280-283 | the loop from a position returns None exactly when no later keyword is mentioned; otherwise it returns the first mentioned keyword in its configured spelling |
| Classifier.FindBannedKeyword | bot.py:278-283 | `contains_banned_keyword` returns None exactly when no keyword's lower-case form occurs in the lower-cased text; otherwise the first such keyword of the list, as configured |
| Membership.IsUserAdminOrOwner | bot.py:285-290 | true exactly for an Administrator or Owner status; false on an API error |
| Membership.UserIsMemberOfChannel | bot.py:292-302 | true for Owner, Administrator, Member or Restricted, false for Left or Banned, None on an API error |
| Membership.AdminIsMember | bot.py:285-302 | a user the admin test accepts also counts as a channel member |
| Membership.FailingChannels | bot.py:584-589 | the list is empty exactly when every required channel reports membership, and is never longer than the channel list |
| Membership.FailingChannelsMembers | bot.py:584-589 | the list holds exactly the required channels whose answer is not `True`, so an unknown answer counts as failing |
| Membership.FailingChannelsConcat | bot.py:584-589 | the failing channels of a concatenation are those of each part, in order: configured order and repetitions are kept |
| Settings.WithGroup | bot.py:158-172 | `ensure_group` adds the default row for an unknown group and leaves every existing row as it is |
| Settings.EnsureGroupIdempotent | bot.py:158-172 | a second `ensure_group` changes nothing, and on an existing group the first changes nothing either |
| Settings.GetGroup | bot.py:136-156 | None exactly for an unknown group; otherwise the stored row, except that an empty button text reads as the default button text |
| Settings.Normalize | bot.py:186 | `[s.strip() for s in parts if s.strip()]` is no longer than its input, and every entry is non-blank and stripped |
| Settings.NormalizeMembers | bot.py:186 | every non-blank stripped item is an entry, and every entry is some item stripped |
| Settings.NormalizeConcat | bot.py:186 | the comprehension keeps the items' order: it maps a concatenation to the concatenation of the results |
| Settings.NormalizeNoComma | bot.py:186 | normalizing comma-free pieces leaves them comma-free |
| Settings.NormalizeKeeps | bot.py:186 | pieces that are already non-blank and stripped pass through unchanged |
| Settings.ParseList | bot.py:183-187 | the comma-list parser yields only non-blank, stripped, comma-free entries |
| Settings.ParseJoin | bot.py:174-187 | parsing the comma-join of comma-free items gives the items stripped, with blank ones dropped |
| Settings.ParseListStable | bot.py:388-391 | a list the command parsed comes back unchanged when it is joined and parsed again |
| Settings.ParseEntries | bot.py:174-187 | a list of parser entries is stored and read back unchanged |
| Settings.DefaultKeywordsAreEntries | bot.py:57-61 | every default keyword is non-blank, stripped and comma-free |
| Settings.DefaultKeywordsParse | bot.py:158-202 | the comma-joined default list that `ensure_group` stores parses back to the default list |
| Settings.GetRequiredChannels | bot.py:183-187 | the parsed list holds only parser entries, and is empty for an unknown group or an empty column |
| Settings.GetBannedKeywords | bot.py:198-202 | the parsed list holds only parser entries, and is the default list for an unknown group or an empty column |
| Settings.FreshGroupDefaults | bot.py:158-202 | a group met for the first time has no channels, the default keywords, both switches on and the default button text |
| Settings.WithRequiredChannels | bot.py:174-181 | the table gains the group if it lacked it; other groups are untouched, and of the group's row only the channel column changes |
| Settings.WithBannedKeywords | bot.py:189-196 | the same, for the keyword column |
| Settings.WithEnforceMembership | bot.py:204-211 | the same, for the membership switch, which then reads back as the value set |
| Settings.WithEnforceAdblock | bot.py:213-220 | the same, for the ad-block switch, which then reads back as the value set |
| Settings.RequiredChannelsRoundTrip | bot.py:174-187 | setting comma-free channels and reading them back gives them stripped, with blank ones dropped |
| Settings.BannedKeywordsRoundTrip | bot.py:189-202 | the same for keywords, except that a list stored as the empty string reads back as the default list |
| Settings.SetChannelCommandRoundTrip | bot.py:388-391 | the channels `/setchannel` parsed are exactly the channels read back |
| Settings.SetKeywordsCommandRoundTrip | bot.py:424-427 | the keywords `/setkeywords` parsed are read back, or the default list when the arguments held no entry |
| Settings.SettersIsolated | bot.py:174-220 | no setter changes the row, channels or keywords another group reads |
| Ledger.Select | bot.py:234-237 | the `WHERE user_id = ? AND group_id = ?` filter keeps only records of the given pairs, and no more records than it had |
| Ledger.Locations | bot.py:237 | the `(chat_id, message_id)` columns of each selected record, in the same positions |
| Ledger.WithoutPairs | bot.py:242-245 | `DELETE … WHERE user_id = ? AND group_id = ?` leaves no record of a deleted pair |
| Ledger.GroupsOf | bot.py:250-253 | the groups listed for a user are exactly those of the user's pending pairs |
| Ledger.UsersOf | bot.py:651-652 | the users listed are exactly those holding a record |
| Ledger.SelectCount | bot.py:232-238 | selecting by pairs keeps every record of a selected pair as often as it occurs, and no other record |
| Ledger.WithoutPairsCount | bot.py:240-246 | removing pairs drops every record of a removed pair and keeps every other record as often as it occurs |
| Ledger.LocationsCount | bot.py:232-238 | among records of one pair, each location occurs as often as the record carrying it |
| Ledger.JoinMessages | bot.py:232-238 | `get_join_messages(u, g)` yields each location as often as a record (u, g, chat, message) holds it, and nothing else |
| Ledger.WithoutPair | bot.py:240-246 | `delete_join_messages(u, g)` leaves no record of (u, g) and every other record as often as before |
| Ledger.Distinct | bot.py:251 | `DISTINCT` keeps exactly the values of its input, each once |
| Ledger.PendingGroups | bot.py:248-254 | `get_pending_groups_for_user(u)` yields each group with a record for u, exactly once |
| Ledger.PendingUsers | bot.py:651-652 | `SELECT DISTINCT user_id` yields each user with a record, exactly once |
| Ledger.SelectAppend | bot.py:224-238 | an appended record is selected last, exactly when its pair is selected |
| Ledger.SaveThenGet | bot.py:224-238 | after `save_join_message`, the saved location comes last in the pair's locations; other pairs see no change |
| Ledger.DeleteThenGet | bot.py:232-246 | after `delete_join_messages(u, g)`, (u, g) reads no location and every other pair reads what it read before |
| Ledger.SelectWithout | bot.py:232-246 | selecting after a deletion selects the pairs not deleted |
| Ledger.WithoutPairsTwice | bot.py:240-246 | two rounds of deletion equal one deletion of both sets of pairs |
| Ledger.SelectUnion | bot.py:232-238 | the locations of two disjoint sets of pairs are those of each set, counted with multiplicity |
| Ledger.SelectMember | bot.py:232-238 | a pair's locations are among those of any set of pairs containing it |
| Ledger.PairsWithout | bot.py:240-246 | the pairs left after a deletion are the old pairs minus the deleted ones |
| Store.Db.constructor | bot.py:102-132 | a fresh database has both tables empty |
| Store.Db.EnsureGroup | bot.py:158-172 | the settings table becomes `WithGroup` of the old one; the ledger is unchanged |
| Store.Db.SetRequiredChannels | bot.py:174-181 | the settings table becomes `WithRequiredChannels` of the old one; the ledger is unchanged |
| Store.Db.SetBannedKeywords | bot.py:189-196 | the settings table becomes `WithBannedKeywords` of the old one; the ledger is unchanged |
| Store.Db.SetEnforceMembership | bot.py:204-211 | the settings table becomes `WithEnforceMembership` of the old one; the ledger is unchanged |
| Store.Db.SetEnforceAdblock | bot.py:213-220 | the settings table becomes `WithEnforceAdblock` of the old one; the ledger is unchanged |
| Store.Db.SaveJoinMessage | bot.py:224-230 | the record is appended to the ledger; the settings are unchanged |
| Store.Db.DeleteJoinMessages | bot.py:240-246 | the ledger becomes `WithoutPair` of the old one; the settings are unchanged |
| Moderation.MessageText | bot.py:552 | `msg.text or msg.caption or ""`: the text if non-empty, else the caption if non-empty, else the empty string |
| Moderation.WithoutAt | bot.py:602 | `replace('@', '')` removes every `@` and keeps every other character as often as it occurs, and changes nothing in a string without `@` |
| Moderation.LeadingAtDropped | bot.py:602 | a channel written `@name`, where `name` holds no `@`, links to `name` |
| Moderation.WithoutAtConcat | bot.py:602 | removing `@` keeps the other characters in their order: it maps a concatenation to the concatenation of the results |
| Moderation.JoinUrl | bot.py:602 | the button link starts with `https://t.me/`, never holds an `@`, and is `https://t.me/` plus the name itself when the name has no `@` |
| Moderation.JoinButtons | bot.py:601-604 | one button per failing channel, in order, each with the group's button text and the link `https://t.me/` plus the channel without `@` |
| Moderation.BadKeyword | bot.py:566-567 | the content filter acts on a keyword exactly when the first keyword of the list that the text mentions is non-empty, and then on that keyword as `contains_banned_keyword` returns it |
| Moderation.Respond | bot.py:524-636 | the handler changes nothing for an update without a message or outside a group; in a group it runs `ensure_group`, takes at most three actions and writes at most two records, and writes records only after a posted prompt |
| Moderation.NotMemberChannels | bot.py:584-589 | the loop collects exactly `FailingChannels` |
| Moderation.Assess | bot.py:546-592 | the checks, made in the source's order, return the decision `Decide` specifies, running the membership loop only when it is reached |
| Moderation.Enforce | bot.py:554-636 | the actions taken and the records appended are those the decision calls for; the settings are unchanged |
| Moderation.HandleMessage | bot.py:524-636 | the actions, the new settings table and the appended records are exactly those of `Respond` |
| Moderation.AdminsPass | bot.py:537-548 | an admin's or owner's message passes untouched, although the group row has been created |
| Moderation.LinksRemoved | bot.py:551-564 | with ad-block on, a message with a link is deleted and warned about, whatever the sender's memberships, and nothing is recorded |
| Moderation.BannedWordsRemoved | bot.py:566-577 | with ad-block on and no link, a message mentioning a banned keyword is deleted and warned about, naming the first mentioned keyword of the list |
| Moderation.FirstMention | bot.py:566-567 | on parsed keywords the handler acts on the first mentioned keyword, which comes no later than any mentioned one |
| Moderation.UnenforcedPass | bot.py:579-581 | a clean message passes when the membership switch is off or the group requires no channel |
| Moderation.MembersPass | bot.py:584-592 | a clean message from a sender who has joined every required channel passes |
| Moderation.CleanPassesFilter | bot.py:551-577 | a message with no link and no banned keyword passes the ad-block checks |
| Moderation.NonMembersPrompted | bot.py:594-636 | a clean message from a non-member is deleted and answered with a prompt holding one button per failing channel, in order, each linking to `https://t.me/` plus the channel without `@`; one record follows a posted prompt, and a second, in the private chat, only a sent private notice |
| Reconcile.FullyJoined | bot.py:663-669 | the loop with `break` reports true exactly when every required channel reports membership |
| Reconcile.ClearPair | bot.py:674-684 | every location recorded for the pair is deleted, then the pair's records are cleared |
| Reconcile.VisitPair | bot.py:658-684 | a ready pair has its notices deleted and records cleared; any other pair keeps its records and nothing is deleted |
| Reconcile.ReconcileUser | bot.py:654-684 | visiting a user's pending groups clears exactly that user's ready pairs and deletes exactly their notices |
| Reconcile.ReconcileTick | bot.py:648-684 | one tick clears exactly the ready pairs, deletes exactly their notices counted with multiplicity, and leaves the settings unchanged |
| Reconcile.ReadyPairDeleted | bot.py:674-681 | every notice of a ready pair is among the tick's deletions |
| Reconcile.ReadyPairCleared | bot.py:683-684 | no record of a ready pair is left after the tick |
| Reconcile.UnreadyPairKept | bot.py:659-672 | a pair whose group has no channel, or whose user misses or cannot be checked in one, keeps every record |
| Reconcile.OnlyReadyDeleted | bot.py:658-681 | every deleted location belongs to a record of a ready pair |
| Reconcile.TickSettles | bot.py:648-684 | with the same settings and answers, a second tick finds no ready pair |
| Scenario.ParsedChannel | bot.py:388-389 | `/setchannel @chan1` parses to the one channel `@chan1` |
| Scenario.HelloIsClean | bot.py:551-577 | "hello" has no link and mentions no default keyword |
| Scenario.PromptResponse | bot.py:594-636 | once the decision is a one-channel prompt and both sends succeed, the handler deletes the message, posts a one-button prompt linking to the channel without `@`, sends the private notice, and records both notices |
| Scenario.SinglePrompt | bot.py:594-636 | a clean message from a user missing exactly one channel, with both sends succeeding, gives the delete, one-button prompt and private notice, and both records |
| Scenario.PromptedWhileAway | bot.py:524-636 | a user who has left `@chan1` writes "hello": the message is deleted, a prompt with one button to `https://t.me/chan1` and a private notice go out, and both are recorded |
| Scenario.TickWhileAway | bot.py:658-672 | while the user is still away, no pair is ready |
| Scenario.TickAfterJoining | bot.py:648-684 | once the user has joined, the recorded pair is the one the tick clears |
| Scenario.ClearedAfterJoining | bot.py:674-684 | clearing it deletes the prompt in the group and the notice in the private chat and empties the ledger |

## Left out

- Telegram I/O: `get_chat_member`, `send_message`, `delete_message` and
  `msg.delete`. They are parameters (status answers, sent message ids) or emitted
  actions. The message texts, HTML formatting and `mention_html` are not modelled.
- A failed `msg.delete()` or `delete_message` is swallowed, so the model emits the
  delete action regardless. The tick reports the locations it asked to delete.
- A failed warning send raises, but the handler returns right after it either way,
  so this changes nothing in the model. A failed prompt send is modelled: there is
  no record and no private notice.
- SQLite: the connection, the SQL text and the commits are left out. The tables are
  in-memory values. A `NULL` column is not modelled; the rows hold strings and
  booleans. `override_message` is a field that nothing reads.
- Row order of SQL queries: SQL leaves it unspecified, and the model uses insertion
  order. The ledger contracts that matter are stated with multisets, so they hold
  for any order.
- The command handlers' replies, `admin_required` and `GLOBAL_ADMINS`, `/start`,
  `/help`, `/listsettings`, `main()` and logging. The commands are represented only
  by their parsing of the raw argument string, which is a parameter. The
  `" ".join(context.args)` step and the empty-arguments reply are not modelled.
- Db.constructor: the model opens a new, empty database. `DB` reopens the
  persistent `bot_settings.db` with `CREATE TABLE IF NOT EXISTS`, so after a
  restart the tables keep their rows. Every lemma quantifies over any state, so
  nothing depends on the empty start.
- Concurrency: `asyncio.sleep`, the job queue, and the overlapping checker tasks
  that `run_repeating` starts (bot.py:719-723). One tick is modelled, run alone.
- Exceptions inside the tick: one `try` wraps the whole tick, so an unexpected
  error abandons the rest of it. The model assumes no database error.
- The membership oracle is a fixed function. The same (user, channel) query gets
  the same answer throughout a handler call or a tick.
- `msg.from_user` being `None`: every modelled message has a sender.
- Unicode: `str.lower()`, `\s` and `re.IGNORECASE` are modelled for ASCII only.
  - Whitespace is the ASCII subset of Python's `isspace`.
  - `[a-z]` under IGNORECASE is the 52 ASCII letters. Python would also accept
    U+212A and U+017F.
  - Classifier.ContainsUrl: does not model non-ASCII case folding, because the model
    has ASCII case folding only.
- Normalize: its own ensures states only the shape of the entries. That they are
  the non-blank stripped items in their order is stated by NormalizeMembers
  and NormalizeConcat.
