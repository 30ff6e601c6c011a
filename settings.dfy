/**
 * The `groups` table of the settings store as a value: one row per group,
 * the defaults `ensure_group` inserts, and the read side of the store
 * (`get_group`, `get_required_channels`, `get_banned_keywords`), including
 * the comma-list parsing those getters and the `/setchannel` and
 * `/setkeywords` commands share.
 */
module Settings {
  import opened Wrappers
  import opened Text

  type GroupId = int

  const DEFAULT_BANNED_KEYWORDS: seq<string> := [
    "promo", "promotion", "discount", "bet", "casino", "followers",
    "free followers", "giveaway", "click here", "subscribe",
    "earn", "work from home"
  ]

  const DEFAULT_ENFORCE_MEMBERSHIP: bool := true
  const DEFAULT_ENFORCE_ADBLOCK: bool := true

  /** The column defaults of `join_button_text` and `override_message`. */
  const DEFAULT_JOIN_BUTTON_TEXT: string := "Kanalga a\U{2019}zo bo\U{2018}ling"
  const DEFAULT_OVERRIDE_MESSAGE: string := "Iltimos, majburiy kanalga a\U{2019}zo bo\U{2018}ling."

  /** One row of the `groups` table; the two lists are stored comma-joined. */
  datatype GroupRow = GroupRow(
    requiredChannels: string,
    bannedKeywords: string,
    enforceMembership: bool,
    enforceAdblock: bool,
    joinButtonText: string,
    overrideMessage: string)

  /** The `groups` table, keyed by `group_id`. */
  type GroupTable = map<GroupId, GroupRow>

  /** The row `ensure_group` inserts: no channels, the default keywords,
      both checks on, and the column defaults for the two texts. */
  const DEFAULT_ROW: GroupRow := GroupRow(
    "", Join(DEFAULT_BANNED_KEYWORDS), DEFAULT_ENFORCE_MEMBERSHIP, DEFAULT_ENFORCE_ADBLOCK,
    DEFAULT_JOIN_BUTTON_TEXT, DEFAULT_OVERRIDE_MESSAGE)

  /** The row of a group, or the row `ensure_group` would insert for it. */
  function RowOrDefault(t: GroupTable, gid: GroupId): GroupRow {
    if gid in t then t[gid] else DEFAULT_ROW
  }

  /** The table after `ensure_group(gid)`: a default row for a new group,
      nothing changed for a known one. */
  function WithGroup(t: GroupTable, gid: GroupId): (r: GroupTable)
    ensures gid in r && r.Keys == t.Keys + {gid}
    ensures r[gid] == RowOrDefault(t, gid)
    ensures forall g :: g in t ==> r[g] == t[g]
  {
    if gid in t then t else t[gid := DEFAULT_ROW]
  }

  /** `ensure_group` is idempotent: a second call changes nothing. */
  lemma EnsureGroupIdempotent(t: GroupTable, gid: GroupId)
    ensures WithGroup(WithGroup(t, gid), gid) == WithGroup(t, gid)
    ensures gid in t ==> WithGroup(t, gid) == t
  {
  }

  /** `get_group`: `None` for an unknown group; otherwise the row, with an
      empty button text replaced by its default (`row[4] or ...`). */
  function GetGroup(t: GroupTable, gid: GroupId): (r: Option<GroupRow>)
    ensures r.Some? <==> gid in t
    ensures r.Some? ==> r.value.joinButtonText != ""
    ensures r.Some? ==> r.value == t[gid].(joinButtonText := r.value.joinButtonText)
    ensures r.Some? && t[gid].joinButtonText != "" ==> r.value == t[gid]
    ensures r.Some? && t[gid].joinButtonText == "" ==> r.value.joinButtonText == DEFAULT_JOIN_BUTTON_TEXT
  {
    if gid !in t then None
    else
      var row := t[gid];
      Some(row.(joinButtonText := if row.joinButtonText == "" then DEFAULT_JOIN_BUTTON_TEXT else row.joinButtonText))
  }

  // ---------------------------------------------------------------------
  // Comma lists: [s.strip() for s in raw.split(",") if s.strip()]
  // ---------------------------------------------------------------------

  /** What the parser can yield: non-blank, stripped, comma-free entries. */
  predicate IsListEntry(s: string) {
    s != "" && IsStripped(s) && NoComma(s)
  }

  predicate AllEntries(items: seq<string>) {
    forall i :: 0 <= i < |items| ==> IsListEntry(items[i])
  }

  predicate AllNoComma(items: seq<string>) {
    forall i :: 0 <= i < |items| ==> NoComma(items[i])
  }

  /** `[s.strip() for s in items if s.strip()]`. */
  function Normalize(items: seq<string>): (r: seq<string>)
    ensures |r| <= |items|
    ensures forall i :: 0 <= i < |r| ==> r[i] != "" && IsStripped(r[i])
    decreases |items|
  {
    if items == [] then []
    else
      var s := Strip(items[0]);
      var rest := Normalize(items[1..]);
      if s != "" then
        NormalCons(s, rest);
        [s] + rest
      else rest
  }

  lemma NormalCons(s: string, rest: seq<string>)
    requires s != "" && IsStripped(s)
    requires forall i :: 0 <= i < |rest| ==> rest[i] != "" && IsStripped(rest[i])
    ensures forall i :: 0 <= i < |rest| + 1 ==> ([s] + rest)[i] != "" && IsStripped(([s] + rest)[i])
  {
    forall i | 0 <= i < |rest| + 1 ensures ([s] + rest)[i] != "" && IsStripped(([s] + rest)[i]) {
      if i > 0 {
        assert ([s] + rest)[i] == rest[i - 1];
      }
    }
  }

  /** The entries are exactly the non-blank stripped items. */
  lemma NormalizeMembers(items: seq<string>)
    ensures forall i :: 0 <= i < |items| && Strip(items[i]) != "" ==> Strip(items[i]) in Normalize(items)
    ensures forall x :: x in Normalize(items) ==> exists i :: 0 <= i < |items| && x == Strip(items[i])
  {
    forall i | 0 <= i < |items| && Strip(items[i]) != "" ensures Strip(items[i]) in Normalize(items) {
      NormalizeHas(items, i);
    }
    forall x | x in Normalize(items) ensures exists i :: 0 <= i < |items| && x == Strip(items[i]) {
      NormalizeFrom(items, x);
    }
  }

  lemma {:induction false} NormalizeHas(items: seq<string>, i: nat)
    requires i < |items| && Strip(items[i]) != ""
    ensures Strip(items[i]) in Normalize(items)
    decreases i
  {
    var head := if Strip(items[0]) != "" then [Strip(items[0])] else [];
    assert Normalize(items) == head + Normalize(items[1..]);
    if i > 0 {
      assert items[1..][i - 1] == items[i];
      NormalizeHas(items[1..], i - 1);
    }
  }

  lemma {:induction false} NormalizeFrom(items: seq<string>, x: string)
    requires x in Normalize(items)
    ensures exists i :: 0 <= i < |items| && x == Strip(items[i])
    decreases |items|
  {
    var head := if Strip(items[0]) != "" then [Strip(items[0])] else [];
    assert Normalize(items) == head + Normalize(items[1..]);
    if x != Strip(items[0]) {
      NormalizeFrom(items[1..], x);
      var i :| 0 <= i < |items| - 1 && x == Strip(items[1..][i]);
      assert items[1..][i] == items[i + 1];
    }
  }

  /** Normalizing keeps the order of the items: it distributes over
      concatenation. */
  lemma {:induction false} NormalizeConcat(a: seq<string>, b: seq<string>)
    ensures Normalize(a + b) == Normalize(a) + Normalize(b)
    decreases |a|
  {
    if a == [] {
      assert a + b == b;
    } else {
      assert (a + b)[0] == a[0];
      assert (a + b)[1..] == a[1..] + b;
      NormalizeConcat(a[1..], b);
    }
  }

  /** A single item normalizes to itself stripped, or to nothing if blank. */
  lemma NormalizeOne(x: string)
    ensures Normalize([x]) == if Strip(x) == "" then [] else [Strip(x)]
  {
    assert [x][1..] == [];
  }

  /** Stripping adds no character, so comma-free items stay comma-free. */
  lemma {:induction false} NormalizeNoComma(items: seq<string>)
    requires AllNoComma(items)
    ensures AllNoComma(Normalize(items))
    decreases |items|
  {
    if items != [] {
      var s := Strip(items[0]);
      assert NoComma(s) by {
        assert NoComma(items[0]);
        StripChars(items[0]);
      }
      AllNoCommaTail(items);
      NormalizeNoComma(items[1..]);
      if s != "" {
        AllNoCommaCons(s, Normalize(items[1..]));
      }
    }
  }

  lemma AllNoCommaTail(items: seq<string>)
    requires items != [] && AllNoComma(items)
    ensures AllNoComma(items[1..])
  {
    forall i | 0 <= i < |items| - 1 ensures NoComma(items[1..][i]) {
      assert items[1..][i] == items[i + 1];
    }
  }

  lemma AllNoCommaCons(s: string, rest: seq<string>)
    requires NoComma(s) && AllNoComma(rest)
    ensures AllNoComma([s] + rest)
  {
    forall i | 0 <= i < |rest| + 1 ensures NoComma(([s] + rest)[i]) {
      if i > 0 {
        assert ([s] + rest)[i] == rest[i - 1];
      }
    }
  }

  /** Entries that are already non-blank and stripped pass through unchanged. */
  lemma {:induction false} NormalizeKeeps(items: seq<string>)
    requires forall i :: 0 <= i < |items| ==> items[i] != "" && IsStripped(items[i])
    ensures Normalize(items) == items
    decreases |items|
  {
    if items != [] {
      StripStripped(items[0]);
      NormalizeKeeps(items[1..]);
      assert [items[0]] + items[1..] == items;
    }
  }

  /** The comma-list parser of the getters and of the two list commands. */
  function ParseList(raw: string): (r: seq<string>)
    ensures AllEntries(r)
  {
    var parts := Split(raw);
    NormalizeNoComma(parts);
    Normalize(parts)
  }

  /** Storing a list and parsing it back gives the list with every entry
      stripped and the blank ones dropped, provided no entry holds a comma. */
  lemma {:induction false} ParseJoin(items: seq<string>)
    requires AllNoComma(items)
    ensures ParseList(Join(items)) == Normalize(items)
  {
    if items == [] {
      assert Split("") == [""];
      assert Strip("") == "";
      assert Normalize([""]) == Normalize([]);
    } else {
      SplitJoin(items);
    }
  }

  /** What a command parsed is exactly what the getter later returns:
      parsing, joining and parsing again changes nothing. */
  lemma {:induction false} ParseListStable(raw: string)
    ensures ParseList(Join(ParseList(raw))) == ParseList(raw)
  {
    ParseEntries(ParseList(raw));
  }

  /** A list of parser entries is stored and read back unchanged. */
  lemma ParseEntries(items: seq<string>)
    requires AllEntries(items)
    ensures ParseList(Join(items)) == items
  {
    assert AllNoComma(items) by {
      forall i | 0 <= i < |items| ensures NoComma(items[i]) {
        assert IsListEntry(items[i]);
      }
    }
    ParseJoin(items);
    NormalizeKeeps(items);
  }

  lemma DefaultKeywordsAreEntries()
    ensures AllEntries(DEFAULT_BANNED_KEYWORDS)
  {
    forall i | 0 <= i < |DEFAULT_BANNED_KEYWORDS| ensures IsListEntry(DEFAULT_BANNED_KEYWORDS[i]) {
      var c := DEFAULT_BANNED_KEYWORDS[i];
      assert c != "" && !IsSpace(c[0]) && !IsSpace(c[|c| - 1]) && ',' !in c;
    }
  }

  /** The stored default list parses back to itself. */
  lemma DefaultKeywordsParse()
    ensures ParseList(Join(DEFAULT_BANNED_KEYWORDS)) == DEFAULT_BANNED_KEYWORDS
  {
    DefaultKeywordsAreEntries();
    ParseEntries(DEFAULT_BANNED_KEYWORDS);
  }

  // ---------------------------------------------------------------------
  // Getters
  // ---------------------------------------------------------------------

  /** `get_required_channels`: the parsed channel list; empty for an unknown
      group or an empty column. */
  function GetRequiredChannels(t: GroupTable, gid: GroupId): (r: seq<string>)
    ensures AllEntries(r)
    ensures gid !in t || t[gid].requiredChannels == "" ==> r == []
  {
    var g := GetGroup(t, gid);
    if g.None? || g.value.requiredChannels == "" then []
    else ParseList(g.value.requiredChannels)
  }

  /** `get_banned_keywords`: the parsed keyword list; a copy of the default
      list for an unknown group or an empty column. */
  function GetBannedKeywords(t: GroupTable, gid: GroupId): (r: seq<string>)
    ensures AllEntries(r)
    ensures gid !in t || t[gid].bannedKeywords == "" ==> r == DEFAULT_BANNED_KEYWORDS
  {
    var g := GetGroup(t, gid);
    if g.None? || g.value.bannedKeywords == "" then
      DefaultKeywordsAreEntries();
      DEFAULT_BANNED_KEYWORDS
    else ParseList(g.value.bannedKeywords)
  }

  /** A group met for the first time gets no channels, the default keyword
      list, both checks switched on and the default button text. */
  lemma FreshGroupDefaults(t: GroupTable, gid: GroupId)
    requires gid !in t
    ensures GetRequiredChannels(WithGroup(t, gid), gid) == []
    ensures GetBannedKeywords(WithGroup(t, gid), gid) == DEFAULT_BANNED_KEYWORDS
    ensures GetGroup(WithGroup(t, gid), gid).value.enforceMembership
    ensures GetGroup(WithGroup(t, gid), gid).value.enforceAdblock
    ensures GetGroup(WithGroup(t, gid), gid).value.joinButtonText == DEFAULT_JOIN_BUTTON_TEXT
  {
    var t1 := WithGroup(t, gid);
    assert t1[gid] == DEFAULT_ROW;
    assert GetBannedKeywords(t1, gid) == DEFAULT_BANNED_KEYWORDS by {
      DefaultKeywordsParse();
    }
  }

  // ---------------------------------------------------------------------
  // Setters: ensure_group, then overwrite one column of that one row
  // ---------------------------------------------------------------------

  /** Overwriting the row of a group after `ensure_group` is overwriting it
      in the original table. */
  lemma WithGroupThenUpdate(t: GroupTable, gid: GroupId, row: GroupRow)
    ensures WithGroup(t, gid)[gid := row] == t[gid := row]
  {
  }

  /** The table after `set_required_channels(gid, channels)`. */
  function WithRequiredChannels(t: GroupTable, gid: GroupId, channels: seq<string>): (r: GroupTable)
    ensures r.Keys == t.Keys + {gid}
    ensures forall g :: g in t && g != gid ==> r[g] == t[g]
    ensures r[gid] == RowOrDefault(t, gid).(requiredChannels := r[gid].requiredChannels)
  {
    t[gid := RowOrDefault(t, gid).(requiredChannels := Join(channels))]
  }

  /** The table after `set_banned_keywords(gid, keywords)`. */
  function WithBannedKeywords(t: GroupTable, gid: GroupId, keywords: seq<string>): (r: GroupTable)
    ensures r.Keys == t.Keys + {gid}
    ensures forall g :: g in t && g != gid ==> r[g] == t[g]
    ensures r[gid] == RowOrDefault(t, gid).(bannedKeywords := r[gid].bannedKeywords)
  {
    t[gid := RowOrDefault(t, gid).(bannedKeywords := Join(keywords))]
  }

  /** The table after `set_enforce_membership(gid, value)`. */
  function WithEnforceMembership(t: GroupTable, gid: GroupId, value: bool): (r: GroupTable)
    ensures r.Keys == t.Keys + {gid}
    ensures forall g :: g in t && g != gid ==> r[g] == t[g]
    ensures r[gid] == RowOrDefault(t, gid).(enforceMembership := r[gid].enforceMembership)
    ensures GetGroup(r, gid).value.enforceMembership == value
  {
    var row := RowOrDefault(t, gid).(enforceMembership := value);
    assert row.enforceMembership == value;
    t[gid := row]
  }

  /** The table after `set_enforce_adblock(gid, value)`. */
  function WithEnforceAdblock(t: GroupTable, gid: GroupId, value: bool): (r: GroupTable)
    ensures r.Keys == t.Keys + {gid}
    ensures forall g :: g in t && g != gid ==> r[g] == t[g]
    ensures r[gid] == RowOrDefault(t, gid).(enforceAdblock := r[gid].enforceAdblock)
    ensures GetGroup(r, gid).value.enforceAdblock == value
  {
    var row := RowOrDefault(t, gid).(enforceAdblock := value);
    assert row.enforceAdblock == value;
    t[gid := row]
  }

  /** `set_required_channels` then `get_required_channels`: the list comes
      back stripped and without blank entries, provided no entry holds a
      comma. */
  lemma RequiredChannelsRoundTrip(t: GroupTable, gid: GroupId, channels: seq<string>)
    requires AllNoComma(channels)
    ensures GetRequiredChannels(WithRequiredChannels(t, gid, channels), gid) == Normalize(channels)
  {
    ParseJoin(channels);
  }

  /** `set_banned_keywords` then `get_banned_keywords`: the same, except that
      a list stored as the empty string (`[]` or `[""]`) reads back as the
      default list. */
  lemma BannedKeywordsRoundTrip(t: GroupTable, gid: GroupId, keywords: seq<string>)
    requires AllNoComma(keywords)
    ensures GetBannedKeywords(WithBannedKeywords(t, gid, keywords), gid)
         == if keywords == [] || keywords == [""] then DEFAULT_BANNED_KEYWORDS else Normalize(keywords)
  {
    ParseJoin(keywords);
  }

  /** What `/setchannel` parsed from its arguments is exactly the list that
      is enforced from then on. */
  lemma SetChannelCommandRoundTrip(t: GroupTable, gid: GroupId, raw: string)
    ensures GetRequiredChannels(WithRequiredChannels(t, gid, ParseList(raw)), gid) == ParseList(raw)
  {
    var parsed := ParseList(raw);
    RequiredChannelsRoundTrip(t, gid, parsed);
    NormalizeKeeps(parsed);
  }

  /** What `/setkeywords` parsed is the list enforced from then on, except
      that arguments with no entry at all (such as a lone comma) bring back
      the default list. */
  lemma SetKeywordsCommandRoundTrip(t: GroupTable, gid: GroupId, raw: string)
    ensures GetBannedKeywords(WithBannedKeywords(t, gid, ParseList(raw)), gid)
         == if ParseList(raw) == [] then DEFAULT_BANNED_KEYWORDS else ParseList(raw)
  {
    var parsed := ParseList(raw);
    BannedKeywordsRoundTrip(t, gid, parsed);
    NormalizeKeeps(parsed);
  }

  /** A setter touches one group only: every other group reads back the same
      row, channels and keywords as before. */
  lemma SettersIsolated(t: GroupTable, gid: GroupId, other: GroupId, items: seq<string>, value: bool)
    requires other != gid
    ensures SameSettings(WithRequiredChannels(t, gid, items), t, other)
    ensures SameSettings(WithBannedKeywords(t, gid, items), t, other)
    ensures SameSettings(WithEnforceMembership(t, gid, value), t, other)
    ensures SameSettings(WithEnforceAdblock(t, gid, value), t, other)
  {
    SameRow(WithRequiredChannels(t, gid, items), t, other);
    SameRow(WithBannedKeywords(t, gid, items), t, other);
    SameRow(WithEnforceMembership(t, gid, value), t, other);
    SameRow(WithEnforceAdblock(t, gid, value), t, other);
  }

  /** Two tables that agree on group `g`'s row agree on all its settings. */
  lemma SameRow(t1: GroupTable, t2: GroupTable, g: GroupId)
    requires (g in t1 <==> g in t2) && (g in t1 ==> t1[g] == t2[g])
    ensures SameSettings(t1, t2, g)
  {
  }

  /** Group `g` reads the same row, channels and keywords in both tables. */
  predicate SameSettings(t1: GroupTable, t2: GroupTable, g: GroupId) {
    && GetGroup(t1, g) == GetGroup(t2, g)
    && GetRequiredChannels(t1, g) == GetRequiredChannels(t2, g)
    && GetBannedKeywords(t1, g) == GetBannedKeywords(t2, g)
  }
}
