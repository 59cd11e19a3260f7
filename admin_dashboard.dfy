/**
 * The admin page (src/pages/AdminDashboard.tsx): the site settings assembled from the
 * `site_settings` rows with their defaults, the event form's save request, the member
 * search, the count of members with an unconfirmed email, and the edits to the banner
 * messages and the terms sections. The hidden-instructor statistics are in HiddenStats.
 */
module AdminDashboard {
  import opened Wrappers
  import opened Records
  import opened Seqs
  import opened Text
  import opened Maps
  import opened Json
  import opened Sets

  const MarqueeKey: string := "marquee_messages"
  const TermsKey: string := "terms"
  const DiscordKey: string := "discord_url"

  /** The sections the page keeps; any other stored key is dropped. */
  const SectionKeys: set<string> :=
    {DiscordKey, "about", "contact", TermsKey, "site_donate_url", "site_donate_embed", MarqueeKey}

  const DefaultBannerText: string := "首頁活動輪播現正開放廣告合作！想讓更多人看見您的品牌嗎？歡迎聯繫網站管理員洽談廣告投放事宜。"

  /** The default fields of each object-valued section (lines 61-69). */
  function SectionDefaults(key: string): Option<map<string, Json>> {
    if key == "about" then
      Some(map["title" := JStr(""), "body" := JStr(""), "body_html" := JStr("")])
    else if key == "contact" then
      Some(map["email" := JStr(""), "email_url" := JStr(""), "line_id" := JStr(""),
               "line_url" := JStr(""), "address" := JStr(""), "address_url" := JStr("")])
    else if key == TermsKey then
      Some(map["title" := JStr("服務條款"), "sections" := JArr([])])
    else if key == "site_donate_url" then
      Some(map["url" := JStr("")])
    else if key == "site_donate_embed" then
      Some(map["html" := JStr("")])
    else if key == MarqueeKey then
      Some(map["messages" := JArr([JObj(map["text" := JStr(DefaultBannerText), "enabled" := JBool(true)])])])
    else None
  }

  /** `settingsMap.key`: `undefined` (here `JNull`) for a key no row had. */
  function Lookup(m: map<string, Json>, key: string): Json {
    if key in m then m[key] else JNull
  }

  /**
   * `setSiteSettings({...})` after the reduce (lines 59-70): `discord_url` defaults to the
   * empty string when falsy; every other section is its defaults overridden by the
   * stored object's fields.
   */
  function SiteSettings(m: map<string, Json>): (s: map<string, Json>)
    ensures s.Keys == SectionKeys
    ensures forall k :: k in s ==> s[k] == SectionValue(m, k)
  {
    map k | k in SectionKeys :: SectionValue(m, k)
  }

  /** One section of the assembled settings. */
  function SectionValue(m: map<string, Json>, key: string): Json {
    if key == DiscordKey then Or(Lookup(m, DiscordKey), JStr(""))
    else WithDefaults(SectionDefaults(key).GetOr(map[]), Lookup(m, key))
  }

  /** Every default field is present, and a stored field replaces its default, key by key. */
  lemma StoredFieldsOverrideDefaults(m: map<string, Json>, key: string, field: string)
    requires SectionDefaults(key).Some?
    ensures key in SiteSettings(m) && SiteSettings(m)[key].JObj?
    ensures field in SectionDefaults(key).value ==> field in SiteSettings(m)[key].fields
    ensures key in m && m[key].JObj? && field in m[key].fields ==>
              SiteSettings(m)[key].fields[field] == m[key].fields[field]
    ensures field in SectionDefaults(key).value && !(key in m && m[key].JObj? && field in m[key].fields) ==>
              SiteSettings(m)[key].fields[field] == SectionDefaults(key).value[field]
  {
  }

  /** A section no row supplied is exactly its defaults; a missing discord link is the empty string. */
  lemma MissingSectionsGetDefaults(m: map<string, Json>, key: string)
    requires key !in m && key in SectionKeys
    ensures key == DiscordKey ==> SiteSettings(m)[key] == JStr("")
    ensures key != DiscordKey ==> SiteSettings(m)[key] == JObj(SectionDefaults(key).value)
  {
    assert SiteSettings(m)[key] == SectionValue(m, key);
    MissingSectionValue(m, key);
    if key != DiscordKey {
      SectionsHaveDefaults(key);
    }
  }

  /** Without a row, a section is its defaults alone. */
  lemma MissingSectionValue(m: map<string, Json>, key: string)
    requires key !in m
    ensures SectionValue(m, key) == if key == DiscordKey then JStr("") else JObj(SectionDefaults(key).GetOr(map[]))
  {
    if key != DiscordKey {
      var d := SectionDefaults(key).GetOr(map[]);
      assert Spread(Lookup(m, key)) == map[];
      assert d + map[] == d;
    }
  }

  /** Every kept section other than the Discord link has defaults. */
  lemma SectionsHaveDefaults(key: string)
    requires key in SectionKeys && key != DiscordKey
    ensures SectionDefaults(key).Some?
  {
  }

  /**
   * A stored banner list, even an empty one, replaces the default message: only a row
   * without a `messages` field keeps it.
   */
  lemma StoredListReplacesDefaultMessage(m: map<string, Json>, items: seq<Json>)
    requires MarqueeKey in m && m[MarqueeKey] == JObj(map["messages" := JArr(items)])
    ensures Get(SiteSettings(m)[MarqueeKey], "messages") == JArr(items)
  {
  }

  /** The site settings from the rows; a later row with the same key overwrites an earlier one. */
  method LoadSiteSettings(rows: seq<(string, Json)>) returns (settings: map<string, Json>)
    ensures settings == SiteSettings(ToMap(rows))
  {
    var settingsMap := BuildMap(rows);
    settings := SiteSettings(settingsMap);
  }

  /** The event form: text inputs, the two dates as `<input type="date">` strings. */
  datatype EventForm = EventForm(title: string, imageUrl: string, linkUrl: string, startDate: string, endDate: string)

  const EmptyEventForm: EventForm := EventForm("", "", "", "", "")

  /** The row written for an event; an unset date is null. */
  datatype EventPayload = EventPayload(title: string, imageUrl: string, linkUrl: string, startDate: Option<string>, endDate: Option<string>)

  /** `value || null` on a string. */
  function NullIfEmpty(s: string): (r: Option<string>)
    ensures r.None? <==> s == []
    ensures r.Some? ==> r.value == s
  {
    if s == [] then None else Some(s)
  }

  /** `eventData` (lines 88-94). */
  function EventPayloadOf(form: EventForm): (p: EventPayload)
    ensures p.title == form.title && p.imageUrl == form.imageUrl && p.linkUrl == form.linkUrl
    ensures p.startDate.None? <==> form.startDate == []
    ensures p.endDate.None? <==> form.endDate == []
    ensures p.startDate.Some? ==> p.startDate.value == form.startDate
    ensures p.endDate.Some? ==> p.endDate.value == form.endDate
  {
    EventPayload(form.title, form.imageUrl, form.linkUrl, NullIfEmpty(form.startDate), NullIfEmpty(form.endDate))
  }

  datatype EventRequest = UpdateEvent(id: Id, payload: EventPayload) | InsertEvent(payload: EventPayload)

  /** A member matches a lower-cased query through the name or the email, a missing one read as ''. */
  predicate MatchesMember(u: Profile, q: string) {
    Contains(Lower(u.fullName.GetOr([])), q) || Contains(Lower(u.email.GetOr([])), q)
  }

  /** `filteredUsers` (lines 238-242). */
  function FilteredUsers(users: seq<Profile>, query: string): (r: seq<Profile>)
    ensures query == [] ==> r == users
    ensures query != [] ==> forall u :: u in r <==> u in users && MatchesMember(u, Lower(query))
    ensures IsSubsequence(r, users)
  {
    FilterIsSubsequence(users, u => query == [] || MatchesMember(u, Lower(query)));
    if query == [] then
      FilterKeepsAll(users, u => query == [] || MatchesMember(u, Lower(query)));
      users
    else
      Filter(users, u => query == [] || MatchesMember(u, Lower(query)))
  }

  /** Queries that differ only in letter case select the same members, in the same order. */
  lemma SearchIgnoresCase(users: seq<Profile>, q1: string, q2: string)
    requires Lower(q1) == Lower(q2)
    ensures FilteredUsers(users, q1) == FilteredUsers(users, q2)
  {
    if q1 != [] {
      FilterCongruent(users, u => q1 == [] || MatchesMember(u, Lower(q1)),
                             u => q2 == [] || MatchesMember(u, Lower(q2)));
    }
  }

  /** The members whose status entry is null. */
  function UnverifiedIds(status: map<Id, Option<string>>): set<Id> {
    set k | k in status && status[k].None?
  }

  /** `unverifiedCount` (lines 165 and 245). */
  function UnverifiedCount(status: map<Id, Option<string>>): (n: nat)
    ensures n <= |status|
    ensures n == 0 <==> forall k :: k in status ==> status[k].Some?
  {
    UnverifiedBounds(status);
    |UnverifiedIds(status)|
  }

  lemma UnverifiedBounds(status: map<Id, Option<string>>)
    ensures |UnverifiedIds(status)| <= |status|
    ensures |UnverifiedIds(status)| == 0 <==> forall k :: k in status ==> status[k].Some?
  {
    var u := UnverifiedIds(status);
    CardinalitySubset(u, status.Keys);
    if |u| != 0 {
      var k :| k in u;
    }
    if exists k :: k in status && status[k].None? {
      var k :| k in status && status[k].None?;
      assert k in u;
    }
  }

  /** Confirming one unconfirmed member lowers the count by one; other entries are unaffected. */
  lemma ConfirmingLowersCount(status: map<Id, Option<string>>, user: Id, at: string)
    requires user in status && status[user].None?
    ensures UnverifiedCount(status[user := Some(at)]) == UnverifiedCount(status) - 1
  {
    assert UnverifiedIds(status[user := Some(at)]) == UnverifiedIds(status) - {user};
  }

  /** A member listed more than once is counted by its last status row only. */
  lemma LastStatusRowDecides(rows: seq<(Id, Option<string>)>, i: nat)
    requires i < |rows|
    requires forall j :: i < j < |rows| ==> rows[j].0 != rows[i].0
    ensures rows[i].0 in UnverifiedIds(ToMap(rows)) <==> rows[i].1.None?
  {
    LastWins(rows, i);
  }

  /** `msgs[idx] = { ...msgs[idx], key: v }` on a copy: only entry `idx` changes. */
  function SetMessageField(msgs: seq<Json>, idx: nat, key: string, v: Json): (r: seq<Json>)
    requires idx < |msgs|
    ensures |r| == |msgs|
    ensures r[idx] == SetKey(msgs[idx], key, v)
    ensures forall j :: 0 <= j < |msgs| && j != idx ==> r[j] == msgs[j]
  {
    msgs[idx := SetKey(msgs[idx], key, v)]
  }

  /** The entry the add button appends (line 649). */
  const NewBannerMessage: Json :=
    JObj(map["text" := JStr(""), "enabled" := JBool(true), "start_date" := JStr(""), "end_date" := JStr("")])

  /** The section the add button appends (line 768). */
  const NewTermsSection: Json := JObj(map["title" := JStr("新章節"), "content" := JStr("")])

  /** `siteSettings.marquee_messages?.messages`. */
  function MessagesOf(settings: map<string, Json>): Json {
    Get(Lookup(settings, MarqueeKey), "messages")
  }

  /** `siteSettings.terms?.sections`. */
  function SectionsOf(settings: map<string, Json>): Json {
    Get(Lookup(settings, TermsKey), "sections")
  }

  /** `{ ...siteSettings, marquee_messages: { ...siteSettings.marquee_messages, messages: msgs } }`. */
  function WithMessages(settings: map<string, Json>, msgs: seq<Json>): (r: map<string, Json>)
    ensures MessagesOf(r) == JArr(msgs)
    ensures forall k :: k != MarqueeKey ==> (k in r <==> k in settings)
    ensures forall k :: k != MarqueeKey && k in settings ==> r[k] == settings[k]
    ensures forall f :: f != "messages" && f in Spread(Lookup(settings, MarqueeKey)) ==>
              f in Spread(Lookup(r, MarqueeKey)) && Spread(Lookup(r, MarqueeKey))[f] == Spread(Lookup(settings, MarqueeKey))[f]
  {
    settings[MarqueeKey := SetKey(Lookup(settings, MarqueeKey), "messages", JArr(msgs))]
  }

  /** `{ ...siteSettings, terms: { ...terms, sections: s } }`. */
  function WithSections(settings: map<string, Json>, terms: Json, s: seq<Json>): (r: map<string, Json>)
    ensures SectionsOf(r) == JArr(s)
    ensures forall k :: k != TermsKey ==> (k in r <==> k in settings)
    ensures forall k :: k != TermsKey && k in settings ==> r[k] == settings[k]
    ensures forall f :: f != "sections" && f in Spread(terms) ==>
              f in Spread(Lookup(r, TermsKey)) && Spread(Lookup(r, TermsKey))[f] == Spread(terms)[f]
  {
    settings[TermsKey := SetKey(terms, "sections", JArr(s))]
  }

  /** The admin page's state used by the modelled handlers. */
  class AdminPage {
    var siteSettings: map<string, Json>
    var users: seq<Profile>
    var memberSearch: string
    var verificationStatus: map<Id, Option<string>>
    var showEventModal: bool
    var editingEvent: Option<Id>
    var newEvent: EventForm

    constructor ()
      ensures siteSettings == map[] && users == [] && memberSearch == [] && verificationStatus == map[]
      ensures !showEventModal && editingEvent.None? && newEvent == EmptyEventForm
    {
      siteSettings, users, memberSearch, verificationStatus := map[], [], [], map[];
      showEventModal, editingEvent, newEvent := false, None, EmptyEventForm;
    }

    /** The settings part of `fetchData` (lines 57-71); the state is kept when the query gave no rows. */
    method LoadSettings(rows: Option<seq<(string, Json)>>)
      modifies this`siteSettings
      ensures siteSettings == if rows.Some? then SiteSettings(ToMap(rows.value)) else old(siteSettings)
    {
      if rows.Some? {
        siteSettings := LoadSiteSettings(rows.value);
      }
    }

    /** `fetchVerificationStatus` (lines 141-151): one entry per user id, the last row winning. */
    method LoadVerificationStatus(rows: Option<seq<(Id, Option<string>)>>)
      modifies this`verificationStatus
      ensures verificationStatus == if rows.Some? then ToMap(rows.value) else old(verificationStatus)
    {
      if rows.Some? {
        verificationStatus := BuildMap(rows.value);
      }
    }

    function ShownUsers(): seq<Profile>
      reads this
    {
      FilteredUsers(users, memberSearch)
    }

    function Unverified(): nat
      reads this
    {
      UnverifiedCount(verificationStatus)
    }

    /**
     * `handleSaveEvent` (lines 87-106): an update of the edited event or an insert, with
     * empty dates sent as null; the modal closes and the form resets whatever the store answers.
     */
    method SaveEvent() returns (request: EventRequest)
      modifies this`showEventModal, this`editingEvent, this`newEvent
      ensures old(editingEvent).Some? ==> request == UpdateEvent(old(editingEvent).value, EventPayloadOf(old(newEvent)))
      ensures old(editingEvent).None? ==> request == InsertEvent(EventPayloadOf(old(newEvent)))
      ensures !showEventModal && editingEvent.None? && newEvent == EmptyEventForm
    {
      var payload := EventPayloadOf(newEvent);
      if editingEvent.Some? {
        request := UpdateEvent(editingEvent.value, payload);
      } else {
        request := InsertEvent(payload);
      }
      showEventModal := false;
      editingEvent := None;
      newEvent := EmptyEventForm;
    }

    /**
     * The per-message inputs (lines 582-586, 593-597, 620-624, 634-638): set one field of
     * message `idx`. They are rendered only while the list is an array.
     */
    method SetMessage(idx: nat, key: string, v: Json)
      requires MessagesOf(siteSettings).JArr? && idx < |MessagesOf(siteSettings).items|
      modifies this`siteSettings
      ensures siteSettings == WithMessages(old(siteSettings), SetMessageField(MessagesOf(old(siteSettings)).items, idx, key, v))
    {
      var msgs := MessagesOf(siteSettings).items;
      msgs := SetMessageField(msgs, idx, key, v);
      siteSettings := WithMessages(siteSettings, msgs);
    }

    /** The delete button of message `idx` (lines 602-606). */
    method DeleteMessage(idx: nat)
      requires MessagesOf(siteSettings).JArr? && idx < |MessagesOf(siteSettings).items|
      modifies this`siteSettings
      ensures siteSettings == WithMessages(old(siteSettings), RemoveAt(MessagesOf(old(siteSettings)).items, idx))
    {
      var msgs := MessagesOf(siteSettings).items;
      siteSettings := WithMessages(siteSettings, RemoveAt(msgs, idx));
    }

    /** The add button (lines 647-651): a blank enabled message at the end, from `messages || []`. */
    method AddMessage()
      modifies this`siteSettings
      ensures siteSettings == WithMessages(old(siteSettings), Items(MessagesOf(old(siteSettings))) + [NewBannerMessage])
    {
      var msgs := Items(MessagesOf(siteSettings));
      msgs := msgs + [NewBannerMessage];
      siteSettings := WithMessages(siteSettings, msgs);
    }

    /** The delete button of section `idx` (line 758). */
    method DeleteSection(idx: nat)
      requires SectionsOf(siteSettings).JArr? && idx < |SectionsOf(siteSettings).items|
      modifies this`siteSettings
      ensures siteSettings == WithSections(old(siteSettings), Lookup(old(siteSettings), TermsKey),
                                           RemoveAt(SectionsOf(old(siteSettings)).items, idx))
    {
      var s := SectionsOf(siteSettings).items;
      siteSettings := WithSections(siteSettings, Lookup(siteSettings, TermsKey), RemoveAt(s, idx));
    }

    /**
     * The title and content inputs of section `idx` (lines 760 and 763): the field is
     * assigned on the section object, which the copied list shares with the previous state.
     */
    method SetSection(idx: nat, key: string, v: Json)
      requires SectionsOf(siteSettings).JArr? && idx < |SectionsOf(siteSettings).items|
      modifies this`siteSettings
      ensures var s := SectionsOf(old(siteSettings)).items;
              siteSettings == WithSections(old(siteSettings), Lookup(old(siteSettings), TermsKey),
                                           s[idx := Assign(s[idx], key, v)])
    {
      var s := SectionsOf(siteSettings).items;
      s := s[idx := Assign(s[idx], key, v)];
      siteSettings := WithSections(siteSettings, Lookup(siteSettings, TermsKey), s);
    }

    /** The add button (line 768): from `terms || { sections: [] }` and `sections || []`. */
    method AddSection()
      modifies this`siteSettings
      ensures var t := Or(Lookup(old(siteSettings), TermsKey), JObj(map["sections" := JArr([])]));
              siteSettings == WithSections(old(siteSettings), t, Items(Get(t, "sections")) + [NewTermsSection])
    {
      var t := Or(Lookup(siteSettings, TermsKey), JObj(map["sections" := JArr([])]));
      var s := Items(Get(t, "sections"));
      s := s + [NewTermsSection];
      siteSettings := WithSections(siteSettings, t, s);
    }
  }

  /** Toggling message `idx` changes its `enabled` flag and nothing else in the list. */
  lemma ToggleChangesOnlyOne(msgs: seq<Json>, idx: nat, checked: bool, j: nat)
    requires idx < |msgs| && j < |msgs|
    ensures var r := SetMessageField(msgs, idx, "enabled", JBool(checked));
            (j != idx ==> r[j] == msgs[j])
            && (j == idx ==> Get(r[j], "enabled") == JBool(checked)
                             && forall f :: f != "enabled" ==> Get(r[j], f) == Get(msgs[j], f))
  {
  }

  /** Adding a message grows the list by one and leaves the earlier messages in place. */
  lemma AddMessageAppends(settings: map<string, Json>)
    ensures var after := WithMessages(settings, Items(MessagesOf(settings)) + [NewBannerMessage]);
            MessagesOf(after).JArr?
            && |MessagesOf(after).items| == |Items(MessagesOf(settings))| + 1
            && MessagesOf(after).items[..|Items(MessagesOf(settings))|] == Items(MessagesOf(settings))
            && MessagesOf(after).items[|Items(MessagesOf(settings))|] == NewBannerMessage
  {
  }

  /** A section added when no terms were set starts the list. */
  lemma AddSectionToMissingTerms(settings: map<string, Json>)
    requires TermsKey !in settings
    ensures var t := Or(Lookup(settings, TermsKey), JObj(map["sections" := JArr([])]));
            SectionsOf(WithSections(settings, t, Items(Get(t, "sections")) + [NewTermsSection])) == JArr([NewTermsSection])
  {
  }
}
