/**
 * The announcement banner (src/components/Marquee.tsx): which stored messages are active,
 * whether a dismissal from the browser's storage suppresses the banner, the dismiss
 * transition, and the rotation of the shown message. Each timer firing is a method; the
 * browser storage is a field holding the stored item.
 */
module Marquee {
  import opened Wrappers
  import opened Seqs
  import opened Text
  import opened DateWindow
  import Records

  /** One entry of `site_settings['marquee_messages'].content.messages`. */
  datatype Message = Message(text: Option<string>, enabled: bool, startDate: Option<Records.Date>, endDate: Option<Records.Date>)

  /** The filter of lines 31-36. */
  predicate IsActive(m: Message, now: Records.Date) {
    m.enabled && m.text.Some? && Trim(m.text.value) != [] && InWindow(m.startDate, m.endDate, now)
  }

  /**
   * A message is active exactly when it is enabled, its text is not all white space, its
   * start is absent or not after now, and its end is absent or not before now.
   */
  lemma ActiveIff(m: Message, now: Records.Date)
    ensures IsActive(m, now) <==>
            m.enabled && m.text.Some? && !AllSpace(m.text.value)
            && (m.startDate.None? || m.startDate.value <= now)
            && (m.endDate.None? || now <= m.endDate.value)
  {
    if m.text.Some? {
      TrimEmpty(m.text.value);
    }
  }

  /** A text of ideographic spaces (U+3000, the full-width space of CJK input) is blank, so inactive. */
  lemma IdeographicSpaceInactive(m: Message, now: Records.Date)
    requires m.text == Some("\U{3000}\U{3000}")
    ensures !IsActive(m, now)
  {
    TrimEmpty(m.text.value);
  }

  /** The filter of lines 31-36: the active messages in stored order, repeated ones as often as stored. */
  function ActiveMessages(items: seq<Message>, now: Records.Date): (r: seq<Message>)
    ensures forall m :: m in r <==> m in items && IsActive(m, now)
    ensures forall m :: multiset(r)[m] == if IsActive(m, now) then multiset(items)[m] else 0
    ensures IsSubsequence(r, items)
  {
    FilterIsSubsequence(items, m => IsActive(m, now));
    Filter(items, m => IsActive(m, now))
  }

  /** `active.map(m => m.text)` (line 39): the texts of the active messages, in stored order. */
  function ActiveTexts(items: seq<Message>, now: Records.Date): (r: seq<string>)
    ensures |r| == |ActiveMessages(items, now)|
    ensures forall i :: 0 <= i < |r| ==> Some(r[i]) == ActiveMessages(items, now)[i].text
    ensures forall i :: 0 <= i < |r| ==> Trim(r[i]) != []
  {
    var active := ActiveMessages(items, now);
    assert forall i :: 0 <= i < |active| ==> active[i] in active;
    seq(|active|, i requires 0 <= i < |active| => active[i].text.value)
  }

  /** `getTodayStr` (lines 146-149) from the local year, the zero-based month and the day. */
  function TodayStr(year: nat, month0: nat, day: nat): string {
    NatToString(year) + "-" + PadTwo(month0 + 1) + "-" + PadTwo(day)
  }

  /**
   * For a four-digit year the string is `YYYY-MM-DD`: ten characters, dashes at 4 and 7,
   * and the year, the one-based month and the day read back from their fields.
   */
  lemma TodayStrFormat(year: nat, month0: nat, day: nat)
    requires 1000 <= year <= 9999 && month0 < 12 && day < 100
    ensures var r := TodayStr(year, month0, day);
            |r| == 10 && r[4] == '-' && r[7] == '-'
            && ParseDigits(r[..4]) == year && ParseDigits(r[5..7]) == month0 + 1 && ParseDigits(r[8..10]) == day
  {
    var r := TodayStr(year, month0, day);
    FourDigits(year);
    PadTwoRoundTrip(month0 + 1);
    PadTwoRoundTrip(day);
    NatToStringRoundTrip(year);
    assert r[..4] == NatToString(year);
    assert r[5..7] == PadTwo(month0 + 1);
    assert r[8..10] == PadTwo(day);
  }

  /** A calendar date within the four-digit years. */
  predicate CalendarDate(year: nat, month0: nat, day: nat) {
    1000 <= year <= 9999 && month0 < 12 && 1 <= day <= 31
  }

  /** Different days give different strings, so a dismissal stops matching the next day. */
  lemma TodayStrInjective(y1: nat, m1: nat, d1: nat, y2: nat, m2: nat, d2: nat)
    requires CalendarDate(y1, m1, d1) && CalendarDate(y2, m2, d2)
    requires TodayStr(y1, m1, d1) == TodayStr(y2, m2, d2)
    ensures y1 == y2 && m1 == m2 && d1 == d2
  {
    TodayStrFormat(y1, m1, d1);
    TodayStrFormat(y2, m2, d2);
  }

  /** The dismissal record as parsed; a field that is not a string reads as `None`. */
  datatype DismissState = DismissState(dismissedDate: Option<string>, updatedAt: Option<string>)

  /** What `JSON.parse` gives for the stored text: a falsy value or some value with its two fields. */
  datatype Parsed = ParsedFalsy | ParsedValue(state: DismissState)

  /**
   * The item under the storage key: absent, or its raw text with what parsing it gives
   * (`None` when parsing throws). JSON text itself is not modelled.
   */
  datatype StoredItem = NoItem | Item(raw: string, parse: Option<Parsed>)

  /** `getDismissState` (lines 151-159) followed by the truthiness test of line 45. */
  function GetDismissState(item: StoredItem): (r: Option<DismissState>)
    ensures r.None? <==> item.NoItem? || item.raw == [] || item.parse.None? || item.parse.value.ParsedFalsy?
    ensures r.Some? ==> item.Item? && item.parse == Some(ParsedValue(r.value))
  {
    if item.NoItem? || item.raw == [] || item.parse.None? then None
    else match item.parse.value
      case ParsedFalsy => None
      case ParsedValue(state) => Some(state)
  }

  /** What `saveDismissState` stores: non-empty text that parses back to the record. */
  function SavedItem(dismissedDate: string, updatedAt: string): (item: StoredItem)
    ensures item.Item? && item.raw != []
  {
    Item("{\"dismissedDate\":\"" + dismissedDate + "\",\"updatedAt\":\"" + updatedAt + "\"}",
         Some(ParsedValue(DismissState(Some(dismissedDate), Some(updatedAt)))))
  }

  /** Lines 44-51: the banner stays hidden when it was dismissed today for the current version. */
  predicate Suppressed(item: StoredItem, today: string, updatedAt: string) {
    var d := GetDismissState(item);
    d.Some? && d.value.dismissedDate == Some(today) && d.value.updatedAt == Some(updatedAt)
  }

  /** A saved dismissal suppresses the banner exactly for the same day and the same version. */
  lemma SavedDismissalSuppresses(saved: string, savedVersion: string, today: string, version: string)
    ensures Suppressed(SavedItem(saved, savedVersion), today, version) <==> today == saved && version == savedVersion
  {
  }

  /** A dismissal saved on one calendar day never suppresses the banner on another. */
  lemma NextDayShowsAgain(y1: nat, m1: nat, d1: nat, y2: nat, m2: nat, d2: nat, version: string)
    requires CalendarDate(y1, m1, d1) && CalendarDate(y2, m2, d2)
    requires (y1, m1, d1) != (y2, m2, d2)
    ensures !Suppressed(SavedItem(TodayStr(y1, m1, d1), version), TodayStr(y2, m2, d2), version)
  {
    if TodayStr(y1, m1, d1) == TodayStr(y2, m2, d2) {
      TodayStrInjective(y1, m1, d1, y2, m2, d2);
    }
  }

  /** A missing, empty or unreadable item never suppresses the banner. */
  lemma NoRecordNeverSuppresses(item: StoredItem, today: string, version: string)
    requires item.NoItem? || item.raw == [] || item.parse.None?
    ensures !Suppressed(item, today, version)
  {
  }

  /** The default text shown when the settings have no message list. */
  const DefaultMessage: string := "首頁活動輪播現正開放廣告合作！想讓更多人看見您的品牌嗎？歡迎聯繫網站管理員洽談廣告投放事宜。"

  /**
   * `data?.content?.messages` as fetched: absent or falsy (including no settings row), a
   * truthy value that is not an array, or an array of messages.
   */
  datatype MessagesField = Missing | NotAnArray | Messages(items: seq<Message>)

  /** The banner's React state plus the stored item. */
  class Banner {
    var visible: bool
    var messages: seq<string>
    var currentIndex: int
    var dbUpdatedAt: string
    var shouldShow: bool
    var stored: StoredItem

    predicate Valid()
      reads this
    {
      currentIndex >= 0
    }

    constructor (stored: StoredItem)
      ensures Valid()
      ensures !visible && messages == [] && currentIndex == 0 && dbUpdatedAt == [] && shouldShow
      ensures this.stored == stored
    {
      visible, messages, currentIndex := false, [], 0;
      dbUpdatedAt, shouldShow := [], true;
      this.stored := stored;
    }

    /**
     * `fetchMessages` (lines 22-65) with the row's `messages` field and `updated_at`,
     * the current instant and today's string. With active messages the texts and the
     * version are taken and the stored dismissal decides `shouldShow`; an array with no
     * active message and a non-array change nothing; a missing list falls back to the
     * default message and shows it whatever was dismissed.
     */
    method Fetch(field: MessagesField, updatedAt: Option<string>, now: Records.Date, today: string)
      requires Valid()
      modifies this`messages, this`dbUpdatedAt, this`shouldShow
      ensures Valid()
      ensures field.Messages? && ActiveTexts(field.items, now) != [] ==>
                messages == ActiveTexts(field.items, now)
                && dbUpdatedAt == updatedAt.GetOr([])
                && shouldShow == !Suppressed(stored, today, updatedAt.GetOr([]))
      ensures field.Missing? ==>
                messages == [DefaultMessage] && shouldShow && dbUpdatedAt == old(dbUpdatedAt)
      ensures field.NotAnArray? || (field.Messages? && ActiveTexts(field.items, now) == []) ==>
                messages == old(messages) && dbUpdatedAt == old(dbUpdatedAt) && shouldShow == old(shouldShow)
    {
      if field.Messages? {
        var active := ActiveTexts(field.items, now);
        if |active| > 0 {
          messages := active;
          var version := updatedAt.GetOr([]);
          dbUpdatedAt := version;
          if Suppressed(stored, today, version) {
            shouldShow := false;
            return;
          }
          shouldShow := true;
        }
      }
      if field.Missing? {
        messages := [DefaultMessage];
        shouldShow := true;
      }
    }

    /** The 15-second show timer runs only with messages and `shouldShow` (lines 70-74). */
    predicate ShowTimerArmed()
      reads this
    {
      |messages| > 0 && shouldShow
    }

    method ShowTimerFires()
      requires ShowTimerArmed()
      modifies this`visible
      ensures visible
    {
      visible := true;
    }

    /** The rotation interval runs only while visible with at least two messages (lines 77-83). */
    predicate Rotating()
      reads this
    {
      visible && |messages| > 1
    }

    /** One rotation tick: the next message, wrapping to the first after the last. */
    method RotateTick()
      requires Valid() && Rotating()
      modifies this`currentIndex
      ensures Valid()
      ensures currentIndex == (old(currentIndex) + 1) % |messages|
      ensures 0 <= currentIndex < |messages|
    {
      currentIndex := (currentIndex + 1) % |messages|;
    }

    /**
     * `handleDismiss` (lines 85-93): hides the banner and stores today's date with the
     * current version; when the storage refuses the write the stored item is unchanged.
     */
    method Dismiss(today: string, storageWritable: bool)
      modifies this`visible, this`shouldShow, this`stored
      ensures !visible && !shouldShow
      ensures stored == if storageWritable then SavedItem(today, dbUpdatedAt) else old(stored)
      ensures storageWritable ==> Suppressed(stored, today, dbUpdatedAt)
      ensures !ShowTimerArmed() && !Rotating()
    {
      visible := false;
      shouldShow := false;
      if storageWritable {
        stored := SavedItem(today, dbUpdatedAt);
      }
    }

    /** Line 95: nothing renders without messages. */
    predicate Rendered()
      reads this
    {
      |messages| > 0 && visible
    }

    /** `messages[currentIndex] || ''` (line 97). */
    function CurrentMessage(): (r: string)
      reads this
      ensures 0 <= currentIndex < |messages| ==> r == messages[currentIndex]
      ensures !(0 <= currentIndex < |messages|) ==> r == []
    {
      if 0 <= currentIndex < |messages| then messages[currentIndex] else []
    }
  }

  /**
   * A dismissal followed by a reload on the same day with an unchanged version keeps the
   * banner hidden: the fetch leaves `shouldShow` false and the show timer is not armed.
   */
  method DismissThenReloadSameDay(items: seq<Message>, now: Records.Date, today: string, version: string)
    returns (b: Banner)
    requires ActiveTexts(items, now) != []
    ensures !b.shouldShow && !b.ShowTimerArmed() && !b.visible
  {
    b := new Banner(NoItem);
    b.Fetch(Messages(items), Some(version), now, today);
    b.Dismiss(today, true);
    var reloaded := new Banner(b.stored);
    reloaded.Fetch(Messages(items), Some(version), now, today);
    b := reloaded;
  }
}
