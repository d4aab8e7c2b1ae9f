/**
 * The decision logic of the assistant's chat endpoint (`chat` in
 * `backend/src/controllers/aiController.ts`): the keyword fallback for the intent,
 * resolution of the current and the mentioned user, the free-slot gap finder,
 * the 4 PM conflict check, topic selection, and the reply each intent produces.
 * The NLP analysis, the database queries and the clock are inputs: the analysis
 * and the query results are parameters, and meeting times arrive as the hours
 * `getHours` gives.
 */
module AiController {
  import opened Wrappers
  import opened Text
  import opened Keywords

  // ---------------------------------------------------------------------------
  // Inputs

  /** An hour of the local day, as `Date.prototype.getHours` returns it. */
  type Hour = h: int | 0 <= h <= 23

  /** The entities the NLP analysis extracted; None where the field is absent. */
  datatype Entities = Entities(person: Option<string>, topic: Option<string>, date: Option<string>)

  /** The result of the NLP analysis of the query. */
  datatype Analysis = Analysis(intent: string, entities: Entities, confidence: real)

  datatype User = User(id: string, name: string, designation: string)

  /** A meeting of today, by the hours its start and end fall in. */
  datatype Meeting = Meeting(start: Hour, end: Hour)

  /** JavaScript truthiness of an optional string: present and not empty. */
  predicate Truthy(s: Option<string>)
  {
    s.Some? && s.value != ""
  }

  /** JavaScript's `s || d` on an optional string. */
  function OrElse(s: Option<string>, d: string): string
  {
    if Truthy(s) then s.value else d
  }

  // ---------------------------------------------------------------------------
  // Intent

  /** The NLP intent is trusted unless it is "unknown" or its confidence is below one half. */
  predicate Trusted(analysis: Analysis)
  {
    analysis.intent != "unknown" && analysis.confidence >= 0.5
  }

  /** The keyword fallback: the first group with a keyword in the lower-cased query sets the intent. */
  function FallbackIntent(lowerQuery: string, intent: string): string
  {
    if Contains(lowerQuery, "free time") || Contains(lowerQuery, "available") then "check_availability"
    else if Contains(lowerQuery, "tasks") then "fetch_tasks"
    else if Contains(lowerQuery, "reschedule") then "reschedule_suggestion"
    else if Contains(lowerQuery, "schedule") || Contains(lowerQuery, "meeting") then "schedule_meeting"
    else if Contains(lowerQuery, "create") || Contains(lowerQuery, "task") then "create_task"
    else if Contains(lowerQuery, "status") then "check_status"
    else if Contains(lowerQuery, "document") || Contains(lowerQuery, "summary") || Contains(lowerQuery, "report") then "document_query"
    else if Contains(lowerQuery, "hello") || Contains(lowerQuery, "hi") then "greeting"
    else intent
  }

  /** The intent the chat acts on. */
  function ResolveIntent(analysis: Analysis, lowerQuery: string): string
  {
    if Trusted(analysis) then analysis.intent else FallbackIntent(lowerQuery, analysis.intent)
  }

  /** The fallback as a table, in priority order. */
  const IntentRules: seq<Rule<string>> := [
    Rule(["free time", "available"], "check_availability"),
    Rule(["tasks"], "fetch_tasks"),
    Rule(["reschedule"], "reschedule_suggestion"),
    Rule(["schedule", "meeting"], "schedule_meeting"),
    Rule(["create", "task"], "create_task"),
    Rule(["status"], "check_status"),
    Rule(["document", "summary", "report"], "document_query"),
    Rule(["hello", "hi"], "greeting")
  ]

  /** A trusted intent is kept; otherwise the first matching rule decides, and with no match the intent stays. */
  lemma ResolveIntentByRules(analysis: Analysis, lowerQuery: string)
    ensures Trusted(analysis) ==> ResolveIntent(analysis, lowerQuery) == analysis.intent
    ensures !Trusted(analysis) ==>
      ResolveIntent(analysis, lowerQuery) == Classify(IntentRules, analysis.intent, lowerQuery)
  {
    var q := lowerQuery;
    var r := IntentRules;
    var tail := Classify([r[4], r[5], r[6], r[7]], analysis.intent, q);
    Classify8(r[0], r[1], r[2], r[3], r[4], r[5], r[6], r[7], analysis.intent, q);
    Classify4(r[0], r[1], r[2], r[3], tail, q);
    Classify4(r[4], r[5], r[6], r[7], analysis.intent, q);
    AnyInSmall(q, "free time", "available", "", "");
    AnyInSmall(q, "tasks", "", "", "");
    AnyInSmall(q, "reschedule", "", "", "");
    AnyInSmall(q, "schedule", "meeting", "", "");
    AnyInSmall(q, "create", "task", "", "");
    AnyInSmall(q, "status", "", "", "");
    AnyInSmall(q, "document", "summary", "report", "");
    AnyInSmall(q, "hello", "hi", "", "");
  }

  /**
   * On the fallback path, "tasks" outranks every rule after it: a query with "tasks"
   * (and neither "free time" nor "available") fetches tasks, although it also contains
   * "task", the keyword of task creation, and whatever "reschedule" or "schedule" it has.
   */
  lemma TasksOutranksLaterRules(analysis: Analysis, lowerQuery: string)
    requires !Trusted(analysis)
    requires Contains(lowerQuery, "tasks")
    requires !Contains(lowerQuery, "free time") && !Contains(lowerQuery, "available")
    ensures Contains(lowerQuery, "task")
    ensures ResolveIntent(analysis, lowerQuery) == "fetch_tasks"
  {
    assert "tasks" == "task" + "s";
    ContainsFront(lowerQuery, "task", "s");
  }

  /** On the fallback path "reschedule" outranks "schedule", although every query with "reschedule" contains "schedule". */
  lemma RescheduleBeatsSchedule(analysis: Analysis, lowerQuery: string)
    requires !Trusted(analysis)
    requires Contains(lowerQuery, "reschedule")
    requires !Contains(lowerQuery, "free time") && !Contains(lowerQuery, "available") && !Contains(lowerQuery, "tasks")
    ensures Contains(lowerQuery, "schedule")
    ensures ResolveIntent(analysis, lowerQuery) == "reschedule_suggestion"
  {
    assert "reschedule" == "re" + "schedule";
    ContainsPart(lowerQuery, "re", "schedule");
  }

  // ---------------------------------------------------------------------------
  // Users

  /** The index of the first element satisfying `p`: JavaScript's `Array.prototype.find`. */
  function FindIndex<T>(s: seq<T>, p: T -> bool): (r: Option<nat>)
    ensures r.Some? ==> r.value < |s| && p(s[r.value]) && forall j :: 0 <= j < r.value ==> !p(s[j])
    ensures r.None? <==> forall j :: 0 <= j < |s| ==> !p(s[j])
  {
    if s == [] then None
    else if p(s[0]) then Some(0)
    else match FindIndex(s[1..], p)
      case None => None
      case Some(i) => Some(i + 1)
  }

  /** The first element satisfying `p`, if any. */
  function Find<T>(s: seq<T>, p: T -> bool): (r: Option<T>)
    ensures r.Some? ==> exists i :: 0 <= i < |s| && s[i] == r.value && p(s[i]) && forall j :: 0 <= j < i ==> !p(s[j])
    ensures r.None? <==> forall j :: 0 <= j < |s| ==> !p(s[j])
  {
    match FindIndex(s, p)
    case Some(i) => Some(s[i])
    case None => None
  }

  /** The user who is chatting: the one whose id is `userId`, else the first user, else none. */
  function CurrentUser(users: seq<User>, userId: Option<string>): (r: Option<User>)
    ensures r.None? <==> users == []
    ensures r.Some? ==> r.value in users
    ensures (exists i :: 0 <= i < |users| && Some(users[i].id) == userId) ==> r.Some? && Some(r.value.id) == userId
    ensures (forall i :: 0 <= i < |users| ==> Some(users[i].id) != userId) && users != [] ==> r == Some(users[0])
  {
    match Find(users, (u: User) => Some(u.id) == userId)
    case Some(u) => Some(u)
    case None => if |users| > 0 then Some(users[0]) else None
  }

  /** The lower-cased name of `u` contains the lower-cased NLP person. */
  predicate NamedLike(u: User, person: Option<string>)
  {
    Truthy(person) && Contains(Lower(u.name), Lower(person.value))
  }

  /** The lower-cased name of `u` occurs in the lower-cased query. */
  predicate NamedIn(u: User, lowerQuery: string)
  {
    Contains(lowerQuery, Lower(u.name))
  }

  /**
   * The user the query is about: the first whose lower-cased name contains the NLP
   * person (when the analysis found one), failing that the first whose lower-cased
   * name occurs in the lower-cased query.
   */
  function MentionedUser(users: seq<User>, person: Option<string>, lowerQuery: string): (r: Option<User>)
    ensures r.None? <==> forall i :: 0 <= i < |users| ==> !NamedLike(users[i], person) && !NamedIn(users[i], lowerQuery)
    ensures (exists i :: 0 <= i < |users| && NamedLike(users[i], person)) ==>
      exists i :: 0 <= i < |users| && r == Some(users[i]) && NamedLike(users[i], person)
        && forall j :: 0 <= j < i ==> !NamedLike(users[j], person)
    ensures (forall i :: 0 <= i < |users| ==> !NamedLike(users[i], person)) && r.Some? ==>
      exists i :: 0 <= i < |users| && r == Some(users[i]) && NamedIn(users[i], lowerQuery)
        && forall j :: 0 <= j < i ==> !NamedIn(users[j], lowerQuery)
  {
    var byPerson := if Truthy(person) then Find(users, (u: User) => NamedLike(u, person)) else None;
    if byPerson.Some? then byPerson else Find(users, (u: User) => NamedIn(u, lowerQuery))
  }

  // ---------------------------------------------------------------------------
  // Free slots

  /** The working day of the gap finder: 9 AM to 5 PM. */
  const DayStart := 9
  const DayEnd := 17

  /** A free stretch of the day, from one hour to another. */
  datatype Slot = Slot(from: int, to: int)

  /** `lastEnd` after the walk over the meetings: 9 AM, raised to every meeting's end hour. */
  function LastEnd(meetings: seq<Meeting>): (r: int)
    ensures r >= DayStart
    ensures forall i :: 0 <= i < |meetings| ==> meetings[i].end <= r
    ensures r == DayStart || exists i :: 0 <= i < |meetings| && meetings[i].end == r
  {
    if meetings == [] then DayStart
    else
      var prev := LastEnd(meetings[..|meetings| - 1]);
      var end := meetings[|meetings| - 1].end;
      if prev >= end then prev else end
  }

  /** The gaps the walk records: before each meeting that starts after `lastEnd`, from `lastEnd` to its start. */
  function Gaps(meetings: seq<Meeting>): seq<Slot>
  {
    if meetings == [] then []
    else
      var init := meetings[..|meetings| - 1];
      var m := meetings[|meetings| - 1];
      Gaps(init) + (if m.start > LastEnd(init) then [Slot(LastEnd(init), m.start)] else [])
  }

  /** The free slots: the gaps, then the rest of the day up to 5 PM when `lastEnd` is earlier. */
  function FreeSlots(meetings: seq<Meeting>): seq<Slot>
  {
    Gaps(meetings) + (if LastEnd(meetings) < DayEnd then [Slot(LastEnd(meetings), DayEnd)] else [])
  }

  /** An hour as the slot list prints it: "9 AM", "12 PM", "4 PM". */
  function HourLabel(h: int): string
  {
    IntText(if h > 12 then h - 12 else h) + " " + (if h >= 12 then "PM" else "AM")
  }

  function SlotText(slot: Slot): string
  {
    HourLabel(slot.from) + " to " + HourLabel(slot.to)
  }

  function SlotTexts(slots: seq<Slot>): seq<string>
  {
    seq(|slots|, i requires 0 <= i < |slots| => SlotText(slots[i]))
  }

  lemma SlotTextsAppend(slots: seq<Slot>, slot: Slot)
    ensures SlotTexts(slots + [slot]) == SlotTexts(slots) + [SlotText(slot)]
  {
  }

  /** The trailing slot reads "... to 5 PM". */
  lemma TrailingSlotText(h: int)
    ensures SlotText(Slot(h, DayEnd)) == HourLabel(h) + " to 5 PM"
  {
    assert Decimal(5) == "5";
    assert HourLabel(DayEnd) == "5 PM";
  }

  /**
   * The gap finder as written: walk the meetings in order, record a gap whenever a
   * meeting starts after `lastEnd`, raise `lastEnd` to the meeting's end, and close
   * with the stretch up to 5 PM.
   */
  method FindFreeSlots(meetings: seq<Meeting>) returns (freeSlots: seq<string>)
    ensures freeSlots == SlotTexts(FreeSlots(meetings))
  {
    freeSlots := [];
    var lastEnd := DayStart;
    for i := 0 to |meetings|
      invariant lastEnd == LastEnd(meetings[..i])
      invariant freeSlots == SlotTexts(Gaps(meetings[..i]))
    {
      var start := meetings[i].start;
      var end := meetings[i].end;
      assert meetings[..i + 1][..i] == meetings[..i];
      if start > lastEnd {
        SlotTextsAppend(Gaps(meetings[..i]), Slot(lastEnd, start));
        freeSlots := freeSlots + [SlotText(Slot(lastEnd, start))];
      }
      lastEnd := if lastEnd >= end then lastEnd else end;
    }
    assert meetings[..|meetings|] == meetings;
    if lastEnd < DayEnd {
      SlotTextsAppend(Gaps(meetings), Slot(lastEnd, DayEnd));
      TrailingSlotText(lastEnd);
      freeSlots := freeSlots + [HourLabel(lastEnd) + " to 5 PM"];
    }
  }

  /** `lastEnd` only grows along the walk. */
  lemma {:induction false} LastEndGrows(meetings: seq<Meeting>, k: nat)
    requires k <= |meetings|
    ensures LastEnd(meetings[..k]) <= LastEnd(meetings)
    decreases |meetings|
  {
    if k < |meetings| {
      var init := meetings[..|meetings| - 1];
      assert init[..k] == meetings[..k];
      LastEndGrows(init, k);
    } else {
      assert meetings[..k] == meetings;
    }
  }

  /** The k-th meeting starts after `lastEnd`, so the walk records a gap before it. */
  predicate GapBefore(meetings: seq<Meeting>, k: int)
    requires 0 <= k < |meetings|
  {
    meetings[k].start > LastEnd(meetings[..k])
  }

  /** The gap before the k-th meeting: from `lastEnd` to its start. */
  function GapSlot(meetings: seq<Meeting>, k: int): Slot
    requires 0 <= k < |meetings|
  {
    Slot(LastEnd(meetings[..k]), meetings[k].start)
  }

  /** Every recorded gap is the gap before some meeting that starts after `lastEnd`. */
  lemma {:induction false} GapsFromMeetings(meetings: seq<Meeting>, slot: Slot)
    requires slot in Gaps(meetings)
    ensures exists k :: 0 <= k < |meetings| && GapBefore(meetings, k) && slot == GapSlot(meetings, k)
    decreases |meetings|
  {
    var n := |meetings| - 1;
    var init := meetings[..n];
    if slot in Gaps(init) {
      GapsFromMeetings(init, slot);
      var k :| 0 <= k < |init| && GapBefore(init, k) && slot == GapSlot(init, k);
      assert init[..k] == meetings[..k];
      assert GapBefore(meetings, k) && slot == GapSlot(meetings, k);
    } else {
      assert meetings[..n] == init;
      assert GapBefore(meetings, n) && slot == GapSlot(meetings, n);
    }
  }

  /** Before every meeting that starts after `lastEnd` a gap is recorded. */
  lemma {:induction false} GapsRecorded(meetings: seq<Meeting>, k: int)
    requires 0 <= k < |meetings| && GapBefore(meetings, k)
    ensures GapSlot(meetings, k) in Gaps(meetings)
    decreases |meetings|
  {
    var n := |meetings| - 1;
    var init := meetings[..n];
    if k < n {
      assert init[..k] == meetings[..k];
      GapsRecorded(init, k);
    } else {
      assert meetings[..k] == init;
    }
  }

  /** A gap is recorded exactly before the meetings that start after `lastEnd`. */
  lemma GapsMeaning(meetings: seq<Meeting>)
    ensures forall slot :: slot in Gaps(meetings) <==>
      exists k :: 0 <= k < |meetings| && GapBefore(meetings, k) && slot == GapSlot(meetings, k)
  {
    forall slot | slot in Gaps(meetings)
      ensures exists k :: 0 <= k < |meetings| && GapBefore(meetings, k) && slot == GapSlot(meetings, k)
    {
      GapsFromMeetings(meetings, slot);
    }
    forall k | 0 <= k < |meetings| && GapBefore(meetings, k)
      ensures GapSlot(meetings, k) in Gaps(meetings)
    {
      GapsRecorded(meetings, k);
    }
  }

  /** Some meeting runs through the hour `h`. */
  predicate Covered(meetings: seq<Meeting>, h: int)
  {
    exists i :: 0 <= i < |meetings| && meetings[i].start <= h < meetings[i].end
  }

  /** Meetings in ascending order of start, as the availability query sorts them. */
  predicate SortedByStart(meetings: seq<Meeting>)
  {
    forall i, j :: 0 <= i < j < |meetings| ==> meetings[i].start <= meetings[j].start
  }

  /** Every free slot starts at 9 AM or later and is not empty. */
  lemma FreeSlotsShape(meetings: seq<Meeting>)
    ensures forall slot :: slot in FreeSlots(meetings) ==> DayStart <= slot.from < slot.to
  {
    forall slot | slot in Gaps(meetings)
      ensures DayStart <= slot.from < slot.to
    {
      GapsFromMeetings(meetings, slot);
    }
  }

  /** With the meetings in order of start, no hour of a recorded gap is taken by a meeting. */
  lemma GapSound(meetings: seq<Meeting>, k: int, h: int)
    requires SortedByStart(meetings)
    requires 0 <= k < |meetings| && GapSlot(meetings, k).from <= h < GapSlot(meetings, k).to
    ensures !Covered(meetings, h)
  {
    var prefix := meetings[..k];
    forall j | 0 <= j < |meetings|
      ensures !(meetings[j].start <= h < meetings[j].end)
    {
      if j < k {
        assert prefix[j] == meetings[j];
      }
    }
  }

  /**
   * With the meetings in order of start (as the query sorts them), every hour of every
   * free slot is free: no meeting runs through it.
   */
  lemma FreeSlotsSound(meetings: seq<Meeting>, slot: Slot, h: int)
    requires SortedByStart(meetings)
    requires slot in FreeSlots(meetings) && slot.from <= h < slot.to
    ensures !Covered(meetings, h)
  {
    if slot in Gaps(meetings) {
      GapsFromMeetings(meetings, slot);
      var k :| 0 <= k < |meetings| && GapBefore(meetings, k) && slot == GapSlot(meetings, k);
      GapSound(meetings, k, h);
    }
  }

  /** Every hour before `lastEnd` that no meeting takes lies in a recorded gap, whatever the order. */
  lemma {:induction false} GapsComplete(meetings: seq<Meeting>, h: int)
    requires DayStart <= h < LastEnd(meetings) && !Covered(meetings, h)
    ensures exists slot :: slot in Gaps(meetings) && slot.from <= h < slot.to
    decreases |meetings|
  {
    var n := |meetings| - 1;
    var init := meetings[..n];
    var m := meetings[n];
    if h < LastEnd(init) {
      forall i | 0 <= i < |init|
        ensures !(init[i].start <= h < init[i].end)
      {
        assert init[i] == meetings[i];
      }
      GapsComplete(init, h);
      var slot :| slot in Gaps(init) && slot.from <= h < slot.to;
      assert slot in Gaps(meetings);
    } else {
      assert !(m.start <= h < m.end);
      assert Slot(LastEnd(init), m.start) in Gaps(meetings);
    }
  }

  /**
   * Every working hour (9 AM to 5 PM) that no meeting takes lies in some free slot,
   * whatever the order of the meetings.
   */
  lemma FreeSlotsComplete(meetings: seq<Meeting>, h: int)
    requires DayStart <= h < DayEnd && !Covered(meetings, h)
    ensures exists slot :: slot in FreeSlots(meetings) && slot.from <= h < slot.to
  {
    if h < LastEnd(meetings) {
      GapsComplete(meetings, h);
    } else {
      assert Slot(LastEnd(meetings), DayEnd) in FreeSlots(meetings);
    }
  }

  /** Every meeting ends no earlier than it starts. */
  predicate EndsAfterStart(meetings: seq<Meeting>)
  {
    forall i :: 0 <= i < |meetings| ==> meetings[i].start <= meetings[i].end
  }

  /** Every recorded gap ends by `lastEnd`. */
  lemma GapsBeforeLastEnd(meetings: seq<Meeting>, slot: Slot)
    requires EndsAfterStart(meetings) && slot in Gaps(meetings)
    ensures slot.to <= LastEnd(meetings)
  {
    GapsFromMeetings(meetings, slot);
  }

  /** The gaps come in order: each ends before the next begins. */
  lemma {:induction false} GapsOrdered(meetings: seq<Meeting>)
    requires EndsAfterStart(meetings)
    ensures forall i, j :: 0 <= i < j < |Gaps(meetings)| ==> Gaps(meetings)[i].to <= Gaps(meetings)[j].from
    decreases |meetings|
  {
    if meetings != [] {
      var init := meetings[..|meetings| - 1];
      assert EndsAfterStart(init) by {
        forall i | 0 <= i < |init|
          ensures init[i].start <= init[i].end
        {
          assert init[i] == meetings[i];
        }
      }
      GapsOrdered(init);
      var g := Gaps(init);
      var r := Gaps(meetings);
      forall i, j | 0 <= i < j < |r|
        ensures r[i].to <= r[j].from
      {
        assert r[i] == g[i];
        if j < |g| {
          assert r[j] == g[j];
        } else {
          GapsBeforeLastEnd(init, g[i]);
        }
      }
    }
  }

  /** The free slots come in order of time: each ends no later than the next begins. */
  lemma FreeSlotsOrdered(meetings: seq<Meeting>)
    requires EndsAfterStart(meetings)
    ensures var r := FreeSlots(meetings);
      forall i, j :: 0 <= i < j < |r| ==> r[i].to <= r[j].from
  {
    var g := Gaps(meetings);
    var r := FreeSlots(meetings);
    GapsOrdered(meetings);
    forall i, j | 0 <= i < j < |r|
      ensures r[i].to <= r[j].from
    {
      assert r[i] == g[i];
      if j < |g| {
        assert r[j] == g[j];
      } else {
        GapsBeforeLastEnd(meetings, g[i]);
      }
    }
  }

  /**
   * The gap finder does not clip gaps to 5 PM: a single meeting from 6 PM to 7 PM
   * leaves the whole stretch from 9 AM to 6 PM reported as free.
   */
  lemma LateMeetingGap()
    ensures FreeSlots([Meeting(18, 19)]) == [Slot(9, 18)]
    ensures SlotTexts(FreeSlots([Meeting(18, 19)])) == ["9 AM to 6 PM"]
  {
    assert [Meeting(18, 19)][..0] == [];
    assert Decimal(9) == "9" && Decimal(6) == "6";
    assert HourLabel(9) == "9 AM" && HourLabel(18) == "6 PM";
    assert SlotText(Slot(9, 18)) == "9 AM to 6 PM";
  }

  /** `items` joined by `sep`: JavaScript's `Array.prototype.join`. */
  function Join(items: seq<string>, sep: string): string
  {
    if |items| == 0 then ""
    else if |items| == 1 then items[0]
    else items[0] + sep + Join(items[1..], sep)
  }

  const FreeDayText := "You are completely " + "free today! No " + "meetings scheduled."
  const FreeSlotsHeader := "Here are your free " + "slots for today:\n- "

  /** The reply to an availability check. */
  function AvailabilityText(meetings: seq<Meeting>): string
  {
    if meetings == [] then FreeDayText
    else FreeSlotsHeader + Join(SlotTexts(FreeSlots(meetings)), "\n- ")
  }

  // ---------------------------------------------------------------------------
  // The 4 PM conflict check

  /** Some meeting of today starts at 4 PM. */
  function BusyAt4PM(meetings: seq<Meeting>): (r: bool)
    ensures r <==> exists i :: 0 <= i < |meetings| && meetings[i].start == 16
  {
    if meetings == [] then false else meetings[0].start == 16 || BusyAt4PM(meetings[1..])
  }

  const ConflictTail :=
    "He is free at 4 PM, " + "but **you have a " + "conflict** at that " + "time. Shall I look "
    + "for another slot?"
  const CommonSlotTail :=
    "Based on your past " + "interactions and his " + "calendar, he is busy " + "at 2 PM.\n\nHowever, "
    + "**I verified your " + "calendar** and you " + "both have a common " + "free slot at 4 PM. "
    + "Shall I schedule the " + "meeting then?"

  /** The reply to a meeting request about `u`. */
  function MeetingText(u: User, busyAt4PM: bool): string
  {
    "I found " + u.name + " (" + u.designation + "). " + (if busyAt4PM then ConflictTail else CommonSlotTail)
  }

  /** The two meeting replies differ: the conflict text is given exactly when 4 PM is taken. */
  lemma MeetingTextConflict(u: User, busyAt4PM: bool)
    ensures MeetingText(u, busyAt4PM) == MeetingText(u, true) <==> busyAt4PM
  {
    assert |ConflictTail| != |CommonSlotTail|;
  }

  // ---------------------------------------------------------------------------
  // Topic

  const TopicKeywords: seq<string> := ["water", "flood", "disaster", "agriculture", "health"]

  /** The last keyword of the list found in the query, "" when there is none. */
  function LastKeyword(keywords: seq<string>, lowerQuery: string): string
  {
    match LastMatch(keywords, lowerQuery)
    case Some(i) => keywords[i]
    case None => ""
  }

  /** The last keyword found is the last keyword itself when it occurs, else the last found before it. */
  lemma LastKeywordStep(keywords: seq<string>, lowerQuery: string)
    requires keywords != []
    ensures LastKeyword(keywords, lowerQuery)
         == if Contains(lowerQuery, keywords[|keywords| - 1]) then keywords[|keywords| - 1]
            else LastKeyword(keywords[..|keywords| - 1], lowerQuery)
  {
    var init := keywords[..|keywords| - 1];
    if !Contains(lowerQuery, keywords[|keywords| - 1]) {
      match LastMatch(init, lowerQuery)
      case Some(i) => assert init[i] == keywords[i];
      case None =>
    }
  }

  /**
   * The topic of a document query: the NLP topic when it is not empty, else the last
   * of water, flood, disaster, agriculture and health that occurs in the query, else "".
   */
  function Topic(nlpTopic: Option<string>, lowerQuery: string): (r: string)
    ensures Truthy(nlpTopic) ==> r == nlpTopic.value
    ensures !Truthy(nlpTopic) ==>
      (r == "" <==> forall j :: 0 <= j < |TopicKeywords| ==> !Contains(lowerQuery, TopicKeywords[j]))
    ensures !Truthy(nlpTopic) && r != "" ==>
      exists i :: 0 <= i < |TopicKeywords| && r == TopicKeywords[i] && Contains(lowerQuery, r)
        && forall j :: i < j < |TopicKeywords| ==> !Contains(lowerQuery, TopicKeywords[j])
  {
    if Truthy(nlpTopic) then nlpTopic.value
    else
      assert forall j :: 0 <= j < |TopicKeywords| ==> TopicKeywords[j] != "";
      LastKeyword(TopicKeywords, lowerQuery)
  }

  /** Topic selection as written: take the NLP topic, and when it is empty let every keyword found overwrite it. */
  method SelectTopic(nlpTopic: Option<string>, lowerQuery: string) returns (topic: string)
    ensures topic == Topic(nlpTopic, lowerQuery)
  {
    topic := OrElse(nlpTopic, "");
    if topic == "" {
      var keywords := TopicKeywords;
      for i := 0 to |keywords|
        invariant topic == LastKeyword(keywords[..i], lowerQuery)
      {
        LastKeywordStep(keywords[..i + 1], lowerQuery);
        assert keywords[..i + 1][..i] == keywords[..i];
        if Contains(lowerQuery, keywords[i]) {
          topic := keywords[i];
        }
      }
      assert keywords[..|keywords|] == keywords;
    }
  }

  // ---------------------------------------------------------------------------
  // The chat reply

  /** The action payload of a reply; `NoAction` is the empty object. */
  datatype Action = NoAction | CalendarCheck | FetchStatus | CreateTask | ViewDocument(documentId: string, url: string)

  datatype Reply = Reply(intent: string, confidence: real, response: string, action: Action)

  datatype Task = Task(title: string, priority: string)

  /** A stored document: `uploaded` is its upload date as the locale prints it. */
  datatype Document = Document(id: string, title: string, url: string, summary: Option<string>, uploaded: string)

  /**
   * The filter of the document search: title or category matching the topic, people
   * matching the mentioned user's name, and uploads of the last seven days only.
   */
  datatype DocumentFilter = DocumentFilter(topic: Option<string>, person: Option<string>, lastWeekOnly: bool)

  /** The query results the endpoint reads, by user id (meetings of today in order of start). */
  datatype Database = Database(
    users: seq<User>,
    meetingsToday: string -> seq<Meeting>,
    pendingTasks: string -> seq<Task>,
    lowPriorityTasks: string -> seq<Task>,
    documents: DocumentFilter -> seq<Document>)

  /** The first `n` elements: a query's `.limit(n)`. */
  function Take<T>(s: seq<T>, n: nat): seq<T>
  {
    if |s| <= n then s else s[..n]
  }

  const NoProfileText := "I couldn't find your " + "user profile. Please " + "ensure you are " + "logged in."
  const DefaultText :=
    "I'm not sure how to " + "help with that. Try " + "asking to schedule a " + "meeting or create a "
    + "task."
  const NoTasksText := "You have no pending " + "tasks at the moment. " + "Great job!"
  const NoLowPriorityText :=
    "You don't have any " + "low-priority tasks " + "that need " + "rescheduling. " + "Everything looks "
    + "critical!"
  const WhoText := "I can help you " + "schedule that. Who " + "would you like to " + "meet with?"
  const CreateTaskText := "I'll create a task " + "for you. What is the " + "deadline?"
  const StatusText := "You have 3 pending " + "tasks and 2 meetings " + "today."
  const GreetingText := "Hello! I am your AI " + "Assistant. How can I " + "help you today?"

  /** The reply to a task listing. */
  function TasksText(tasks: seq<Task>): string
  {
    if tasks == [] then NoTasksText
    else
      var lines := seq(|tasks|, i requires 0 <= i < |tasks| => "\U{2022} " + tasks[i].title + " (" + tasks[i].priority + " Priority)");
      "Here are your tasks " + "at hand:\n" + Join(lines, "\n")
  }

  /** The reply to a request for tasks that can be moved. */
  function RescheduleText(tasks: seq<Task>): string
  {
    if tasks == [] then NoLowPriorityText
    else
      var lines := seq(|tasks|, i requires 0 <= i < |tasks| => "\U{2022} " + tasks[i].title);
      "I found " + IntText(|tasks|) + " non-critical tasks " + "that can be " + "rescheduled:\n\n" + Join(lines, "\n")
        + "\n\nWould you like " + "me to move them to " + "tomorrow?"
  }

  /** The reply to a document query, from the topic, the mentioned user and the search. */
  function DocumentReply(confidence: real, topic: string, mentioned: Option<User>, lastWeekOnly: bool,
                         search: DocumentFilter -> seq<Document>): Reply
  {
    var filter := DocumentFilter(if topic != "" then Some(topic) else None,
                                 if mentioned.Some? then Some(mentioned.value.name) else None, lastWeekOnly);
    var from := if mentioned.Some? then " from " + mentioned.value.name else "";
    var documents := Take(search(filter), 3);
    if documents == [] then
      Reply("document_query", confidence,
        "I couldn't find any " + "documents matching " + "\"" + (if topic != "" then topic else "your query") + "\"" + from
          + ". Would you like me " + "to search with " + "different criteria?", NoAction)
    else
      var doc := documents[0];
      Reply("document_query", confidence,
        "I found the report" + from + " on " + (if topic != "" then topic else doc.title) + ".\n\n**Summary:**\n"
          + OrElse(doc.summary, "Summary not available.") + "\n\n**Document:** " + doc.title
          + "\n**Uploaded:** " + doc.uploaded + "\n\nWould you like " + "me to open this " + "document?",
        ViewDocument(doc.id, doc.url))
  }

  /** Whether the search keeps to the last week: the query says "last week" or the NLP date mentions a week. */
  predicate LastWeekOnly(lowerQuery: string, date: Option<string>)
  {
    Contains(lowerQuery, "last week") || (date.Some? && Contains(date.value, "week"))
  }

  /** What the endpoint works out before it answers: the lower-cased query, the intent, and both users. */
  datatype Context = Context(lowerQuery: string, intent: string, current: Option<User>, mentioned: Option<User>)

  function Resolve(query: Option<string>, userId: Option<string>, analysis: Analysis, db: Database): Context
  {
    var lowerQuery := Lower(query.GetOr(""));
    Context(lowerQuery, ResolveIntent(analysis, lowerQuery), CurrentUser(db.users, userId),
            MentionedUser(db.users, analysis.entities.person, lowerQuery))
  }

  /** The reply to a meeting request: about a known user, with confidence 0.98. */
  function MeetingReply(confidence: real, mentioned: Option<User>, meetings: seq<Meeting>): (r: Reply)
    ensures r.intent == "schedule_meeting" && r.action == CalendarCheck
    ensures r.confidence == if mentioned.Some? then 0.98 else confidence
  {
    match mentioned
    case Some(u) => Reply("schedule_meeting", 0.98, MeetingText(u, BusyAt4PM(meetings)), CalendarCheck)
    case None => Reply("schedule_meeting", confidence, WhoText, CalendarCheck)
  }

  /** The reply once the current user is known, by intent. */
  function IntentReply(ctx: Context, analysis: Analysis, userId: string, db: Database): (r: Reply)
    ensures r.intent == ctx.intent
  {
    var intent := ctx.intent;
    var confidence := analysis.confidence;
    if intent == "check_availability" then
      Reply(intent, confidence, AvailabilityText(db.meetingsToday(userId)), CalendarCheck)
    else if intent == "fetch_tasks" then
      Reply(intent, confidence, TasksText(Take(db.pendingTasks(userId), 5)), FetchStatus)
    else if intent == "reschedule_suggestion" then
      Reply(intent, confidence, RescheduleText(db.lowPriorityTasks(userId)), CreateTask)
    else if intent == "schedule_meeting" then
      MeetingReply(confidence, ctx.mentioned, db.meetingsToday(userId))
    else if intent == "create_task" then
      Reply(intent, confidence, CreateTaskText, CreateTask)
    else if intent == "check_status" then
      Reply(intent, confidence, StatusText, FetchStatus)
    else if intent == "document_query" then
      DocumentReply(confidence, Topic(analysis.entities.topic, ctx.lowerQuery), ctx.mentioned,
                    LastWeekOnly(ctx.lowerQuery, analysis.entities.date), db.documents)
    else if intent == "greeting" then
      Reply(intent, confidence, GreetingText, NoAction)
    else
      Reply(intent, confidence, DefaultText, NoAction)
  }

  /** The answer once the context is resolved: the profile error without a current user, else the reply by intent. */
  function Answer(ctx: Context, analysis: Analysis, db: Database): Reply
  {
    match ctx.current
    case None => Reply("error", 1.0, NoProfileText, NoAction)
    case Some(current) => IntentReply(ctx, analysis, current.id, db)
  }

  /**
   * The chat endpoint: resolve the intent, the current and the mentioned user, and
   * answer by intent; with no user at all, the profile error.
   */
  function Chat(query: Option<string>, userId: Option<string>, analysis: Analysis, db: Database): Reply
  {
    Answer(Resolve(query, userId, analysis, db), analysis, db)
  }

  /** There is no current user exactly when there are no users at all. */
  lemma ResolveNoUser(query: Option<string>, userId: Option<string>, analysis: Analysis, db: Database)
    ensures Resolve(query, userId, analysis, db).current.None? <==> db.users == []
  {
  }

  /**
   * Without a current user the answer is the profile error; otherwise it carries the
   * resolved intent, and confidence 0.98 for a meeting request about a known user and
   * the analysis confidence otherwise.
   */
  lemma AnswerNoProfile(ctx: Context, analysis: Analysis, db: Database)
    ensures ctx.current.None? ==> Answer(ctx, analysis, db) == Reply("error", 1.0, NoProfileText, NoAction)
    ensures var r := Answer(ctx, analysis, db);
      ctx.current.Some? ==>
      && r.intent == ctx.intent
      && r.confidence == (if ctx.intent == "schedule_meeting" && ctx.mentioned.Some? then 0.98 else analysis.confidence)
  {
  }

  /** A meeting request about a known user gets the conflict text exactly when one of the current user's meetings today starts at 4 PM. */
  lemma AnswerMeetingRequest(ctx: Context, analysis: Analysis, db: Database)
    requires ctx.current.Some? && ctx.intent == "schedule_meeting" && ctx.mentioned.Some?
    ensures var meetings := db.meetingsToday(ctx.current.value.id);
      var r := Answer(ctx, analysis, db);
      && r.confidence == 0.98
      && r.action == CalendarCheck
      && (r.response == MeetingText(ctx.mentioned.value, true)
          <==> exists i :: 0 <= i < |meetings| && meetings[i].start == 16)
  {
    MeetingTextConflict(ctx.mentioned.value, BusyAt4PM(db.meetingsToday(ctx.current.value.id)));
  }

  /**
   * An availability check answers with the free-day text when no meeting is scheduled
   * today and with the list of free slots otherwise, and asks for the calendar.
   */
  lemma AnswerAvailability(ctx: Context, analysis: Analysis, db: Database)
    requires ctx.current.Some? && ctx.intent == "check_availability"
    ensures var meetings := db.meetingsToday(ctx.current.value.id);
      var r := Answer(ctx, analysis, db);
      && r.action == CalendarCheck
      && (meetings == [] ==> r.response == FreeDayText)
      && (meetings != [] ==> r.response == FreeSlotsHeader + Join(SlotTexts(FreeSlots(meetings)), "\n- "))
  {
  }

  /** A document query opens the first document found, and offers nothing when none is found. */
  lemma AnswerDocument(ctx: Context, analysis: Analysis, db: Database)
    requires ctx.current.Some? && ctx.intent == "document_query"
    ensures var topic := Topic(analysis.entities.topic, ctx.lowerQuery);
      var filter := DocumentFilter(if topic != "" then Some(topic) else None,
                                   if ctx.mentioned.Some? then Some(ctx.mentioned.value.name) else None,
                                   LastWeekOnly(ctx.lowerQuery, analysis.entities.date));
      var r := Answer(ctx, analysis, db);
      && (db.documents(filter) == [] ==> r.action == NoAction)
      && (db.documents(filter) != [] ==>
            r.action == ViewDocument(db.documents(filter)[0].id, db.documents(filter)[0].url))
  {
  }
}
