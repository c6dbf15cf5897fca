/** The slots of an imported score list: which records they lead to and which lists are refused. */
module ImportSlots {
  import opened Common
  import opened Sequences
  import opened OfficialSlots

  // ---------- names of slots ----------

  /** What the standard library knows about characters. */
  datatype Unicode = Unicode(space: char -> bool, lower: char -> char, folds: (char, char) -> bool)

  /** The characters without regard to case of a letter of the main slot names; the long s is
      one of s, but it is a lower case letter of its own. */
  function Forms(letter: char): set<char> {
    match letter
    case 'b' => {'b', 'B'}
    case 'e' => {'e', 'E'}
    case 's' => {'s', 'S', '\U{017F}'}
    case 't' => {'t', 'T'}
    case 'n' => {'n', 'N'}
    case 'w' => {'w', 'W'}
    case _ => {}
  }

  const MAIN_LETTERS: set<char> := {'b', 'e', 's', 't', 'n', 'w'}

  ghost predicate Standard(u: Unicode) {
    && (forall c: char, x: char :: x in MAIN_LETTERS ==> (u.folds(c, x) <==> c in Forms(x)))
    && (forall c: char, x: char :: x in MAIN_LETTERS && u.lower(c) == x ==> c in Forms(x) && c != '\U{017F}')
    && (forall c: char, x: char :: x in MAIN_LETTERS && c in Forms(x) && c != '\U{017F}' ==> u.lower(c) == x)
    && u.lower('\U{017F}') == '\U{017F}'
  }

  function TrimLeft(u: Unicode, s: string): string {
    if s != "" && u.space(s[0]) then TrimLeft(u, s[1..]) else s
  }

  function Trim(u: Unicode, s: string): string {
    TrimRight(u, TrimLeft(u, s))
  }

  function TrimRight(u: Unicode, s: string): string {
    if s != "" && u.space(s[|s| - 1]) then TrimRight(u, s[..|s| - 1]) else s
  }

  function Lower(u: Unicode, s: string): (r: string)
    ensures |r| == |s| && forall i :: 0 <= i < |s| ==> r[i] == u.lower(s[i])
  {
    seq(|s|, i requires 0 <= i < |s| => u.lower(s[i]))
  }

  /** Equality without regard to case, character by character. */
  predicate EqualFold(u: Unicode, s: string, word: string) {
    |s| == |word| && forall i :: 0 <= i < |s| ==> u.folds(s[i], word[i])
  }

  // ---------- entries and records ----------

  /** An entry of the list; the chart, the score range and the lamps may fail to resolve. */
  datatype ScoreEntry = ScoreEntry(
    chart: Option<int>, scoreInRange: bool, lampsKnown: bool, score: nat, slot: Option<string>, order: Option<int>)

  datatype Upsert = Upsert(chartId: int, score: nat, slotId: int, slotOrder: Option<int>)

  datatype Masters = Masters(slots: map<string, int>, slotNames: map<int, string>)

  const SLOT_NAMES: set<string> := {"none", "best", "best_candidate", "new", "new_candidate"}

  /** The five slots, by name and by ID. */
  ghost predicate Consistent(m: Masters) {
    && m.slots.Keys == SLOT_NAMES
    && forall name :: name in SLOT_NAMES ==> m.slots[name] in m.slotNames && m.slotNames[m.slots[name]] == name
  }

  predicate IsMainSlotEntry(u: Unicode, entry: ScoreEntry) {
    entry.slot.Some?
    && var slot := Trim(u, entry.slot.value);
       EqualFold(u, slot, "best") || EqualFold(u, slot, "new")
  }

  function SlotKey(u: Unicode, slot: Option<string>): string {
    if slot.Some? && Trim(u, slot.value) != "" then Lower(u, Trim(u, slot.value)) else Lower(u, "none")
  }

  function ResolveSlotID(u: Unicode, m: Masters, slot: Option<string>): Option<int> {
    var key := SlotKey(u, slot);
    if key in m.slots then Some(m.slots[key]) else None
  }

  predicate Skipped(u: Unicode, m: Masters, entry: ScoreEntry) {
    entry.chart.None? || !entry.scoreInRange || !entry.lampsKnown || ResolveSlotID(u, m, entry.slot).None?
  }

  function UpsertOf(u: Unicode, m: Masters, entry: ScoreEntry): Upsert
    requires !Skipped(u, m, entry)
  {
    Upsert(entry.chart.value, entry.score, ResolveSlotID(u, m, entry.slot).value, entry.order)
  }

  function Upserts(u: Unicode, m: Masters, entries: seq<ScoreEntry>): seq<Upsert> {
    if entries == [] then []
    else
      var last := entries[|entries| - 1];
      Upserts(u, m, entries[..|entries| - 1]) + (if Skipped(u, m, last) then [] else [UpsertOf(u, m, last)])
  }

  datatype SkipReason = NoChart | ScoreOutOfRange | UnknownLamp | UnknownSlot

  /** Why an entry is skipped: the first of these reasons. */
  function Reason(u: Unicode, m: Masters, entry: ScoreEntry): Option<SkipReason> {
    if entry.chart.None? then Some(NoChart)
    else if !entry.scoreInRange then Some(ScoreOutOfRange)
    else if !entry.lampsKnown then Some(UnknownLamp)
    else if ResolveSlotID(u, m, entry.slot).None? then Some(UnknownSlot)
    else None
  }

  function Reasons(u: Unicode, m: Masters, entries: seq<ScoreEntry>): seq<SkipReason> {
    if entries == [] then []
    else
      Reasons(u, m, entries[..|entries| - 1])
      + match Reason(u, m, entries[|entries| - 1])
        case None => []
        case Some(reason) => [reason]
  }

  /** The first count covers every entry, also those skipped. */
  datatype Counts = Counts(upserted: nat, skipped: nat)

  method ApplyFullScores(u: Unicode, m: Masters, entries: seq<ScoreEntry>)
    returns (counts: Counts, skipped: seq<SkipReason>, records: seq<Upsert>)
    ensures records == Upserts(u, m, entries) && skipped == Reasons(u, m, entries)
    ensures counts.upserted == |entries| && counts.skipped == |skipped| == |entries| - |records|
  {
    var upserted, skippedCount: nat := 0, 0;
    skipped, records := [], [];
    for i := 0 to |entries|
      invariant records == Upserts(u, m, entries[..i]) && skipped == Reasons(u, m, entries[..i])
      invariant upserted == i && skippedCount == |skipped| == i - |records|
    {
      assert entries[..i + 1][..i] == entries[..i];
      var entry := entries[i];
      upserted := upserted + 1;
      var slotId := ResolveSlotID(u, m, entry.slot);
      var reason :=
        if entry.chart.None? then Some(NoChart)
        else if !entry.scoreInRange then Some(ScoreOutOfRange)
        else if !entry.lampsKnown then Some(UnknownLamp)
        else if slotId.None? then Some(UnknownSlot)
        else None;
      if reason.Some? {
        skippedCount := skippedCount + 1;
        skipped := skipped + [reason.value];
        continue;
      }
      records := records + [Upsert(entry.chart.value, entry.score, slotId.value, entry.order)];
    }
    assert entries[..|entries|] == entries;
    counts := Counts(upserted, skippedCount);
  }

  // ---------- what the records carry ----------

  ghost predicate Blank(u: Unicode, s: string) {
    forall i :: 0 <= i < |s| ==> u.space(s[i])
  }

  /** The text without white space around it. */
  ghost predicate IsTrimmed(u: Unicode, trimmed: string, s: string) {
    && (trimmed != "" ==> !u.space(trimmed[0]) && !u.space(trimmed[|trimmed| - 1]))
    && exists a: string, b: string :: s == a + trimmed + b && Blank(u, a) && Blank(u, b)
  }

  lemma {:induction false} LeftTrimmed(u: Unicode, s: string) returns (a: string)
    ensures Blank(u, a) && s == a + TrimLeft(u, s)
    ensures TrimLeft(u, s) != "" ==> !u.space(TrimLeft(u, s)[0])
  {
    if s != "" && u.space(s[0]) {
      var rest := LeftTrimmed(u, s[1..]);
      a := [s[0]] + rest;
      assert s == [s[0]] + s[1..];
    } else {
      a := "";
    }
  }

  lemma {:induction false} RightTrimmed(u: Unicode, s: string) returns (b: string)
    ensures Blank(u, b) && s == TrimRight(u, s) + b
    ensures TrimRight(u, s) != "" ==> !u.space(TrimRight(u, s)[|TrimRight(u, s)| - 1])
  {
    if s != "" && u.space(s[|s| - 1]) {
      var init := RightTrimmed(u, s[..|s| - 1]);
      b := init + [s[|s| - 1]];
      assert s == s[..|s| - 1] + [s[|s| - 1]];
    } else {
      b := "";
    }
  }

  lemma {:induction false} TrimIsTrimmed(u: Unicode, s: string)
    ensures IsTrimmed(u, Trim(u, s), s)
  {
    var a := LeftTrimmed(u, s);
    var b := RightTrimmed(u, TrimLeft(u, s));
    assert s == a + Trim(u, s) + b;
    if Trim(u, s) != "" {
      assert s[|a|] == Trim(u, s)[0];
    }
  }

  /** The name of a slot in lower case; without one, that of no slot. */
  ghost predicate Names(u: Unicode, slot: Option<string>, name: string) {
    exists word: string ::
      && |name| == |word| && (forall i :: 0 <= i < |word| ==> name[i] == u.lower(word[i]))
      && if slot.Some? && !Blank(u, slot.value) then IsTrimmed(u, word, slot.value) && word != "" else word == "none"
  }

  lemma {:induction false} KeyIsName(u: Unicode, slot: Option<string>)
    ensures Names(u, slot, SlotKey(u, slot))
  {
    if slot.Some? {
      var s, t := slot.value, Trim(u, slot.value);
      TrimIsTrimmed(u, s);
      var a: string, b: string :| s == a + t + b && Blank(u, a) && Blank(u, b);
      if t != "" {
        assert s[|a|] == t[0];
      } else {
        forall i | 0 <= i < |s| ensures u.space(s[i]) {
          assert s[i] == if i < |a| then a[i] else b[i - |a|];
        }
      }
    }
    var word := if slot.Some? && Trim(u, slot.value) != "" then Trim(u, slot.value) else "none";
    assert SlotKey(u, slot) == Lower(u, word);
  }

  /** The record has the entry's chart, score and order, and the ID of the slot that it names. */
  ghost predicate Carries(u: Unicode, m: Masters, record: Upsert, entry: ScoreEntry) {
    && entry.chart == Some(record.chartId) && record.score == entry.score && record.slotOrder == entry.order
    && exists name :: Names(u, entry.slot, name) && name in m.slots && m.slots[name] == record.slotId
  }

  lemma {:induction false} UpsertCarries(u: Unicode, m: Masters, entry: ScoreEntry)
    requires !Skipped(u, m, entry)
    ensures Carries(u, m, UpsertOf(u, m, entry), entry)
  {
    KeyIsName(u, entry.slot);
  }

  ghost predicate AllCarry(u: Unicode, m: Masters, records: seq<Upsert>, entries: seq<ScoreEntry>, at: seq<nat>) {
    |records| == |at| && forall k :: 0 <= k < |at| ==> at[k] < |entries| && Carries(u, m, records[k], entries[at[k]])
  }

  lemma {:induction false} AllCarryMore(
    u: Unicode, m: Masters, records: seq<Upsert>, entries: seq<ScoreEntry>, at: seq<nat>, entry: ScoreEntry,
    one: Upsert)
    requires AllCarry(u, m, records, entries, at) && Carries(u, m, one, entry)
    ensures AllCarry(u, m, records + [one], entries + [entry], at + [|entries|])
  {
  }

  /** The k-th record is that of the k-th entry that is not skipped; entries are skipped whose chart
      or lamps are unknown, whose score is out of range, or that name no slot. */
  lemma {:induction false} RecordsCarryEntries(u: Unicode, m: Masters, entries: seq<ScoreEntry>) returns (at: seq<nat>)
    ensures Selects(at, entries, (entry: ScoreEntry) => !Skipped(u, m, entry))
    ensures AllCarry(u, m, Upserts(u, m, entries), entries, at)
  {
    if entries == [] {
      at := [];
    } else {
      var init, last := entries[..|entries| - 1], entries[|entries| - 1];
      assert entries == init + [last];
      var before := RecordsCarryEntries(u, m, init);
      var keep := (entry: ScoreEntry) => !Skipped(u, m, entry);
      SelectsMore(before, init, last, keep);
      at := if keep(last) then before + [|init|] else before;
      OneMoreCarries(u, m, init, last, before);
    }
  }

  lemma {:induction false} OneMoreCarries(
    u: Unicode, m: Masters, init: seq<ScoreEntry>, last: ScoreEntry, before: seq<nat>)
    requires AllCarry(u, m, Upserts(u, m, init), init, before)
    ensures AllCarry(u, m, Upserts(u, m, init + [last]), init + [last],
                     if Skipped(u, m, last) then before else before + [|init|])
  {
    var records := Upserts(u, m, init);
    assert (init + [last])[..|init|] == init;
    if Skipped(u, m, last) {
      assert Upserts(u, m, init + [last]) == records;
    } else {
      UpsertCarries(u, m, last);
      AllCarryMore(u, m, records, init, before, last, UpsertOf(u, m, last));
    }
  }

  /** An entry is not skipped exactly if its chart and lamps are known, its score is in range and a
      slot has the name it gives. */
  lemma {:induction false} NotSkippedIff(u: Unicode, m: Masters, entry: ScoreEntry)
    ensures !Skipped(u, m, entry) ==>
      exists name :: Names(u, entry.slot, name) && name in m.slots
    ensures Skipped(u, m, entry) <==>
      entry.chart.None? || !entry.scoreInRange || !entry.lampsKnown || SlotKey(u, entry.slot) !in m.slots
  {
    KeyIsName(u, entry.slot);
  }

  // ---------- no main slot entry is lost ----------

  predicate IsMainRecord(m: Masters, record: Upsert) {
    record.slotId in m.slotNames && (m.slotNames[record.slotId] == "best" || m.slotNames[record.slotId] == "new")
  }

  function MainEntries(u: Unicode, entries: seq<ScoreEntry>): nat {
    if entries == [] then 0
    else MainEntries(u, entries[..|entries| - 1]) + (if IsMainSlotEntry(u, entries[|entries| - 1]) then 1 else 0)
  }

  function MainRecords(m: Masters, records: seq<Upsert>): nat {
    if records == [] then 0
    else MainRecords(m, records[..|records| - 1]) + (if IsMainRecord(m, records[|records| - 1]) then 1 else 0)
  }

  /** The entries of best and new that were skipped, for whatever reason. */
  function LostMainEntries(u: Unicode, m: Masters, entries: seq<ScoreEntry>): nat {
    if entries == [] then 0
    else
      var last := entries[|entries| - 1];
      LostMainEntries(u, m, entries[..|entries| - 1])
      + (if IsMainSlotEntry(u, last) && Skipped(u, m, last) then 1 else 0)
  }

  method ValidateMainSlotRecordsResolved(u: Unicode, m: Masters, entries: seq<ScoreEntry>, records: seq<Upsert>)
    returns (ok: bool)
    ensures ok <==> MainEntries(u, entries) <= MainRecords(m, records)
  {
    var missing := 0;
    for i := 0 to |entries|
      invariant missing == MainEntries(u, entries[..i])
    {
      assert entries[..i + 1][..i] == entries[..i];
      if IsMainSlotEntry(u, entries[i]) {
        missing := missing + 1;
      }
    }
    assert entries[..|entries|] == entries;
    for i := 0 to |records|
      invariant missing == MainEntries(u, entries) - MainRecords(m, records[..i])
    {
      assert records[..i + 1][..i] == records[..i];
      if IsMainRecord(m, records[i]) {
        missing := missing - 1;
      }
    }
    assert records[..|records|] == records;
    return missing <= 0;
  }

  lemma {:induction false} FoldedKey(u: Unicode, t: string, word: string)
    requires Standard(u) && word in {"best", "new"}
    ensures EqualFold(u, t, word) && Lower(u, t) in SLOT_NAMES ==> Lower(u, t) == word
    ensures Lower(u, t) == word ==> EqualFold(u, t, word)
  {
  }

  lemma {:induction false} NoneIsNoMainKey(u: Unicode)
    requires Standard(u)
    ensures Lower(u, "none") != "best" && Lower(u, "none") != "new"
  {
    assert Lower(u, "none")[0] == u.lower('n') == 'n';
    assert |Lower(u, "none")| == 4;
  }

  /** A record is in a main slot exactly if its entry says so. */
  lemma {:induction false} SavedMainEntries(u: Unicode, m: Masters, entry: ScoreEntry)
    requires Standard(u) && Consistent(m) && !Skipped(u, m, entry)
    ensures IsMainRecord(m, UpsertOf(u, m, entry)) <==> IsMainSlotEntry(u, entry)
  {
    var key := SlotKey(u, entry.slot);
    assert key in SLOT_NAMES && m.slotNames[m.slots[key]] == key;
    NoneIsNoMainKey(u);
    if entry.slot.Some? {
      var t := Trim(u, entry.slot.value);
      if t != "" {
        FoldedKey(u, t, "best");
        FoldedKey(u, t, "new");
      }
    }
  }

  lemma {:induction false} MainRecordsSnoc(m: Masters, records: seq<Upsert>, record: Upsert)
    ensures MainRecords(m, records + [record]) == MainRecords(m, records) + (if IsMainRecord(m, record) then 1 else 0)
  {
  }

  /** The count of what is missing is never negative: it is the number of best and new entries
      that were skipped. */
  lemma {:induction false} MissingAreTheLost(u: Unicode, m: Masters, entries: seq<ScoreEntry>)
    requires Standard(u) && Consistent(m)
    ensures MainEntries(u, entries) - MainRecords(m, Upserts(u, m, entries)) == LostMainEntries(u, m, entries)
  {
    if entries != [] {
      var last := entries[|entries| - 1];
      var init := entries[..|entries| - 1];
      MissingAreTheLost(u, m, init);
      if !Skipped(u, m, last) {
        SavedMainEntries(u, m, last);
        MainRecordsSnoc(m, Upserts(u, m, init), UpsertOf(u, m, last));
      } else {
        assert Upserts(u, m, entries) == Upserts(u, m, init);
      }
    }
  }

  lemma {:induction false} NoneLost(u: Unicode, m: Masters, entries: seq<ScoreEntry>)
    ensures LostMainEntries(u, m, entries) == 0 <==>
      forall i :: 0 <= i < |entries| && IsMainSlotEntry(u, entries[i]) ==> !Skipped(u, m, entries[i])
  {
    if entries != [] {
      var init := entries[..|entries| - 1];
      assert entries == init + [entries[|entries| - 1]];
      NoneLost(u, m, init);
      assert forall i :: 0 <= i < |init| ==> entries[i] == init[i];
    }
  }

  /** "best" or "new", in whatever case; the long s is one of s. */
  ghost predicate IsMainWord(w: string) {
    || (|w| == 4 && w[0] in {'b', 'B'} && w[1] in {'e', 'E'} && w[2] in {'s', 'S', '\U{017F}'} && w[3] in {'t', 'T'})
    || (|w| == 3 && w[0] in {'n', 'N'} && w[1] in {'e', 'E'} && w[2] in {'w', 'W'})
  }

  /** The slot given, without white space around it, is one of these words. */
  ghost predicate NamesMainSlot(u: Unicode, slot: Option<string>) {
    slot.Some? && exists w: string :: IsTrimmed(u, w, slot.value) && IsMainWord(w)
  }

  lemma {:induction false} InMiddle(u: Unicode, s: string, a: string, v: string, b: string, x: nat)
    requires s == a + v + b && Blank(u, a) && Blank(u, b) && x < |s|
    ensures u.space(s[x]) || |a| <= x < |a| + |v|
  {
    assert s[x] == if x < |a| then a[x] else if x < |a| + |v| then v[x - |a|] else b[x - |a| - |v|];
  }

  lemma {:induction false} Inside(
    u: Unicode, s: string, a: string, v: string, b: string, c: string, w: string, d: string)
    requires s == a + v + b && Blank(u, a) && Blank(u, b)
    requires s == c + w + d && w != "" && !u.space(w[0]) && !u.space(w[|w| - 1])
    ensures |a| <= |c| && |c| + |w| <= |a| + |v|
  {
    assert s[|c|] == w[0] && s[|c| + |w| - 1] == w[|w| - 1];
    InMiddle(u, s, a, v, b, |c|);
    InMiddle(u, s, a, v, b, |c| + |w| - 1);
  }

  lemma {:induction false} TrimmedOnce(u: Unicode, v: string, w: string, s: string)
    requires IsTrimmed(u, v, s) && IsTrimmed(u, w, s) && w != ""
    ensures v == w
  {
    var a: string, b: string :| s == a + v + b && Blank(u, a) && Blank(u, b);
    var c: string, d: string :| s == c + w + d && Blank(u, c) && Blank(u, d);
    Inside(u, s, a, v, b, c, w, d);
    Inside(u, s, c, w, d, a, v, b);
    assert v == s[|a|..|a| + |v|] && w == s[|c|..|c| + |w|];
  }

  lemma {:induction false} FoldsToWord(u: Unicode, w: string)
    requires Standard(u)
    ensures EqualFold(u, w, "best") || EqualFold(u, w, "new") <==> IsMainWord(w)
  {
    assert "best"[0] == 'b' && "best"[1] == 'e' && "best"[2] == 's' && "best"[3] == 't';
    assert "new"[0] == 'n' && "new"[1] == 'e' && "new"[2] == 'w';
    if IsMainWord(w) {
      if |w| == 4 {
        assert EqualFold(u, w, "best");
      } else {
        assert EqualFold(u, w, "new");
      }
    }
  }

  lemma {:induction false} MainEntryIff(u: Unicode, entry: ScoreEntry)
    requires Standard(u)
    ensures IsMainSlotEntry(u, entry) <==> NamesMainSlot(u, entry.slot)
  {
    if entry.slot.Some? {
      var t := Trim(u, entry.slot.value);
      TrimIsTrimmed(u, entry.slot.value);
      FoldsToWord(u, t);
      if w: string :| IsTrimmed(u, w, entry.slot.value) && IsMainWord(w) {
        TrimmedOnce(u, t, w, entry.slot.value);
      }
    }
  }

  /** The list is accepted exactly if no best or new entry was skipped, for whatever reason. */
  lemma {:induction false} AcceptedIffNoneLost(u: Unicode, m: Masters, entries: seq<ScoreEntry>)
    requires Standard(u) && Consistent(m)
    ensures MainEntries(u, entries) <= MainRecords(m, Upserts(u, m, entries)) <==>
      forall i :: 0 <= i < |entries| && NamesMainSlot(u, entries[i].slot) ==> !Skipped(u, m, entries[i])
  {
    MissingAreTheLost(u, m, entries);
    NoneLost(u, m, entries);
    forall i | 0 <= i < |entries| ensures IsMainSlotEntry(u, entries[i]) <==> NamesMainSlot(u, entries[i].slot) {
      MainEntryIff(u, entries[i]);
    }
  }

  /** A slot written with a long s counts as best but cannot be stored, so it is refused. */
  lemma {:induction false} LongSIsRefused(u: Unicode, m: Masters, entry: ScoreEntry)
    requires Standard(u) && Consistent(m)
    requires entry.slot.Some? && Trim(u, entry.slot.value) == "be\U{017F}t"
    ensures IsMainSlotEntry(u, entry) && Skipped(u, m, entry)
    ensures MainRecords(m, Upserts(u, m, [entry])) < MainEntries(u, [entry])
  {
    var t := Trim(u, entry.slot.value);
    assert Lower(u, t)[2] == '\U{017F}' && |Lower(u, t)| == 4;
    assert EqualFold(u, t, "best") by {
      forall i | 0 <= i < 4 ensures t[i] in Forms("best"[i]) {
      }
    }
    assert "best"[2] == 's' && "none"[2] == 'n';
    assert Lower(u, t) !in SLOT_NAMES;
    MissingAreTheLost(u, m, [entry]);
    assert [entry][..0] == [];
  }

  // ---------- one record per chart ----------

  function ChartIds(records: seq<Upsert>): (ids: seq<int>)
    ensures |ids| == |records| && forall i :: 0 <= i < |ids| ==> ids[i] == records[i].chartId
  {
    Map((record: Upsert) => record.chartId, records)
  }

  /** The record takes the place of an earlier one of its chart, or comes last. */
  function Placed(normalized: seq<Upsert>, record: Upsert, n: nat): seq<Upsert>
    requires n <= |normalized|
    decreases |normalized| - n
  {
    if n == |normalized| then normalized + [record]
    else if normalized[n].chartId == record.chartId then normalized[n := record]
    else Placed(normalized, record, n + 1)
  }

  function Normalized(records: seq<Upsert>): seq<Upsert> {
    if records == [] then []
    else Placed(Normalized(records[..|records| - 1]), records[|records| - 1], 0)
  }

  lemma {:induction false} PlacedAt(normalized: seq<Upsert>, record: Upsert, n: nat, k: nat)
    requires n <= k < |normalized| && normalized[k].chartId == record.chartId && Distinct(ChartIds(normalized))
    ensures Placed(normalized, record, n) == normalized[k := record]
    decreases k - n
  {
    if n < k {
      assert ChartIds(normalized)[n] != ChartIds(normalized)[k];
      PlacedAt(normalized, record, n + 1, k);
    }
  }

  lemma {:induction false} PlacedLast(normalized: seq<Upsert>, record: Upsert, n: nat)
    requires n <= |normalized| && forall k :: n <= k < |normalized| ==> normalized[k].chartId != record.chartId
    ensures Placed(normalized, record, n) == normalized + [record]
    decreases |normalized| - n
  {
    if n < |normalized| {
      PlacedLast(normalized, record, n + 1);
    }
  }

  method NormalizeFullRecordsForUpsert(records: seq<Upsert>) returns (normalized: seq<Upsert>)
    ensures normalized == Normalized(records)
  {
    normalized := [];
    var positions: map<int, nat> := map[];
    for i := 0 to |records|
      invariant normalized == Normalized(records[..i]) && Distinct(ChartIds(normalized))
      invariant forall c :: c in positions <==> c in ChartIds(normalized)
      invariant forall c :: c in positions ==> positions[c] < |normalized| && normalized[positions[c]].chartId == c
    {
      var record := records[i];
      assert records[..i + 1][..i] == records[..i];
      ghost var ids := ChartIds(normalized);
      if record.chartId in positions {
        PlacedAt(normalized, record, 0, positions[record.chartId]);
        normalized := normalized[positions[record.chartId] := record];
        assert ChartIds(normalized) == ids;
        continue;
      }
      PlacedLast(normalized, record, 0);
      positions := positions[record.chartId := |normalized|];
      normalized := normalized + [record];
      assert ChartIds(normalized) == ids + [record.chartId];
    }
    assert records[..|records|] == records;
  }

  /** The chart's last record in the list. */
  function LastOf(records: seq<Upsert>, chartId: int): Option<Upsert> {
    if records == [] then None
    else if records[|records| - 1].chartId == chartId then Some(records[|records| - 1])
    else LastOf(records[..|records| - 1], chartId)
  }

  /** Of several records of a chart the last one counts, at the place of the first one. */
  lemma {:induction false} LastWinsAtFirstPlace(records: seq<Upsert>)
    ensures Distinct(ChartIds(Normalized(records)))
    ensures ChartIds(Normalized(records)) == FirstSeen(ChartIds(records))
    ensures forall k :: 0 <= k < |Normalized(records)| ==>
      LastOf(records, Normalized(records)[k].chartId) == Some(Normalized(records)[k])
  {
    if records != [] {
      var init, last := records[..|records| - 1], records[|records| - 1];
      LastWinsAtFirstPlace(init);
      var before := Normalized(init);
      var ids := ChartIds(before);
      assert ChartIds(records)[..|init|] == ChartIds(init);
      if last.chartId in ids {
        var k :| 0 <= k < |ids| && ids[k] == last.chartId;
        PlacedAt(before, last, 0, k);
        assert ChartIds(Normalized(records)) == ids;
        forall j | 0 <= j < |before| && j != k ensures before[j].chartId != last.chartId {
          assert ids[j] != ids[k];
        }
      } else {
        forall j | 0 <= j < |before| ensures before[j].chartId != last.chartId {
          assert ids[j] != last.chartId;
        }
        PlacedLast(before, last, 0);
        assert ChartIds(Normalized(records)) == ids + [last.chartId];
      }
    }
  }
}
