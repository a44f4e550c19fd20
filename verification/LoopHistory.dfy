/** The bounded history of controller loops that the showcase keeps on disk. */
module LoopHistory {
  import opened Common

  /** A JSON value looked up in a record: absent or falsy, a text, or something else with its rendering. */
  datatype Field = Missing | Text(value: string) | Other(rendering: string)

  datatype Record = Record(loopKey: Field, minuteBucket: Field, body: nat)

  predicate IsSpace(c: char) {
    var n := c as int;
    || 0x9 <= n <= 0xd || 0x1c <= n <= 0x20 || n == 0x85 || n == 0xa0 || n == 0x1680
    || 0x2000 <= n <= 0x200a || n == 0x2028 || n == 0x2029 || n == 0x202f || n == 0x205f || n == 0x3000
  }

  /** The first position from i on that holds no space, or the end. */
  function SkipSpaces(s: string, i: nat): (low: nat)
    requires i <= |s|
    ensures i <= low <= |s|
    decreases |s| - i
  {
    if i < |s| && IsSpace(s[i]) then SkipSpaces(s, i + 1) else i
  }

  /** The end of what is left of s[low..high] without the spaces at its end. */
  function DropSpaces(s: string, low: nat, high: nat): (end: nat)
    requires low <= high <= |s|
    ensures low <= end <= high
  {
    if low < high && IsSpace(s[high - 1]) then DropSpaces(s, low, high - 1) else high
  }

  function Strip(s: string): string {
    var low := SkipSpaces(s, 0);
    s[low..DropSpaces(s, low, |s|)]
  }

  /** A field as the store normalises it: rendered as text and stripped, empty when absent. */
  function Normal(f: Field): string {
    match f
    case Missing => ""
    case Text(value) => Strip(value)
    case Other(rendering) => Strip(rendering)
  }

  function Key(r: Record): string { Normal(r.loopKey) }

  function Bucket(r: Record): string { Normal(r.minuteBucket) }

  /** The last entry's raw key is the text `key`. */
  predicate LastHasKey(items: seq<Record>, key: string) {
    |items| > 0 && items[|items| - 1].loopKey == Text(key)
  }

  /** What a record does to a history. */
  datatype Effect = Ignored | Replaced | Appended

  function EffectOn(items: seq<Record>, record: Option<Record>): Effect {
    if record.None? || |Key(record.value)| == 0 || LastHasKey(items, Key(record.value)) then Ignored
    else if |items| > 0 && |Bucket(record.value)| > 0 && Bucket(record.value) == Bucket(items[|items| - 1]) then
      if items[|items| - 1] == record.value then Ignored else Replaced
    else Appended
  }

  /** The last n entries, all of them when there are fewer, none when n is not positive. */
  function LastN(items: seq<Record>, n: int): seq<Record> {
    if n >= |items| then items else if n <= 0 then [] else items[|items| - n..]
  }

  /** The history without a bound. */
  function Extended(items: seq<Record>, record: Option<Record>): seq<Record> {
    match EffectOn(items, record)
    case Ignored => items
    case Replaced => items[|items| - 1 := record.value]
    case Appended => items + [record.value]
  }

  /** The history as stored: cut to the limit after an append. */
  function Synced(items: seq<Record>, record: Option<Record>, limit: int): seq<Record> {
    if EffectOn(items, record).Appended? then LastN(Extended(items, record), limit) else Extended(items, record)
  }

  /** Applying the first n records in order. */
  function Folded<S>(step: (S, Option<Record>) -> S, start: S, records: seq<Option<Record>>, n: nat): S
    requires n <= |records|
  {
    if n == 0 then start else step(Folded(step, start, records, n - 1), records[n - 1])
  }

  /** The stored history after the first n records. */
  function History(items: seq<Record>, records: seq<Option<Record>>, n: nat, limit: int): seq<Record>
    requires n <= |records|
  {
    Folded((h, r) => Synced(h, r, limit), items, records, n)
  }

  /** The history kept without a bound, and whether a record was ever appended to it. */
  datatype Reference = Reference(full: seq<Record>, appended: bool)

  function Follow(s: Reference, record: Option<Record>): Reference {
    Reference(Extended(s.full, record), s.appended || EffectOn(s.full, record).Appended?)
  }

  function Unbounded(items: seq<Record>, records: seq<Option<Record>>, n: nat): Reference
    requires n <= |records|
  {
    Folded(Follow, Reference(items, false), records, n)
  }

  // ---------------------------------------------------------------------
  // The bounded history is the end of the unbounded one
  // ---------------------------------------------------------------------

  /** The effect of a record depends on the last entry alone. */
  lemma EffectIsLocal(items: seq<Record>, others: seq<Record>, record: Option<Record>)
    requires |items| > 0 && |others| > 0 && items[|items| - 1] == others[|others| - 1]
    ensures EffectOn(items, record) == EffectOn(others, record)
  {
  }

  lemma LastNKeepsLast(items: seq<Record>, limit: int)
    requires limit > 0 && |items| > 0
    ensures var cut := LastN(items, limit); |cut| > 0 && cut[|cut| - 1] == items[|items| - 1]
  {
  }

  lemma CutThenReplace(items: seq<Record>, r: Record, limit: int)
    requires limit > 0 && |items| > 0
    ensures var cut := LastN(items, limit);
      |cut| > 0 && cut[|cut| - 1 := r] == LastN(items[|items| - 1 := r], limit)
  {
  }

  lemma CutThenAppend(items: seq<Record>, r: Record, limit: int)
    requires limit > 0
    ensures LastN(LastN(items, limit) + [r], limit) == LastN(items + [r], limit)
  {
    if |items| >= limit {
      var d := |items| - limit;
      assert (items[d..] + [r])[1..] == (items + [r])[d + 1..];
    }
  }

  lemma CutThenSync(items: seq<Record>, record: Option<Record>, limit: int)
    requires limit > 0
    ensures Synced(LastN(items, limit), record, limit) == LastN(Extended(items, record), limit)
  {
    if |items| > 0 {
      LastNKeepsLast(items, limit);
      EffectIsLocal(LastN(items, limit), items, record);
      match EffectOn(items, record) {
        case Ignored =>
        case Replaced => CutThenReplace(items, record.value, limit);
        case Appended => CutThenAppend(items, record.value, limit);
      }
    }
  }

  lemma SyncOfCut(items: seq<Record>, full: seq<Record>, record: Option<Record>, limit: int)
    requires items == LastN(full, limit)
    ensures Synced(items, record, limit) == LastN(Extended(full, record), limit)
  {
    if limit > 0 {
      CutThenSync(full, record, limit);
    }
  }

  /** What every step keeps, every sequence of steps keeps. */
  lemma {:induction false} FoldKeeps<S(!new)>(holds: S -> bool, step: (S, Option<Record>) -> S,
                                              start: S, records: seq<Option<Record>>, n: nat)
    requires n <= |records| && holds(start)
    requires forall s, r :: holds(s) ==> holds(step(s, r))
    ensures holds(Folded(step, start, records, n))
  {
    if n > 0 {
      FoldKeeps(holds, step, start, records, n - 1);
    }
  }

  /** What every pair of steps keeps, every sequence of them keeps. */
  lemma {:induction false} FoldsRelate<A(!new), B(!new)>(
    relates: (A, B) -> bool, stepA: (A, Option<Record>) -> A, stepB: (B, Option<Record>) -> B,
    a: A, b: B, records: seq<Option<Record>>, n: nat)
    requires n <= |records| && relates(a, b)
    requires forall x, y, r :: relates(x, y) ==> relates(stepA(x, r), stepB(y, r))
    ensures relates(Folded(stepA, a, records, n), Folded(stepB, b, records, n))
  {
    if n > 0 {
      FoldsRelate(relates, stepA, stepB, a, b, records, n - 1);
    }
  }

  /** What is stored is the whole of the unbounded history, or once a record was appended the end of it. */
  predicate Refines(stored: seq<Record>, reference: Reference, limit: int) {
    stored == if reference.appended then LastN(reference.full, limit) else reference.full
  }

  lemma SyncRefines(stored: seq<Record>, reference: Reference, record: Option<Record>, limit: int)
    requires Refines(stored, reference, limit)
    ensures Refines(Synced(stored, record, limit), Follow(reference, record), limit)
  {
    if reference.appended {
      SyncOfCut(stored, reference.full, record, limit);
    }
  }

  lemma HistoryRefines(items: seq<Record>, records: seq<Option<Record>>, n: nat, limit: int)
    requires n <= |records|
    ensures Refines(History(items, records, n, limit), Unbounded(items, records, n), limit)
  {
    forall h, s, r | Refines(h, s, limit) ensures Refines(Synced(h, r, limit), Follow(s, r), limit) {
      SyncRefines(h, s, r, limit);
    }
    FoldsRelate((h, s) => Refines(h, s, limit), (h, r) => Synced(h, r, limit), Follow,
                items, Reference(items, false), records, n);
  }

  /** Without an append the number of entries stays. */
  lemma NothingAppended(items: seq<Record>, records: seq<Option<Record>>, n: nat)
    requires n <= |records|
    ensures var s := Unbounded(items, records, n); s.appended || |s.full| == |items|
  {
    FoldKeeps((s: Reference) => s.appended || |s.full| == |items|, Follow, Reference(items, false), records, n);
  }

  /**
    Refinement, for every stored history, every sequence of records and every integer limit: the end
    of what is stored is the end of the history kept without a bound. What is stored is that end and
    nothing more exactly when the history was within its limit at the start, or a record was appended.
  */
  lemma BoundedIsSuffixOfFull(items: seq<Record>, records: seq<Option<Record>>, n: nat, limit: int)
    requires n <= |records|
    ensures var stored, reference := History(items, records, n, limit), Unbounded(items, records, n);
      && LastN(stored, limit) == LastN(reference.full, limit)
      && (stored == LastN(reference.full, limit) <==> |items| <= Max(limit, 0) || reference.appended)
  {
    HistoryRefines(items, records, n, limit);
    NothingAppended(items, records, n);
    SuffixExactly(History(items, records, n, limit), Unbounded(items, records, n), limit, |items|);
  }

  lemma SuffixExactly(stored: seq<Record>, reference: Reference, limit: int, size: nat)
    requires Refines(stored, reference, limit) && (reference.appended || |reference.full| == size)
    ensures LastN(stored, limit) == LastN(reference.full, limit)
    ensures stored == LastN(reference.full, limit) <==> size <= Max(limit, 0) || reference.appended
  {
  }

  /**
    What one sync stores: nothing new for a record without a key or with the last key; the record in place
    of the last entry when it names the same minute; otherwise the record behind all entries, cut to the limit.
  */
  lemma SyncStores(items: seq<Record>, record: Record, limit: int)
    ensures var once := Synced(items, Some(record), limit);
      if |Key(record)| == 0 || (|items| > 0 && items[|items| - 1].loopKey == Text(Key(record))) then once == items
      else if SameMinute(items, record) then once == items[..|items| - 1] + [record]
      else
        && |once| == (if limit <= 0 then 0 else if |items| + 1 <= limit then |items| + 1 else limit)
        && once == (items + [record])[|items| + 1 - |once|..]
    ensures Synced(items, None, limit) == items
  {
  }

  /** A key and a minute are compared stripped, whatever they were rendered from; an absent one is empty. */
  lemma NormalExactly(f: Field)
    ensures f.Missing? ==> Normal(f) == ""
    ensures f.Text? ==> Normal(f) == Strip(f.value)
    ensures f.Other? ==> Normal(f) == Strip(f.rendering)
  {
  }

  /** Blanks and line ends are spaces; no visible ASCII character is. */
  lemma SpacesAreInvisible(c: char)
    ensures c == ' ' || c == '\t' || c == '\n' || c == '\r' ==> IsSpace(c)
    ensures '!' <= c <= '~' ==> !IsSpace(c)
  {
  }

  /** Stripping takes away the spaces at both ends and nothing else. */
  lemma StripIsMiddle(s: string) returns (low: nat, end: nat)
    ensures low <= end <= |s| && Strip(s) == s[low..end]
    ensures forall i :: 0 <= i < low || end <= i < |s| ==> IsSpace(s[i])
    ensures low < end ==> !IsSpace(s[low]) && !IsSpace(s[end - 1])
  {
    low := SkipSpaces(s, 0);
    SkippedAreSpaces(s, 0);
    DroppedAreSpaces(s, low, |s|);
    end := DropSpaces(s, low, |s|);
  }

  lemma {:induction false} SkippedAreSpaces(s: string, i: nat)
    requires i <= |s|
    ensures var low := SkipSpaces(s, i);
      (forall j :: i <= j < low ==> IsSpace(s[j])) && (low < |s| ==> !IsSpace(s[low]))
    decreases |s| - i
  {
    if i < |s| && IsSpace(s[i]) {
      SkippedAreSpaces(s, i + 1);
    }
  }

  lemma {:induction false} DroppedAreSpaces(s: string, low: nat, high: nat)
    requires low <= high <= |s|
    ensures var end := DropSpaces(s, low, high);
      (forall j :: end <= j < high ==> IsSpace(s[j])) && (low < end ==> !IsSpace(s[end - 1]))
  {
    if low < high && IsSpace(s[high - 1]) {
      DroppedAreSpaces(s, low, high - 1);
    }
  }

  // ---------------------------------------------------------------------
  // Syncing the same record twice
  // ---------------------------------------------------------------------

  /** The record names the minute of the last entry. */
  predicate SameMinute(items: seq<Record>, record: Record) {
    |items| > 0 && |Bucket(record)| > 0 && Bucket(record) == Bucket(items[|items| - 1])
  }

  /** The record can be recognised in the history: its key is stored as it is compared, or it names its minute. */
  predicate Recognisable(record: Record) {
    record.loopKey == Text(Key(record)) || |Bucket(record)| > 0
  }

  /**
    A second sync of the same record reports no change exactly when the record has no key, or its
    key is already the last one, or it names the minute of the last entry, or the store keeps
    something and the record is recognisable; and then it changes nothing.
  */
  lemma ResyncIsQuietExactly(items: seq<Record>, record: Record, limit: int)
    ensures var once := Synced(items, Some(record), limit);
      && (EffectOn(once, Some(record)).Ignored? <==>
            || |Key(record)| == 0 || LastHasKey(items, Key(record)) || SameMinute(items, record)
            || (limit > 0 && Recognisable(record)))
      && (EffectOn(once, Some(record)).Ignored? ==> Synced(once, Some(record), limit) == once)
  {
    var once := Synced(items, Some(record), limit);
    if EffectOn(items, Some(record)).Appended? && limit > 0 {
      LastNKeepsLast(items + [record], limit);
      assert once[|once| - 1] == record;
    }
  }

  /** A record whose key is padded and which names no minute: syncing it twice stores it twice. */
  lemma PaddedKeyIsStoredTwice()
    ensures var record := Record(Text(" k"), Missing, 0);
      Synced(Synced([], Some(record), 2), Some(record), 2) == [record, record]
  {
    var record := Record(Text(" k"), Missing, 0);
    assert SkipSpaces(" k", 0) == SkipSpaces(" k", 1) == 1;
    assert DropSpaces(" k", 1, 2) == 2 && " k"[1..2] == "k";
    assert Key(record) == "k" && Bucket(record) == "";
    assert record.loopKey != Text("k");
    assert EffectOn([], Some(record)) == EffectOn([record], Some(record)) == Appended;
  }

  // ---------------------------------------------------------------------
  // One entry per minute
  // ---------------------------------------------------------------------

  /** Neighbouring entries that name their minute name different minutes. */
  predicate OnePerMinute(items: seq<Record>) {
    forall i :: 0 < i < |items| && |Bucket(items[i])| > 0 ==> Bucket(items[i]) != Bucket(items[i - 1])
  }

  lemma HistoryIsOnePerMinute(items: seq<Record>, records: seq<Option<Record>>, n: nat, limit: int)
    requires n <= |records| && OnePerMinute(items)
    ensures OnePerMinute(History(items, records, n, limit))
  {
    forall h, r | OnePerMinute(h) ensures OnePerMinute(Synced(h, r, limit)) {
      SyncKeepsOnePerMinute(h, r, limit);
    }
    FoldKeeps(OnePerMinute, (h, r) => Synced(h, r, limit), items, records, n);
  }

  lemma ExtendKeepsOnePerMinute(items: seq<Record>, record: Option<Record>)
    requires OnePerMinute(items)
    ensures OnePerMinute(Extended(items, record))
  {
  }

  lemma SyncKeepsOnePerMinute(items: seq<Record>, record: Option<Record>, limit: int)
    requires OnePerMinute(items)
    ensures OnePerMinute(Synced(items, record, limit))
  {
    ExtendKeepsOnePerMinute(items, record);
    CutKeepsOnePerMinute(Extended(items, record), limit);
  }

  lemma CutKeepsOnePerMinute(items: seq<Record>, limit: int)
    requires OnePerMinute(items)
    ensures OnePerMinute(LastN(items, limit))
  {
    var cut := LastN(items, limit);
    var d := |items| - |cut|;
    forall i | 0 < i < |cut| && |Bucket(cut[i])| > 0 ensures Bucket(cut[i]) != Bucket(cut[i - 1]) {
      assert cut[i] == items[i + d] && cut[i - 1] == items[i + d - 1];
    }
  }

  // ---------------------------------------------------------------------
  // The store
  // ---------------------------------------------------------------------

  /** Deleting what exceeds the limit from the front leaves the last entries. */
  lemma DeletedPrefix(items: seq<Record>, limit: int)
    ensures (if |items| > limit then items[Min(|items| - limit, |items|)..] else items) == LastN(items, limit)
  {
  }

  class Loops {
    var items: seq<Record>

    constructor (items: seq<Record>)
      ensures this.items == items
    {
      this.items := items;
    }

    method AppendIfNew(record: Option<Record>, limit: int) returns (changed: bool)
      modifies this
      ensures items == Synced(old(items), record, limit)
      ensures changed <==> !EffectOn(old(items), record).Ignored?
    {
      ghost var effect := EffectOn(items, record);
      if record.None? {
        return false;
      }
      var loopKey := Key(record.value);
      if |loopKey| == 0 {
        return false;
      }
      if |items| > 0 && items[|items| - 1].loopKey == Text(loopKey) {
        return false;
      }
      var minuteBucket := Bucket(record.value);
      if |items| > 0 {
        var lastMinuteBucket := Bucket(items[|items| - 1]);
        if |minuteBucket| > 0 && minuteBucket == lastMinuteBucket {
          if items[|items| - 1] == record.value {
            return false;
          }
          assert effect == Replaced;
          items := items[|items| - 1 := record.value];
          return true;
        }
      }
      assert effect == Appended;
      items := items + [record.value];
      DeletedPrefix(items, limit);
      if |items| > limit {
        items := items[Min(|items| - limit, |items|)..];
      }
      return true;
    }
  }

  datatype Scaler = Scaler(podLoops: seq<Record>, nodeLoops: seq<Record>)

  function Entry(payload: map<string, Scaler>, key: string): Scaler {
    if key in payload then payload[key] else Scaler([], [])
  }

  class LoopHistoryStore {
    const limit: int
    /** The payload in the history file. */
    var stored: map<string, Scaler>

    constructor (limit: int)
      ensures this.limit == limit && stored == map[]
    {
      this.limit, stored := limit, map[];
    }

    /** Both histories of one scaler are synced; the file is written only when one of them changed. */
    method SyncLatest(scalerKey: string, podLoop: Option<Record>, nodeLoop: Option<Record>)
      returns (result: Scaler, changed: bool)
      modifies this
      ensures var before := Entry(old(stored), scalerKey);
        && result == Scaler(Synced(before.podLoops, podLoop, limit), Synced(before.nodeLoops, nodeLoop, limit))
        && (changed <==> !EffectOn(before.podLoops, podLoop).Ignored? || !EffectOn(before.nodeLoops, nodeLoop).Ignored?)
        && Entry(stored, scalerKey) == result
      ensures stored == if changed then old(stored)[scalerKey := result] else old(stored)
    {
      var payload := Entry(stored, scalerKey);
      var podLoops := new Loops(payload.podLoops);
      var nodeLoops := new Loops(payload.nodeLoops);
      changed := false;
      var podChanged := podLoops.AppendIfNew(podLoop, limit);
      if podChanged {
        changed := true;
      }
      var nodeChanged := nodeLoops.AppendIfNew(nodeLoop, limit);
      if nodeChanged {
        changed := true;
      }
      result := Scaler(podLoops.items, nodeLoops.items);
      if changed {
        stored := stored[scalerKey := result];
      }
    }
  }
}
