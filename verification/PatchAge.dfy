// The patches a device has open, and since when.
module PatchAge {
  import opened Text
  import opened Wrappers

  datatype Severity = Critical | Important | Moderate | Low | Other

  // One entry of a report, as text.
  datatype Item = Item(patchId: Str, title: Str, severity: Str)

  datatype Key = Key(device: nat, patchId: Str)
  datatype Row = Row(title: Str, severity: Severity, detectedAt: int, updatedAt: int)

  type Rows = map<Key, Row>

  const MAX_PATCHES_PER_DEVICE: nat := 2000
  const MAX_TITLE: nat := 300

  // ---- severities ------------------------------------------------------------------------------

  function Word(v: Severity): Str {
    match v
    case Critical => Codes("critical")
    case Important => Codes("important")
    case Moderate => Codes("moderate")
    case Low => Codes("low")
    case Other => Codes("other")
  }

  // str.lower() as far as it matters: what it maps to the letters of these words is theirs.
  function Lower(s: Str): (r: Str)
    ensures |r| == |s|
  {
    seq(|s|, i requires 0 <= i < |s| => if 'A' as int <= s[i] <= 'Z' as int then s[i] + 32 else s[i])
  }

  // The severity a reported word means; an unknown or empty one is "other".
  function NormSeverity(value: Str): Severity {
    var s := Lower(value);
    if s == Word(Critical) then Critical
    else if s == Word(Important) then Important
    else if s == Word(Moderate) then Moderate
    else if s == Word(Low) then Low
    else Other
  }

  lemma WordsDiffer()
    ensures |Word(Critical)| == 8 && |Word(Important)| == 9 && |Word(Moderate)| == 8 && |Word(Low)| == 3 && |Word(Other)| == 5
    ensures Word(Critical)[0] == 'c' as int && Word(Moderate)[0] == 'm' as int
  {
  }

  lemma LowerWord(s: string)
    requires forall i :: 0 <= i < |s| ==> 'a' <= s[i] <= 'z'
    ensures Lower(Codes(s)) == Codes(s)
  {
    assert forall i :: 0 <= i < |s| ==> Lower(Codes(s))[i] == Codes(s)[i];
  }

  // Case does not matter, each word means its severity, and whatever is none of them is "other".
  lemma SeverityOfWord(value: Str, v: Severity)
    ensures v != Other ==> (NormSeverity(value) == v <==> Lower(value) == Word(v))
    ensures NormSeverity(Word(v)) == v
  {
    WordsDiffer();
    LowerWord("critical");
    LowerWord("important");
    LowerWord("moderate");
    LowerWord("low");
    LowerWord("other");
    hide Lower;
    if v == Critical { assert Word(v) == Codes("critical"); }
  }

  // These letters, each small or capital.
  predicate SaysLetters(value: Str, letters: seq<int>) {
    |value| == |letters| && forall i :: 0 <= i < |letters| ==> value[i] == letters[i] || value[i] == letters[i] - 32
  }

  lemma LoweredIs(value: Str, word: Str)
    requires forall i :: 0 <= i < |word| ==> 97 <= word[i] <= 122
    ensures Lower(value) == word <==> SaysLetters(value, word)
  {
    assert forall i :: 0 <= i < |value| ==> Lower(value)[i] == if 65 <= value[i] <= 90 then value[i] + 32 else value[i];
  }

  lemma WordsAre()
    ensures Word(Critical) == [99, 114, 105, 116, 105, 99, 97, 108] && Word(Low) == [108, 111, 119]
    ensures Word(Important) == [105, 109, 112, 111, 114, 116, 97, 110, 116] && Word(Moderate) == [109, 111, 100, 101, 114, 97, 116, 101]
  {
    var c, i, m, l := "critical", "important", "moderate", "low";
    assert c[0] == 'c' && c[1] == 'r' && c[2] == 'i' && c[3] == 't' && c[4] == 'i' && c[5] == 'c' && c[6] == 'a' && c[7] == 'l';
    assert i[0] == 'i' && i[1] == 'm' && i[2] == 'p' && i[3] == 'o' && i[4] == 'r' && i[5] == 't' && i[6] == 'a' && i[7] == 'n' && i[8] == 't';
    assert m[0] == 'm' && m[1] == 'o' && m[2] == 'd' && m[3] == 'e' && m[4] == 'r' && m[5] == 'a' && m[6] == 't' && m[7] == 'e';
    assert l[0] == 'l' && l[1] == 'o' && l[2] == 'w';
  }

  // "critical", "important", "moderate" and "low", letter by letter.
  lemma SeverityIs(value: Str)
    ensures NormSeverity(value) == Critical <==> SaysLetters(value, [99, 114, 105, 116, 105, 99, 97, 108])
    ensures NormSeverity(value) == Important <==> SaysLetters(value, [105, 109, 112, 111, 114, 116, 97, 110, 116])
    ensures NormSeverity(value) == Moderate <==> SaysLetters(value, [109, 111, 100, 101, 114, 97, 116, 101])
    ensures NormSeverity(value) == Low <==> SaysLetters(value, [108, 111, 119])
  {
    WordsAre();
    WordsDiffer();
    LoweredIs(value, Word(Critical));
    LoweredIs(value, Word(Important));
    LoweredIs(value, Word(Moderate));
    LoweredIs(value, Word(Low));
    hide Word, Lower, SaysLetters;
  }

  // ---- what one scan does --------------------------------------------------------------------

  function Head(items: seq<Item>): seq<Item> {
    if |items| <= MAX_PATCHES_PER_DEVICE then items else items[..MAX_PATCHES_PER_DEVICE]
  }

  // The first n entries by id: the last of an id counts, one without an id does not.
  function ReportedTo(items: seq<Item>, n: nat): map<Str, Item>
    requires n <= |items|
  {
    if n == 0 then map[]
    else
      var id := Strip(items[n - 1].patchId);
      if id == [] then ReportedTo(items, n - 1) else ReportedTo(items, n - 1)[id := items[n - 1]]
  }

  function Reported(items: seq<Item>): map<Str, Item> { ReportedTo(items, |items|) }

  function Entered(rows: Rows, k: Key, item: Item, now: int): Row {
    Row(Take(item.title, MAX_TITLE), NormSeverity(item.severity), if k in rows then rows[k].detectedAt else now, now)
  }

  function Scanned(rows: Rows, device: nat, report: map<Str, Item>, now: int): Rows {
    map k | k in rows.Keys + (set id | id in report :: Key(device, id)) && (k.device == device ==> k.patchId in report) ::
      if k.device == device then Entered(rows, k, report[k.patchId], now) else rows[k]
  }

  // Of a report, all but the ids in `left` have been entered.
  ghost predicate AsFar(before: Rows, rows: Rows, device: nat, report: map<Str, Item>, left: set<Str>, now: int, k: Key) {
    if k.device != device then (k in rows <==> k in before) && (k in rows ==> rows[k] == before[k])
    else if k.patchId !in report then k !in rows
    else if k.patchId in left then (k in rows <==> k in before) && (k in rows ==> rows[k] == before[k])
    else k in rows && rows[k] == Entered(before, k, report[k.patchId], now)
  }

  lemma NoneEntered(before: Rows, rows: Rows, device: nat, report: map<Str, Item>, now: int)
    requires rows == map k | k in before && (k.device == device ==> k.patchId in report) :: before[k]
    ensures forall k :: AsFar(before, rows, device, report, report.Keys, now, k)
  {
  }

  lemma SameSoFar(before: Rows, rows: Rows, device: nat, report: map<Str, Item>, left: set<Str>, now: int, k: Key)
    requires k.device == device && k.patchId in left && k.patchId in report && AsFar(before, rows, device, report, left, now, k)
    ensures (k in rows <==> k in before) && (k in rows ==> rows[k] == before[k])
  {
  }

  lemma EnterOne(before: Rows, rows: Rows, device: nat, report: map<Str, Item>, left: set<Str>, now: int, id: Str, after: Rows)
    requires left <= report.Keys && id in left
    requires forall k :: AsFar(before, rows, device, report, left, now, k)
    requires after == rows[Key(device, id) := Entered(before, Key(device, id), report[id], now)]
    ensures forall k :: AsFar(before, after, device, report, left - {id}, now, k)
  {
    hide Entered;
    forall k
      ensures AsFar(before, after, device, report, left - {id}, now, k)
    {
      assert AsFar(before, rows, device, report, left, now, k);
    }
  }

  lemma AllEntered(before: Rows, rows: Rows, device: nat, report: map<Str, Item>, now: int)
    requires forall k :: AsFar(before, rows, device, report, {}, now, k)
    ensures rows == Scanned(before, device, report, now)
  {
    hide Entered;
    assert forall k :: AsFar(before, rows, device, report, {}, now, k);
    forall k
      ensures k in rows <==> k in Scanned(before, device, report, now)
      ensures k in rows ==> rows[k] == Scanned(before, device, report, now)[k]
    {
      assert AsFar(before, rows, device, report, {}, now, k);
    }
  }

  class PatchTable {
    var rows: Rows

    constructor ()
      ensures rows == map[]
    {
      rows := map[];
    }

    method ApplyScan(device: nat, items: seq<Item>, now: int) returns (tracked: nat)
      modifies this
      ensures rows == Scanned(old(rows), device, Reported(Head(items)), now)
      ensures tracked == |Reported(Head(items))|
    {
      hide Strip, AsFar, Scanned;
      var head := Head(items);
      var reported: map<Str, Item> := map[];
      for i := 0 to |head|
        invariant reported == ReportedTo(head, i)
      {
        var id := Strip(head[i].patchId);
        if id != [] {
          reported := reported[id := head[i]];
        }
      }
      rows := map k | k in rows && (k.device == device ==> k.patchId in reported) :: rows[k];
      NoneEntered(old(rows), rows, device, reported, now);
      Upsert(device, reported, now, old(rows));
      tracked := |reported|;
    }

    // Insert what is new, update the rest but for when it was found.
    method Upsert(device: nat, reported: map<Str, Item>, now: int, ghost before: Rows)
      requires forall k :: AsFar(before, rows, device, reported, reported.Keys, now, k)
      modifies this
      ensures rows == Scanned(before, device, reported, now)
    {
      var left := reported.Keys;
      hide Strip, Take, AsFar;
      while left != {}
        invariant left <= reported.Keys
        invariant forall k :: AsFar(before, rows, device, reported, left, now, k)
        decreases |left|
      {
        var id :| id in left;
        var k, item := Key(device, id), reported[id];
        ghost var was := rows;
        SameSoFar(before, rows, device, reported, left, now, k);
        if k in rows {
          rows := rows[k := rows[k].(title := Take(item.title, MAX_TITLE), severity := NormSeverity(item.severity), updatedAt := now)];
        } else {
          rows := rows[k := Row(Take(item.title, MAX_TITLE), NormSeverity(item.severity), now, now)];
        }
        EnterOne(before, was, device, reported, left, now, id, rows);
        left := left - {id};
      }
      AllEntered(before, rows, device, reported, now);
    }

    // The oldest open security patch, if there is one.
    method OldestPendingSecurity(device: nat) returns (oldest: Option<int>)
      ensures oldest.None? ==> forall k :: k in rows && k.device == device ==> rows[k].severity != Critical && rows[k].severity != Important
      ensures oldest.Some? ==> forall k :: k in rows && k.device == device && (rows[k].severity == Critical || rows[k].severity == Important) ==>
                oldest.value <= rows[k].detectedAt
      ensures oldest.Some? ==>
                exists k :: k in rows && k.device == device && (rows[k].severity == Critical || rows[k].severity == Important) && rows[k].detectedAt == oldest.value
      ensures oldest.None? ==> forall k :: k in rows ==> !IsSecurity(rows, k, device)
      ensures oldest.Some? ==> exists k :: k in rows && IsSecurity(rows, k, device) && rows[k].detectedAt == oldest.value
      ensures oldest.Some? ==> forall k :: k in rows && IsSecurity(rows, k, device) ==> oldest.value <= rows[k].detectedAt
    {
      var security: set<Key> := set k | k in rows && IsSecurity(rows, k, device);
      var left := security;
      oldest := None;
      assert forall k :: k in rows ==> (k in security <==> IsSecurity(rows, k, device));
      while left != {}
        invariant left <= security
        invariant oldest.None? ==> left == security
        invariant oldest.Some? ==> exists k :: k in security && rows[k].detectedAt == oldest.value
        invariant oldest.Some? ==> forall k :: k in security && k !in left ==> oldest.value <= rows[k].detectedAt
        decreases |left|
      {
        var k :| k in left;
        left := left - {k};
        if oldest.None? || rows[k].detectedAt < oldest.value {
          oldest := Some(rows[k].detectedAt);
        }
      }
    }
  }

  predicate IsSecurity(rows: Rows, k: Key, device: nat)
    requires k in rows
  {
    k.device == device && rows[k].severity in {Critical, Important}
  }

  // ---- over any history ---------------------------------------------------------------------------

  datatype Scan = Scan(device: nat, items: seq<Item>, at: int)

  // The table after the first n scans.
  ghost function RunTo(scans: seq<Scan>, n: nat): Rows
    requires n <= |scans|
  {
    if n == 0 then map[]
    else Scanned(RunTo(scans, n - 1), scans[n - 1].device, Reported(Head(scans[n - 1].items)), scans[n - 1].at)
  }

  predicate Names(s: Scan, id: Str) { id in Reported(Head(s.items)) }

  // The device's last scan before position n, or -1.
  ghost function LastOf(scans: seq<Scan>, n: nat, device: nat): (j: int)
    requires n <= |scans|
    ensures -1 <= j < n && (j >= 0 ==> scans[j].device == device)
    ensures forall m :: j < m < n ==> scans[m].device != device
  {
    if n == 0 then -1 else if scans[n - 1].device == device then n - 1 else LastOf(scans, n - 1, device)
  }

  // Scan i opens the run of the device's scans, up to position n, that name the patch: they
  // all do from it on, and the one before it did not.
  ghost predicate BeginsRun(scans: seq<Scan>, n: nat, i: int, device: nat, id: Str)
    requires n <= |scans|
  {
    && 0 <= i < n && scans[i].device == device
    && (forall j :: i <= j < n && scans[j].device == device ==> Names(scans[j], id))
    && (LastOf(scans, i, device) >= 0 ==> !Names(scans[LastOf(scans, i, device)], id))
  }

  ghost function RunStart(scans: seq<Scan>, n: nat, device: nat, id: Str): int
    requires n <= |scans|
  {
    if n == 0 then -1
    else if scans[n - 1].device != device then RunStart(scans, n - 1, device, id)
    else if !Names(scans[n - 1], id) then -1
    else if RunStart(scans, n - 1, device, id) >= 0 then RunStart(scans, n - 1, device, id)
    else n - 1
  }

  lemma {:induction false} StartIffNamed(scans: seq<Scan>, n: nat, device: nat, id: Str)
    requires n <= |scans|
    ensures RunStart(scans, n, device, id) >= 0 <==> LastOf(scans, n, device) >= 0 && Names(scans[LastOf(scans, n, device)], id)
  {
    hide Names;
    if n > 0 { StartIffNamed(scans, n - 1, device, id); }
  }

  lemma {:induction false} StartBegins(scans: seq<Scan>, n: nat, device: nat, id: Str)
    requires n <= |scans| && RunStart(scans, n, device, id) >= 0
    ensures BeginsRun(scans, n, RunStart(scans, n, device, id), device, id)
  {
    hide Names;
    if scans[n - 1].device == device { StartIffNamed(scans, n - 1, device, id); }
    if RunStart(scans, n - 1, device, id) >= 0 { StartBegins(scans, n - 1, device, id); }
  }

  lemma {:induction false} StartIsUnique(scans: seq<Scan>, n: nat, device: nat, id: Str, i: int)
    requires n <= |scans| && BeginsRun(scans, n, i, device, id)
    ensures RunStart(scans, n, device, id) == i
  {
    hide Names;
    if i < n - 1 {
      StartIsUnique(scans, n - 1, device, id, i);
    } else {
      StartIffNamed(scans, n - 1, device, id);
    }
  }

  lemma OneScan(rows: Rows, s: Scan, k: Key)
    ensures var after := Scanned(rows, s.device, Reported(Head(s.items)), s.at);
            && (k in after <==> if k.device == s.device then Names(s, k.patchId) else k in rows)
            && (k in after && k.device != s.device ==> after[k] == rows[k])
            && (k in after && k.device == s.device ==> after[k].detectedAt == if k in rows then rows[k].detectedAt else s.at)
  {
    hide Reported, Head;
  }

  lemma {:induction false} RowsFollowStarts(scans: seq<Scan>, n: nat, device: nat, id: Str)
    requires n <= |scans|
    ensures var rows, start, k := RunTo(scans, n), RunStart(scans, n, device, id), Key(device, id);
            && (k in rows <==> start >= 0)
            && start < n && (k in rows ==> rows[k].detectedAt == scans[start].at)
  {
    hide Names, Scanned, Reported, Head;
    if n > 0 {
      OneScan(RunTo(scans, n - 1), scans[n - 1], Key(device, id));
      RowsFollowStarts(scans, n - 1, device, id);
    }
  }

  // Entry i of the first 2,000 names the patch, and none behind it does.
  ghost predicate NamedLast(items: seq<Item>, i: int, id: Str) {
    && 0 <= i < |items| && i < 2000 && Strip(items[i].patchId) == id && id != []
    && forall j :: i < j < |items| && j < 2000 ==> Strip(items[j].patchId) != id
  }

  lemma {:induction false} ReportedIs(items: seq<Item>, n: nat, id: Str)
    requires n <= |items|
    ensures id in ReportedTo(items, n) <==> exists i :: 0 <= i < n && Strip(items[i].patchId) == id && id != []
    ensures forall i :: 0 <= i < n && Strip(items[i].patchId) == id && id != [] && (forall j :: i < j < n ==> Strip(items[j].patchId) != id) ==>
              id in ReportedTo(items, n) && ReportedTo(items, n)[id] == items[i]
  {
    hide Strip;
    if n > 0 { ReportedIs(items, n - 1, id); }
  }

  // What a scan leaves of the table: other devices' rows as they were; of this device's, those
  // some entry among the first 2,000 names by its trimmed id, with title (its first 300
  // characters) and severity of the last entry that does, found when it was first there.
  lemma ScanIs(rows: Rows, device: nat, items: seq<Item>, now: int, k: Key)
    ensures var after := Scanned(rows, device, Reported(Head(items)), now);
            && (k.device != device ==> (k in after <==> k in rows) && (k in rows ==> after[k] == rows[k]))
            && (k.device == device ==> (k in after <==> exists i :: 0 <= i < |items| && i < 2000 && Strip(items[i].patchId) == k.patchId && k.patchId != []))
            && (k.device == device ==> forall i :: NamedLast(items, i, k.patchId) ==>
                  k in after &&
                  after[k] == Row(if |items[i].title| <= 300 then items[i].title else items[i].title[..300], NormSeverity(items[i].severity),
                                  if k in rows then rows[k].detectedAt else now, now))
  {
    hide Strip, NormSeverity;
    var head := Head(items);
    ReportedIs(head, |head|, k.patchId);
    forall i | NamedLast(items, i, k.patchId)
      ensures k.patchId in Reported(head) && Reported(head)[k.patchId] == items[i]
    {
      assert head[i] == items[i];
      assert forall j :: i < j < |head| ==> head[j] == items[j];
    }
    assert forall i :: 0 <= i < |head| ==> head[i] == items[i];
    hide Reported;
  }

  // The patches of a device are those of its last report.
  lemma OpenPatchesAreTheLastReport(scans: seq<Scan>, device: nat, id: Str)
    ensures var last := LastOf(scans, |scans|, device);
            Key(device, id) in RunTo(scans, |scans|) <==> last >= 0 && Names(scans[last], id)
  {
    RowsFollowStarts(scans, |scans|, device, id);
    StartIffNamed(scans, |scans|, device, id);
  }

  // And each was found when the run of reports that name it, unbroken up to now, began.
  lemma DetectedWhenTheRunBegan(scans: seq<Scan>, device: nat, id: Str)
    ensures Key(device, id) in RunTo(scans, |scans|) <==> exists i :: BeginsRun(scans, |scans|, i, device, id)
    ensures forall i :: BeginsRun(scans, |scans|, i, device, id) && Key(device, id) in RunTo(scans, |scans|) ==>
              RunTo(scans, |scans|)[Key(device, id)].detectedAt == scans[i].at
  {
    hide RunTo, BeginsRun, RunStart;
    RowsFollowStarts(scans, |scans|, device, id);
    if RunStart(scans, |scans|, device, id) >= 0 { StartBegins(scans, |scans|, device, id); }
    forall i | BeginsRun(scans, |scans|, i, device, id)
      ensures RunStart(scans, |scans|, device, id) == i >= 0
    {
      StartIsUnique(scans, |scans|, device, id, i);
      assert i >= 0 by { BeginIsAPlace(scans, |scans|, i, device, id); }
    }
  }

  lemma BeginIsAPlace(scans: seq<Scan>, n: nat, i: int, device: nat, id: Str)
    requires n <= |scans| && BeginsRun(scans, n, i, device, id)
    ensures 0 <= i < n
  {
  }

  // What the overdue alert goes by: such a beginning, of a security patch.
  lemma OldestIsABeginning(scans: seq<Scan>, device: nat, k: Key)
    requires k in RunTo(scans, |scans|) && IsSecurity(RunTo(scans, |scans|), k, device)
    ensures exists i :: BeginsRun(scans, |scans|, i, device, k.patchId) && 0 <= i < |scans| && scans[i].at == RunTo(scans, |scans|)[k].detectedAt
  {
    DetectedWhenTheRunBegan(scans, device, k.patchId);
    hide RunTo;
    assert k == Key(device, k.patchId);
    var i :| BeginsRun(scans, |scans|, i, device, k.patchId);
  }
}
