// Which alert rule governs a device, and what it says about the device's state.
module AlertRules {
  import opened Wrappers

  datatype Type = Offline | Disk | PatchAge | MdmSilent | MdmPasscode | MdmIdentity
  datatype Scope = Everyone | Tagged(tag: string) | Owned(person: string) | Unknown
  datatype Rule = Rule(id: nat, of: Type, enabled: bool, threshold: Option<int>, scope: Scope)

  // What a phone last said over MDM.
  datatype Mdm = Mdm(removed: bool, lastSeen: int, passcode: Option<bool>, identityExpires: Option<int>)

  datatype Device = Device(
    id: nat, hasAgent: bool, tags: set<string>, person: Option<string>,
    lastSeen: Option<int>, online: bool, fullestDisk: Option<real>, oldestSecurity: Option<int>, mdm: Option<Mdm>)

  datatype Settings = Settings(offlineAfterS: int, diskAlert: real, diskClear: real, patchAgeDays: int)

  const DAY_S: int := 86400

  // ---- the governing rule -------------------------------------------------------------------

  function Specificity(s: Scope): nat {
    match s
    case Everyone => 1
    case Tagged(_) => 2
    case Owned(_) => 3
    case Unknown => 0
  }

  predicate Matches(r: Rule, d: Device) {
    match r.scope
    case Everyone => true
    case Tagged(tag) => tag in d.tags
    case Owned(person) => d.person == Some(person)
    case Unknown => false
  }

  predicate Before(a: Rule, b: Rule) {
    Specificity(a.scope) > Specificity(b.scope) || (Specificity(a.scope) == Specificity(b.scope) && a.id < b.id)
  }

  function Candidates(rules: seq<Rule>, d: Device, t: Type): seq<Rule> {
    if rules == [] then []
    else (if rules[0].of == t && Matches(rules[0], d) then [rules[0]] else []) + Candidates(rules[1..], d, t)
  }

  // A stable sort, most specific and then oldest first.
  function Insert(r: Rule, sorted: seq<Rule>): seq<Rule> {
    if sorted == [] || !Before(sorted[0], r) then [r] + sorted else [sorted[0]] + Insert(r, sorted[1..])
  }

  function Sorted(rules: seq<Rule>): seq<Rule> {
    if rules == [] then [] else Insert(rules[0], Sorted(rules[1..]))
  }

  function EffectiveRule(rules: seq<Rule>, d: Device, t: Type): Option<Rule> {
    var sorted := Sorted(Candidates(rules, d, t));
    if sorted == [] then None else Some(sorted[0])
  }

  // r governs: it applies and no other that applies comes before it.
  ghost predicate Governs(r: Rule, rules: seq<Rule>, d: Device, t: Type) {
    && r in rules && r.of == t && Matches(r, d)
    && forall o :: o in rules && o.of == t && Matches(o, d) ==> o == r || Before(r, o)
  }

  ghost predicate DistinctIds(rules: seq<Rule>) {
    forall a, b :: a in rules && b in rules && a.id == b.id ==> a == b
  }

  lemma {:induction false} CandidatesAre(rules: seq<Rule>, d: Device, t: Type)
    ensures forall r :: r in Candidates(rules, d, t) <==> r in rules && r.of == t && Matches(r, d)
  {
    if rules != [] {
      CandidatesAre(rules[1..], d, t);
      assert rules == [rules[0]] + rules[1..];
      hide Matches;
    }
  }

  lemma {:induction false} InsertPutsFirst(r: Rule, sorted: seq<Rule>)
    requires sorted != [] ==> forall o :: o in sorted ==> !Before(o, sorted[0])
    ensures var s := Insert(r, sorted); s != [] && (forall o :: o in s <==> o == r || o in sorted) && forall o :: o in s ==> !Before(o, s[0])
  {
    if sorted != [] && Before(sorted[0], r) {
      assert Insert(r, sorted)[0] == sorted[0];
      InsertKeeps(r, sorted[1..]);
      assert sorted == [sorted[0]] + sorted[1..];
    }
  }

  lemma {:induction false} InsertKeeps(r: Rule, sorted: seq<Rule>)
    ensures forall o :: o in Insert(r, sorted) <==> o == r || o in sorted
  {
    if sorted != [] && Before(sorted[0], r) {
      InsertKeeps(r, sorted[1..]);
      assert sorted == [sorted[0]] + sorted[1..];
    }
  }

  lemma {:induction false} SortedPutsBestFirst(rules: seq<Rule>)
    ensures var s := Sorted(rules); (s == [] <==> rules == []) && (forall o :: o in s <==> o in rules) && (s != [] ==> forall o :: o in s ==> !Before(o, s[0]))
  {
    if rules != [] {
      SortedPutsBestFirst(rules[1..]);
      InsertPutsFirst(rules[0], Sorted(rules[1..]));
      assert rules == [rules[0]] + rules[1..];
    }
  }

  // The rule found is the one that governs, and there is none exactly if none applies.
  lemma EffectiveRuleGoverns(rules: seq<Rule>, d: Device, t: Type)
    requires DistinctIds(rules)
    ensures forall r :: EffectiveRule(rules, d, t) == Some(r) <==> Governs(r, rules, d, t)
    ensures EffectiveRule(rules, d, t).None? <==> forall r :: r in rules && r.of == t ==> !Matches(r, d)
  {
    CandidatesAre(rules, d, t);
    var found := Candidates(rules, d, t);
    SortedPutsBestFirst(found);
    assert found != [] ==> found[0] in found;
    hide Matches, Sorted, Candidates;
  }

  // So the order the rules are listed in does not matter.
  lemma AnyOrder(rules: seq<Rule>, other: seq<Rule>, d: Device, t: Type)
    requires DistinctIds(rules) && forall r :: r in rules <==> r in other
    ensures EffectiveRule(rules, d, t) == EffectiveRule(other, d, t)
  {
    EffectiveRuleGoverns(rules, d, t);
    EffectiveRuleGoverns(other, d, t);
    var a, b := EffectiveRule(rules, d, t), EffectiveRule(other, d, t);
    if a.Some? { assert Governs(a.value, rules, d, t); assert Governs(a.value, other, d, t); }
    if b.Some? { assert Governs(b.value, other, d, t); }
    hide EffectiveRule;
  }

  // ---- what the rule says ----------------------------------------------------------------------

  // Whether a closed alert opens, and whether an open one closes.
  datatype Verdict = Verdict(raises: bool, clears: bool)

  // No threshold and a threshold of zero both mean the default.
  function Threshold(r: Rule, default: int): int {
    if r.threshold.None? || r.threshold.value == 0 then default else r.threshold.value
  }

  function Days(r: Rule): int { Threshold(r, if r.of == MdmIdentity then 14 else 7) }

  function AlertPct(s: Settings, r: Rule): real {
    if r.threshold.None? || r.threshold.value == 0 then s.diskAlert else r.threshold.value as real
  }

  // The gap to the clearing level is the one the settings leave, whatever the threshold.
  function ClearPct(s: Settings, r: Rule): real { AlertPct(s, r) - (s.diskAlert - s.diskClear) }

  // Which types are looked at for this device at all.
  predicate Applies(d: Device, t: Type) {
    if d.hasAgent then t in {Offline, Disk, PatchAge}
    else d.mdm.Some? && (t == MdmSilent || (t in {MdmPasscode, MdmIdentity} && !d.mdm.value.removed))
  }

  function Judge(s: Settings, r: Rule, d: Device, t: Type, now: int): Verdict
    requires Applies(d, t)
  {
    match t
    case Offline =>
      var overdue := d.lastSeen.Some? && now - d.lastSeen.value > Threshold(r, s.offlineAfterS);
      Verdict(overdue, !overdue && d.online)
    case Disk =>
      if d.fullestDisk.None? then Verdict(false, false)
      else Verdict(d.fullestDisk.value >= AlertPct(s, r), d.fullestDisk.value < ClearPct(s, r))
    case PatchAge =>
      var overdue := d.oldestSecurity.Some? && now - d.oldestSecurity.value > Threshold(r, s.patchAgeDays) * DAY_S;
      Verdict(overdue, !overdue)
    case MdmSilent =>
      var silent := d.mdm.value.removed || now - d.mdm.value.lastSeen > Days(r) * DAY_S;
      Verdict(silent, !silent)
    case MdmPasscode =>
      Verdict(d.mdm.value.passcode == Some(false), d.mdm.value.passcode == Some(true))
    case MdmIdentity =>
      var ending := d.mdm.value.identityExpires.Some? && d.mdm.value.identityExpires.value - now < Days(r) * DAY_S;
      Verdict(ending, !ending)
  }

  // ---- one tick for one device and type -----------------------------------------------------------

  datatype World = World(fleet: seq<Device>, rules: seq<Rule>, maintenance: set<nat>, settings: Settings, now: int)

  datatype Key = Key(device: nat, of: Type)

  ghost predicate Sound(w: World) {
    && DistinctIds(w.rules)
    && forall i, j :: 0 <= i < j < |w.fleet| ==> w.fleet[i].id != w.fleet[j].id
  }

  function Find(fleet: seq<Device>, id: nat): (r: Option<Device>)
    ensures r.Some? ==> r.value in fleet && r.value.id == id
    ensures r.None? ==> forall d :: d in fleet ==> d.id != id
  {
    if fleet == [] then None
    else if fleet[0].id == id then Some(fleet[0])
    else Find(fleet[1..], id)
  }

  // The device is known and its governing rule is switched on.
  predicate Watched(w: World, k: Key) {
    var d := Find(w.fleet, k.device);
    d.Some? && var r := EffectiveRule(w.rules, d.value, k.of); r.Some? && r.value.enabled
  }

  // Whether an alert is open after the tick, from whether it was before.
  predicate OpenAfter(w: World, k: Key, open: bool) {
    if !Watched(w, k) then false
    else
      var d := Find(w.fleet, k.device).value;
      if d.id in w.maintenance || !Applies(d, k.of) then open
      else
        var v := Judge(w.settings, EffectiveRule(w.rules, d, k.of).value, d, k.of, w.now);
        if open then !v.clears else v.raises
  }

  // Time alone only ever raises: what is overdue stays so, and what may be cleared later may
  // be cleared now.
  lemma TimeOnlyRaises(s: Settings, r: Rule, d: Device, t: Type, now: int, later: int)
    requires Applies(d, t) && now <= later
    ensures Judge(s, r, d, t, now).raises ==> Judge(s, r, d, t, later).raises
    ensures Judge(s, r, d, t, later).clears ==> Judge(s, r, d, t, now).clears
  {
  }

  // The fullest disk lies between an alert level and a clearing level set above it.
  predicate Flaps(w: World, k: Key) {
    && Watched(w, k) && k.of == Disk
    && var d := Find(w.fleet, k.device).value;
       && d.hasAgent && d.id !in w.maintenance && d.fullestDisk.Some?
       && var r := EffectiveRule(w.rules, d, Disk).value;
          AlertPct(w.settings, r) <= d.fullestDisk.value < ClearPct(w.settings, r)
  }

  // A second tick over the same state changes nothing, but for exactly those disks; with a
  // clearing level at or below the alert level there are none.
  lemma TickSettlesIff(w: World, k: Key, open: bool)
    ensures OpenAfter(w, k, OpenAfter(w, k, open)) == OpenAfter(w, k, open) <==> !Flaps(w, k)
    ensures w.settings.diskAlert >= w.settings.diskClear ==> !Flaps(w, k)
  {
    hide EffectiveRule;
    if Watched(w, k) {
      var d := Find(w.fleet, k.device).value;
      var r := EffectiveRule(w.rules, d, k.of).value;
      if Applies(d, k.of) { OnlyDisksAreBoth(w.settings, r, d, k.of, w.now); }
    }
  }

  // Such a disk: clearing level 95, alert level 90, fullest disk at 92. The alert opens with one
  // tick and closes with the next.
  lemma DiskFlipsWithEachTick()
    ensures var d := Device(7, true, {}, None, None, true, Some(92.0), None, None);
            var w := World([d], [Rule(1, Disk, true, None, Everyone)], {}, Settings(300, 90.0, 95.0, 30), 0);
            OpenAfter(w, Key(7, Disk), false) && !OpenAfter(w, Key(7, Disk), true)
  {
    var d := Device(7, true, {}, None, None, true, Some(92.0), None, None);
    var r := Rule(1, Disk, true, None, Everyone);
    var w := World([d], [r], {}, Settings(300, 90.0, 95.0, 30), 0);
    assert Candidates([r], d, Disk) == [r] + Candidates([r][1..], d, Disk) && [r][1..] == [];
    assert Sorted([r]) == Insert(r, Sorted([r][1..])) == [r];
    assert EffectiveRule(w.rules, d, Disk) == Some(r) && Find(w.fleet, 7) == Some(d);
    hide EffectiveRule, Find;
  }

  lemma OnlyDisksAreBoth(s: Settings, r: Rule, d: Device, t: Type, now: int)
    requires Applies(d, t)
    ensures var v := Judge(s, r, d, t, now);
            v.raises && v.clears <==> t == Disk && d.fullestDisk.Some? && AlertPct(s, r) <= d.fullestDisk.value < ClearPct(s, r)
  {
  }

  // ---- hysteresis ---------------------------------------------------------------------------------

  // The device is watched for full disks, out of maintenance, with this alert level and gap.
  predicate WatchesDisk(w: World, device: nat, alert: real, gap: real) {
    var k := Key(device, Disk);
    && Watched(w, k)
    && var d := Find(w.fleet, device).value;
       && d.hasAgent && d.id !in w.maintenance
       && AlertPct(w.settings, EffectiveRule(w.rules, d, Disk).value) == alert
       && w.settings.diskAlert - w.settings.diskClear == gap
  }

  function Reading(w: World, device: nat): Option<real> {
    var d := Find(w.fleet, device);
    if d.Some? then d.value.fullestDisk else None
  }

  // How many alerts a run of ticks raises for the device's disks.
  function Raised(ws: seq<World>, device: nat, open: bool): nat {
    if ws == [] then 0
    else
      var next := OpenAfter(ws[0], Key(device, Disk), open);
      (if !open && next then 1 else 0) + Raised(ws[1..], device, next)
  }

  // How far the disks went down in all, from one known reading to the next.
  function Downward(ws: seq<World>, device: nat, last: Option<real>): real {
    if ws == [] then 0.0
    else
      var r := Reading(ws[0], device);
      if r.None? then Downward(ws[1..], device, last)
      else
        (if last.Some? && last.value > r.value then last.value - r.value else 0.0) + Downward(ws[1..], device, r)
  }

  lemma {:induction false} DownwardIsNotNegative(ws: seq<World>, device: nat, last: Option<real>)
    ensures Downward(ws, device, last) >= 0.0
  {
    if ws != [] {
      hide Reading;
      var r := Reading(ws[0], device);
      DownwardIsNotNegative(ws[1..], device, if r.None? then last else r);
    }
  }

  lemma DiskTick(w: World, device: nat, alert: real, gap: real, open: bool)
    requires WatchesDisk(w, device, alert, gap)
    ensures OpenAfter(w, Key(device, Disk), open)
         == var r := Reading(w, device);
            if r.None? then open else if open then r.value >= alert - gap else r.value >= alert
  {
    hide EffectiveRule;
  }

  function Times(n: int, gap: real): real { n as real * gap }

  lemma TimesStep(n: int, gap: real)
    ensures Times(0, gap) == 0.0 && Times(n, gap) == Times(n - 1, gap) + gap
  {
  }

  // While an alert is open, the disks still have to come down past the clearing level from
  // where they are before there can be another.
  lemma {:induction false} HysteresisFrom(ws: seq<World>, device: nat, alert: real, gap: real, open: bool, last: Option<real>)
    requires forall w :: w in ws ==> WatchesDisk(w, device, alert, gap)
    requires gap >= 0.0
    requires open ==> last.Some? && last.value >= alert - gap
    ensures var n := Raised(ws, device, open);
            && (!open && n >= 2 ==> Downward(ws, device, last) > Times(n - 1, gap))
            && (open && n >= 1 ==> Downward(ws, device, last) > Times(n - 1, gap) + (last.value - (alert - gap)))
  {
    if ws != [] {
      var w := ws[0];
      assert w in ws;
      DiskTick(w, device, alert, gap, open);
      hide WatchesDisk, OpenAfter, Reading, Times;
      var next, r := OpenAfter(w, Key(device, Disk), open), Reading(w, device);
      var now := if r.None? then last else r;
      HysteresisFrom(ws[1..], device, alert, gap, next, now);
      DownwardIsNotNegative(ws[1..], device, now);
      var n, rest := Raised(ws[1..], device, next), Downward(ws[1..], device, now);
      TimesStep(n, gap);
      assert Downward(ws, device, last) == (if r.Some? && last.Some? && last.value > r.value then last.value - r.value else 0.0) + rest;
      hide Raised, Downward;
    }
  }

  // n disk alerts in a row need the disks to come down by more than n - 1 times the gap.
  lemma DiskAlertsNeedMovement(ws: seq<World>, device: nat, alert: real, gap: real)
    requires forall w :: w in ws ==> WatchesDisk(w, device, alert, gap)
    requires Raised(ws, device, false) >= 2
    ensures Downward(ws, device, None) > (Raised(ws, device, false) - 1) as real * gap
  {
    DownwardIsNotNegative(ws, device, None);
    if gap >= 0.0 { HysteresisFrom(ws, device, alert, gap, false, None); }
  }
}
