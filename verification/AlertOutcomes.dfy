// What a tick makes of an alert, rule by rule, in terms of the device.
module AlertOutcomes {
  import opened Wrappers
  import opened AlertRules

  // ---- the governing rule ----------------------------------------------------------------

  // The rule is meant for the device: for all, for a tag it has, or for whom it belongs to.
  predicate IsFor(r: Rule, d: Device) {
    || r.scope == Everyone
    || (r.scope.Tagged? && r.scope.tag in d.tags)
    || (r.scope.Owned? && d.person.Some? && d.person.value == r.scope.person)
  }

  // A person's rule beats a tag's, a tag's beats one for all, and the older of two alike wins.
  predicate Beats(a: Rule, b: Rule) {
    || (a.scope.Owned? && !b.scope.Owned?)
    || (a.scope.Tagged? && (b.scope == Everyone || b.scope == Unknown))
    || (a.scope == Everyone && b.scope == Unknown)
    || (((a.scope.Owned? && b.scope.Owned?) || (a.scope.Tagged? && b.scope.Tagged?) || a.scope == b.scope) && a.id < b.id)
  }

  ghost predicate Rules(r: Rule, rules: seq<Rule>, d: Device, t: Type) {
    && r in rules && r.of == t && IsFor(r, d)
    && forall o :: o in rules && o.of == t && IsFor(o, d) && o != r ==> Beats(r, o)
  }

  lemma RulingRule(rules: seq<Rule>, d: Device, t: Type)
    requires DistinctIds(rules)
    ensures forall r :: EffectiveRule(rules, d, t) == Some(r) <==> Rules(r, rules, d, t)
    ensures EffectiveRule(rules, d, t).None? <==> forall r :: r in rules && r.of == t ==> !IsFor(r, d)
  {
    EffectiveRuleGoverns(rules, d, t);
    assert forall a, b: Rule :: Before(a, b) <==> Beats(a, b);
    assert forall r: Rule :: Matches(r, d) <==> IsFor(r, d);
    hide EffectiveRule, Before, Beats, Matches, IsFor;
    forall r
      ensures EffectiveRule(rules, d, t) == Some(r) <==> Rules(r, rules, d, t)
    {
      assert Governs(r, rules, d, t) <==> Rules(r, rules, d, t);
    }
  }

  // ---- what the rule makes of it ---------------------------------------------------------

  // A number on the rule counts; none, or zero, means the default.
  function NumberOr(r: Rule, default: int): int {
    match r.threshold
    case None => default
    case Some(n) => if n == 0 then default else n
  }

  // From whether the alert was open to whether it is.
  //  - Offline: opens if the device has been seen, but longer ago than so many seconds; closes
  //    if it has not, or not that long ago, and is online.
  //  - Disk: opens from the alert level, closes below the clearing level.
  //  - PatchAge: open exactly while a security update has been pending for more than so many days.
  //  - MdmSilent: open exactly while the profile is gone or the phone silent for more than so
  //    many days.
  //  - MdmPasscode: opens if the phone says it has no passcode, closes if it says it has one.
  //  - MdmIdentity: open exactly while the certificate has less than so many days left.
  ghost predicate Outcome(s: Settings, r: Rule, d: Device, t: Type, now: int, was: bool, open: bool) {
    match t
    case Offline =>
      var gone := d.lastSeen.Some? && d.lastSeen.value + NumberOr(r, s.offlineAfterS) < now;
      (!was ==> (open <==> gone)) && (was ==> (!open <==> !gone && d.online))
    case Disk =>
      var level := if NumberOr(r, 0) == 0 then s.diskAlert else NumberOr(r, 0) as real;
      && (!was ==> (open <==> d.fullestDisk.Some? && level <= d.fullestDisk.value))
      && (was ==> (!open <==> d.fullestDisk.Some? && d.fullestDisk.value + (s.diskAlert - s.diskClear) < level))
    case PatchAge =>
      open <==> d.oldestSecurity.Some? && d.oldestSecurity.value + NumberOr(r, s.patchAgeDays) * 86400 < now
    case MdmSilent =>
      d.mdm.Some? && (open <==> d.mdm.value.removed || d.mdm.value.lastSeen + NumberOr(r, 7) * 86400 < now)
    case MdmPasscode =>
      d.mdm.Some? && (!was ==> (open <==> d.mdm.value.passcode == Some(false))) && (was ==> (!open <==> d.mdm.value.passcode == Some(true)))
    case MdmIdentity =>
      d.mdm.Some? && (open <==> d.mdm.value.identityExpires.Some? && d.mdm.value.identityExpires.value < now + NumberOr(r, 14) * 86400)
  }

  // The rules of an agent are for devices with one, those of a phone for phones that report by
  // MDM; of a phone whose profile is gone only its silence is looked at.
  predicate IsAsked(d: Device, t: Type) {
    || (d.hasAgent && (t == Offline || t == Disk || t == PatchAge))
    || (!d.hasAgent && d.mdm.Some? && t == MdmSilent)
    || (!d.hasAgent && d.mdm.Some? && !d.mdm.value.removed && (t == MdmPasscode || t == MdmIdentity))
  }

  // All of a tick: where no enabled rule rules, nothing stays open; a device in maintenance, or
  // that the rule is not for by its class, is left as it is; any other alert is decided.
  ghost predicate Comes(w: World, d: Device, t: Type, was: bool, open: bool) {
    && (!(exists r :: Rules(r, w.rules, d, t) && r.enabled) ==> !open)
    && forall r :: Rules(r, w.rules, d, t) && r.enabled ==>
         if d.id in w.maintenance || !IsAsked(d, t) then (open <==> was) else Outcome(w.settings, r, d, t, w.now, was, open)
  }

  lemma JudgedIs(s: Settings, r: Rule, d: Device, t: Type, now: int, was: bool)
    requires Applies(d, t) && r.of == t
    ensures IsAsked(d, t)
    ensures Outcome(s, r, d, t, now, was, var v := Judge(s, r, d, t, now); if was then !v.clears else v.raises)
  {
    assert DAY_S == 86400;
  }

  lemma TickComes(w: World, d: Device, t: Type, was: bool)
    requires Sound(w) && d in w.fleet
    ensures Comes(w, d, t, was, OpenAfter(w, Key(d.id, t), was))
  {
    IsFound(w, d);
    RulingRule(w.rules, d, t);
    var r := EffectiveRule(w.rules, d, t);
    if r.Some? && Applies(d, t) {
      assert r.value.of == t;
      JudgedIs(w.settings, r.value, d, t, w.now, was);
    }
    assert IsAsked(d, t) <==> Applies(d, t);
    hide EffectiveRule, Judge, Outcome, Rules, Find;
  }

  lemma IsFound(w: World, d: Device)
    requires Sound(w) && d in w.fleet
    ensures Find(w.fleet, d.id) == Some(d)
  {
    var i: nat :| i < |w.fleet| && w.fleet[i] == d;
    FoundAt(w.fleet, i);
  }

  lemma {:induction false} FoundAt(fleet: seq<Device>, n: nat)
    requires n < |fleet| && forall i, j :: 0 <= i < j < |fleet| ==> fleet[i].id != fleet[j].id
    ensures Find(fleet, fleet[n].id) == Some(fleet[n])
  {
    if n > 0 { FoundAt(fleet[1..], n - 1); }
  }

  // An alert of a device that is gone does not stay open.
  lemma UnknownComes(w: World, k: Key, was: bool)
    requires forall d :: d in w.fleet ==> d.id != k.device
    ensures !OpenAfter(w, k, was)
  {
  }
}
