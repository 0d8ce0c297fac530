// What every handler keeps in the two tables, when handlers do not overlap.
module MdmInvariant {
  import opened Wrappers
  import opened Mdm

  // Random columns are unique, and nothing carries a token or an id not handed out yet.
  ghost predicate Unique(t: Tables) {
    && (forall id :: id in t.es ==> id < t.nextId && t.es[id].ref < t.nextToken && t.es[id].link < t.nextToken)
    && (forall id :: id in t.es && t.es[id].challenge.Some? ==> t.es[id].challenge.value < t.nextToken)
    && (forall d :: d in t.bs && t.bs[d].renewChallenge.Some? ==> t.bs[d].renewChallenge.value < t.nextToken)
    && (forall i, j :: i in t.es && j in t.es && i != j ==> t.es[i].ref != t.es[j].ref && t.es[i].link != t.es[j].link)
    && (forall i, j :: i in t.es && j in t.es && i != j && t.es[i].challenge.Some? ==> t.es[i].challenge != t.es[j].challenge)
    && (forall c, d :: c in t.bs && d in t.bs && c != d && t.bs[c].renewChallenge.Some? ==> t.bs[c].renewChallenge != t.bs[d].renewChallenge)
  }

  // A binding rests on an enrollment of the same device and UDID that has its certificate,
  // is enrolled and was never revoked.
  ghost predicate RestsOn(es: map<nat, Enrollment>, device: nat, b: Binding) {
    && b.enrollment in es
    && var e := es[b.enrollment];
       && e.device == device && e.udid == b.udid && b.udid != ""
       && e.scepAt.Some? && e.enrolledAt.Some? && e.revokedAt.None?
  }

  ghost predicate Bijective(bs: map<nat, Binding>) {
    forall c, d :: c in bs && d in bs && c != d ==> bs[c].udid != bs[d].udid
  }

  ghost predicate OneOpen(es: map<nat, Enrollment>) {
    forall i, j :: i in es && j in es && i != j && IsOpen(es[i]) && IsOpen(es[j]) ==> es[i].device != es[j].device
  }

  ghost predicate Rows(es: map<nat, Enrollment>) {
    forall id :: id in es ==> es[id].downloads <= MAX_DOWNLOADS && (es[id].enrolledAt.Some? ==> es[id].scepAt.Some?)
  }

  ghost predicate Bindings(t: Tables) {
    Bijective(t.bs) && forall d :: d in t.bs ==> RestsOn(t.es, d, t.bs[d])
  }

  ghost predicate Inv(t: Tables) {
    Unique(t) && Rows(t.es) && OneOpen(t.es) && Bindings(t)
  }

  // ---- one row at a time -------------------------------------------------------------------

  predicate IsBindable(e: Enrollment) { e.scepAt.Some? && e.enrolledAt.Some? && e.revokedAt.None? }

  // Nothing a binding may rest on is taken away, and no column that identifies the row.
  predicate Refines(e: Enrollment, e': Enrollment) {
    && e'.device == e.device && e'.ref == e.ref && e'.link == e.link
    && (IsOpen(e') ==> IsOpen(e))
    && (IsBindable(e) && e.udid != "" ==> IsBindable(e') && e'.udid == e.udid)
    && e'.downloads <= MAX_DOWNLOADS && (e'.enrolledAt.Some? ==> e'.scepAt.Some?)
  }

  lemma UniqueRow(t: Tables, id: nat, e': Enrollment, next: Token)
    requires Unique(t) && id in t.es && e'.ref == t.es[id].ref && e'.link == t.es[id].link && next >= t.nextToken
    requires e'.challenge == t.es[id].challenge || (e'.challenge == Some(t.nextToken) && next > t.nextToken)
    ensures Unique(t.(es := t.es[id := e'], nextToken := next))
  {
  }

  lemma RestRow(t: Tables, id: nat, e': Enrollment, next: Token)
    requires Rows(t.es) && OneOpen(t.es) && Bindings(t) && id in t.es && Refines(t.es[id], e')
    ensures Rows(t.es[id := e']) && OneOpen(t.es[id := e']) && Bindings(t.(es := t.es[id := e'], nextToken := next))
  {
  }

  lemma RowKeeps(t: Tables, id: nat, e': Enrollment, next: Token)
    requires Inv(t) && id in t.es && Refines(t.es[id], e') && next >= t.nextToken
    requires e'.challenge == t.es[id].challenge || (e'.challenge == Some(t.nextToken) && next > t.nextToken)
    ensures Inv(t.(es := t.es[id := e'], nextToken := next))
  {
    UniqueRow(t, id, e', next);
    RestRow(t, id, e', next);
    hide Unique, Rows, OneOpen, Bindings;
  }

  lemma BindingKeeps(t: Tables, d: nat, b': Binding, next: Token)
    requires Inv(t) && d in t.bs && next >= t.nextToken
    requires b'.udid == t.bs[d].udid && b'.enrollment == t.bs[d].enrollment
    requires b'.renewChallenge in {None, t.bs[d].renewChallenge}
             || (b'.renewChallenge == Some(t.nextToken) && next > t.nextToken)
    ensures Inv(t.(bs := t.bs[d := b'], nextToken := next))
  {
    UniqueBinding(t, d, b', next);
    RestBinding(t, d, b', next);
    hide Unique, Rows, OneOpen, Bindings;
  }

  lemma UniqueBinding(t: Tables, d: nat, b': Binding, next: Token)
    requires Unique(t) && d in t.bs && next >= t.nextToken
    requires b'.renewChallenge in {None, t.bs[d].renewChallenge}
             || (b'.renewChallenge == Some(t.nextToken) && next > t.nextToken)
    ensures Unique(t.(bs := t.bs[d := b'], nextToken := next))
  {
  }

  lemma RestBinding(t: Tables, d: nat, b': Binding, next: Token)
    requires Bindings(t) && d in t.bs
    requires b'.udid == t.bs[d].udid && b'.enrollment == t.bs[d].enrollment
    ensures Bindings(t.(bs := t.bs[d := b'], nextToken := next))
  {
  }

  // ---- the handlers ---------------------------------------------------------------------------

  lemma RevokeKeeps(t: Tables, device: nat, now: Time)
    requires Inv(t)
    ensures Inv(Revoke(t, device, now))
    ensures forall id :: id in Revoke(t, device, now).es && IsOpen(Revoke(t, device, now).es[id]) ==>
              Revoke(t, device, now).es[id].device != device
  {
    RevokeUnique(t, device, now);
    RevokeRest(t, device, now);
    hide Unique, Rows, OneOpen, Bindings;
  }

  lemma RevokeUnique(t: Tables, device: nat, now: Time)
    requires Unique(t)
    ensures Unique(Revoke(t, device, now))
  {
    SameColumns(t, Revoke(t, device, now).es);
  }

  lemma SameColumns(t: Tables, es: map<nat, Enrollment>)
    requires Unique(t) && es.Keys == t.es.Keys
    requires forall id :: id in es ==> es[id].ref == t.es[id].ref && es[id].link == t.es[id].link && es[id].challenge == t.es[id].challenge
    ensures Unique(t.(es := es))
  {
  }

  lemma RevokeRest(t: Tables, device: nat, now: Time)
    requires Rows(t.es) && OneOpen(t.es) && Bindings(t)
    ensures var r := Revoke(t, device, now); Rows(r.es) && OneOpen(r.es) && Bindings(r)
  {
  }

  lemma CreateKeeps(t: Tables, device: nat, ttlHours: int, now: Time)
    requires Inv(t)
    ensures Inv(Create(t, device, ttlHours, now))
  {
    hide Inv, RevokeOpen, IsOpen, NewEnrollment;
    RevokeKeeps(t, device, now);
    var r := Revoke(t, device, now);
    InsertKeeps(r, device, now + ttlHours * 3600);
  }

  lemma InsertKeeps(t: Tables, device: nat, expiresAt: int)
    requires Inv(t)
    requires forall id :: id in t.es && IsOpen(t.es[id]) ==> t.es[id].device != device
    ensures Inv(t.(es := t.es[t.nextId := NewEnrollment(device, t.nextToken, t.nextToken + 1, expiresAt)],
                   nextId := t.nextId + 1, nextToken := t.nextToken + 2))
  {
    InsertUnique(t, device, expiresAt);
    InsertRest(t, device, expiresAt);
    hide Unique, Rows, OneOpen, Bindings;
  }

  lemma InsertUnique(t: Tables, device: nat, expiresAt: int)
    requires Unique(t)
    ensures Unique(t.(es := t.es[t.nextId := NewEnrollment(device, t.nextToken, t.nextToken + 1, expiresAt)],
                      nextId := t.nextId + 1, nextToken := t.nextToken + 2))
  {
  }

  lemma InsertRest(t: Tables, device: nat, expiresAt: int)
    requires Unique(t) && Rows(t.es) && OneOpen(t.es) && Bindings(t)
    requires forall id :: id in t.es && IsOpen(t.es[id]) ==> t.es[id].device != device
    ensures var es := t.es[t.nextId := NewEnrollment(device, t.nextToken, t.nextToken + 1, expiresAt)];
            Rows(es) && OneOpen(es) && Bindings(t.(es := es, nextId := t.nextId + 1, nextToken := t.nextToken + 2))
  {
    assert t.nextId !in t.es;
  }

  lemma DownloadKeeps(t: Tables, link: Token, now: Time)
    requires Inv(t)
    ensures Inv(Download(t, link, now))
  {
    hide Unique, OneOpen, Bindings;
    var r := ByLink(t.es, link);
    if r.Some? && MayDownload(t.es[r.value], now) {
      var e := t.es[r.value];
      RowKeeps(t, r.value, e.(challenge := Some(t.nextToken), downloads := e.downloads + 1, downloadedAt := Some(now)), t.nextToken + 1);
    }
  }

  lemma VerifyScepKeeps(t: Tables, challenge: Token, cn: Token, now: Time)
    requires Inv(t)
    ensures Inv(VerifyScep(t, challenge, cn, now).0)
  {
    hide Unique, OneOpen, Bindings;
    var r, l := ScepRead(t, challenge, cn, now), ScepLookup(t, challenge, cn, now);
    if r.Going? && r.flight.AtEnrollment? {
      var e := t.es[r.flight.id];
      RowKeeps(t, r.flight.id, if r.flight.named then e.(scepAt := Some(now)) else e.(revokedAt := Some(now)), t.nextToken);
    } else if r.Going? && l.Going? {
      var b := t.bs[l.flight.device];
      BindingKeeps(t, l.flight.device, if l.flight.named then b.(renewScepAt := Some(now)) else b.(renewChallenge := None), t.nextToken);
    }
  }

  lemma StartRenewalKeeps(t: Tables, d: nat, now: Time)
    requires Inv(t)
    ensures Inv(StartRenewal(t, d, now))
  {
    hide Inv;
    if d in t.bs {
      BindingKeeps(t, d, t.bs[d].(renewChallenge := Some(t.nextToken), renewStartedAt := Some(now), renewScepAt := None,
                                  renewDoneAt := None, renewCommand := ""), t.nextToken + 1);
    }
  }

  lemma SetCommandKeeps(t: Tables, d: nat, command: string)
    requires Inv(t)
    ensures Inv(SetRenewalCommand(t, d, command))
  {
    hide Inv;
    if d in t.bs { BindingKeeps(t, d, t.bs[d].(renewCommand := command), t.nextToken); }
  }

  lemma FinishRenewalKeeps(t: Tables, d: nat, command: string, ok: bool, now: Time)
    requires Inv(t)
    ensures Inv(FinishRenewal(t, d, command, ok, now))
  {
    hide Inv;
    if d in t.bs && t.bs[d].renewCommand == command {
      BindingKeeps(t, d, FinishRenewal(t, d, command, ok, now).bs[d], t.nextToken);
    }
  }

  lemma AuthenticateKeeps(t: Tables, udid: string, ref: Token)
    requires Inv(t) && udid != ""
    ensures Inv(Authenticate(t, udid, ref))
  {
    hide Unique, OneOpen, Bindings;
    var r := Bindable(t.es, ref);
    if r.Some? && !CarriesOther(t.es[r.value], udid) {
      RowKeeps(t, r.value, t.es[r.value].(udid := udid), t.nextToken);
    }
  }

  lemma TokenUpdateKeeps(t: Tables, udid: string, ref: Token, now: Time)
    requires Inv(t) && udid != ""
    ensures Inv(TokenUpdate(t, udid, ref, now))
  {
    hide Unique, OneOpen, Bindings, Unbound, Bound;
    var r := Bindable(t.es, ref);
    if r.None? {
      var d := ByUdid(t.bs, udid);
      if d.Some? { BindingKeeps(t, d.value, t.bs[d.value].(lastSeenAt := now), t.nextToken); }
    } else if !CarriesOther(t.es[r.value], udid) {
      var e := t.es[r.value];
      var e' := e.(udid := udid, enrolledAt := if e.enrolledAt.Some? then e.enrolledAt else Some(now));
      RowKeeps(t, r.value, e', t.nextToken);
      BindKeeps(t.(es := t.es[r.value := e']), e.device, udid, r.value, now);
    }
  }

  lemma BindKeeps(t: Tables, device: nat, udid: string, id: nat, now: Time)
    requires Inv(t) && udid != ""
    requires id in t.es && t.es[id].device == device && t.es[id].udid == udid && IsBindable(t.es[id])
    ensures Inv(t.(bs := Bound(Unbound(t.bs, udid, device), device, udid, id, now)))
  {
    BindUnique(t, device, udid, id, now);
    BindRest(t, device, udid, id, now);
    hide Unique, Rows, OneOpen, Bindings;
  }

  lemma BindUnique(t: Tables, device: nat, udid: string, id: nat, now: Time)
    requires Unique(t)
    ensures Unique(t.(bs := Bound(Unbound(t.bs, udid, device), device, udid, id, now)))
  {
  }

  lemma BindRest(t: Tables, device: nat, udid: string, id: nat, now: Time)
    requires Bindings(t) && udid != ""
    requires id in t.es && t.es[id].device == device && t.es[id].udid == udid && IsBindable(t.es[id])
    ensures Bindings(t.(bs := Bound(Unbound(t.bs, udid, device), device, udid, id, now)))
  {
  }

  lemma CheckOutKeeps(t: Tables, udid: string, now: Time)
    requires Inv(t)
    ensures Inv(CheckOut(t, udid, now))
  {
    hide Inv;
    var d := ByUdid(t.bs, udid);
    if d.Some? { BindingKeeps(t, d.value, t.bs[d.value].(checkedOutAt := Some(now), lastSeenAt := now), t.nextToken); }
  }

  lemma DeleteDeviceKeeps(t: Tables, device: nat)
    requires Inv(t)
    ensures Inv(DeleteDevice(t, device))
  {
  }
}
