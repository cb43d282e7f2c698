/** StatefulSet reconciliation (internal/controller/workload_manager.go, with the claim-template check
    of internal/controller/statefulset_builder.go): create, update of the mutable fields, and
    orphan-delete followed by re-creation when an immutable field differs.

    `V` is the type of the values that are compared as a whole (labels, selector, strategy, pod
    template, claim spec). The API server's defaulting is a parameter. */
module Workload {
  datatype Claim<V> = Claim(meta: V, spec: V)

  datatype Sts<V> = Sts(
    serviceName: string, selector: V, claims: seq<Claim<V>>, labels: V, replicas: V, strategy: V, template: V)

  /** What the server fills in, field by field. */
  datatype Defaults<!V> = Defaults(claimSpec: V -> V, replicas: V -> V, strategy: V -> V, template: V -> V)

  datatype Stored<V> = Absent | Present(sts: Sts<V>, deleting: bool)

  /** How the delete call ends: an error, the object gone at once (or already), or marked for deletion
      until its dependents are orphaned. */
  datatype DeleteIo = DeleteFails | Removed | Marked

  datatype AttemptIo = GetFails | Conflict | UpdateFails | Succeeds

  /** retry.DefaultRetry calls the update function at most this often. */
  const ATTEMPTS := 5

  type Attempts = s: seq<AttemptIo> | |s| == ATTEMPTS witness seq(ATTEMPTS, i => Succeeds)

  /** How the API calls of one pass end; `attempts` are those of the retry loop. */
  datatype Io = Io(getFails: bool, delete: DeleteIo, createFails: bool, attempts: Attempts)

  /** A write that the server carried out. */
  datatype Request<V> = Create(sts: Sts<V>) | Update(sts: Sts<V>) | Delete(orphan: bool)

  datatype Pass<V> = Pass(stored: Stored<V>, error: bool, sent: seq<Request<V>>)

  function WithDefaults<V>(d: Defaults<V>, s: Sts<V>): Sts<V> {
    s.(claims := seq(|s.claims|, i requires 0 <= i < |s.claims| => Claim(s.claims[i].meta, d.claimSpec(s.claims[i].spec))),
       replicas := d.replicas(s.replicas), strategy := d.strategy(s.strategy), template := d.template(s.template))
  }

  predicate VctDrift<V(==)>(existing: Sts<V>, desired: Sts<V>) {
    || |existing.claims| != |desired.claims|
    || exists i | 0 <= i < |existing.claims| :: existing.claims[i].spec != desired.claims[i].spec
  }

  predicate StructuralChanges<V(==)>(current: Sts<V>, desired: Sts<V>) {
    current.serviceName != desired.serviceName || current.selector != desired.selector
  }

  predicate NeedsMutableUpdate<V(==)>(current: Sts<V>, desired: Sts<V>) {
    || current.labels != desired.labels || current.replicas != desired.replicas
    || current.strategy != desired.strategy || current.template != desired.template
  }

  function CopyMutable<V>(dst: Sts<V>, src: Sts<V>): Sts<V> {
    dst.(labels := src.labels, replicas := src.replicas, strategy := src.strategy, template := src.template)
  }

  function Specs<V>(claims: seq<Claim<V>>): seq<V> {
    seq(|claims|, i requires 0 <= i < |claims| => claims[i].spec)
  }

  /** The stored object is the desired one, up to the metadata of its claim templates. */
  predicate Agrees<V(==)>(s: Sts<V>, desired: Sts<V>) {
    s.(claims := []) == desired.(claims := []) && Specs(s.claims) == Specs(desired.claims)
  }

  function Created<V>(d: Defaults<V>, desired: Sts<V>): Stored<V> {
    Present(WithDefaults(d, desired), false)
  }

  /** The first attempt that does not end in a conflict decides; five conflicts are an error. */
  function Verdict(attempts: seq<AttemptIo>): AttemptIo {
    if attempts == [] then Conflict else if attempts[0] == Conflict then Verdict(attempts[1..]) else attempts[0]
  }

  function AfterRetries<V(==)>(d: Defaults<V>, st: Stored<V>, desired: Sts<V>, io: Io): Pass<V>
    requires st.Present?
  {
    if !NeedsMutableUpdate(st.sts, desired) then Pass(st, io.attempts[0] == GetFails, [])
    else match Verdict(io.attempts) {
      case Succeeds =>
        var sent := CopyMutable(st.sts, desired);
        Pass(Present(WithDefaults(d, sent), st.deleting), false, [Update(sent)])
      case _ => Pass(st, true, [])
    }
  }

  function AfterRecreate<V(==)>(d: Defaults<V>, st: Stored<V>, desired: Sts<V>, io: Io): Pass<V>
    requires st.Present?
  {
    if !st.deleting && io.delete == DeleteFails then Pass(st, true, [])
    else
      var left := if st.deleting then st else if io.delete == Removed then Absent else st.(deleting := true);
      var deletes := if st.deleting then [] else [Delete(true)];
      if left.Present? || io.createFails then Pass(left, true, deletes)
      else Pass(Created(d, desired), false, deletes + [Create(desired)])
  }

  function AfterPass<V(==)>(d: Defaults<V>, st: Stored<V>, desired: Sts<V>, io: Io): Pass<V> {
    if io.getFails then Pass(st, true, [])
    else if st.Absent? then
      if io.createFails then Pass(st, true, []) else Pass(Created(d, desired), false, [Create(desired)])
    else if VctDrift(st.sts, desired) || StructuralChanges(st.sts, desired) then AfterRecreate(d, st, desired, io)
    else AfterRetries(d, st, desired, io)
  }

  // ---------------------------------------------------------------------------------------------
  // The pass itself
  // ---------------------------------------------------------------------------------------------

  method VctDriftDetected<V(==)>(existing: Sts<V>, desired: Sts<V>) returns (drift: bool)
    ensures drift == VctDrift(existing, desired)
  {
    if |existing.claims| != |desired.claims| {
      return true;
    }
    for i := 0 to |existing.claims|
      invariant forall j | 0 <= j < i :: existing.claims[j].spec == desired.claims[j].spec
    {
      if existing.claims[i].spec != desired.claims[i].spec {
        return true;
      }
    }
    return false;
  }

  class Cluster<!V(==)> {
    var stored: Stored<V>
    var pods: set<string>
    var volumes: set<string>
    var sent: seq<Request<V>>
    const defaults: Defaults<V>
    const keepVolumes: bool

    constructor (defaults: Defaults<V>, stored: Stored<V>, pods: set<string>, volumes: set<string>, keepVolumes: bool)
      ensures this.defaults == defaults && this.stored == stored && this.pods == pods
      ensures this.volumes == volumes && this.keepVolumes == keepVolumes && sent == []
    {
      this.defaults, this.stored, this.pods, this.volumes := defaults, stored, pods, volumes;
      this.keepVolumes, sent := keepVolumes, [];
    }

    /** Deleting a StatefulSet takes its pods along, and its volume claims if its retention policy says
        so, unless its dependents are orphaned. */
    method DeleteSts(orphan: bool, io: DeleteIo)
      requires stored.Present? && io != DeleteFails
      modifies this`stored, this`pods, this`volumes, this`sent
      ensures stored == if io == Removed then Absent else old(stored).(deleting := true)
      ensures pods == (if orphan then old(pods) else {}) && sent == old(sent) + [Delete(orphan)]
      ensures volumes == if orphan || keepVolumes then old(volumes) else {}
    {
      stored := if io == Removed then Absent else stored.(deleting := true);
      if !orphan {
        pods := {};
        if !keepVolumes {
          volumes := {};
        }
      }
      sent := sent + [Delete(orphan)];
    }

    method CreateSts(sts: Sts<V>, fails: bool) returns (error: bool)
      modifies this`stored, this`sent
      ensures error == (fails || old(stored).Present?)
      ensures stored == (if error then old(stored) else Created(defaults, sts))
      ensures sent == old(sent) + if error then [] else [Create(sts)]
    {
      if fails || stored.Present? {
        return true;
      }
      stored := Present(WithDefaults(defaults, sts), false);
      sent := sent + [Create(sts)];
      return false;
    }

    /** No pass loses a pod or a volume claim. */
    method EnsureNodeWorkload(desired: Sts<V>, io: Io) returns (error: bool)
      modifies this`stored, this`pods, this`volumes, this`sent
      ensures var p := AfterPass(defaults, old(stored), desired, io);
        stored == p.stored && error == p.error && sent == old(sent) + p.sent
      ensures pods == old(pods) && volumes == old(volumes)
    {
      if io.getFails {
        return true;
      }
      if stored.Absent? {
        error := CreateSts(desired, io.createFails);
        return;
      }
      var drift := VctDriftDetected(stored.sts, desired);
      if drift || StructuralChanges(stored.sts, desired) {
        if !stored.deleting {
          if io.delete == DeleteFails {
            return true;
          }
          DeleteSts(true, io.delete);
        }
        error := CreateSts(desired, io.createFails);
        return;
      }
      error := RetryUpdate(desired, io);
    }

    method RetryUpdate(desired: Sts<V>, io: Io) returns (error: bool)
      requires stored.Present?
      modifies this`stored, this`sent
      ensures var p := AfterRetries(defaults, old(stored), desired, io);
        stored == p.stored && error == p.error && sent == old(sent) + p.sent
    {
      for i := 0 to ATTEMPTS
        invariant stored == old(stored) && sent == old(sent)
        invariant i > 0 ==> NeedsMutableUpdate(stored.sts, desired)
        invariant Verdict(io.attempts) == Verdict(io.attempts[i..])
      {
        if io.attempts[i] == GetFails {
          return true;
        }
        if !NeedsMutableUpdate(stored.sts, desired) {
          return false;
        }
        match io.attempts[i] {
          case UpdateFails => return true;
          case Succeeds =>
            var latest := CopyMutable(stored.sts, desired);
            stored := Present(WithDefaults(defaults, latest), stored.deleting);
            sent := sent + [Update(latest)];
            return false;
          case Conflict => assert io.attempts[i..][1..] == io.attempts[i + 1..];
        }
      }
      return true;
    }
  }

  // ---------------------------------------------------------------------------------------------
  // Runs
  // ---------------------------------------------------------------------------------------------

  /** A pass, with the desired object as it is then, or the server completing a pending deletion. */
  datatype Turn<V> = Reconciled(desired: Sts<V>, io: Io) | Collected

  function AfterTurn<V(==)>(d: Defaults<V>, st: Stored<V>, t: Turn<V>): Pass<V> {
    match t
    case Reconciled(desired, io) => AfterPass(d, st, desired, io)
    case Collected => Pass(if st.Present? && st.deleting then Absent else st, false, [])
  }

  function AfterTurns<V(==)>(d: Defaults<V>, st: Stored<V>, ts: seq<Turn<V>>): Pass<V> {
    if ts == [] then Pass(st, false, [])
    else
      var before := AfterTurns(d, st, ts[..|ts| - 1]);
      var p := AfterTurn(d, before.stored, ts[|ts| - 1]);
      p.(sent := before.sent + p.sent)
  }

  // ---------------------------------------------------------------------------------------------
  // The immutable fields
  // ---------------------------------------------------------------------------------------------

  predicate SameImmutables<V(==)>(s: Sts<V>, t: Sts<V>) {
    s.serviceName == t.serviceName && s.selector == t.selector && s.claims == t.claims
  }

  /** Defaulting its claim templates once more changes nothing. */
  ghost predicate Filled<V>(d: Defaults<V>, s: Sts<V>) {
    forall i | 0 <= i < |s.claims| :: d.claimSpec(s.claims[i].spec) == s.claims[i].spec
  }

  ghost predicate Idempotent<V(!new)>(d: Defaults<V>) {
    forall v :: d.claimSpec(d.claimSpec(v)) == d.claimSpec(v)
  }

  lemma FilledKeepsImmutables<V>(d: Defaults<V>, s: Sts<V>)
    requires Filled(d, s)
    ensures SameImmutables(WithDefaults(d, s), s) && Filled(d, WithDefaults(d, s))
  {
    assert WithDefaults(d, s).claims == s.claims;
  }

  lemma CreatedIsFilled<V(!new)>(d: Defaults<V>, s: Sts<V>)
    requires Idempotent(d)
    ensures Filled(d, WithDefaults(d, s))
  {
    var t := WithDefaults(d, s);
    forall i | 0 <= i < |t.claims| ensures d.claimSpec(t.claims[i].spec) == t.claims[i].spec {
      assert t.claims[i].spec == d.claimSpec(s.claims[i].spec);
    }
  }

  /** One turn: updates keep the immutable fields, deletes orphan, and only a delete or a pending
      deletion lets the object go. */
  lemma TurnIsSafe<V(!new)>(d: Defaults<V>, st: Stored<V>, t: Turn<V>)
    requires Idempotent(d) && (st.Present? ==> Filled(d, st.sts))
    ensures var p := AfterTurn(d, st, t);
      && (forall r | r in p.sent :: (r.Delete? ==> r.orphan)
                                    && (r.Update? ==> st.Present? && SameImmutables(r.sts, st.sts)))
      && (p.stored.Present? ==> Filled(d, p.stored.sts))
      && (st.Present? && !st.deleting && (forall r | r in p.sent :: !r.Delete?) ==>
            p.stored.Present? && !p.stored.deleting && SameImmutables(p.stored.sts, st.sts))
  {
    hide Idempotent, Filled, VctDrift, StructuralChanges, NeedsMutableUpdate, Verdict, WithDefaults;
    if t.Reconciled? {
      CreatedIsFilled(d, t.desired);
      if st.Present? {
        CopyIsFilled(d, st.sts, t.desired);
        FilledKeepsImmutables(d, CopyMutable(st.sts, t.desired));
        assert !st.deleting && AfterTurn(d, st, t) == AfterRecreate(d, st, t.desired, t.io) ==>
          AfterTurn(d, st, t).sent == [] || AfterTurn(d, st, t).sent[0] == Delete(true);
      }
    }
  }

  lemma CopyIsFilled<V>(d: Defaults<V>, s: Sts<V>, desired: Sts<V>)
    requires Filled(d, s)
    ensures Filled(d, CopyMutable(s, desired))
  {
  }

  /** Over every run of passes, whatever each of them desires: as long as no delete is sent, the object
      stays and its immutable fields are those it had; and every delete orphans its dependents. So the
      fields change only across an orphan-delete and a create. */
  lemma {:induction false} ImmutablesChangeOnlyByRecreation<V(!new)>(d: Defaults<V>, st: Stored<V>, ts: seq<Turn<V>>)
    requires Idempotent(d) && (st.Present? ==> Filled(d, st.sts))
    ensures var p := AfterTurns(d, st, ts);
      && (p.stored.Present? ==> Filled(d, p.stored.sts))
      && (forall r | r in p.sent :: r.Delete? ==> r.orphan)
      && (st.Present? && !st.deleting && (forall r | r in p.sent :: !r.Delete?) ==>
            p.stored.Present? && !p.stored.deleting && SameImmutables(p.stored.sts, st.sts))
  {
    hide Idempotent, Filled, AfterTurn;
    if ts != [] {
      var n := |ts| - 1;
      ImmutablesChangeOnlyByRecreation(d, st, ts[..n]);
      TurnIsSafe(d, AfterTurns(d, st, ts[..n]).stored, ts[n]);
    }
  }

  /** Every update that any pass of any run sends keeps the immutable fields as stored at that moment. */
  lemma UpdatesKeepImmutables<V(!new)>(d: Defaults<V>, st: Stored<V>, ts: seq<Turn<V>>, n: nat, r: Request<V>)
    requires Idempotent(d) && (st.Present? ==> Filled(d, st.sts)) && n < |ts|
    requires r.Update? && r in AfterTurn(d, AfterTurns(d, st, ts[..n]).stored, ts[n]).sent
    ensures var before := AfterTurns(d, st, ts[..n]).stored;
      && before.Present? && SameImmutables(r.sts, before.sts)
      && ts[n].Reconciled? && !NeedsMutableUpdate(r.sts, ts[n].desired)
  {
    hide Idempotent, Filled, AfterTurns, VctDrift, StructuralChanges, Verdict;
    ImmutablesChangeOnlyByRecreation(d, st, ts[..n]);
    TurnIsSafe(d, AfterTurns(d, st, ts[..n]).stored, ts[n]);
  }

  // ---------------------------------------------------------------------------------------------
  // Convergence
  // ---------------------------------------------------------------------------------------------

  lemma AgreesIffNoGuard<V>(s: Sts<V>, desired: Sts<V>)
    ensures Agrees(s, desired) <==>
      !VctDrift(s, desired) && !StructuralChanges(s, desired) && !NeedsMutableUpdate(s, desired)
  {
    var x, y := Specs(s.claims), Specs(desired.claims);
    if |x| == |y| {
      assert forall i | 0 <= i < |x| :: x[i] == s.claims[i].spec && y[i] == desired.claims[i].spec;
      assert VctDrift(s, desired) <==> x != y;
    }
  }

  predicate AllWell(io: Io) {
    !io.getFails && io.delete == Removed && !io.createFails && io.attempts[0] == Succeeds
  }

  /** Exactly the objects that agree are left alone: a stored object that is not being deleted is
      written by no pass iff it agrees with the desired one. */
  lemma QuietIffAgrees<V>(d: Defaults<V>, s: Sts<V>, desired: Sts<V>)
    ensures (forall io :: AfterPass(d, Present(s, false), desired, io).sent == []) <==> Agrees(s, desired)
  {
    hide VctDrift, StructuralChanges, NeedsMutableUpdate, Agrees;
    AgreesIffNoGuard(s, desired);
    if !Agrees(s, desired) {
      var io := Io(false, Removed, false, seq(ATTEMPTS, i => Succeeds));
      assert Verdict(io.attempts) == Succeeds;
      assert AfterPass(d, Present(s, false), desired, io).sent != [];
    }
  }

  /** Defaulting leaves every compared field of the desired object unchanged. */
  ghost predicate Unchanged<V>(d: Defaults<V>, desired: Sts<V>) {
    && Filled(d, desired) && d.replicas(desired.replicas) == desired.replicas
    && d.strategy(desired.strategy) == desired.strategy && d.template(desired.template) == desired.template
  }

  lemma DefaultsAgree<V>(d: Defaults<V>, s: Sts<V>, desired: Sts<V>)
    requires Agrees(s, desired)
    ensures Agrees(WithDefaults(d, s), desired) <==> Unchanged(d, desired)
  {
    var t := WithDefaults(d, s);
    var x, y, z := Specs(s.claims), Specs(desired.claims), Specs(t.claims);
    assert forall i | 0 <= i < |x| :: z[i] == d.claimSpec(x[i]) && x[i] == y[i] && y[i] == desired.claims[i].spec;
    assert z == y <==> Filled(d, desired) by {
      if Filled(d, desired) {
        assert z == y;
      }
    }
  }

  /** A pass that ends without error and writes leaves an object that agrees with the desired one
      exactly if defaulting leaves the desired object unchanged. */
  lemma WritingPassAgrees<V>(d: Defaults<V>, st: Stored<V>, desired: Sts<V>, io: Io)
    requires !AfterPass(d, st, desired, io).error && AfterPass(d, st, desired, io).sent != []
    ensures AfterPass(d, st, desired, io).stored.Present?
    ensures Agrees(AfterPass(d, st, desired, io).stored.sts, desired) <==> Unchanged(d, desired)
  {
    hide Agrees, VctDrift, StructuralChanges, NeedsMutableUpdate, WithDefaults, Unchanged, Verdict;
    SelfAgrees(desired);
    DefaultsAgree(d, desired, desired);
    if st.Present? && !VctDrift(st.sts, desired) && !StructuralChanges(st.sts, desired) {
      UpdateAgrees(st.sts, desired);
      DefaultsAgree(d, CopyMutable(st.sts, desired), desired);
    }
  }

  lemma SelfAgrees<V>(s: Sts<V>)
    ensures Agrees(s, s)
  {
  }

  lemma UpdateAgrees<V>(s: Sts<V>, desired: Sts<V>)
    requires !VctDrift(s, desired) && !StructuralChanges(s, desired)
    ensures Agrees(CopyMutable(s, desired), desired)
  {
    AgreesIffNoGuard(CopyMutable(s, desired), desired);
  }

  ghost predicate AllDesire<V(!new)>(ts: seq<Turn<V>>, desired: Sts<V>) {
    forall i | 0 <= i < |ts| && ts[i].Reconciled? :: ts[i].desired == desired
  }

  predicate AllPasses<V>(ts: seq<Turn<V>>) {
    forall i | 0 <= i < |ts| :: ts[i].Reconciled?
  }

  /** An object that agrees is left alone by every later pass, for as long as it exists. */
  lemma {:induction false} AgreementIsQuiet<V(!new)>(d: Defaults<V>, st: Stored<V>, desired: Sts<V>, ts: seq<Turn<V>>)
    requires AllDesire(ts, desired) && st.Present? && Agrees(st.sts, desired) && (st.deleting ==> AllPasses(ts))
    ensures AfterTurns(d, st, ts).stored == st && AfterTurns(d, st, ts).sent == []
  {
    hide Agrees;
    if ts != [] {
      AgreementIsQuiet(d, st, desired, ts[..|ts| - 1]);
      QuietTurn(d, st, desired, ts[|ts| - 1]);
    }
  }

  lemma QuietTurn<V>(d: Defaults<V>, st: Stored<V>, desired: Sts<V>, t: Turn<V>)
    requires st.Present? && Agrees(st.sts, desired)
    requires if t.Reconciled? then t.desired == desired else !st.deleting
    ensures AfterTurn(d, st, t).stored == st && AfterTurn(d, st, t).sent == []
  {
    hide Agrees, VctDrift, StructuralChanges, NeedsMutableUpdate;
    AgreesIffNoGuard(st.sts, desired);
  }

  /** While an orphan-delete is pending, passes over a drifted object change nothing. */
  lemma {:induction false} PendingDeleteWaits<V(!new)>(d: Defaults<V>, st: Stored<V>, desired: Sts<V>, ts: seq<Turn<V>>)
    requires AllDesire(ts, desired) && AllPasses(ts)
    requires st.Present? && st.deleting && (VctDrift(st.sts, desired) || StructuralChanges(st.sts, desired))
    ensures AfterTurns(d, st, ts).stored == st && AfterTurns(d, st, ts).sent == []
  {
    if ts != [] {
      PendingDeleteWaits(d, st, desired, ts[..|ts| - 1]);
    }
  }

  /** Convergence: from any state, the first pass that ends without error leaves an object that agrees,
      and no later pass writes while the object exists, for desired objects that defaulting leaves
      unchanged. A completed orphan-delete is the state `Absent`, in which such a pass needs only its
      Get and its Create. */
  lemma Converges<V(!new)>(d: Defaults<V>, st: Stored<V>, desired: Sts<V>, io: Io, later: seq<Turn<V>>)
    requires Unchanged(d, desired) && !AfterPass(d, st, desired, io).error && AllDesire(later, desired)
    ensures var st' := AfterPass(d, st, desired, io).stored;
      && st'.Present? && Agrees(st'.sts, desired) && (st'.deleting ==> st.Present? && st.deleting)
      && ((st'.deleting ==> AllPasses(later)) ==>
            AfterTurns(d, st', later).stored == st' && AfterTurns(d, st', later).sent == [])
  {
    hide AfterTurns, Agrees, Unchanged, AllPasses;
    var p := AfterPass(d, st, desired, io);
    if p.sent != [] {
      WritingPassAgrees(d, st, desired, io);
    } else {
      AgreesIffNoGuard(st.sts, desired);
    }
    if p.stored.deleting ==> AllPasses(later) {
      AgreementIsQuiet(d, p.stored, desired, later);
    }
  }

  /** A desired object that defaulting changes is never reached: from any other object, as every writing
      pass leaves one, each of the undisturbed passes that follow writes again. */
  lemma {:induction false} DefaultedFieldsNeverSettle<V(!new)>(
      d: Defaults<V>, s: Sts<V>, desired: Sts<V>, ts: seq<Turn<V>>)
    requires !Unchanged(d, desired) && !Agrees(s, desired)
    requires forall i | 0 <= i < |ts| :: ts[i].Reconciled? && ts[i].desired == desired && AllWell(ts[i].io)
    ensures var p := AfterTurns(d, Present(s, false), ts);
      |p.sent| >= |ts| && p.stored.Present? && !p.stored.deleting && !Agrees(p.stored.sts, desired)
  {
    hide Agrees, Unchanged, AfterPass, AllWell;
    if ts != [] {
      var n := |ts| - 1;
      DefaultedFieldsNeverSettle(d, s, desired, ts[..n]);
      RestlessPass(d, AfterTurns(d, Present(s, false), ts[..n]).stored.sts, desired, ts[n].io);
    }
  }

  lemma RestlessPass<V>(d: Defaults<V>, s: Sts<V>, desired: Sts<V>, io: Io)
    requires !Unchanged(d, desired) && !Agrees(s, desired) && AllWell(io)
    ensures var p := AfterPass(d, Present(s, false), desired, io);
      !p.error && |p.sent| >= 1 && p.stored.Present? && !p.stored.deleting && !Agrees(p.stored.sts, desired)
  {
    AgreesIffNoGuard(s, desired);
    hide Agrees, Unchanged, VctDrift, StructuralChanges, NeedsMutableUpdate, WithDefaults;
    assert Verdict(io.attempts) == Succeeds;
    WritingPassAgrees(d, Present(s, false), desired, io);
  }

  // ---------------------------------------------------------------------------------------------
  // Progress
  // ---------------------------------------------------------------------------------------------

  /** A field holds what the pass asked for, or what the server makes of it. */
  predicate UpToDefault<V(==)>(actual: V, asked: V, fill: V -> V) {
    actual == asked || actual == fill(asked)
  }

  /** The object has every field of the desired one, up to defaulting. */
  predicate Realizes<V(==)>(d: Defaults<V>, s: Sts<V>, desired: Sts<V>) {
    && s.serviceName == desired.serviceName && s.selector == desired.selector && s.labels == desired.labels
    && UpToDefault(s.replicas, desired.replicas, d.replicas)
    && UpToDefault(s.strategy, desired.strategy, d.strategy)
    && UpToDefault(s.template, desired.template, d.template)
    && |s.claims| == |desired.claims|
    && forall i | 0 <= i < |s.claims| :: UpToDefault(s.claims[i].spec, desired.claims[i].spec, d.claimSpec)
  }

  /** The object has an immutable field that no update can bring to the desired value. */
  predicate Immovable<V(==)>(s: Sts<V>, desired: Sts<V>) {
    || s.serviceName != desired.serviceName || s.selector != desired.selector || |s.claims| != |desired.claims|
    || exists i | 0 <= i < |s.claims| :: s.claims[i].spec != desired.claims[i].spec
  }

  /** From every stored state that is not being deleted, nothing stored included, a pass whose calls all
      succeed ends without error and leaves the desired object up to defaulting. It creates a missing
      object, replaces one that no update can fix, and otherwise sends at most one update. */
  lemma CleanPassRealizes<V>(d: Defaults<V>, st: Stored<V>, desired: Sts<V>, io: Io)
    requires AllWell(io) && (st.Present? ==> !st.deleting)
    ensures var p := AfterPass(d, st, desired, io);
      && !p.error && p.stored.Present? && !p.stored.deleting && Realizes(d, p.stored.sts, desired)
      && (st.Absent? ==> p.sent == [Create(desired)])
      && (st.Present? && Immovable(st.sts, desired) ==> p.sent == [Delete(true), Create(desired)])
      && (st.Present? && !Immovable(st.sts, desired) ==>
            p.sent == [] || p.sent == [Update(CopyMutable(st.sts, desired))])
  {
    assert Verdict(io.attempts) == Succeeds;
    CreatedRealizes(d, desired);
    if st.Present? {
      ImmovableIsDrift(st.sts, desired);
      UpdatedRealizes(d, st.sts, desired);
    }
    hide Realizes, Immovable, VctDrift, StructuralChanges, NeedsMutableUpdate, WithDefaults, CopyMutable, Verdict;
  }

  lemma ImmovableIsDrift<V>(s: Sts<V>, desired: Sts<V>)
    ensures Immovable(s, desired) <==> VctDrift(s, desired) || StructuralChanges(s, desired)
  {
  }

  lemma CreatedRealizes<V>(d: Defaults<V>, desired: Sts<V>)
    ensures Realizes(d, WithDefaults(d, desired), desired)
  {
  }

  lemma UpdatedRealizes<V>(d: Defaults<V>, s: Sts<V>, desired: Sts<V>)
    ensures !Immovable(s, desired) ==> Realizes(d, WithDefaults(d, CopyMutable(s, desired)), desired)
    ensures !Immovable(s, desired) && !NeedsMutableUpdate(s, desired) ==> Realizes(d, s, desired)
  {
  }

  /** Some field that an update can change differs from the desired one. */
  predicate Outdated<V(==)>(s: Sts<V>, desired: Sts<V>) {
    !(s.labels == desired.labels && s.replicas == desired.replicas && s.strategy == desired.strategy && s.template == desired.template)
  }

  /** Some attempt succeeds and every one before it met a conflict. */
  predicate UpdateGoesThrough(attempts: seq<AttemptIo>) {
    exists i | 0 <= i < |attempts| :: attempts[i] == Succeeds && forall j | 0 <= j < i :: attempts[j] == Conflict
  }

  lemma {:induction false} VerdictSucceedsIff(attempts: seq<AttemptIo>)
    ensures Verdict(attempts) == Succeeds <==> UpdateGoesThrough(attempts)
  {
    if attempts != [] && attempts[0] == Conflict {
      var rest := attempts[1..];
      VerdictSucceedsIff(rest);
      if UpdateGoesThrough(rest) {
        var i :| 0 <= i < |rest| && rest[i] == Succeeds && forall j | 0 <= j < i :: rest[j] == Conflict;
        assert attempts[i + 1] == Succeeds && forall j | 0 < j < i + 1 :: attempts[j] == rest[j - 1];
      }
      if UpdateGoesThrough(attempts) {
        var i :| 0 <= i < |attempts| && attempts[i] == Succeeds && forall j | 0 <= j < i :: attempts[j] == Conflict;
        assert rest[i - 1] == Succeeds && forall j | 0 <= j < i - 1 :: rest[j] == attempts[j + 1];
      }
    } else if attempts != [] && attempts[0] == Succeeds {
      assert UpdateGoesThrough(attempts);
    }
  }

  /** Exactly when a pass reports an error, for every stored state and every outcome of its calls. */
  lemma PassFailsIff<V>(d: Defaults<V>, st: Stored<V>, desired: Sts<V>, io: Io)
    ensures AfterPass(d, st, desired, io).error <==>
      || io.getFails
      || (st.Absent? && io.createFails)
      || (st.Present? && Immovable(st.sts, desired) && (st.deleting || io.delete != Removed || io.createFails))
      || (st.Present? && !Immovable(st.sts, desired) && Outdated(st.sts, desired) && !UpdateGoesThrough(io.attempts))
      || (st.Present? && !Immovable(st.sts, desired) && !Outdated(st.sts, desired) && io.attempts[0] == GetFails)
  {
    VerdictSucceedsIff(io.attempts);
    if st.Present? {
      ImmovableIsDrift(st.sts, desired);
      assert Outdated(st.sts, desired) <==> NeedsMutableUpdate(st.sts, desired);
    }
    hide Immovable, Outdated, VctDrift, StructuralChanges, NeedsMutableUpdate, UpdateGoesThrough, WithDefaults, Verdict;
  }

  /** How far the replacement of `s` has come: nothing sent, the delete pending, or the object gone. */
  predicate Replacing<V(==)>(s: Sts<V>, p: Pass<V>) {
    || (p.stored == Present(s, false) && p.sent == [])
    || (p.stored == Present(s, true) && p.sent == [Delete(true)])
    || (p.stored == Absent && p.sent == [Delete(true)])
  }

  /** Every pass among the turns ended in an error. */
  ghost predicate AllFail<V(!new)>(d: Defaults<V>, st: Stored<V>, ts: seq<Turn<V>>) {
    forall i | 0 <= i < |ts| && ts[i].Reconciled? :: AfterTurns(d, st, ts[..i + 1]).error
  }

  lemma ReplacingTurn<V>(d: Defaults<V>, s: Sts<V>, desired: Sts<V>, before: Pass<V>, t: Turn<V>)
    requires Immovable(s, desired) && Replacing(s, before) && (t.Reconciled? ==> t.desired == desired)
    ensures var p := AfterTurn(d, before.stored, t);
      var q := p.(sent := before.sent + p.sent);
      || (Replacing(s, q) && (t.Reconciled? ==> p.error))
      || (t.Reconciled? && !p.error && q.stored == Created(d, desired) && q.sent == [Delete(true), Create(desired)])
  {
    ImmovableIsDrift(s, desired);
    hide Immovable, VctDrift, StructuralChanges, WithDefaults;
  }

  lemma {:induction false} ReplacingRun<V(!new)>(d: Defaults<V>, s: Sts<V>, desired: Sts<V>, ts: seq<Turn<V>>)
    requires Immovable(s, desired) && AllDesire(ts, desired) && AllFail(d, Present(s, false), ts)
    ensures Replacing(s, AfterTurns(d, Present(s, false), ts))
  {
    hide Immovable, AfterTurn, Replacing;
    var st := Present(s, false);
    if ts == [] {
      NothingSentYet(d, s);
    } else {
      var n := |ts| - 1;
      assert forall i | 0 <= i < n :: ts[..n][..i + 1] == ts[..i + 1] && ts[..n][i] == ts[i];
      ReplacingRun(d, s, desired, ts[..n]);
      ReplacingTurn(d, s, desired, AfterTurns(d, st, ts[..n]), ts[n]);
      assert ts[..n + 1] == ts;
    }
  }

  lemma NothingSentYet<V(!new)>(d: Defaults<V>, s: Sts<V>)
    ensures Replacing(s, AfterTurns(d, Present(s, false), []))
  {
  }

  /** Over every run that begins with an object no update can fix: whatever failed, waited or was marked
      before, the first pass that ends without error has replaced it, and all that was ever sent is one
      orphan-delete and one create. */
  lemma ReplacedExactlyOnce<V(!new)>(d: Defaults<V>, s: Sts<V>, desired: Sts<V>, ts: seq<Turn<V>>, io: Io)
    requires Immovable(s, desired) && AllDesire(ts, desired) && AllFail(d, Present(s, false), ts)
    requires !AfterTurns(d, Present(s, false), ts + [Reconciled(desired, io)]).error
    ensures var p := AfterTurns(d, Present(s, false), ts + [Reconciled(desired, io)]);
      p.stored == Created(d, desired) && p.sent == [Delete(true), Create(desired)]
  {
    var t := Reconciled(desired, io);
    assert (ts + [t])[..|ts|] == ts;
    ReplacingRun(d, s, desired, ts);
    ReplacingTurn(d, s, desired, AfterTurns(d, Present(s, false), ts), t);
  }

  /** And such a pass comes: after a delete that was only marked, any passes made while it was pending,
      and its completion, the next pass whose Get and Create succeed re-creates the object. */
  lemma PendingDeleteIsFollowedByCreate<V(!new)>(
      d: Defaults<V>, s: Sts<V>, desired: Sts<V>, first: Io, waiting: seq<Turn<V>>, last: Io)
    requires Immovable(s, desired) && !first.getFails && first.delete == Marked
    requires AllDesire(waiting, desired) && AllPasses(waiting) && !last.getFails && !last.createFails
    ensures var ts := [Reconciled(desired, first)] + waiting + [Collected, Reconciled(desired, last)];
      var p := AfterTurns(d, Present(s, false), ts);
      && !p.error && p.stored == Created(d, desired) && p.sent == [Delete(true), Create(desired)]
      && Realizes(d, p.stored.sts, desired)
  {
    hide AfterTurns, Realizes;
    var t1, t2 := Reconciled(desired, first), Reconciled(desired, last);
    ImmovableIsDrift(s, desired);
    CreatedRealizes(d, desired);
    TurnsJoin(d, Present(s, false), [t1], waiting);
    OneTurn(d, Present(s, false), t1);
    PendingDeleteWaits(d, Present(s, true), desired, waiting);
    TurnsJoin(d, Present(s, false), [t1] + waiting, [Collected]);
    OneTurn(d, Present(s, true), Collected);
    TurnsJoin(d, Present(s, false), [t1] + waiting + [Collected], [t2]);
    OneTurn(d, Absent, t2);
    assert [t1] + waiting + [Collected] + [t2] == [t1] + waiting + [Collected, t2];
  }

  lemma OneTurn<V(!new)>(d: Defaults<V>, st: Stored<V>, t: Turn<V>)
    ensures AfterTurns(d, st, [t]) == AfterTurn(d, st, t)
  {
    hide AfterTurn;
    assert [t][..0] == [];
    assert AfterTurns(d, st, [t][..0]) == Pass(st, false, []);
  }

  lemma {:induction false} TurnsJoin<V(!new)>(d: Defaults<V>, st: Stored<V>, xs: seq<Turn<V>>, ys: seq<Turn<V>>)
    ensures var p, q := AfterTurns(d, st, xs), AfterTurns(d, AfterTurns(d, st, xs).stored, ys);
      && AfterTurns(d, st, xs + ys).stored == q.stored && AfterTurns(d, st, xs + ys).sent == p.sent + q.sent
      && (ys != [] ==> AfterTurns(d, st, xs + ys).error == q.error)
  {
    hide AfterTurn;
    if ys == [] {
      assert xs + ys == xs;
    } else {
      var n := |ys| - 1;
      TurnsJoin(d, st, xs, ys[..n]);
      assert (xs + ys)[..|xs| + n] == xs + ys[..n];
    }
  }
}
