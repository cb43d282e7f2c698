/** The validator singleton Lease (internal/controller/validator_guard.go): create, renew, expiry and
    takeover of one Lease object by any contenders that share it, under optimistic concurrency and
    with stale reads. */
module ValidatorLease {
  import opened Clock
  import opened Options

  const LEASE_SECONDS := 30

  datatype Lease = Lease(holder: Option<string>, seconds: Option<int>, acquire: Option<Time>, renew: Option<Time>)

  datatype Role = Validator | OtherRole

  /** `me` is the holder identity; `maxConcurrent` is set if the spec has a validator section. */
  datatype NodeSpec = NodeSpec(me: string, role: Role, mainnet: bool, maxConcurrent: Option<int>)

  /** Whether the guard applies: always on mainnet, elsewhere unless several validators are allowed. */
  predicate Enforced(n: NodeSpec) {
    n.role == Validator && (n.mainnet || n.maxConcurrent.None? || n.maxConcurrent.value <= 1)
  }

  /** How the lookup and deletion of a node's pod end. */
  datatype PodIo = LookupFails | PodMissing | DeleteFails | Deleted

  datatype Move = Write(lease: Lease) | Cordon

  /** Another holder's lease that carries both fields and has not run out yet. */
  predicate Live(l: Lease, now: Time) {
    l.renew.Some? && l.seconds.Some? && now < l.renew.value + l.seconds.value * SECOND
  }

  /** What a contender does with the object it read. */
  function Decide(seen: Option<Lease>, me: string, checkAt: Time, stamp: Time): Move {
    match seen
    case None => Write(Lease(Some(me), Some(LEASE_SECONDS), Some(stamp), Some(stamp)))
    case Some(l) =>
      if l.holder == Some(me) || (l.holder.None? && me == "") then Write(l.(renew := Some(stamp)))
      else if Live(l, checkAt) then Cordon
      else Write(l.(holder := Some(me), acquire := Some(stamp), renew := Some(stamp)))
  }

  datatype Guard = Guard(versions: seq<Lease>, error: bool, podDeleted: bool)

  /** What a pass leaves: nothing for a node the guard does not cover, an error if the read fails. The
      write succeeds iff the version read is still the last one after the rivals' writes. */
  function Guarded(n: NodeSpec, versions: seq<Lease>, read: Option<nat>, checkAt: Time, stamp: Time,
                   rivals: seq<Lease>, pod: PodIo): Guard
    requires read.Some? ==> read.value <= |versions|
  {
    if !Enforced(n) then Guard(versions, false, false)
    else if read.None? then Guard(versions, true, false)
    else
      var k, now := read.value, versions + rivals;
      match Decide(if k == 0 then None else Some(versions[k - 1]), n.me, checkAt, stamp) {
        case Cordon => Guard(now, pod.LookupFails? || pod.DeleteFails?, pod.Deleted?)
        case Write(lease) => if k == |now| then Guard(now + [lease], false, false) else Guard(now, true, false)
      }
  }

  /** The stored object; its resource version is the number of versions so far, 0 before creation. */
  class LeaseServer {
    var versions: seq<Lease>

    constructor ()
      ensures versions == []
    {
      versions := [];
    }

    /** One pass of ensureValidatorSingleton for the node `n`. The read fails or returns version
        `read.value`, which may be old, and `rivals` are written between the read and the write. A node
        that must not run has its pod deleted; `pod` says how that ends. */
    method EnsureValidatorSingleton(n: NodeSpec, read: Option<nat>, checkAt: Time, stamp: Time, rivals: seq<Lease>, pod: PodIo)
      returns (error: bool, podDeleted: bool)
      requires read.Some? ==> read.value <= |versions|
      modifies this
      ensures Guard(versions, error, podDeleted) == Guarded(n, old(versions), read, checkAt, stamp, rivals, pod)
    {
      if n.role != Validator || (!n.mainnet && n.maxConcurrent.Some? && n.maxConcurrent.value > 1) {
        return false, false;
      }
      if read.None? {
        return true, false;
      }
      var k := read.value;
      var lease := if k == 0 then None else Some(versions[k - 1]);
      versions := versions + rivals;
      if lease.None? {
        if |versions| != 0 {
          return true, false;
        }
        versions := versions + [Lease(Some(n.me), Some(LEASE_SECONDS), Some(stamp), Some(stamp))];
        return false, false;
      }
      var l := lease.value;
      var currentHolder := if l.holder.Some? then l.holder.value else "";
      if currentHolder == n.me {
        if k != |versions| {
          return true, false;
        }
        versions := versions + [l.(renew := Some(stamp))];
        return false, false;
      }
      if l.renew.Some? && l.seconds.Some? {
        var expiry := l.renew.value + l.seconds.value * SECOND;
        if checkAt < expiry {
          error, podDeleted := CordonValidatorPod(pod);
          return;
        }
      }
      if k != |versions| {
        return true, false;
      }
      versions := versions + [l.(holder := Some(n.me), acquire := Some(stamp), renew := Some(stamp))];
      return false, false;
    }

    /** A missing pod is no error. */
    method CordonValidatorPod(pod: PodIo) returns (error: bool, podDeleted: bool)
      ensures podDeleted <==> pod.Deleted?
      ensures error <==> pod.LookupFails? || pod.DeleteFails?
    {
      if pod.LookupFails? || pod.PodMissing? {
        return pod.LookupFails?, false;
      }
      return pod.DeleteFails?, pod.Deleted?;
    }
  }

  // ---------------------------------------------------------------------------------------------
  // Any number of contenders on one Lease
  // ---------------------------------------------------------------------------------------------

  type Contender = string

  datatype Pc = Read(k: nat) | Ready(k: nat, lease: Lease)

  datatype World = World(versions: seq<Lease>, pcs: map<Contender, Pc>)

  /** A read of version `k`, a decision (with the expiry check at `checkAt`, before the stamp), and
      the write reaching the server. */
  datatype Event =
    | Get(c: Contender, k: nat, at: Time)
    | Choose(c: Contender, checkAt: Time, at: Time)
    | Apply(c: Contender, at: Time)

  function VersionAt(w: World, k: nat): Option<Lease>
    requires k <= |w.versions|
  {
    if k == 0 then None else Some(w.versions[k - 1])
  }

  function Step(w: World, e: Event): World {
    match e
    case Get(c, k, _) =>
      if c in w.pcs || k > |w.versions| then w else w.(pcs := w.pcs[c := Read(k)])
    case Choose(c, checkAt, at) =>
      if !(c in w.pcs && w.pcs[c].Read? && w.pcs[c].k <= |w.versions|) then w
      else
        var k := w.pcs[c].k;
        (match Decide(VersionAt(w, k), c, checkAt, at)
         case Cordon => w.(pcs := w.pcs - {c})
         case Write(lease) => w.(pcs := w.pcs[c := Ready(k, lease)]))
    case Apply(c, _) =>
      if !(c in w.pcs && w.pcs[c].Ready?) then w
      else
        var p := w.pcs[c];
        World(if p.k == |w.versions| then w.versions + [p.lease] else w.versions, w.pcs - {c})
  }

  function WorldAt(es: seq<Event>, n: nat): World
    requires n <= |es|
  {
    if n == 0 then World([], map[]) else Step(WorldAt(es, n - 1), es[n - 1])
  }

  /** Event times, expiry checks included, never run backwards. */
  ghost predicate Chronological(es: seq<Event>) {
    && (forall i, j :: 0 <= i <= j < |es| ==> es[i].at <= es[j].at)
    && (forall i | 0 <= i < |es| && es[i].Choose? :: es[i].checkAt <= es[i].at)
    && (forall i | 0 < i < |es| && es[i].Choose? :: es[i - 1].at <= es[i].checkAt)
  }

  predicate WellFormed(l: Lease) {
    l.holder.Some? && l.seconds == Some(LEASE_SECONDS) && l.acquire.Some? && l.renew.Some?
  }

  /** `l` is a legitimate successor of `prev`: a renewal by the same holder, or a takeover that starts
      no earlier than the previous holder's last renewal plus the lease duration. */
  predicate Follows(prev: Option<Lease>, l: Lease) {
    && WellFormed(l) && l.acquire.value <= l.renew.value
    && (prev.Some? ==>
          && WellFormed(prev.value)
          && prev.value.renew.value <= l.renew.value
          && (l.holder == prev.value.holder ==> l.acquire == prev.value.acquire)
          && (l.holder != prev.value.holder ==> l.acquire.value >= prev.value.renew.value + LEASE_SECONDS * SECOND))
  }

  predicate VersionOk(w: World, k: nat, now: Time)
    requires k < |w.versions|
  {
    Follows(VersionAt(w, k), w.versions[k]) && w.versions[k].renew.value <= now
  }

  predicate PcOk(w: World, p: Pc, now: Time) {
    p.k <= |w.versions| && (p.Ready? ==> Follows(VersionAt(w, p.k), p.lease) && p.lease.renew.value <= now)
  }

  ghost predicate Ok(w: World, now: Time) {
    && (forall k | 0 <= k < |w.versions| :: VersionOk(w, k, now))
    && (forall c | c in w.pcs :: PcOk(w, w.pcs[c], now))
  }

  lemma ChoiceFollows(w: World, c: Contender, k: nat, before: Time, checkAt: Time, at: Time)
    requires Ok(w, before) && k <= |w.versions| && before <= checkAt <= at
    ensures var m := Decide(VersionAt(w, k), c, checkAt, at);
      m.Write? ==> Follows(VersionAt(w, k), m.lease) && m.lease.renew == Some(at)
  {
    if k > 0 {
      assert VersionOk(w, k - 1, before);
    }
  }

  /** Appending a version and moving the clock disturbs no earlier version and no other contender. */
  lemma OkIsStable(w: World, w': World, before: Time, now: Time)
    requires before <= now && w.versions <= w'.versions
    ensures forall k | 0 <= k < |w.versions| && VersionOk(w, k, before) :: VersionOk(w', k, now)
    ensures forall p: Pc | PcOk(w, p, before) :: PcOk(w', p, now)
  {
    hide Follows;
    assert forall k | 0 <= k <= |w.versions| :: VersionAt(w', k) == VersionAt(w, k);
  }

  lemma StepKeepsOk(w: World, e: Event, before: Time)
    requires Ok(w, before) && before <= e.at && (e.Choose? ==> before <= e.checkAt <= e.at)
    ensures Ok(Step(w, e), e.at)
  {
    hide Follows, Decide;
    var w' := Step(w, e);
    OkIsStable(w, w', before, e.at);
    if e.Choose? && e.c in w.pcs && w.pcs[e.c].Read? {
      assert PcOk(w, w.pcs[e.c], before);
      ChoiceFollows(w, e.c, w.pcs[e.c].k, before, e.checkAt, e.at);
    }
    if e.c in w.pcs {
      assert PcOk(w', w.pcs[e.c], e.at);
    }
    forall k | 0 <= k < |w'.versions| ensures VersionOk(w', k, e.at) {
      assert k < |w.versions| ==> VersionOk(w, k, before);
    }
    forall c | c in w'.pcs ensures PcOk(w', w'.pcs[c], e.at) {
      assert c != e.c ==> PcOk(w, w.pcs[c], before);
    }
  }

  lemma {:induction false} AlwaysOk(es: seq<Event>, n: nat)
    requires Chronological(es) && n < |es|
    ensures Ok(WorldAt(es, n + 1), es[n].at)
  {
    hide Step, Ok;
    if n == 0 {
      var before := if es[0].Choose? then es[0].checkAt else es[0].at;
      NothingIsOk(before);
      StepKeepsOk(WorldAt(es, 0), es[0], before);
    } else {
      AlwaysOk(es, n - 1);
      StepKeepsOk(WorldAt(es, n), es[n], es[n - 1].at);
    }
  }

  lemma NothingIsOk(now: Time)
    ensures Ok(World([], map[]), now)
  {
  }

  /** The holder named by the version may run as validator at time t. */
  predicate Entitled(l: Lease, t: Time) {
    l.acquire.Some? && l.renew.Some? && l.acquire.value <= t < l.renew.value + LEASE_SECONDS * SECOND
  }

  lemma {:induction false} LaterTakesOverAfterExpiry(w: World, now: Time, i: nat, j: nat)
    requires Ok(w, now) && i < j < |w.versions|
    ensures WellFormed(w.versions[i]) && WellFormed(w.versions[j])
    ensures w.versions[i].renew.value <= w.versions[j].renew.value
    ensures w.versions[i].holder != w.versions[j].holder ==>
      w.versions[j].acquire.value >= w.versions[i].renew.value + LEASE_SECONDS * SECOND
  {
    var l, m, p := w.versions[i], w.versions[j], w.versions[j - 1];
    assert VersionOk(w, i, now) && VersionOk(w, j, now);
    assert Follows(Some(p), m) && WellFormed(l);
    hide Ok, VersionOk;
    if i < j - 1 {
      LaterTakesOverAfterExpiry(w, now, i, j - 1);
    }
  }

  /** Exclusion: over every run of contenders sharing one Lease, at no moment are two different holders
      entitled by any two versions the object ever had. */
  lemma OneHolderAtATime(es: seq<Event>, n: nat, i: nat, j: nat, t: Time)
    requires Chronological(es) && n <= |es|
    requires i < |WorldAt(es, n).versions| && j < |WorldAt(es, n).versions|
    requires Entitled(WorldAt(es, n).versions[i], t) && Entitled(WorldAt(es, n).versions[j], t)
    ensures WorldAt(es, n).versions[i].holder == WorldAt(es, n).versions[j].holder
  {
    hide Step, Ok;
    if n > 0 {
      AlwaysOk(es, n - 1);
      var w := WorldAt(es, n);
      if i < j {
        LaterTakesOverAfterExpiry(w, es[n - 1].at, i, j);
      } else if j < i {
        LaterTakesOverAfterExpiry(w, es[n - 1].at, j, i);
      }
    }
  }

  /** The guard is no stricter than that: a contender that reads the current version and is left alone
      becomes the holder iff it is the holder already or the lease has run out, and is then entitled
      from its stamp on. */
  lemma TakesOverIffExpired(w: World, now: Time, c: Contender, checkAt: Time, at: Time)
    requires Ok(w, now) && w.versions != [] && c !in w.pcs && now <= checkAt <= at
    ensures var k := |w.versions|;
      var l := w.versions[k - 1];
      var w' := Step(Step(Step(w, Get(c, k, now)), Choose(c, checkAt, at)), Apply(c, at));
      && WellFormed(l)
      && (|w'.versions| == k + 1 <==> l.holder == Some(c) || checkAt >= l.renew.value + LEASE_SECONDS * SECOND)
      && (|w'.versions| == k + 1 ==> w'.versions[k].holder == Some(c) && Entitled(w'.versions[k], at))
      && c !in w'.pcs
  {
    var k := |w.versions|;
    assert VersionOk(w, k - 1, now);
    ChoiceFollows(w, c, k, now, checkAt, at);
  }

  // ---------------------------------------------------------------------------------------------
  // A pass of one node, from the fields of its spec
  // ---------------------------------------------------------------------------------------------

  /** The guard leaves a node alone, whatever is stored and whenever it runs, exactly if the node is no
      validator, or is not on mainnet and its spec allows more than one validator. A failed read is an
      error for every other node and for no such node. */
  lemma LeftAloneIff(n: NodeSpec)
    ensures forall versions: seq<Lease>, checkAt: Time, stamp: Time, rivals: seq<Lease>, pod: PodIo ::
      Guarded(n, versions, None, checkAt, stamp, rivals, pod)
        == Guard(versions, n.role == Validator && (n.mainnet || n.maxConcurrent.None? || n.maxConcurrent.value <= 1), false)
    ensures (n.role != Validator || (!n.mainnet && n.maxConcurrent.Some? && n.maxConcurrent.value > 1)) <==>
      (forall versions: seq<Lease>, k: nat, checkAt: Time, stamp: Time, pod: PodIo | k <= |versions| ::
         Guarded(n, versions, Some(k), checkAt, stamp, [], pod).versions == versions)
    ensures n.role != Validator || (!n.mainnet && n.maxConcurrent.Some? && n.maxConcurrent.value > 1) ==>
      forall versions: seq<Lease>, k: nat, checkAt: Time, stamp: Time, rivals: seq<Lease>, pod: PodIo | k <= |versions| ::
        Guarded(n, versions, Some(k), checkAt, stamp, rivals, pod) == Guard(versions, false, false)
  {
    assert Guarded(n, [], Some(0), 0, 0, [], PodMissing).versions == if Enforced(n) then [CreatedLease(n.me, 0)] else [];
  }

  function CreatedLease(me: string, stamp: Time): Lease {
    Lease(Some(me), Some(LEASE_SECONDS), Some(stamp), Some(stamp))
  }

  /** Exactly when a pass deletes the node's pod: the node is covered, the Lease it read names another
      holder and carries a renewal and a duration that has not run out, and the deletion succeeds. */
  lemma PodDeletedIff(n: NodeSpec, versions: seq<Lease>, k: nat, checkAt: Time, stamp: Time, rivals: seq<Lease>, pod: PodIo)
    requires k <= |versions|
    ensures Guarded(n, versions, Some(k), checkAt, stamp, rivals, pod).podDeleted <==>
      && n.role == Validator && (n.mainnet || n.maxConcurrent.None? || n.maxConcurrent.value <= 1)
      && k > 0
      && var l := versions[k - 1];
      && (if l.holder.Some? then l.holder.value else "") != n.me
      && l.renew.Some? && l.seconds.Some? && checkAt < l.renew.value + l.seconds.value * SECOND
      && pod == Deleted
  {
  }

  function After(w: World, es: seq<Event>): World {
    if es == [] then w else Step(After(w, es[..|es| - 1]), es[|es| - 1])
  }

  /** Events of other contenders append versions and leave the contender where it is. */
  lemma {:induction false} OthersAct(w: World, es: seq<Event>, c: Contender)
    requires forall i | 0 <= i < |es| :: es[i].c != c
    ensures w.versions <= After(w, es).versions
    ensures c in w.pcs <==> c in After(w, es).pcs
    ensures c in w.pcs ==> After(w, es).pcs[c] == w.pcs[c]
  {
    if es != [] {
      OthersAct(w, es[..|es| - 1], c);
    }
  }

  /** A covered node's pass is a Get, a Choose and an Apply of the run, with any events of others in
      between: the same versions, a pod deletion iff the Choose cordons, and otherwise an error iff the
      write was overtaken. */
  lemma PassIsRun(w: World, n: NodeSpec, k: nat, checkAt: Time, stamp: Time, at: Time,
                  before: seq<Event>, between: seq<Event>, pod: PodIo)
    requires n.role == Validator && (n.mainnet || n.maxConcurrent.None? || n.maxConcurrent.value <= 1)
    requires n.me !in w.pcs && k <= |w.versions|
    requires forall i | 0 <= i < |before| :: before[i].c != n.me
    requires forall i | 0 <= i < |between| :: between[i].c != n.me
    ensures var w1 := After(Step(w, Get(n.me, k, at)), before);
      var w2 := After(Step(w1, Choose(n.me, checkAt, stamp)), between);
      var w3 := Step(w2, Apply(n.me, stamp));
      && w.versions <= w2.versions && n.me !in w3.pcs
      && var g := Guarded(n, w.versions, Some(k), checkAt, stamp, w2.versions[|w.versions|..], pod);
      && w3.versions == g.versions
      && (g.podDeleted <==> Cordons(w1, Choose(n.me, checkAt, stamp)) && pod == Deleted)
      && (g.error <==> if Cordons(w1, Choose(n.me, checkAt, stamp)) then pod in {LookupFails, DeleteFails}
                       else w3.versions == w2.versions)
  {
    hide After, Step, Decide, Cordons, Guarded;
    var w0 := Step(w, Get(n.me, k, at));
    var w1 := After(w0, before);
    ReadStep(w, n.me, k, at);
    OthersAct(w0, before, n.me);
    assert VersionAt(w1, k) == if k == 0 then None else Some(w.versions[k - 1]);
    ChooseStep(w1, n.me, k, checkAt, stamp);
    var w1' := Step(w1, Choose(n.me, checkAt, stamp));
    OthersAct(w1', between, n.me);
    var w2 := After(w1', between);
    ApplyStep(w2, n.me, stamp);
    CoveredPass(n, w.versions, k, checkAt, stamp, w2.versions, pod);
  }

  lemma CoveredPass(n: NodeSpec, versions: seq<Lease>, k: nat, checkAt: Time, stamp: Time, later: seq<Lease>, pod: PodIo)
    requires n.role == Validator && (n.mainnet || n.maxConcurrent.None? || n.maxConcurrent.value <= 1)
    requires k <= |versions| && versions <= later
    ensures var g := Guarded(n, versions, Some(k), checkAt, stamp, later[|versions|..], pod);
      var m := Decide(if k == 0 then None else Some(versions[k - 1]), n.me, checkAt, stamp);
      && (g.podDeleted <==> m.Cordon? && pod == Deleted)
      && (g.error <==> if m.Cordon? then pod in {LookupFails, DeleteFails} else k != |later|)
      && g.versions == later + if m.Write? && k == |later| then [m.lease] else []
  {
    hide Decide;
    assert versions + later[|versions|..] == later;
  }

  lemma ReadStep(w: World, c: Contender, k: nat, at: Time)
    requires c !in w.pcs && k <= |w.versions|
    ensures Step(w, Get(c, k, at)) == w.(pcs := w.pcs[c := Read(k)])
  {
  }

  lemma ChooseStep(w: World, c: Contender, k: nat, checkAt: Time, stamp: Time)
    requires c in w.pcs && w.pcs[c] == Read(k) && k <= |w.versions|
    ensures var w', m := Step(w, Choose(c, checkAt, stamp)), Decide(VersionAt(w, k), c, checkAt, stamp);
      && w'.versions == w.versions && (Cordons(w, Choose(c, checkAt, stamp)) <==> m.Cordon?)
      && (if m.Cordon? then c !in w'.pcs else c in w'.pcs && w'.pcs[c] == Ready(k, m.lease))
  {
    hide Decide;
  }

  lemma ApplyStep(w: World, c: Contender, at: Time)
    ensures var w' := Step(w, Apply(c, at));
      && (c !in w.pcs ==> w' == w)
      && (c in w.pcs && w.pcs[c].Ready? ==>
            c !in w'.pcs && w'.versions == w.versions + if w.pcs[c].k == |w.versions| then [w.pcs[c].lease] else [])
  {
  }

  // ---------------------------------------------------------------------------------------------
  // Who shares a Lease
  // ---------------------------------------------------------------------------------------------

  const SUFFIX := "-validator-singleton"

  function LeaseName(node: string): string {
    node + SUFFIX
  }

  /** The name contains the node's own name, so within a namespace two nodes contend for a Lease iff
      they are the same node. */
  lemma LeaseIsSharedIffSameNode(a: string, b: string)
    ensures LeaseName(a) == LeaseName(b) <==> a == b
  {
    if LeaseName(a) == LeaseName(b) {
      assert |a| == |b|;
      assert a == LeaseName(a)[..|a|] == LeaseName(b)[..|b|] == b;
    }
  }

  /** The Lease objects of a namespace by name; events name the node that acts. */
  type Leases = map<string, World>

  function LeaseOf(g: Leases, node: Contender): World {
    if LeaseName(node) in g then g[LeaseName(node)] else World([], map[])
  }

  function StepAll(g: Leases, e: Event): Leases {
    g[LeaseName(e.c) := Step(LeaseOf(g, e.c), e)]
  }

  function LeasesAfter(es: seq<Event>): Leases {
    if es == [] then map[] else StepAll(LeasesAfter(es[..|es| - 1]), es[|es| - 1])
  }

  /** Only `c` ever read, wrote or held the Lease. */
  ghost predicate OwnLease(w: World, c: Contender) {
    && (forall k | 0 <= k < |w.versions| :: w.versions[k].holder == Some(c))
    && (forall d | d in w.pcs :: d == c && w.pcs[d].k <= |w.versions|
                                 && (w.pcs[d].Ready? ==> w.pcs[d].lease.holder == Some(c)))
  }

  /** The event makes the guard delete the node's pod. */
  predicate Cordons(w: World, e: Event) {
    && e.Choose? && e.c in w.pcs && w.pcs[e.c].Read? && w.pcs[e.c].k <= |w.versions|
    && Decide(VersionAt(w, w.pcs[e.c].k), e.c, e.checkAt, e.at).Cordon?
  }

  lemma OwnStep(w: World, e: Event)
    requires OwnLease(w, e.c)
    ensures OwnLease(Step(w, e), e.c) && !Cordons(w, e)
  {
  }

  lemma OthersUntouched(g: Leases, e: Event, c: Contender)
    ensures LeaseOf(StepAll(g, e), c) == if c == e.c then Step(LeaseOf(g, c), e) else LeaseOf(g, c)
  {
    hide Step;
    LeaseIsSharedIffSameNode(c, e.c);
  }

  lemma {:induction false} EveryLeaseIsOwn(es: seq<Event>, c: Contender)
    ensures OwnLease(LeaseOf(LeasesAfter(es), c), c)
  {
    hide Step, StepAll, OwnLease, LeaseOf;
    if es == [] {
      NewLeaseIsOwn(c);
    } else {
      var g, e := LeasesAfter(es[..|es| - 1]), es[|es| - 1];
      EveryLeaseIsOwn(es[..|es| - 1], c);
      OthersUntouched(g, e, c);
      if c == e.c {
        OwnStep(LeaseOf(g, c), e);
      }
    }
  }

  lemma NewLeaseIsOwn(c: Contender)
    ensures OwnLease(LeaseOf(map[], c), c)
  {
  }

  /** Across nodes the guard therefore excludes nobody: in every run of any nodes of a namespace, with
      stale reads and at any times, each Lease is only ever held by the node it is named after, and no
      decision ever cordons anyone. */
  lemma NobodyIsEverCordoned(es: seq<Event>, e: Event)
    ensures !Cordons(LeaseOf(LeasesAfter(es), e.c), e)
    ensures forall l | l in LeaseOf(LeasesAfter(es), e.c).versions :: l.holder == Some(e.c)
  {
    hide Cordons, LeasesAfter, LeaseOf;
    EveryLeaseIsOwn(es, e.c);
    OwnStep(LeaseOf(LeasesAfter(es), e.c), e);
  }

  function Pass(c: Contender, now: Time): seq<Event> {
    [Get(c, 0, now), Choose(c, now, now), Apply(c, now)]
  }

  lemma FirstPassAcquires(es: seq<Event>, c: Contender, d: Contender, now: Time)
    requires LeaseOf(LeasesAfter(es), c) == World([], map[]) && c != d
    ensures var g := LeasesAfter(es + Pass(c, now));
      && LeaseOf(g, c) == World([Lease(Some(c), Some(LEASE_SECONDS), Some(now), Some(now))], map[])
      && LeaseOf(g, d) == LeaseOf(LeasesAfter(es), d)
  {
    hide LeaseOf, LeasesAfter, Step;
    var e1 := es + [Get(c, 0, now)];
    var e2 := e1 + [Choose(c, now, now)];
    assert e2 + [Apply(c, now)] == es + Pass(c, now);
    AfterSnoc(es, Get(c, 0, now), c);
    AfterSnoc(es, Get(c, 0, now), d);
    AfterSnoc(e1, Choose(c, now, now), c);
    AfterSnoc(e1, Choose(c, now, now), d);
    AfterSnoc(e2, Apply(c, now), c);
    AfterSnoc(e2, Apply(c, now), d);
    ThreeSteps(c, now);
  }

  lemma AfterSnoc(es: seq<Event>, e: Event, c: Contender)
    ensures var w := LeaseOf(LeasesAfter(es), c);
      LeaseOf(LeasesAfter(es + [e]), c) == if c == e.c then Step(w, e) else w
  {
    hide Step, LeaseOf, StepAll;
    assert (es + [e])[..|es|] == es;
    OthersUntouched(LeasesAfter(es), e, c);
  }

  lemma ThreeSteps(c: Contender, now: Time)
    ensures Step(Step(Step(World([], map[]), Get(c, 0, now)), Choose(c, now, now)), Apply(c, now))
         == World([Lease(Some(c), Some(LEASE_SECONDS), Some(now), Some(now))], map[])
  {
  }

  /** So any two different validators of a namespace, after one pass each, are entitled at the same
      moment. */
  lemma TwoNodesHoldAtOnce(a: Contender, b: Contender, now: Time)
    requires a != b
    ensures var g := LeasesAfter(Pass(a, now) + Pass(b, now));
      var la, lb := LeaseOf(g, a).versions, LeaseOf(g, b).versions;
      && |la| == |lb| == 1 && la[0].holder == Some(a) && lb[0].holder == Some(b)
      && Entitled(la[0], now) && Entitled(lb[0], now)
  {
    hide StepAll;
    assert [] + Pass(a, now) == Pass(a, now);
    assert LeaseOf(LeasesAfter([]), a) == LeaseOf(LeasesAfter([]), b) == World([], map[]);
    FirstPassAcquires([], a, b, now);
    FirstPassAcquires(Pass(a, now), b, a, now);
  }
}
