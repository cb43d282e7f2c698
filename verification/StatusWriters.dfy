/** The two writers of a node's status under optimistic concurrency: the reconcile loop, which saves
    the whole status (updateStatusAndRequeue), and the asynchronous AI advisory, which saves one
    field of it (updateAIAdvisoryStatus), both in internal/controller/taonode_controller.go.

    `C` is everything in the status except the AI advisory, `A` is the advisory, `I` is whatever else
    a reconcile reads. `f` stands for a reconcile: from the stored status and its input it computes
    the status to save, or nothing when it returns before the write. */
module StatusWriters {
  import opened Options

  datatype Writer = Reconciler | Advisor | Editor

  /** What the API server holds; the resource version of an object is its index in `versions`. */
  datatype Version<C, A> = Version(core: C, ai: A, writer: Writer)

  /** retry.DefaultRetry calls the update function at most this often. */
  const ATTEMPTS := 5

  class ApiServer<C(==), A(==)> {
    var versions: seq<Version<C, A>>

    constructor (first: Version<C, A>)
      ensures versions == [first]
    {
      versions := [first];
    }
  }

  /** How one attempt of the retry loop goes: its Get fails; its Update fails with something else than a
      conflict; or the Update is decided by the resource version. `rivals` are the versions that other
      writers create between the two calls, and a stale read is older than the current version. */
  datatype Attempt<C, A> =
    | GetError
    | UpdateError(rivals: seq<Version<C, A>>)
    | Sent(stale: bool, rivals: seq<Version<C, A>>)

  predicate Clean<C(==), A(==)>(a: Attempt<C, A>) {
    a == Sent(false, [])
  }

  /** The attempt ends in a conflict, which is retried. */
  predicate Conflicts<C(==), A(==)>(a: Attempt<C, A>) {
    a.Sent? && !Clean(a)
  }

  datatype Saving<C, A> = Saving(versions: seq<Version<C, A>>, saved: bool)

  function AfterAttempts<C(==), A(==)>(vs: seq<Version<C, A>>, core: C, ai: A, attempts: seq<Attempt<C, A>>): Saving<C, A>
    decreases |attempts|
  {
    if attempts == [] then Saving(vs, false)
    else match attempts[0] {
      case GetError => Saving(vs, false)
      case UpdateError(rivals) => Saving(vs + rivals, false)
      case Sent(_, rivals) =>
        if Clean(attempts[0]) then Saving(vs + [Version(core, ai, Reconciler)], true)
        else AfterAttempts(vs + rivals, core, ai, attempts[1..])
    }
  }

  /** The retry loop of updateStatusAndRequeue. */
  method UpdateStatus<C, A>(server: ApiServer<C, A>, core: C, ai: A, attempts: seq<Attempt<C, A>>) returns (saved: bool)
    requires |attempts| == ATTEMPTS
    modifies server
    ensures Saving(server.versions, saved) == AfterAttempts(old(server.versions), core, ai, attempts)
  {
    for i := 0 to ATTEMPTS
      invariant AfterAttempts(old(server.versions), core, ai, attempts)
             == AfterAttempts(server.versions, core, ai, attempts[i..])
    {
      var a := attempts[i];
      if a.GetError? {
        return false;
      }
      var read := if a.Sent? && a.stale then None else Some(|server.versions|);
      server.versions := server.versions + a.rivals;
      if a.UpdateError? {
        return false;
      }
      if read == Some(|server.versions|) {
        server.versions := server.versions + [Version(core, ai, Reconciler)];
        return true;
      }
      assert attempts[i..][1..] == attempts[i + 1..];
    }
    saved := false;
  }

  /** The status is saved iff some attempt meets no rival and no error, and all before it met a rival
      or a stale read. */
  lemma {:induction false} SavedIff<C, A>(vs: seq<Version<C, A>>, core: C, ai: A, attempts: seq<Attempt<C, A>>)
    ensures AfterAttempts(vs, core, ai, attempts).saved
       <==> exists i :: 0 <= i < |attempts| && Clean(attempts[i]) && forall j | 0 <= j < i :: Conflicts(attempts[j])
    decreases |attempts|
  {
    if attempts != [] && Conflicts(attempts[0]) {
      var rest := attempts[1..];
      SavedIff(vs + attempts[0].rivals, core, ai, rest);
      if AfterAttempts(vs, core, ai, attempts).saved {
        var i :| 0 <= i < |rest| && Clean(rest[i]) && forall j | 0 <= j < i :: Conflicts(rest[j]);
        assert forall j | 0 < j < i + 1 :: attempts[j] == rest[j - 1];
        assert Clean(attempts[i + 1]);
      }
      forall i | 0 <= i < |attempts| && Clean(attempts[i]) && forall j | 0 <= j < i :: Conflicts(attempts[j])
        ensures AfterAttempts(vs, core, ai, attempts).saved
      {
        assert Clean(rest[i - 1]);
        assert forall j | 0 <= j < i - 1 :: rest[j] == attempts[j + 1];
      }
    } else if attempts != [] {
      assert Clean(attempts[0]) <==> AfterAttempts(vs, core, ai, attempts).saved;
    }
  }

  // ---------------------------------------------------------------------------------------------
  // Interleavings of both writers with edits of the object's spec or metadata
  // ---------------------------------------------------------------------------------------------

  /** `overtaken`: an earlier attempt of this reconcile was rejected although only advisory writes had
      come in between. `seen` is the version an attempt works on; None is a read older than that. */
  datatype ReconcilePc<C, A> =
    | Resting
    | Retrying(core: C, ai: A, tries: nat, overtaken: bool)
    | Updating(core: C, ai: A, tries: nat, overtaken: bool, seen: Option<nat>)

  datatype AdvisorPc<A> =
    | Advising(report: A, tries: nat)
    | Storing(report: A, tries: nat, seen: nat)

  datatype Sys<C, A> = Sys(
    versions: seq<Version<C, A>>, r: ReconcilePc<C, A>, advisors: map<nat, AdvisorPc<A>>, log: seq<C>)

  datatype Event<I, A> =
    | Begin(input: I)
    | Get(upToDate: bool)
    | GetFails
    | Update(ok: bool)
    | Edit
    | Advise(w: nat, report: A)
    | AdvisorGet(w: nat, version: nat)
    | AdvisorUpdate(w: nat)

  predicate OfAdvisor<I, A>(e: Event<I, A>) {
    e.Advise? || e.AdvisorGet? || e.AdvisorUpdate?
  }

  predicate Started<C, A>(s: Sys<C, A>) {
    s.versions != []
  }

  function Current<C, A>(s: Sys<C, A>): Version<C, A>
    requires Started(s)
  {
    s.versions[|s.versions| - 1]
  }

  /** Every version after `v` was written by an advisor. */
  predicate OnlyAdvisorsSince<C, A>(s: Sys<C, A>, v: nat) {
    forall i | v < i < |s.versions| :: s.versions[i].writer == Advisor
  }

  /** The update is rejected, and without the advisors it would not have been. */
  predicate OvertakenNow<C, A>(s: Sys<C, A>) {
    s.r.Updating? && s.r.seen.Some? && s.r.seen.value != |s.versions| - 1 && OnlyAdvisorsSince(s, s.r.seen.value)
  }

  function Rejected<C, A>(s: Sys<C, A>): ReconcilePc<C, A>
    requires s.r.Updating?
  {
    if s.r.tries + 1 >= ATTEMPTS then Resting
    else Retrying(s.r.core, s.r.ai, s.r.tries + 1, s.r.overtaken || OvertakenNow(s))
  }

  function Step<C, A, I>(f: (C, I) -> Option<C>, s: Sys<C, A>, e: Event<I, A>): (s': Sys<C, A>)
    requires Started(s)
    ensures Started(s')
  {
    var now := |s.versions| - 1;
    match e
    case Begin(input) =>
      if !s.r.Resting? then s
      else match f(Current(s).core, input) {
        case None => s
        case Some(core) => s.(r := Retrying(core, Current(s).ai, 0, false))
      }
    case Get(upToDate) =>
      if !s.r.Retrying? then s
      else s.(r := Updating(s.r.core, s.r.ai, s.r.tries, s.r.overtaken, if upToDate then Some(now) else None))
    case GetFails => if s.r.Retrying? then s.(r := Resting) else s
    case Update(ok) =>
      if !s.r.Updating? then s
      else if !ok then s.(r := Resting)
      else if s.r.seen == Some(now) then
        Sys(s.versions + [Version(s.r.core, s.r.ai, Reconciler)], Resting, s.advisors, s.log + [s.r.core])
      else s.(r := Rejected(s))
    case Edit => s.(versions := s.versions + [Current(s).(writer := Editor)])
    case Advise(w, report) => if w in s.advisors then s else s.(advisors := s.advisors[w := Advising(report, 0)])
    case AdvisorGet(w, v) =>
      if w in s.advisors && s.advisors[w].Advising? && v <= now then
        s.(advisors := s.advisors[w := Storing(s.advisors[w].report, s.advisors[w].tries, v)])
      else s
    case AdvisorUpdate(w) =>
      if !(w in s.advisors && s.advisors[w].Storing?) then s
      else
        var a := s.advisors[w];
        if a.seen == now then
          s.(versions := s.versions + [Version(s.versions[a.seen].core, a.report, Advisor)], advisors := s.advisors - {w})
        else if a.tries + 1 >= ATTEMPTS then s.(advisors := s.advisors - {w})
        else s.(advisors := s.advisors[w := Advising(a.report, a.tries + 1)])
  }

  function Run<C, A, I>(f: (C, I) -> Option<C>, s: Sys<C, A>, es: seq<Event<I, A>>): (s': Sys<C, A>)
    requires Started(s)
    ensures Started(s')
  {
    if es == [] then s else Step(f, Run(f, s, es[..|es| - 1]), es[|es| - 1])
  }

  function Erase<I, A>(es: seq<Event<I, A>>): seq<Event<I, A>> {
    if es == [] then []
    else Erase(es[..|es| - 1]) + if OfAdvisor(es[|es| - 1]) then [] else [es[|es| - 1]]
  }

  /** The event ends a reconcile unsaved although one of its attempts lost only to advisors. */
  predicate AdvisorsCostASave<C, A, I>(s: Sys<C, A>, e: Event<I, A>) {
    || (s.r.Retrying? && s.r.overtaken && e.GetFails?)
    || (s.r.Updating? && s.r.overtaken && e == Update(false))
    || (s.r.Updating? && e == Update(true) && s.r.seen != Some(|s.versions| - 1) && s.r.tries + 1 >= ATTEMPTS
        && (s.r.overtaken || OvertakenNow(s)))
  }

  predicate Overtaken<C, A>(s: Sys<C, A>) {
    !s.r.Resting? && s.r.overtaken
  }

  /** `e` is the run without advisors. Either both reconcilers are at the same point, or the one with
      advisors is still retrying a save that the other has already made. */
  predicate Mirrors<C(==), A>(o: Sys<C, A>, e: Sys<C, A>) {
    && Started(o) && Started(e)
    && if Overtaken(o) then
         e.r.Resting? && Current(e).core == o.r.core && e.log == o.log + [o.r.core]
       else
         && Current(o).core == Current(e).core && o.log == e.log
         && match o.r {
              case Resting => e.r.Resting?
              case Retrying(core, _, tries, _) => e.r.Retrying? && e.r.core == core && e.r.tries == tries && !e.r.overtaken
              case Updating(core, _, tries, _, seen) =>
                && e.r.Updating? && e.r.core == core && e.r.tries == tries && !e.r.overtaken
                && seen.Some? == e.r.seen.Some?
                && (seen.Some? ==> seen.value < |o.versions| && e.r.seen.value < |e.versions|
                                   && (OnlyAdvisorsSince(o, seen.value) <==> e.r.seen.value == |e.versions| - 1)
                                   && (forall i | e.r.seen.value < i < |e.versions| :: e.versions[i].writer != Advisor))
            }
  }

  lemma AdvisorStepMirrors<C, A, I>(f: (C, I) -> Option<C>, o: Sys<C, A>, e: Sys<C, A>, ev: Event<I, A>)
    requires Mirrors(o, e) && OfAdvisor(ev)
    ensures Mirrors(Step(f, o, ev), e)
  {
    var o' := Step(f, o, ev);
    assert o'.r == o.r && o'.log == o.log && Current(o').core == Current(o).core;
    assert o'.versions == o.versions || (|o'.versions| == |o.versions| + 1 && o.versions == o'.versions[..|o.versions|]
                                         && Current(o').writer == Advisor);
    assert forall v: nat :: v < |o.versions| ==> (OnlyAdvisorsSince(o', v) <==> OnlyAdvisorsSince(o, v));
  }

  lemma OtherStepMirrors<C, A, I>(f: (C, I) -> Option<C>, o: Sys<C, A>, e: Sys<C, A>, ev: Event<I, A>)
    requires Mirrors(o, e) && !OfAdvisor(ev) && !AdvisorsCostASave(o, ev)
    requires ev.Begin? ==> o.r.Resting?
    ensures Mirrors(Step(f, o, ev), Step(f, e, ev))
  {
  }

  /** The workqueue starts a reconcile of the node only when the previous one is over. */
  ghost predicate Serialized<C, A, I>(f: (C, I) -> Option<C>, s: Sys<C, A>, es: seq<Event<I, A>>)
    requires Started(s)
  {
    forall n | 0 <= n < |es| && es[n].Begin? :: Run(f, s, es[..n]).r.Resting?
  }

  /** No reconcile of the run goes unsaved on account of the advisors. */
  ghost predicate NoSaveLost<C, A, I>(f: (C, I) -> Option<C>, s: Sys<C, A>, es: seq<Event<I, A>>)
    requires Started(s)
  {
    forall n | 0 <= n < |es| :: !AdvisorsCostASave(Run(f, s, es[..n]), es[n])
  }

  lemma PrefixesAgree<C, A, I>(f: (C, I) -> Option<C>, s: Sys<C, A>, es: seq<Event<I, A>>, n: nat)
    requires Started(s) && n <= |es|
    requires Serialized(f, s, es)
    ensures Serialized(f, s, es[..n])
    ensures NoSaveLost(f, s, es) ==> NoSaveLost(f, s, es[..n])
  {
    hide Run;
    forall m | 0 <= m < n
      ensures es[..n][m].Begin? ==> Run(f, s, es[..n][..m]).r.Resting?
      ensures NoSaveLost(f, s, es) ==> !AdvisorsCostASave(Run(f, s, es[..n][..m]), es[..n][m])
    {
      assert es[..n][..m] == es[..m] && es[..n][m] == es[m];
    }
  }

  /** Noninterference: with or without the advisors' events, reconciles save the same sequence of
      phases, restart counts and other fields, the run with advisors being at most one save behind. */
  lemma {:induction false} AdvisorsDoNotInterfere<C, A, I>(f: (C, I) -> Option<C>, s: Sys<C, A>, es: seq<Event<I, A>>)
    requires Started(s) && s.r.Resting? && Serialized(f, s, es) && NoSaveLost(f, s, es)
    ensures Mirrors(Run(f, s, es), Run(f, s, Erase(es)))
    ensures var o := Run(f, s, es);
      Run(f, s, Erase(es)).log == if Overtaken(o) then o.log + [o.r.core] else o.log
  {
    MirroredLogs(Run(f, s, es), Run(f, s, Erase(es)));
    hide Mirrors, Step;
    if es == [] {
      SelfMirror(s);
    } else {
      var n := |es| - 1;
      var o, e, ev := Run(f, s, es[..n]), Run(f, s, Erase(es[..n])), es[n];
      PrefixesAgree(f, s, es, n);
      AdvisorsDoNotInterfere(f, s, es[..n]);
      if OfAdvisor(ev) {
        AdvisorStepMirrors(f, o, e, ev);
        assert Erase(es) == Erase(es[..n]);
      } else {
        OtherStepMirrors(f, o, e, ev);
        assert Erase(es)[..|Erase(es)| - 1] == Erase(es[..n]);
      }
    }
  }

  lemma MirroredLogs<C, A>(o: Sys<C, A>, e: Sys<C, A>)
    ensures Mirrors(o, e) ==> e.log == if Overtaken(o) then o.log + [o.r.core] else o.log
  {
  }

  lemma SelfMirror<C, A>(s: Sys<C, A>)
    requires Started(s) && s.r.Resting?
    ensures Mirrors(s, s)
  {
  }

  /** The logs agree at every point of the run at which the reconciler is not catching up. */
  ghost predicate SameSaves<C(!new), A(!new), I(!new)>(f: (C, I) -> Option<C>, s: Sys<C, A>, es: seq<Event<I, A>>)
    requires Started(s)
  {
    forall n | 0 <= n <= |es| && !Overtaken(Run(f, s, es[..n])) ::
      Run(f, s, es[..n]).log == Run(f, s, Erase(es[..n])).log
  }

  /** Exactly when erasing the advisors changes nothing: iff no reconcile gives up after an attempt
      that lost only to advisors. */
  lemma SameSavesIff<C(!new), A(!new), I(!new)>(f: (C, I) -> Option<C>, s: Sys<C, A>, es: seq<Event<I, A>>)
    requires Started(s) && s.r.Resting? && Serialized(f, s, es)
    ensures SameSaves(f, s, es) <==> NoSaveLost(f, s, es)
  {
    if NoSaveLost(f, s, es) {
      forall n | 0 <= n <= |es| && !Overtaken(Run(f, s, es[..n]))
        ensures Run(f, s, es[..n]).log == Run(f, s, Erase(es[..n])).log
      {
        PrefixesAgree(f, s, es, n);
        AdvisorsDoNotInterfere(f, s, es[..n]);
      }
    } else {
      var n := FirstLoss(f, s, es);
      PrefixesAgree(f, s, es, n);
      AdvisorsDoNotInterfere(f, s, es[..n]);
      LossSplitsLogs(f, s, es, n);
    }
  }

  lemma {:induction false} FirstLoss<C, A, I>(f: (C, I) -> Option<C>, s: Sys<C, A>, es: seq<Event<I, A>>) returns (n: nat)
    requires Started(s) && Serialized(f, s, es) && !NoSaveLost(f, s, es)
    ensures n < |es| && NoSaveLost(f, s, es[..n]) && AdvisorsCostASave(Run(f, s, es[..n]), es[n])
  {
    hide Run;
    n :| 0 <= n < |es| && AdvisorsCostASave(Run(f, s, es[..n]), es[n]);
    if !NoSaveLost(f, s, es[..n]) {
      PrefixesAgree(f, s, es, n);
      var m := FirstLoss(f, s, es[..n]);
      assert es[..n][..m] == es[..m] && es[..n][m] == es[m];
      n := m;
    }
  }

  lemma LossSplitsLogs<C, A, I>(f: (C, I) -> Option<C>, s: Sys<C, A>, es: seq<Event<I, A>>, n: nat)
    requires Started(s) && n < |es| && AdvisorsCostASave(Run(f, s, es[..n]), es[n])
    requires Mirrors(Run(f, s, es[..n]), Run(f, s, Erase(es[..n])))
    ensures !Overtaken(Run(f, s, es[..n + 1]))
    ensures Run(f, s, es[..n + 1]).log != Run(f, s, Erase(es[..n + 1])).log
  {
    hide Run, Step, Mirrors, AdvisorsCostASave;
    LossStep(f, Run(f, s, es[..n]), Run(f, s, Erase(es[..n])), es[n]);
    RunSnoc(f, s, es, n);
  }

  lemma LossStep<C, A, I>(f: (C, I) -> Option<C>, o: Sys<C, A>, e: Sys<C, A>, ev: Event<I, A>)
    requires Mirrors(o, e) && AdvisorsCostASave(o, ev)
    ensures !OfAdvisor(ev) && !Overtaken(Step(f, o, ev))
    ensures |Step(f, e, ev).log| == |Step(f, o, ev).log| + 1
  {
  }

  lemma RunSnoc<C, A, I>(f: (C, I) -> Option<C>, s: Sys<C, A>, es: seq<Event<I, A>>, n: nat)
    requires Started(s) && n < |es|
    ensures Run(f, s, es[..n + 1]) == Step(f, Run(f, s, es[..n]), es[n])
    ensures !OfAdvisor(es[n]) ==> Run(f, s, Erase(es[..n + 1])) == Step(f, Run(f, s, Erase(es[..n])), es[n])
  {
    assert es[..n + 1][..n] == es[..n];
    if !OfAdvisor(es[n]) {
      assert Erase(es[..n + 1]) == Erase(es[..n]) + [es[n]];
      assert Erase(es[..n + 1])[..|Erase(es[..n])|] == Erase(es[..n]);
    }
  }

  lemma RunAppend<C, A, I>(f: (C, I) -> Option<C>, s: Sys<C, A>, es: seq<Event<I, A>>, e: Event<I, A>)
    requires Started(s)
    ensures Run(f, s, es + [e]) == Step(f, Run(f, s, es), e)
  {
    assert (es + [e])[..|es|] == es;
  }

  /** Each attempt is overtaken by one advisory write, k times over; `v` is the version to begin with. */
  function OvertakenRun<I, A>(input: I, report: A, v: nat, k: nat): seq<Event<I, A>> {
    if k == 0 then [Begin(input)]
    else OvertakenRun(input, report, v, k - 1)
         + [Get(true)] + [Advise(0, report)] + [AdvisorGet(0, v + k - 1)] + [AdvisorUpdate(0)] + [Update(true)]
  }

  lemma AfterBegin<C, A, I>(f: (C, I) -> Option<C>, s: Sys<C, A>, input: I)
    requires Started(s) && s.r.Resting? && f(Current(s).core, input).Some?
    ensures Run(f, s, [Event<I, A>.Begin(input)])
         == s.(r := Retrying(f(Current(s).core, input).value, Current(s).ai, 0, false))
  {
    RunAppend(f, s, [], Begin(input));
    assert [] + [Event<I, A>.Begin(input)] == [Begin(input)];
  }

  lemma {:induction false} OvertakenState<C, A, I>(f: (C, I) -> Option<C>, s: Sys<C, A>, input: I, report: A, k: nat)
    requires Started(s) && s.r.Resting? && s.advisors == map[] && k < ATTEMPTS && f(Current(s).core, input).Some?
    ensures var s' := Run(f, s, OvertakenRun(input, report, |s.versions| - 1, k));
      && s'.r == Retrying(f(Current(s).core, input).value, Current(s).ai, k, k > 0)
      && s'.advisors == map[] && |s'.versions| == |s.versions| + k && s'.log == s.log
  {
    hide Step, Run;
    if k == 0 {
      AfterBegin(f, s, input);
    } else {
      OvertakenState(f, s, input, report, k - 1);
      OvertakenRound(f, s, OvertakenRun(input, report, |s.versions| - 1, k - 1), report, |s.versions| + k - 2);
    }
  }

  lemma OvertakenRound<C, A, I>(f: (C, I) -> Option<C>, s: Sys<C, A>, es: seq<Event<I, A>>, report: A, k: nat)
    requires Started(s) && Run(f, s, es).r.Retrying? && Run(f, s, es).advisors == map[]
    requires |Run(f, s, es).versions| == k + 1
    ensures var o := Run(f, s, es);
      var es' := es + [Get(true)] + [Advise(0, report)] + [AdvisorGet(0, k)] + [AdvisorUpdate(0)];
      && Run(f, s, es' + [Update(true)]).r == (if o.r.tries + 1 >= ATTEMPTS then Resting
                                                else Retrying(o.r.core, o.r.ai, o.r.tries + 1, true))
      && Run(f, s, es' + [Update(true)]).advisors == map[] && |Run(f, s, es' + [Update(true)]).versions| == k + 2
      && Run(f, s, es' + [Update(true)]).log == o.log
      && (o.r.tries + 1 >= ATTEMPTS ==> AdvisorsCostASave(Run(f, s, es'), Event<I, A>.Update(true)))
  {
    hide Run;
    var e1 := es + [Get(true)];
    var e2 := e1 + [Advise(0, report)];
    var e3 := e2 + [AdvisorGet(0, k)];
    var e4 := e3 + [AdvisorUpdate(0)];
    RunAppend(f, s, es, Get(true));
    RunAppend(f, s, e1, Advise(0, report));
    RunAppend(f, s, e2, AdvisorGet(0, k));
    RunAppend(f, s, e3, AdvisorUpdate(0));
    RunAppend(f, s, e4, Update(true));
  }

  /** The loss does happen: five advisory writes, each landing between a Get and its Update, make the
      reconciler give up, and the status it computed is never saved. */
  lemma FiveAdvisoriesCostASave<C, A, I>(f: (C, I) -> Option<C>, s: Sys<C, A>, input: I, report: A)
    requires Started(s) && s.r.Resting? && s.advisors == map[] && f(Current(s).core, input).Some?
    ensures var es := OvertakenRun(input, report, |s.versions| - 1, 5);
      !NoSaveLost(f, s, es) && Run(f, s, es).r.Resting? && Run(f, s, es).log == s.log
  {
    var v := |s.versions| - 1;
    var es, before := OvertakenRun(input, report, v, 5), OvertakenRun(input, report, v, 4);
    OvertakenState(f, s, input, report, 4);
    OvertakenRound(f, s, before, report, v + 4);
    hide Run;
    var n := |es| - 1;
    assert es[..n] == before + [Get(true)] + [Advise(0, report)] + [AdvisorGet(0, v + 4)] + [AdvisorUpdate(0)];
    assert es[n] == Update(true) && AdvisorsCostASave(Run(f, s, es[..n]), es[n]);
  }

  /** The other direction is not protected: a report saved while a reconcile is under way is replaced
      by the advisory that the reconcile read at its start. */
  lemma ReportOverwritten<C, A, I>(f: (C, I) -> Option<C>, s: Sys<C, A>, input: I, report: A)
    requires Started(s) && s.r.Resting? && s.advisors == map[] && f(Current(s).core, input).Some?
    ensures var mid := [Begin(input)] + [Advise(0, report)] + [AdvisorGet(0, |s.versions| - 1)] + [AdvisorUpdate(0)];
      && Current(Run(f, s, mid)).ai == report
      && Current(Run(f, s, mid + [Get(true)] + [Update(true)])).ai == Current(s).ai
  {
    var e1 := [Begin(input)];
    var e2 := e1 + [Advise(0, report)];
    var e3 := e2 + [AdvisorGet(0, |s.versions| - 1)];
    var e4 := e3 + [AdvisorUpdate(0)];
    var e5 := e4 + [Get(true)];
    hide Run;
    AfterBegin(f, s, input);
    RunAppend(f, s, e1, Advise(0, report));
    RunAppend(f, s, e2, AdvisorGet(0, |s.versions| - 1));
    RunAppend(f, s, e3, AdvisorUpdate(0));
    var s4 := Run(f, s, e4);
    assert s4.r == Retrying(f(Current(s).core, input).value, Current(s).ai, 0, false) && Current(s4).ai == report;
    RunAppend(f, s, e4, Get(true));
    RunAppend(f, s, e5, Update(true));
  }

  // -- Which report a save leaves behind, over every run

  function At<C, A, I>(f: (C, I) -> Option<C>, s: Sys<C, A>, es: seq<Event<I, A>>, n: nat): (s': Sys<C, A>)
    requires Started(s) && n <= |es|
    ensures Started(s')
  {
    Run(f, s, es[..n])
  }

  /** The update that the reconciler sends is accepted. */
  predicate Accepted<C, A, I(==)>(s: Sys<C, A>, e: Event<I, A>) {
    e == Update(true) && s.r.Updating? && s.r.seen == Some(|s.versions| - 1)
  }

  predicate AdvisoryAccepted<C, A, I>(s: Sys<C, A>, e: Event<I, A>) {
    e.AdvisorUpdate? && e.w in s.advisors && s.advisors[e.w].Storing? && s.advisors[e.w].seen == |s.versions| - 1
  }

  predicate BeginsSave<C, A, I>(f: (C, I) -> Option<C>, s: Sys<C, A>, e: Event<I, A>)
    requires Started(s)
  {
    e.Begin? && s.r.Resting? && f(Current(s).core, e.input).Some?
  }

  /** One reconcile from its Begin at b up to n. */
  ghost predicate SameReconcile<C, A, I>(f: (C, I) -> Option<C>, s: Sys<C, A>, es: seq<Event<I, A>>, b: nat, n: nat)
    requires Started(s) && n <= |es|
  {
    b < n && BeginsSave(f, At(f, s, es, b), es[b]) && forall k | b < k <= n :: !At(f, s, es, k).r.Resting?
  }

  /** What a step does to a reconcile under way and to the stored report. */
  lemma CarryStep<C, A, I>(f: (C, I) -> Option<C>, s: Sys<C, A>, e: Event<I, A>)
    requires Started(s) && !Step(f, s, e).r.Resting?
    ensures var s' := Step(f, s, e);
      && (s.r.Resting? ==> BeginsSave(f, s, e))
      && (BeginsSave(f, s, e) ==> s'.r.core == f(Current(s).core, e.input).value && s'.r.ai == Current(s).ai)
      && (!s.r.Resting? ==> s'.r.core == s.r.core && s'.r.ai == s.r.ai)
      && Current(s').ai == if AdvisoryAccepted(s, e) then s.advisors[e.w].report else Current(s).ai
  {
  }

  lemma {:induction false} FindBegin<C, A, I>(f: (C, I) -> Option<C>, s: Sys<C, A>, es: seq<Event<I, A>>, n: nat) returns (b: nat)
    requires Started(s) && s.r.Resting? && n <= |es| && !At(f, s, es, n).r.Resting?
    ensures SameReconcile(f, s, es, b, n)
  {
    hide Step, BeginsSave, Run;
    if n == 0 {
      RunNothing(f, s, es);
    } else {
      RunSnoc(f, s, es, n - 1);
      CarryStep(f, At(f, s, es, n - 1), es[n - 1]);
      if At(f, s, es, n - 1).r.Resting? {
        b := n - 1;
      } else {
        b := FindBegin(f, s, es, n - 1);
      }
    }
  }

  lemma RunNothing<C, A, I>(f: (C, I) -> Option<C>, s: Sys<C, A>, es: seq<Event<I, A>>)
    requires Started(s)
    ensures At(f, s, es, 0) == s
  {
  }

  /** k is the last advisory write accepted between b and n. */
  ghost predicate LastAdvisory<C, A, I>(f: (C, I) -> Option<C>, s: Sys<C, A>, es: seq<Event<I, A>>, b: nat, n: nat, k: nat)
    requires Started(s) && n <= |es|
  {
    && b < k < n && AdvisoryAccepted(At(f, s, es, k), es[k])
    && forall j | k < j < n :: !AdvisoryAccepted(At(f, s, es, j), es[j])
  }

  function ReportOf<C, A, I>(s: Sys<C, A>, e: Event<I, A>): A
    requires AdvisoryAccepted(s, e)
  {
    s.advisors[e.w].report
  }

  /** A reconcile carries what it read at its Begin, and the stored report is still that one or the
      last advisory's. */
  lemma {:induction false} CarriesReading<C, A, I>(f: (C, I) -> Option<C>, s: Sys<C, A>, es: seq<Event<I, A>>, b: nat, n: nat)
    requires Started(s) && n <= |es| && SameReconcile(f, s, es, b, n)
    ensures var read, now := At(f, s, es, b), At(f, s, es, n);
      && now.r.core == f(Current(read).core, es[b].input).value && now.r.ai == Current(read).ai
      && (|| (Current(now).ai == Current(read).ai && forall k | b < k < n :: !AdvisoryAccepted(At(f, s, es, k), es[k]))
          || exists k: nat :: LastAdvisory(f, s, es, b, n, k) && Current(now).ai == ReportOf(At(f, s, es, k), es[k]))
  {
    hide Step, AdvisoryAccepted, Run;
    RunSnoc(f, s, es, n - 1);
    var before := At(f, s, es, n - 1);
    assert !At(f, s, es, n).r.Resting?;
    CarryStep(f, before, es[n - 1]);
    if b < n - 1 {
      CarriesReading(f, s, es, b, n - 1);
      if AdvisoryAccepted(before, es[n - 1]) {
        assert LastAdvisory(f, s, es, b, n, n - 1);
      } else if k: nat :| LastAdvisory(f, s, es, b, n - 1, k) && Current(before).ai == ReportOf(At(f, s, es, k), es[k]) {
        assert LastAdvisory(f, s, es, b, n, k);
      }
    } else {
      BeginIsNoAdvisory(before, es[n - 1]);
    }
  }

  lemma BeginIsNoAdvisory<C, A, I>(s: Sys<C, A>, e: Event<I, A>)
    requires e.Begin?
    ensures !AdvisoryAccepted(s, e)
  {
  }

  /** Which report survives a save, over every run: an accepted update saves the status computed from,
      and the report read at, the Begin of its reconcile; and it replaces a different report iff the
      last advisory write accepted since that Begin carried another report. */
  lemma ReportReplacedIff<C, A, I>(f: (C, I) -> Option<C>, s: Sys<C, A>, es: seq<Event<I, A>>, n: nat) returns (b: nat)
    requires Started(s) && s.r.Resting? && n < |es| && Accepted(At(f, s, es, n), es[n])
    ensures SameReconcile(f, s, es, b, n)
    ensures var read := Current(At(f, s, es, b));
      && Current(At(f, s, es, n + 1)) == Version(f(read.core, es[b].input).value, read.ai, Reconciler)
      && (Current(At(f, s, es, n + 1)).ai != Current(At(f, s, es, n)).ai
          <==> exists k: nat :: LastAdvisory(f, s, es, b, n, k) && ReportOf(At(f, s, es, k), es[k]) != read.ai)
  {
    hide Run, AdvisoryAccepted;
    b := FindBegin(f, s, es, n);
    CarriesReading(f, s, es, b, n);
    RunSnoc(f, s, es, n);
  }

  // -- The retry loop as part of a run

  /** Events of other writers than the reconciler. */
  predicate Background<I, A>(es: seq<Event<I, A>>) {
    forall i | 0 <= i < |es| :: OfAdvisor(es[i]) || es[i].Edit?
  }

  /** An attempt as the events that make it up, with those of the other writers between its calls. */
  datatype Try<I, A> = ReadFails | Try(upToDate: bool, between: seq<Event<I, A>>, ok: bool)

  function TryEvents<I, A>(t: Try<I, A>): seq<Event<I, A>> {
    if t.ReadFails? then [GetFails] else [Get(t.upToDate)] + t.between + [Update(t.ok)]
  }

  function AttemptOf<C, A, I>(f: (C, I) -> Option<C>, s: Sys<C, A>, t: Try<I, A>): Attempt<C, A>
    requires Started(s)
  {
    if t.ReadFails? then GetError
    else
      var vs := Run(f, s, [Get(t.upToDate)] + t.between).versions;
      var rivals := if |s.versions| <= |vs| then vs[|s.versions|..] else [];
      if t.ok then Sent(!t.upToDate, rivals) else UpdateError(rivals)
  }

  /** The events of a retry loop that starts in `s`; it stops as soon as the reconciler rests. */
  function LoopEvents<C, A, I>(f: (C, I) -> Option<C>, s: Sys<C, A>, ts: seq<Try<I, A>>): seq<Event<I, A>>
    requires Started(s)
    decreases |ts|
  {
    if ts == [] || !s.r.Retrying? then []
    else TryEvents(ts[0]) + LoopEvents(f, Run(f, s, TryEvents(ts[0])), ts[1..])
  }

  function LoopAttempts<C, A, I>(f: (C, I) -> Option<C>, s: Sys<C, A>, ts: seq<Try<I, A>>): (r: seq<Attempt<C, A>>)
    requires Started(s)
    ensures |r| == |ts|
    decreases |ts|
  {
    if ts == [] then []
    else [AttemptOf(f, s, ts[0])] + LoopAttempts(f, Run(f, s, TryEvents(ts[0])), ts[1..])
  }

  lemma {:induction false} RunConcat<C, A, I>(f: (C, I) -> Option<C>, s: Sys<C, A>, es: seq<Event<I, A>>, es': seq<Event<I, A>>)
    requires Started(s)
    ensures Run(f, s, es + es') == Run(f, Run(f, s, es), es')
  {
    hide Step;
    if es' == [] {
      assert es + es' == es;
    } else {
      var n := |es'| - 1;
      RunConcat(f, s, es, es'[..n]);
      assert (es + es')[..|es| + n] == es + es'[..n];
    }
  }

  /** Other writers leave the reconciler alone and only add versions. */
  lemma {:induction false} BackgroundOnlyAdds<C, A, I>(f: (C, I) -> Option<C>, s: Sys<C, A>, es: seq<Event<I, A>>)
    requires Started(s) && Background(es)
    ensures Run(f, s, es).r == s.r && Run(f, s, es).log == s.log && s.versions <= Run(f, s, es).versions
  {
    hide Step;
    if es != [] {
      var n := |es| - 1;
      BackgroundOnlyAdds(f, s, es[..n]);
      BackgroundStep(f, Run(f, s, es[..n]), es[n]);
    }
  }

  lemma BackgroundStep<C, A, I>(f: (C, I) -> Option<C>, s: Sys<C, A>, e: Event<I, A>)
    requires Started(s) && (OfAdvisor(e) || e.Edit?)
    ensures Step(f, s, e).r == s.r && Step(f, s, e).log == s.log && s.versions <= Step(f, s, e).versions
  {
  }

  /** One attempt: what its events do is what the retry loop makes of its outcome. */
  lemma TryIsAttempt<C, A, I>(f: (C, I) -> Option<C>, s: Sys<C, A>, t: Try<I, A>)
    requires Started(s) && s.r.Retrying? && (t.Try? ==> Background(t.between))
    ensures var s', a := Run(f, s, TryEvents(t)), AttemptOf(f, s, t);
      && s'.log == s.log + (if Clean(a) then [s.r.core] else [])
      && s'.versions == s.versions + (if a.GetError? then [] else a.rivals)
                        + (if Clean(a) then [Version(s.r.core, s.r.ai, Reconciler)] else [])
      && if Conflicts(a) && s.r.tries + 1 < ATTEMPTS then
           s'.r.Retrying? && s'.r.core == s.r.core && s'.r.ai == s.r.ai && s'.r.tries == s.r.tries + 1
         else s'.r.Resting?
  {
    hide Run;
    RunEmpty(f, s);
    if t.ReadFails? {
      RunAppend(f, s, [], GetFails);
      assert [] + [Event<I, A>.GetFails] == TryEvents(t);
    } else {
      var get := [Event<I, A>.Get(t.upToDate)];
      RunAppend(f, s, [], Get(t.upToDate));
      assert [] + get == get;
      RunConcat(f, s, get, t.between);
      BackgroundOnlyAdds(f, Run(f, s, get), t.between);
      RunAppend(f, s, get + t.between, Update(t.ok));
      var vs := Run(f, s, get + t.between).versions;
      assert s.versions + vs[|s.versions|..] == vs;
    }
  }

  lemma RunEmpty<C, A, I>(f: (C, I) -> Option<C>, s: Sys<C, A>)
    requires Started(s)
    ensures Run(f, s, []) == s
  {
  }

  /** The loop as a method and as events of a run come to the same: the same versions, and an entry in
      the log iff the status is saved. */
  lemma {:induction false} LoopIsRun<C, A, I>(f: (C, I) -> Option<C>, s: Sys<C, A>, ts: seq<Try<I, A>>)
    requires Started(s) && s.r.Retrying? && s.r.tries + |ts| == ATTEMPTS && ts != []
    requires forall i | 0 <= i < |ts| && ts[i].Try? :: Background(ts[i].between)
    ensures var s', p := Run(f, s, LoopEvents(f, s, ts)), AfterAttempts(s.versions, s.r.core, s.r.ai, LoopAttempts(f, s, ts));
      && s'.r.Resting? && s'.versions == p.versions
      && s'.log == s.log + (if p.saved then [s.r.core] else [])
    decreases |ts|
  {
    hide Run, AttemptOf, TryEvents, Background;
    var s1, rest := Run(f, s, TryEvents(ts[0])), ts[1..];
    TryIsAttempt(f, s, ts[0]);
    RunConcat(f, s, TryEvents(ts[0]), LoopEvents(f, s1, rest));
    var a, more := AttemptOf(f, s, ts[0]), LoopAttempts(f, s1, rest);
    assert LoopAttempts(f, s, ts)[0] == a && LoopAttempts(f, s, ts)[1..] == more;
    RunEmpty(f, s1);
    assert s.versions + [] == s.versions && s.log + [] == s.log;
    assert Conflicts(a) ==> s1.versions == s.versions + a.rivals;
    if s1.r.Retrying? {
      LoopIsRun(f, s1, rest);
    } else if Conflicts(a) {
      assert rest == [] && more == [];
    }
  }

  // -- The advisory's own retries

  /** One attempt of advisor w: it reads a version, others act, and its update reaches the server. */
  datatype Round<I, A> = Round(version: nat, between: seq<Event<I, A>>)

  function RoundEvents<I, A>(w: nat, r: Round<I, A>): seq<Event<I, A>> {
    [AdvisorGet(w, r.version)] + r.between + [AdvisorUpdate(w)]
  }

  function AllRounds<I, A>(w: nat, rs: seq<Round<I, A>>): seq<Event<I, A>> {
    if rs == [] then [] else AllRounds(w, rs[..|rs| - 1]) + RoundEvents(w, rs[|rs| - 1])
  }

  /** The events are none of advisor w's. */
  predicate NotOf<I, A>(w: nat, es: seq<Event<I, A>>) {
    forall i | 0 <= i < |es| :: OfAdvisor(es[i]) ==> es[i].w != w
  }

  /** The state when the update of the round is about to reach the server. */
  function BeforeUpdate<C, A, I>(f: (C, I) -> Option<C>, s: Sys<C, A>, w: nat, r: Round<I, A>): (s': Sys<C, A>)
    requires Started(s)
    ensures Started(s')
  {
    Run(f, s, [AdvisorGet(w, r.version)] + r.between)
  }

  /** Somebody wrote a version after the one that the round read. */
  predicate RoundLoses<C, A, I>(f: (C, I) -> Option<C>, s: Sys<C, A>, w: nat, r: Round<I, A>)
    requires Started(s)
  {
    r.version + 1 < |BeforeUpdate(f, s, w, r).versions|
  }

  lemma {:induction false} OthersLeaveAdvisor<C, A, I>(f: (C, I) -> Option<C>, s: Sys<C, A>, w: nat, es: seq<Event<I, A>>)
    requires Started(s) && NotOf(w, es) && w in s.advisors
    ensures var s' := Run(f, s, es); w in s'.advisors && s'.advisors[w] == s.advisors[w] && |s.versions| <= |s'.versions|
  {
    if es != [] {
      OthersLeaveAdvisor(f, s, w, es[..|es| - 1]);
    }
  }

  lemma AdvisorySteps<C, A, I>(f: (C, I) -> Option<C>, s: Sys<C, A>, w: nat, v: nat)
    requires Started(s) && w in s.advisors
    ensures s.advisors[w].Advising? && v < |s.versions| ==>
      Step(f, s, AdvisorGet(w, v)) == s.(advisors := s.advisors[w := Storing(s.advisors[w].report, s.advisors[w].tries, v)])
    ensures s.advisors[w] == Storing(s.advisors[w].report, s.advisors[w].tries, v) && v < |s.versions| ==>
      var s', a := Step(f, s, AdvisorUpdate(w)), s.advisors[w];
      if v + 1 == |s.versions| then
        w !in s'.advisors && s'.versions == s.versions + [Version(Current(s).core, a.report, Advisor)]
      else
        && s'.versions == s.versions
        && if a.tries + 1 < 5 then w in s'.advisors && s'.advisors[w] == Advising(a.report, a.tries + 1) else w !in s'.advisors
  {
  }

  /** One round: the report is stored, over the other fields as they are then, iff nobody wrote since the
      version that was read; otherwise the advisor tries again, five times in all. */
  lemma AdvisoryRound<C, A, I>(f: (C, I) -> Option<C>, s: Sys<C, A>, w: nat, r: Round<I, A>)
    requires Started(s) && w in s.advisors && s.advisors[w].Advising? && r.version < |s.versions| && NotOf(w, r.between)
    ensures var t, s' := BeforeUpdate(f, s, w, r), Run(f, s, RoundEvents(w, r));
      var report, tries := s.advisors[w].report, s.advisors[w].tries;
      if RoundLoses(f, s, w, r) then
        && s'.versions == t.versions
        && if tries + 1 < 5 then w in s'.advisors && s'.advisors[w] == Advising(report, tries + 1) else w !in s'.advisors
      else w !in s'.advisors && s'.versions == t.versions + [Version(Current(t).core, report, Advisor)]
  {
    hide Run, Step, NotOf;
    var get := [Event<I, A>.AdvisorGet(w, r.version)];
    AdvisorySteps(f, s, w, r.version);
    RunEmpty(f, s);
    RunAppend(f, s, [], AdvisorGet(w, r.version));
    assert [] + get == get;
    RunConcat(f, s, get, r.between);
    OthersLeaveAdvisor(f, Run(f, s, get), w, r.between);
    RunAppend(f, s, get + r.between, AdvisorUpdate(w));
    AdvisorySteps(f, BeforeUpdate(f, s, w, r), w, r.version);
  }

  /** Every round reads a version that exists, has no event of w of its own, and loses. */
  ghost predicate AllLose<C, A, I>(f: (C, I) -> Option<C>, s: Sys<C, A>, w: nat, rs: seq<Round<I, A>>)
    requires Started(s)
  {
    forall i | 0 <= i < |rs| ::
      var s1 := Run(f, s, AllRounds(w, rs[..i]));
      rs[i].version < |s1.versions| && NotOf(w, rs[i].between) && RoundLoses(f, s1, w, rs[i])
  }

  lemma {:induction false} LosingRounds<C, A, I>(f: (C, I) -> Option<C>, s: Sys<C, A>, w: nat, report: A, rs: seq<Round<I, A>>)
    requires Started(s) && w in s.advisors && s.advisors[w] == Advising(report, 0) && |rs| <= 5 && AllLose(f, s, w, rs)
    ensures var s' := Run(f, s, AllRounds(w, rs));
      if |rs| < 5 then w in s'.advisors && s'.advisors[w] == Advising(report, |rs|) else w !in s'.advisors
  {
    hide Run, RoundLoses, NotOf, Step;
    if rs == [] {
      RunEmpty(f, s);
    } else {
      var n := |rs| - 1;
      forall i | 0 <= i < n ensures rs[..n][..i] == rs[..i] && rs[..n][i] == rs[i] {
      }
      LosingRounds(f, s, w, report, rs[..n]);
      var s1 := Run(f, s, AllRounds(w, rs[..n]));
      RunConcat(f, s, AllRounds(w, rs[..n]), RoundEvents(w, rs[n]));
      AdvisoryRound(f, s1, w, rs[n]);
    }
  }

  /** Over every run: a report whose first rounds all lose, at most four of them, is stored by the next
      round iff that one does not lose; after five losing rounds the advisor gives up. */
  lemma AdvisoryStoredIff<C, A, I>(f: (C, I) -> Option<C>, s: Sys<C, A>, w: nat, report: A, rs: seq<Round<I, A>>, r: Round<I, A>)
    requires Started(s) && w in s.advisors && s.advisors[w] == Advising(report, 0) && |rs| < 5 && AllLose(f, s, w, rs)
    requires r.version < |Run(f, s, AllRounds(w, rs)).versions| && NotOf(w, r.between)
    ensures var s1 := Run(f, s, AllRounds(w, rs));
      var t, s' := BeforeUpdate(f, s1, w, r), Run(f, s, AllRounds(w, rs) + RoundEvents(w, r));
      && s'.versions == t.versions + (if RoundLoses(f, s1, w, r) then [] else [Version(Current(t).core, report, Advisor)])
      && (w in s'.advisors <==> RoundLoses(f, s1, w, r) && |rs| < 4)
  {
    hide Run, RoundLoses, NotOf, Step;
    LosingRounds(f, s, w, report, rs);
    var s1 := Run(f, s, AllRounds(w, rs));
    RunConcat(f, s, AllRounds(w, rs), RoundEvents(w, r));
    AdvisoryRound(f, s1, w, r);
  }
}
