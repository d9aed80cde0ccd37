/** The network phase of base repair: `ensureBasePlan`, its two phases and their fan-out, over every order of replies,
    failures and cancellation. */
module RepairPlan {
  import opened Basics
  import opened Pages
  import opened Contract
  import opened Hub
  import opened Repair

  /** The answer to one page read: a body and its sha, or an error code. */
  datatype Reply = Reply(body: Bytes, sha: Sha, error: Option<Code>)

  /** What the server would answer: to ReadPage, to ReadPageAt at the page's page_shas value, and to PullPages. */
  datatype Answers = Answers(read: Path -> Reply, readAt: Path -> Reply,
                             pulled: map<Path, (Bytes, Sha)>, pullError: Option<Code>)

  function SetOf(ps: seq<Path>): set<Path> {
    set p | p in ps
  }

  ghost predicate OncePerPage(acts: seq<Action>) {
    forall i, j | 0 <= i < j < |acts| :: acts[i].path != acts[j].path
  }

  function ActedOn(acts: seq<Action>): set<Path> {
    set a | a in acts :: a.path
  }

  /** The action is the decision on something the server answered for its path. */
  ghost predicate Grounded(s: Store, srv: Answers, a: Action) {
    var sha := ShaAt(s.state.shas, a.path);
    || (srv.read(a.path).error.None? && srv.read(a.path).sha == sha
        && a == Decide(s, a.path, srv.read(a.path).body, sha))
    || (a.path in srv.pulled && srv.pulled[a.path].1 == sha && a == Decide(s, a.path, srv.pulled[a.path].0, sha))
    || (srv.readAt(a.path).error.None? && srv.readAt(a.path).sha != NoSha
        && a == Decide(s, a.path, srv.readAt(a.path).body, srv.readAt(a.path).sha))
  }

  /** Every request succeeds. */
  ghost predicate AllAnswer(srv: Answers) {
    && srv.pullError.None?
    && forall p :: srv.read(p).error.None? && srv.readAt(p).error.None? && srv.readAt(p).sha != NoSha
  }

  /** A failure, if there is one, concerns only its path; and what is read at a commit says which. */
  ghost predicate OnlyPathsFail(srv: Answers) {
    && srv.pullError.None?
    && forall p :: (srv.read(p).error.Some? ==> !srv.read(p).error.value.OtherCode?)
                && (srv.readAt(p).error.Some? ==> !srv.readAt(p).error.value.OtherCode?)
                && (srv.readAt(p).error.None? ==> srv.readAt(p).sha != NoSha)
  }

  /** The read of the page itself - at HEAD, or at its commit - failed with that code, or did not say which commit it
      is of. A page that is gone at HEAD is read at its commit instead. */
  ghost predicate OwnFault(srv: Answers, at: bool, p: Path, why: Skip) {
    if !at then why.Failed? && srv.read(p).error == Some(why.code) && why.code != PageNotFound
    else if srv.readAt(p).error.Some? then why == Failed(srv.readAt(p).error.value)
    else why == ServerUnsupported && srv.readAt(p).sha == NoSha
  }

  /** The server would answer for the page at its page_shas value, read by itself or with all the others. */
  ghost predicate AnsweredAtHead(s: Store, srv: Answers, p: Path) {
    var sha := ShaAt(s.state.shas, p);
    srv.read(p).error.None? && srv.read(p).sha == sha && p in srv.pulled && srv.pulled[p].1 == sha
  }

  /** Beyond what was skipped before, only pages whose own read failed are skipped, and those that a failure left
      out - with the reason of that failure. */
  ghost predicate OnlyFaulty(srv: Answers, at: bool, stop: Option<Skip>, before: map<Path, Skip>,
                             now: map<Path, Skip>) {
    && before.Keys <= now.Keys
    && forall p | p in now ::
         if p in before then now[p] == before[p] else OwnFault(srv, at, p, now[p]) || stop == Some(now[p])
  }

  lemma OnlyFaultyTransitive(srv: Answers, at: bool, stop1: Option<Skip>, stop2: Option<Skip>, a: map<Path, Skip>,
                             b: map<Path, Skip>, c: map<Path, Skip>)
    requires OnlyFaulty(srv, at, stop1, a, b) && OnlyFaulty(srv, at, stop2, b, c) && (stop1.None? || stop1 == stop2)
    ensures OnlyFaulty(srv, at, stop2, a, c)
  {
    hide OwnFault;
  }

  /** A failure that is not only its path's. */
  predicate Hard(why: Skip) {
    why.Failed? ==> why.code.OtherCode?
  }

  class Planner {
    const s: Store
    const srv: Answers
    const conc: nat
    const cancellable: bool

    var done: bool
    var actions: seq<Action>
    var skipped: map<Path, Skip>
    var moved: seq<Path>
    var stop: Option<Skip>

    /** Requests started so far, and the most that were ever in flight at once. */
    ghost var readCalls: nat
    ghost var readAtCalls: nat
    ghost var pullCalls: nat
    ghost var peak: nat

    ghost function Settled(): set<Path>
      reads this`actions, this`skipped, this`moved
    {
      ActedOn(actions) + skipped.Keys + SetOf(moved)
    }

    /** Every path is settled at most once: acted on, skipped, or - when it did not answer at its page_shas value -
        moved to the second phase. */
    ghost predicate Valid()
      reads this`actions, this`skipped, this`moved, this`peak
    {
      && OncePerPage(actions)
      && Distinct(moved)
      && ActedOn(actions) !! skipped.Keys && ActedOn(actions) !! SetOf(moved) && skipped.Keys !! SetOf(moved)
      && (forall a | a in actions :: Grounded(s, srv, a))
      && (forall k | 0 <= k < |moved| :: !AnsweredAtHead(s, srv, moved[k]))
      && 1 <= conc <= MAX_CONCURRENCY && peak <= conc
    }

    /** Nothing so far ended the repair, and nothing is going to. */
    ghost predicate Smooth()
      reads this`done, this`stop
    {
      !cancellable && OnlyPathsFail(srv) && !done && stop.None?
    }

    constructor (s: Store, srv: Answers, conc: nat, cancellable: bool)
      ensures Valid() && Settled() == {} && actions == [] && skipped == map[] && moved == []
      ensures this.s == s && this.srv == srv && this.cancellable == cancellable
      ensures !done && stop.None? && readCalls == readAtCalls == pullCalls == 0
      ensures this.conc == if conc < 1 then 1 else if conc < MAX_CONCURRENCY then conc else MAX_CONCURRENCY
    {
      this.s, this.srv, this.cancellable := s, srv, cancellable;
      this.conc := if conc < 1 then 1 else if conc > MAX_CONCURRENCY then MAX_CONCURRENCY else conc;
      done, actions, skipped, moved, stop := false, [], map[], [], None;
      readCalls, readAtCalls, pullCalls, peak := 0, 0, 0, 0;
    }

    /** `ctx.Err()`: the context may end at any moment, and stays ended. */
    method Poll()
      modifies this`done
      ensures (old(done) ==> done) && (!cancellable ==> done == old(done))
    {
      if cancellable && !done {
        done := *;
      }
    }

    method Fail(p: Path, why: Skip)
      requires Valid() && p !in Settled()
      modifies this`skipped, this`stop
      ensures Valid() && skipped == old(skipped)[p := why]
      ensures stop == if old(stop).None? && Hard(why) then Some(why) else old(stop)
    {
      skipped := skipped[p := why];
      if stop.None? && !PathSpecific(why) {
        stop := Some(why);
      }
    }

    method SkipAll(ps: seq<Path>, why: Skip)
      requires Valid() && SetOf(ps) !! Settled()
      modifies this`skipped
      ensures Valid() && skipped.Keys == old(skipped.Keys) + SetOf(ps) && Settled() == old(Settled()) + SetOf(ps)
      ensures ps == [] ==> skipped == old(skipped)
      ensures forall p | p in skipped :: skipped[p] == if p in old(skipped) then old(skipped)[p] else why
    {
      for i := 0 to |ps|
        invariant Valid() && skipped.Keys == old(skipped.Keys) + SetOf(ps[..i])
        invariant i == 0 ==> skipped == old(skipped)
        invariant forall p | p in skipped :: skipped[p] == if p in old(skipped) then old(skipped)[p] else why
      {
        assert ps[..i + 1] == ps[..i] + [ps[i]];
        skipped := skipped[ps[i] := why];
      }
      assert ps[..|ps|] == ps;
    }

    method Act(p: Path, raw: Bytes, at: Sha)
      requires Valid() && p !in Settled() && Grounded(s, srv, Decide(s, p, raw, at))
      modifies this`actions
      ensures Valid() && actions == old(actions) + [Decide(s, p, raw, at)]
    {
      actions := actions + [Decide(s, p, raw, at)];
    }

    /** The reply of a first-phase ReadPage: the page is still at its page_shas sha, or it moved, or the read
        failed. */
    method TakeRead(p: Path)
      requires Valid() && p !in Settled()
      modifies this`actions, this`skipped, this`moved, this`stop
      ensures Valid() && Settled() == old(Settled()) + {p} && old(actions) <= actions
      ensures (old(Smooth()) ==> Smooth()) && OnlyFaulty(srv, false, None, old(skipped), skipped)
      ensures stop == if old(stop).None? && p in skipped && Hard(skipped[p]) then Some(skipped[p]) else old(stop)
      ensures |moved| <= |old(moved)| + 1
    {
      var r := srv.read(p);
      if r.error.None? && r.sha == ShaAt(s.state.shas, p) {
        Act(p, r.body, r.sha);
      } else if r.error.None? || r.error == Some(PageNotFound) {
        moved := moved + [p];
      } else {
        Fail(p, Failed(r.error.value));
      }
    }

    /** The reply of a ReadPageAt at the page's page_shas sha. */
    method TakeReadAt(p: Path)
      requires Valid() && p !in Settled()
      modifies this`actions, this`skipped, this`stop
      ensures Valid() && Settled() == old(Settled()) + {p} && old(actions) <= actions
      ensures (old(Smooth()) ==> Smooth()) && OnlyFaulty(srv, true, None, old(skipped), skipped)
      ensures stop == if old(stop).None? && p in skipped && Hard(skipped[p]) then Some(skipped[p]) else old(stop)
    {
      var r := srv.readAt(p);
      if r.error.Some? {
        Fail(p, Failed(r.error.value));
      } else if r.sha == NoSha {
        Fail(p, ServerUnsupported);
      } else {
        Act(p, r.body, r.sha);
      }
    }

    method SkipWaiting(ps: set<Path>, why: Skip)
      requires Valid() && ps !! Settled()
      modifies this`skipped
      ensures Valid() && Settled() == old(Settled()) + ps
    {
      skipped := skipped + map p | p in ps :: why;
    }

    method Take(p: Path, at: bool)
      requires Valid() && p !in Settled()
      modifies this`actions, this`skipped, this`moved, this`stop
      ensures Valid() && Settled() == old(Settled()) + {p} && old(actions) <= actions
      ensures (old(Smooth()) ==> Smooth()) && OnlyFaulty(srv, at, None, old(skipped), skipped)
      ensures stop == if old(stop).None? && p in skipped && Hard(skipped[p]) then Some(skipped[p]) else old(stop)
      ensures |moved| <= |old(moved)| + 1 && (at ==> moved == old(moved))
    {
      if at {
        TakeReadAt(p);
      } else {
        TakeRead(p);
      }
    }

    /** One more request in flight. */
    method Launch(p: Path, at: bool, waiting: set<Path>) returns (now: set<Path>)
      requires Valid() && p !in waiting && |waiting| < conc
      modifies this`readCalls, this`readAtCalls, this`peak
      ensures Valid() && now == waiting + {p} && |now| == |waiting| + 1 && peak >= |now|
      ensures readCalls + readAtCalls == old(readCalls) + old(readAtCalls) + 1
      ensures if at then readCalls == old(readCalls) else readAtCalls == old(readAtCalls)
    {
      now := waiting + {p};
      if at {
        readAtCalls := readAtCalls + 1;
      } else {
        readCalls := readCalls + 1;
      }
      peak := if |now| > peak then |now| else peak;
    }

    /** Everything that holds between two events of a fan-out. */
    ghost predicate InFlight(start: set<Path>, ps: seq<Path>, next: nat, waiting: set<Path>)
      reads this`actions, this`skipped, this`moved, this`peak
    {
      next <= |ps| && |waiting| <= conc && conc >= 1 && |waiting| <= next && Valid() && Ledger(start, ps, next, waiting)
    }

    /** Launch what fits. */
    method LaunchMore(ghost start: set<Path>, ps: seq<Path>, at: bool, from: nat, before: set<Path>)
      returns (next: nat, waiting: set<Path>)
      requires InFlight(start, ps, from, before)
      modifies this`done, this`readCalls, this`readAtCalls, this`peak
      ensures InFlight(start, ps, next, waiting) && from <= next <= |ps|
      ensures |ps| - next + |waiting| == |ps| - from + |before|
      ensures if at then readCalls == old(readCalls) && readAtCalls == old(readAtCalls) + next - from
              else readAtCalls == old(readAtCalls) && readCalls == old(readCalls) + next - from
      ensures (old(Smooth()) ==> Smooth()) && (!cancellable ==> done == old(done))
      ensures waiting == {} ==> next == |ps| || stop.Some? || done
      ensures old(done) || stop.Some? ==> next == from
    {
      hide Valid, Ledger, Settled, SetOf, ActedOn, OnlyPathsFail, Distinct;
      next, waiting := from, before;
      Poll();
      while next < |ps| && |waiting| < conc && stop.None? && !done
        invariant InFlight(start, ps, next, waiting) && from <= next
        invariant |ps| - next + |waiting| == |ps| - from + |before|
        invariant if at then readCalls == old(readCalls) && readAtCalls == old(readAtCalls) + next - from
                  else readAtCalls == old(readAtCalls) && readCalls == old(readCalls) + next - from
        invariant old(Smooth()) ==> Smooth()
        invariant (old(done) ==> done) && (old(done) || stop.Some? ==> next == from)
        invariant !cancellable ==> done == old(done)
      {
        LaunchFits(start, ps, next, waiting);
        waiting := Launch(ps[next], at, waiting);
        next := next + 1;
        Poll();
      }
    }

    /** One reply arrives: any of those waiting. */
    method TakeReply(ghost start: set<Path>, ps: seq<Path>, at: bool, next: nat, before: set<Path>)
      returns (waiting: set<Path>)
      requires InFlight(start, ps, next, before) && before != {}
      modifies this`actions, this`skipped, this`moved, this`stop
      ensures InFlight(start, ps, next, waiting) && |waiting| == |before| - 1 && old(actions) <= actions
      ensures (old(Smooth()) ==> Smooth()) && OnlyFaulty(srv, at, None, old(skipped), skipped)
      ensures old(stop).Some? ==> stop == old(stop)
      ensures |moved| <= |old(moved)| + 1 && (at ==> moved == old(moved))
    {
      var p :| p in before;
      ReplyFits(start, ps, next, before, p);
      waiting := before - {p};
      Take(p, at);
    }

    /** What is still waiting and what was never launched is skipped. */
    method WindUp(ghost start: set<Path>, ps: seq<Path>, next: nat, waiting: set<Path>, why: Skip)
      requires InFlight(start, ps, next, waiting)
      modifies this`skipped
      ensures Valid() && Settled() == start + SetOf(ps)
      ensures waiting == {} && next == |ps| ==> skipped == old(skipped)
      ensures waiting == {} && stop == Some(why) ==> OnlyFaulty(srv, false, stop, old(skipped), skipped)
      ensures waiting == {} && stop == Some(why) ==> OnlyFaulty(srv, true, stop, old(skipped), skipped)
    {
      hide Valid, Ledger, Settled, SetOf;
      FinishFits(start, ps, next, waiting);
      if waiting != {} {
        SkipWaiting(waiting, BudgetExhausted);
      }
      SkipAll(ps[next..], why);
    }

    /** `fanOut`: at most `conc` requests in flight, replies in any order, nothing launched after a failure stopped
        the repair or the context ended. Every path ends settled exactly once, and the loop ends. */
    method FanOut(ps: seq<Path>, at: bool)
      requires Valid() && Distinct(ps) && SetOf(ps) !! Settled()
      modifies this
      ensures Valid() && Settled() == old(Settled()) + SetOf(ps) && old(actions) <= actions
      ensures old(Smooth()) ==> Smooth()
      ensures !cancellable ==> done == old(done)
      ensures !cancellable && !old(done) ==> OnlyFaulty(srv, at, stop, old(skipped), skipped)
      ensures old(stop).Some? ==> stop == old(stop)
      ensures old(done) || old(stop).Some? ==> actions == old(actions) && readCalls + readAtCalls
                                                                          == old(readCalls) + old(readAtCalls)
      ensures at ==> moved == old(moved) && readCalls == old(readCalls) && readAtCalls <= old(readAtCalls) + |ps|
      ensures !at ==> readAtCalls == old(readAtCalls) && readCalls <= old(readCalls) + |ps|
      ensures |moved| <= |old(moved)| + |ps| && pullCalls == old(pullCalls)
    {
      hide Ledger, SetOf, ActedOn, Valid, Settled, OnlyPathsFail, OnlyFaulty, Distinct;
      Reflexive(at, None, skipped);
      var waiting: set<Path> := {};
      var next := 0;
      ghost var start := Settled();
      StartFits(ps);
      while true
        invariant InFlight(start, ps, next, waiting)
        invariant (old(Smooth()) ==> Smooth()) && OnlyFaulty(srv, at, None, old(skipped), skipped)
        invariant (old(done) ==> done) && (!cancellable ==> done == old(done))
        invariant old(stop).Some? ==> stop == old(stop)
        invariant old(done) || old(stop).Some? ==> next == 0 && actions == old(actions)
        invariant next <= |ps| && old(actions) <= actions
        invariant if at then readCalls == old(readCalls) && readAtCalls == old(readAtCalls) + next
                  else readAtCalls == old(readAtCalls) && readCalls == old(readCalls) + next
        invariant |moved| + |waiting| <= |old(moved)| + next && (at ==> moved == old(moved))
        invariant pullCalls == old(pullCalls)
        decreases |ps| - next + |waiting|
      {
        next, waiting := LaunchMore(start, ps, at, next, waiting);
        if waiting == {} {
          break;
        }
        Poll();
        var ended := *;
        if done && ended {
          WindUp(start, ps, next, waiting, BudgetExhausted);
          return;
        }
        ghost var before := skipped;
        waiting := TakeReply(start, ps, at, next, waiting);
        OnlyFaultyTransitive(srv, at, None, None, old(skipped), before, skipped);
      }
      ghost var before := skipped;
      WindUp(start, ps, next, waiting, if stop.Some? then stop.value else BudgetExhausted);
      Reflexive(at, stop, skipped);
      if !cancellable && !old(done) {
        OnlyFaultyTransitive(srv, at, None, stop, old(skipped), before, skipped);
      }
    }

    /** The paths launched so far are settled or waiting, and nothing else has been settled since `start`. */
    ghost predicate Ledger(start: set<Path>, ps: seq<Path>, next: nat, waiting: set<Path>)
      requires next <= |ps|
      reads this`actions, this`skipped, this`moved
    {
      && waiting !! Settled() && Settled() + waiting == start + SetOf(ps[..next])
      && start !! SetOf(ps) && Distinct(ps)
    }

    lemma Reflexive(at: bool, stop: Option<Skip>, m: map<Path, Skip>)
      ensures OnlyFaulty(srv, at, stop, m, m)
    {
    }

    lemma StartFits(ps: seq<Path>)
      requires Valid() && Distinct(ps) && SetOf(ps) !! Settled()
      ensures InFlight(Settled(), ps, 0, {})
    {
    }

    lemma LaunchFits(start: set<Path>, ps: seq<Path>, next: nat, waiting: set<Path>)
      requires next < |ps| && Ledger(start, ps, next, waiting)
      ensures ps[next] !in waiting && ps[next] !in Settled() && Ledger(start, ps, next + 1, waiting + {ps[next]})
    {
      assert ps[..next + 1] == ps[..next] + [ps[next]];
      assert ps[next] in SetOf(ps);
    }

    lemma ReplyFits(start: set<Path>, ps: seq<Path>, next: nat, waiting: set<Path>, p: Path)
      requires next <= |ps| && Ledger(start, ps, next, waiting) && p in waiting
      ensures p !in Settled() && (Settled() + {p}) + (waiting - {p}) == start + SetOf(ps[..next])
      ensures |waiting - {p}| == |waiting| - 1
    {
    }

    lemma FinishFits(start: set<Path>, ps: seq<Path>, next: nat, waiting: set<Path>)
      requires next <= |ps| && Ledger(start, ps, next, waiting)
      ensures waiting !! Settled() && SetOf(ps[next..]) !! Settled() + waiting
      ensures Settled() + waiting + SetOf(ps[next..]) == start + SetOf(ps)
      ensures next == |ps| ==> Settled() + waiting == start + SetOf(ps)
    {
      assert ps == ps[..next] + ps[next..];
    }

    /** One entry of a PullPages answer: the page is at its page_shas sha, or it moved. */
    method TakePulled(p: Path)
      requires Valid() && p !in Settled()
      modifies this`actions, this`moved
      ensures Valid() && Settled() == old(Settled()) + {p} && |moved| <= |old(moved)| + 1 && old(actions) <= actions
    {
      if p in srv.pulled && srv.pulled[p].1 == ShaAt(s.state.shas, p) {
        Act(p, srv.pulled[p].0, srv.pulled[p].1);
      } else {
        moved := moved + [p];
      }
    }

    /** `pullAll`: one PullPages answers all of them; its failure stops the repair. */
    method PullAll(ps: seq<Path>)
      requires Valid() && Distinct(ps) && SetOf(ps) !! Settled()
      modifies this
      ensures Valid() && Settled() == old(Settled()) + SetOf(ps)
      ensures old(Smooth()) ==> Smooth() && skipped == old(skipped)
      ensures old(actions) <= actions && (!cancellable ==> done == old(done))
      ensures !cancellable && !old(done) ==>
        if srv.pullError.None? then skipped == old(skipped) && stop == old(stop)
        else actions == old(actions) && stop == Some(Failed(srv.pullError.value))
             && OnlyFaulty(srv, false, stop, old(skipped), skipped)
      ensures readCalls == old(readCalls) && readAtCalls == old(readAtCalls) && pullCalls <= old(pullCalls) + 1
      ensures |moved| <= |old(moved)| + |ps|
    {
      hide SetOf, Settled, Valid, Distinct, OnlyPathsFail, OnlyFaulty;
      Poll();
      if done {
        SkipAll(ps, BudgetExhausted);
        return;
      }
      pullCalls := pullCalls + 1;
      Poll();
      var ended := *;
      if done && ended {
        SkipAll(ps, BudgetExhausted);
        return;
      }
      if srv.pullError.Some? {
        AnswersPull();
        ghost var before := skipped;
        SkipAll(ps, Failed(srv.pullError.value));
        stop := Some(Failed(srv.pullError.value));
        AllStopped(before);
        return;
      }
      TakeAll(ps);
    }

    lemma AllStopped(before: map<Path, Skip>)
      requires stop.Some? && before.Keys <= skipped.Keys
      requires forall p | p in skipped :: skipped[p] == if p in before then before[p] else stop.value
      ensures OnlyFaulty(srv, false, stop, before, skipped)
    {
    }

    lemma AnswersPull()
      ensures OnlyPathsFail(srv) ==> srv.pullError.None?
    {
    }

    method TakeAll(ps: seq<Path>)
      requires Valid() && Distinct(ps) && SetOf(ps) !! Settled()
      modifies this`actions, this`moved
      ensures Valid() && Settled() == old(Settled()) + SetOf(ps) && |moved| <= |old(moved)| + |ps|
      ensures old(actions) <= actions
    {
      hide SetOf, Settled, Valid, Distinct;
      ghost var start := Settled();
      StartFits(ps);
      var i := 0;
      while i < |ps|
        invariant i <= |ps| && Valid() && Ledger(start, ps, i, {}) && |moved| <= |old(moved)| + i
        invariant old(actions) <= actions
      {
        LaunchFits(start, ps, i, {});
        ghost var before := Settled();
        TakePulled(ps[i]);
        assert Settled() == before + {ps[i]};
        i := i + 1;
      }
      FinishFits(start, ps, i, {});
    }

    /** Phase 1: the pages the listing shows at their page_shas sha. Those that answer at it are acted on. */
    method Phase1(ps: seq<Path>)
      requires Valid() && Distinct(ps) && SetOf(ps) !! Settled()
      modifies this
      ensures Valid() && Settled() == old(Settled()) + SetOf(ps) && old(actions) <= actions
      ensures old(Smooth()) ==>
        Smooth() && forall p | p in SetOf(ps) && AnsweredAtHead(s, srv, p) :: p in ActedOn(actions)
      ensures !cancellable ==> done == old(done)
      ensures !cancellable && !old(done) && old(stop).None? ==> OnlyFaulty(srv, false, stop, old(skipped), skipped)
      ensures !cancellable && !old(done) && srv.pullError.Some? && pullCalls > old(pullCalls) ==> stop.Some?
      ensures readCalls <= old(readCalls) + PULL_THRESHOLD && readAtCalls == old(readAtCalls)
      ensures pullCalls <= old(pullCalls) + 1 && |moved| <= |old(moved)| + |ps|
    {
      hide SetOf, Settled, Valid, Distinct, OnlyPathsFail, OnlyFaulty, AnsweredAtHead, ActedOn;
      ghost var before, start := skipped, Settled();
      BeforeSkips();
      if |ps| > PULL_THRESHOLD {
        PullAll(ps);
        Reflexive(false, stop, skipped);
      } else {
        FanOut(ps, false);
      }
      if old(Smooth()) && OnlyFaulty(srv, false, None, before, skipped) {
        HeadActed(ps, start, before);
      }
    }

    lemma BeforeSkips()
      ensures skipped.Keys <= Settled()
    {
    }

    /** A page of phase 1 that answers at its page_shas value has not moved and was not skipped. */
    lemma HeadActed(ps: seq<Path>, start: set<Path>, before: map<Path, Skip>)
      requires Valid() && Settled() == start + SetOf(ps) && SetOf(ps) !! start && before.Keys <= start
      requires OnlyFaulty(srv, false, None, before, skipped)
      ensures forall p | p in SetOf(ps) && AnsweredAtHead(s, srv, p) :: p in ActedOn(actions)
    {
      hide ActedOn, Grounded;
    }

    /** Phase 2: every other page at its page_shas sha, at most `limit` of them, and none once the repair is over. */
    method Phase2(ps: seq<Path>, limit: nat, pagesAt: bool)
      requires Valid() && Distinct(ps) && SetOf(ps) !! Settled()
      modifies this
      ensures Valid() && Settled() == old(Settled()) + SetOf(ps) && moved == old(moved) && old(actions) <= actions
      ensures readCalls == old(readCalls) && readAtCalls <= old(readAtCalls) + limit && pullCalls == old(pullCalls)
      ensures old(stop).Some? ==> readAtCalls == old(readAtCalls) && stop == old(stop)
      ensures old(Smooth()) ==> Smooth()
      ensures !cancellable && !old(done) ==> Leaves(old(skipped), ps, if |ps| < limit then |ps| else limit, pagesAt)
    {
      var n := if |ps| < limit then |ps| else limit;
      Halves(ps, n);
      hide SetOf, Settled, Valid, Distinct, OnlyPathsFail, Leaves, OnlyFaulty;
      ghost var before := skipped;
      if !pagesAt {
        SkipAll(ps, ServerUnsupported);
        LeavesAll(before, ps, n);
        return;
      }
      SkipAll(ps[n..], BudgetExhausted);
      ghost var over := skipped;
      FanOut(ps[..n], true);
      if OnlyFaulty(srv, true, stop, over, skipped) {
        LeavesOver(before, over, ps, n);
      }
    }

    /** What phase 2 skips of `ps`, and why: on a server without pages.at all of them, else those beyond the budget,
        those whose own read failed, and those that a failure left out. */
    ghost predicate Leaves(before: map<Path, Skip>, ps: seq<Path>, n: nat, pagesAt: bool)
      requires n <= |ps|
      reads this`skipped, this`stop
    {
      forall p | p in skipped ::
        if p in before then skipped[p] == before[p]
        else if !pagesAt then skipped[p] == ServerUnsupported
        else if p in SetOf(ps[n..]) then skipped[p] == BudgetExhausted
        else OwnFault(srv, true, p, skipped[p]) || stop == Some(skipped[p])
    }

    lemma LeavesAll(before: map<Path, Skip>, ps: seq<Path>, n: nat)
      requires n <= |ps|
      requires forall p | p in skipped :: skipped[p] == if p in before then before[p] else ServerUnsupported
      ensures Leaves(before, ps, n, false)
    {
    }

    lemma LeavesOver(before: map<Path, Skip>, over: map<Path, Skip>, ps: seq<Path>, n: nat)
      requires n <= |ps| && over.Keys == before.Keys + SetOf(ps[n..])
      requires forall p | p in over :: over[p] == if p in before then before[p] else BudgetExhausted
      requires OnlyFaulty(srv, true, stop, over, skipped)
      ensures Leaves(before, ps, n, true)
    {
      hide SetOf, OwnFault;
    }

    /** The pages that moved since the listing join those it did not show at their page_shas sha. */
    method Join(rest: seq<Path>) returns (all: seq<Path>)
      requires Valid() && Distinct(rest) && SetOf(rest) !! Settled()
      modifies this`moved
      ensures Valid() && moved == [] && all == rest + old(moved) && Distinct(all) && SetOf(all) !! Settled()
      ensures Settled() + SetOf(all) == old(Settled()) + SetOf(rest)
    {
      all := rest + moved;
      forall i, j | 0 <= i < |rest| && 0 <= j < |moved|
        ensures rest[i] != moved[j]
      {
        assert rest[i] in SetOf(rest) && moved[j] in SetOf(moved);
      }
      assert SetOf(all) == SetOf(rest) + SetOf(moved);
      moved := [];
    }

    /** Both phases. */
    method Run(equal: seq<Path>, rest: seq<Path>, limit: nat, pagesAt: bool)
      requires Valid() && Settled() == {} && skipped == map[] && Distinct(equal) && Distinct(rest)
      requires SetOf(equal) !! SetOf(rest) && moved == []
      modifies this
      ensures Valid() && Settled() == SetOf(equal) + SetOf(rest) && moved == []
      ensures readCalls <= old(readCalls) + PULL_THRESHOLD && readAtCalls <= old(readAtCalls) + limit
      ensures pullCalls <= old(pullCalls) + 1
      ensures !cancellable && !old(done) && srv.pullError.Some? && pullCalls > old(pullCalls) ==>
        readAtCalls == old(readAtCalls)
      ensures !cancellable && !old(done) && old(stop).None? ==> Explained(pagesAt)
      ensures old(Smooth()) ==> stop.None? && Answering(equal) <= ActedOn(actions)
      ensures old(Smooth()) && pagesAt ==>
        |Exhausted(skipped)| <= Over(|equal| + |rest| - |Answering(equal)|, limit)
    {
      hide SetOf, Settled, Valid, Distinct, OnlyPathsFail, OnlyFaulty, AnsweredAtHead, ActedOn, Leaves, Explained,
           Answering, Exhausted;
      Phase1(equal);
      ghost var first, acted, stop1 := skipped, actions, stop;
      if old(Smooth()) {
        MovedBound(equal);
      }
      var all := Join(rest);
      var n := if |all| < limit then |all| else limit;
      Phase2(all, limit, pagesAt);
      if old(Smooth()) {
        ActsGrow(equal, acted);
      }
      if !cancellable && !old(done) && old(stop).None? {
        LeftOfBoth(first, stop1, all, n, pagesAt);
      }
    }

    /** The pages that answer at their page_shas value. */
    ghost function Answering(ps: seq<Path>): set<Path> {
      set p | p in ps && AnsweredAtHead(s, srv, p)
    }

    /** Each skipped page has its reason: its own read failed, or another failure left it out, or - as the server has
        pages.at or not - the budget is exhausted or the server does not support what it takes. */
    ghost predicate Explained(pagesAt: bool)
      reads this`skipped, this`stop
    {
      forall p | p in skipped ::
        || OwnFault(srv, false, p, skipped[p]) || OwnFault(srv, true, p, skipped[p]) || stop == Some(skipped[p])
        || skipped[p] == if pagesAt then BudgetExhausted else ServerUnsupported
    }

    lemma {:induction false} MovedBound(equal: seq<Path>)
      requires Valid() && Settled() == SetOf(equal) && Distinct(equal)
      requires forall p | p in SetOf(equal) && AnsweredAtHead(s, srv, p) :: p in ActedOn(actions)
      ensures |moved| + |Answering(equal)| <= |equal|
    {
      hide AnsweredAtHead, ActedOn, Grounded;
      CountOf(moved);
      CountOf(equal);
      assert SetOf(moved) + Answering(equal) <= SetOf(equal) && SetOf(moved) !! Answering(equal) by {
        assert forall p | p in Answering(equal) :: p in SetOf(equal);
      }
      CountBoth(SetOf(moved), Answering(equal), SetOf(equal));
    }

    lemma ActsGrow(equal: seq<Path>, before: seq<Action>)
      requires before <= actions
      requires forall p | p in SetOf(equal) && AnsweredAtHead(s, srv, p) :: p in ActedOn(before)
      ensures Answering(equal) <= ActedOn(actions)
    {
      hide AnsweredAtHead;
      forall p | p in Answering(equal)
        ensures p in ActedOn(actions)
      {
        assert p in SetOf(equal);
        var a :| a in before && a.path == p;
        assert a in actions;
      }
    }

    lemma LeftOfBoth(first: map<Path, Skip>, stop1: Option<Skip>, all: seq<Path>, n: nat, pagesAt: bool)
      requires n <= |all| && (stop1.None? || stop1 == stop)
      requires OnlyFaulty(srv, false, stop1, map[], first) && Leaves(first, all, n, pagesAt)
      ensures Explained(pagesAt)
      ensures pagesAt && stop.None? ==> |Exhausted(skipped)| <= |all| - n
    {
      hide SetOf;
      if pagesAt && stop.None? {
        SetOfBound(all[n..]);
        assert Exhausted(skipped) <= SetOf(all[n..]);
        CountBoth(Exhausted(skipped), {}, SetOf(all[n..]));
      }
    }

    lemma Halves(ps: seq<Path>, n: nat)
      requires n <= |ps| && Distinct(ps)
      ensures Distinct(ps[..n]) && SetOf(ps[..n]) !! SetOf(ps[n..]) && SetOf(ps[..n]) + SetOf(ps[n..]) == SetOf(ps)
    {
      assert ps == ps[..n] + ps[n..];
    }
  }

  /** What exceeds the budget. */
  function Over(pages: int, budget: nat): nat {
    if pages < budget then 0 else pages - budget
  }

  /** The pages the budget left over. */
  ghost function Exhausted(skipped: map<Path, Skip>): set<Path> {
    set p | p in skipped && skipped[p].BudgetExhausted?
  }

  lemma CountBoth(a: set<Path>, b: set<Path>, c: set<Path>)
    requires a !! b && a + b <= c
    ensures |a| + |b| <= |c|
  {
    assert |a + b| == |a| + |b|;
    CountSubset(a + b, c);
  }

  lemma CountSubset(a: set<Path>, c: set<Path>)
    requires a <= c
    ensures |a| <= |c|
  {
    assert c == a + (c - a);
  }

  lemma {:induction false} CountOf(ps: seq<Path>)
    requires Distinct(ps)
    ensures |SetOf(ps)| == |ps|
  {
    if ps == [] {
      assert SetOf(ps) == {};
    } else {
      CountOf(ps[1..]);
      assert SetOf(ps) == {ps[0]} + SetOf(ps[1..]);
    }
  }

  lemma NothingIn()
    ensures SetOf([]) == {}
  {
  }

  lemma {:induction false} SetOfBound(ps: seq<Path>)
    ensures |SetOf(ps)| <= |ps|
  {
    if ps == [] {
      assert SetOf(ps) == {};
    } else {
      SetOfBound(ps[1..]);
      assert SetOf(ps) == {ps[0]} + SetOf(ps[1..]);
    }
  }

  /** The stale paths the listing shows at their page_shas sha, and the others. */
  predicate HeadEqual(s: Store, listing: map<Path, Sha>, p: Path) {
    ShaAt(listing, p) == ShaAt(s.state.shas, p)
  }

  ghost predicate Split(s: Store, listing: map<Path, Sha>, ps: seq<Path>, equal: seq<Path>, rest: seq<Path>) {
    && Distinct(equal) && Distinct(rest) && SetOf(equal) !! SetOf(rest)
    && SetOf(equal) + SetOf(rest) == SetOf(ps) && |equal| + |rest| == |ps|
  }

  method SplitStale(s: Store, listing: map<Path, Sha>, stale: seq<Path>) returns (equal: seq<Path>, rest: seq<Path>)
    requires Distinct(stale)
    ensures Split(s, listing, stale, equal, rest)
    ensures forall p :: p in equal <==> p in stale && ShaAt(listing, p) == ShaAt(s.state.shas, p)
  {
    equal, rest := [], [];
    for i := 0 to |stale|
      invariant Split(s, listing, stale[..i], equal, rest)
      invariant forall p :: p in equal <==> p in stale[..i] && ShaAt(listing, p) == ShaAt(s.state.shas, p)
    {
      assert stale[..i + 1] == stale[..i] + [stale[i]];
      assert stale[i] !in SetOf(stale[..i]);
      if HeadEqual(s, listing, stale[i]) {
        equal := equal + [stale[i]];
      } else {
        rest := rest + [stale[i]];
      }
    }
    assert stale[..|stale|] == stale;
  }

  /** The page is still at HEAD what page_shas says, in the listing and in either answer: a read of the current version
      is enough to repair it. */
  ghost predicate IsAtHead(s: Store, srv: Answers, listing: map<Path, Sha>, p: Path) {
    p in listing && listing[p] == ShaAt(s.state.shas, p) && AnsweredAtHead(s, srv, p)
  }

  ghost function AtHead(s: Store, srv: Answers, listing: map<Path, Sha>, stale: seq<Path>): set<Path> {
    set p | p in stale && IsAtHead(s, srv, listing, p)
  }

  /** `ensureBasePlan`. Every stale path ends in exactly one of the actions and the skipped; every action answers a
      real reply; the request counts stay within their limits. Unless something ends it early - the context, or a
      failure that is not only its path's - every page that is still at HEAD what page_shas says is acted on, whatever
      the budget and with or without pages.at, and of the others only those are skipped whose own read failed and what
      exceeds the budget, which counts no page at HEAD. Each skipped page has its reason; a failed PullPages is the last
      request. */
  method Plan(s: Store, srv: Answers, listing: map<Path, Sha>, stale: seq<Path>, budget: nat, conc: nat, pagesAt: bool,
              cancellable: bool) returns (pl: Planner)
    requires Distinct(stale)
    ensures fresh(pl) && pl.Valid() && pl.s == s && pl.srv == srv
    ensures ActedOn(pl.actions) + pl.skipped.Keys == SetOf(stale) && ActedOn(pl.actions) !! pl.skipped.Keys
    ensures pl.readCalls <= PULL_THRESHOLD && pl.pullCalls <= 1 && pl.readAtCalls <= budget
        && pl.peak <= MAX_CONCURRENCY
    ensures !cancellable ==> pl.Explained(pagesAt)
    ensures !cancellable && srv.pullError.Some? && pl.pullCalls > 0 ==> pl.readAtCalls == 0
    ensures OnlyPathsFail(srv) && !cancellable ==>
      && pl.stop.None? && AtHead(s, srv, listing, stale) <= ActedOn(pl.actions)
      && (pagesAt ==> |Exhausted(pl.skipped)| <= Over(|stale| - |AtHead(s, srv, listing, stale)|, budget))
    ensures AllAnswer(srv) && !cancellable && pagesAt ==>
      |pl.skipped.Keys| <= if |stale| < budget then 0 else |stale| - budget
  {
    hide SetOf, ActedOn, Distinct, AllAnswer, OnlyPathsFail, Exhausted;
    pl := new Planner(s, srv, conc, cancellable);
    var equal, rest := SplitStale(s, listing, stale);
    pl.Run(equal, rest, budget, pagesAt);
    NothingIn();
    AllAnswerMeans(srv);
    HeadAnswers(pl, listing, stale, equal);
    if AllAnswer(srv) && !cancellable && pagesAt {
      AllExhausted(pl);
    }
  }

  lemma AllAnswerMeans(srv: Answers)
    ensures AllAnswer(srv) ==> OnlyPathsFail(srv)
  {
  }

  lemma HeadAnswers(pl: Planner, listing: map<Path, Sha>, stale: seq<Path>, equal: seq<Path>)
    requires forall p :: p in equal <==> p in stale && ShaAt(listing, p) == ShaAt(pl.s.state.shas, p)
    ensures AtHead(pl.s, pl.srv, listing, stale) <= pl.Answering(equal)
    ensures |AtHead(pl.s, pl.srv, listing, stale)| <= |pl.Answering(equal)|
  {
    hide AnsweredAtHead;
    CountSubset(AtHead(pl.s, pl.srv, listing, stale), pl.Answering(equal));
  }

  /** With every request answered, all that is skipped is what exceeds the budget. */
  lemma AllExhausted(pl: Planner)
    requires AllAnswer(pl.srv) && pl.stop.None? && pl.Explained(true)
    ensures pl.skipped.Keys == Exhausted(pl.skipped)
  {
  }
}
