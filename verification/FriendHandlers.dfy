/** The friend handlers: what undisturbed ones keep, and the handlers themselves, each as its worker part and its loop part. */
module FriendHandlers {
  import opened FriendRepo
  import opened SessionManager
  import opened FriendCache
  import opened OpenRequests

  // ----- handlers whose steps are not separated by another handler's -----

  predicate Quiet(s: Chat) {
    s.notes == map[]
  }

  /** A request with the outcomes of its first statement and, where there is one, of its second. */
  datatype Job = Job(req: Request, ok: bool, second: bool)

  /** All steps of one handler in a row. */
  function Handle(s: Chat, j: Job): Chat
    requires Quiet(s)
    ensures Quiet(Handle(s, j))
  {
    var s1 := Step(s, Start(0, j.req, j.ok));
    if Final(s1, Continue(0, j.second)) then Last(s1, FirstNote(s.db, j.req, j.ok))
    else
      var s2 := Step(s1, Continue(0, j.second));
      Last(s2, s2.notes[0])
  }

  function Last(s: Chat, n: Note): Chat
    requires s.notes == map[0 := n] && Final(s, Continue(0, true))
    ensures Quiet(Last(s, n))
  {
    assert s.notes - {0} == map[];
    Step(s, Continue(0, true))
  }

  function HandleAll(s: Chat, jobs: seq<Job>): Chat
    requires Quiet(s)
    ensures Quiet(HandleAll(s, jobs))
    decreases |jobs|
  {
    if jobs == [] then s else HandleAll(Handle(s, jobs[0]), jobs[1..])
  }

  predicate AllSucceed(jobs: seq<Job>) {
    forall j :: j in jobs ==> j.ok && j.second
  }

  lemma HandleForeignKeys(s: Chat, j: Job)
    requires Quiet(s) && ForeignKeys(s.db)
    ensures ForeignKeys(Handle(s, j).db)
  {
    var a := Start(0, j.req, j.ok);
    StepForeignKeys(s, a);
    var s1 := Step(s, a);
    StepForeignKeys(s1, Continue(0, j.second));
    if !Final(s1, Continue(0, j.second)) {
      StepForeignKeys(Step(s1, Continue(0, j.second)), Continue(0, true));
    }
  }

  // ----- friends: nothing stored is missing -----

  /**
   A removal's DELETE does not fail on a stored pair of which one has logged in, and the friends of a
   user who logs in for the first time are read, or known already.
   */
  predicate Harmless(s: Chat, j: Job) {
    !j.ok ==>
      match j.req
      case Unfriend(u, t) => Linked(s.db, u, t) ==> u !in s.loggedIn && t !in s.loggedIn
      case Login(u) => u in s.db.users && u !in s.loggedIn ==> FriendList(s.db, u) <= FriendsOf(s.cache.friends, u)
      case _ => true
  }

  /** With no handler in flight, a removal that has made its statement loses a friend exactly when the pair is still stored. */
  lemma RemovalTracks(s: Chat, j: Job)
    requires Quiet(s) && ForeignKeys(s.db) && Tracked(s) && j.req.Unfriend?
    ensures Tracked(Handle(s, j)) <==> Harmless(s, j)
  {
    var a, c := Start(0, j.req, j.ok), Continue(0, true);
    TimelyTracks(s, a);
    StepForeignKeys(s, a);
    var s1 := Step(s, a);
    assert s1.notes == map[0 := Plain(j.req)];
    assert Timely(s1, c) <==> Harmless(s, j);
    if Timely(s1, c) {
      TimelyTracks(s1, c);
    } else {
      UntimelyLoses(s1, c);
    }
  }

  lemma LoginTracks(s: Chat, j: Job)
    requires Quiet(s) && ForeignKeys(s.db) && Tracked(s) && j.req.Login?
    ensures Tracked(Handle(s, j)) <==> Harmless(s, j)
  {
    var a := Start(0, j.req, j.ok);
    assert Informed(s, a) <==> Harmless(s, j) by {
      assert forall v :: Somewhere(s, j.req.uid, v) <==> v in FriendsOf(s.cache.friends, j.req.uid);
    }
    if Harmless(s, j) {
      OthersTrack(s, j);
    } else {
      var t := Handle(s, j);
      var v :| v in FriendList(s.db, j.req.uid) && v !in FriendsOf(s.cache.friends, j.req.uid);
      ListedIffLinked(s.db, j.req.uid, v);
      var s2 := Step(Step(s, a), Continue(0, j.second));
      assert s2.notes[0].LoginNote? && s2.notes[0].friends == {};
      MemoryFriends(s2.cache, s2.notes[0], j.req.uid);
      assert Watched(t, j.req.uid) && Linked(t.db, j.req.uid, v) && !Somewhere(t, j.req.uid, v);
    }
  }

  lemma OthersTrack(s: Chat, j: Job)
    requires Quiet(s) && ForeignKeys(s.db) && Tracked(s) && !j.req.Unfriend? && Informed(s, Start(0, j.req, j.ok))
    ensures Tracked(Handle(s, j))
  {
    var a, c := Start(0, j.req, j.ok), Continue(0, j.second);
    TimelyTracks(s, a);
    StepForeignKeys(s, a);
    var s1 := Step(s, a);
    TimelyTracks(s1, c);
    if !Final(s1, c) {
      StepForeignKeys(s1, c);
      TimelyTracks(Step(s1, c), Continue(0, true));
    }
  }

  ghost predicate AlwaysTracked(s: Chat, jobs: seq<Job>)
    requires Quiet(s)
    decreases |jobs|
  {
    Tracked(s) && (jobs != [] ==> AlwaysTracked(Handle(s, jobs[0]), jobs[1..]))
  }

  predicate AlwaysHarmless(s: Chat, jobs: seq<Job>)
    requires Quiet(s)
    decreases |jobs|
  {
    jobs != [] ==> Harmless(s, jobs[0]) && AlwaysHarmless(Handle(s, jobs[0]), jobs[1..])
  }

  /** With undisturbed handlers no stored friend is ever missing in memory exactly when no removal and no login fails harmfully. */
  lemma {:induction false} TrackedIffHarmless(s: Chat, jobs: seq<Job>)
    requires Quiet(s) && ForeignKeys(s.db) && Tracked(s)
    ensures AlwaysTracked(s, jobs) <==> AlwaysHarmless(s, jobs)
    ensures AlwaysHarmless(s, jobs) ==> Tracked(HandleAll(s, jobs)) && ForeignKeys(HandleAll(s, jobs).db)
    decreases |jobs|
  {
    if jobs != [] {
      HandleForeignKeys(s, jobs[0]);
      if jobs[0].req.Unfriend? {
        RemovalTracks(s, jobs[0]);
      } else if jobs[0].req.Login? {
        LoginTracks(s, jobs[0]);
      } else {
        OthersTrack(s, jobs[0]);
      }
      if Harmless(s, jobs[0]) {
        TrackedIffHarmless(Handle(s, jobs[0]), jobs[1..]);
      } else {
        assert !Tracked(Handle(s, jobs[0]));
      }
    }
  }

  lemma {:induction false} SuccessIsHarmless(s: Chat, jobs: seq<Job>)
    requires Quiet(s) && AllSucceed(jobs)
    ensures AlwaysHarmless(s, jobs)
    decreases |jobs|
  {
    if jobs != [] {
      SuccessIsHarmless(Handle(s, jobs[0]), jobs[1..]);
    }
  }

  /** Then the stored friends of a user who has logged in since the start are all in memory. */
  lemma TableFriendsAreCached(db: FriendDb, jobs: seq<Job>, u: string)
    requires ForeignKeys(db) && AlwaysHarmless(Boot(db), jobs)
    ensures var s := HandleAll(Boot(db), jobs);
            u in s.loggedIn ==> FriendList(s.db, u) <= FriendsOf(s.cache.friends, u)
  {
    var s := HandleAll(Boot(db), jobs);
    TrackedIffHarmless(Boot(db), jobs);
    forall v | v in FriendList(s.db, u) && u in s.loggedIn ensures v in FriendsOf(s.cache.friends, u) {
      ListedIffLinked(s.db, u, v);
      assert Somewhere(s, u, v);
    }
  }

  // ----- friends: nothing in memory is stale -----

  /**
   An answer is safe when it leaves memory right: an acceptance must have a row to accept, or create
   the reverse row, or find it accepted, and if its UPDATE fails the pair must be stored already; a
   rejection must not take back the only accepted row of a pair held in memory.
   */
  predicate SafeAnswer(s: Chat, j: Job) {
    j.req.Answer? ==>
      var r, t := j.req.requester, j.req.responder;
      if j.req.accepted && j.ok then
        || (r, t) in s.db.status
        || HasStatus(s.db, t, r, ACCEPTED)
        || (j.second && (t, r) !in s.db.status && r in s.db.users && t in s.db.users)
      else if j.req.accepted then
        HasStatus(s.db, r, t, ACCEPTED) || HasStatus(s.db, t, r, ACCEPTED)
      else
        j.ok && HasStatus(s.db, r, t, ACCEPTED) && t in FriendsOf(s.cache.friends, r) ==>
          r != t && HasStatus(s.db, t, r, ACCEPTED)
  }

  lemma AcceptanceSound(s: Chat, j: Job)
    requires Quiet(s) && ForeignKeys(s.db) && Sound(s) && j.req.Answer? && j.req.accepted
    ensures Sound(Handle(s, j)) <==> SafeAnswer(s, j)
  {
    var c := Continue(0, true);
    var s1 := Step(s, Start(0, j.req, j.ok));
    FreshStaysSound(s, Start(0, j.req, j.ok));
    var s2 := s1;
    if j.ok {
      FreshStaysSound(s1, Continue(0, j.second));
      s2 := Step(s1, Continue(0, j.second));
    }
    assert s2.notes == map[0 := Plain(j.req)];
    assert Fresh(s2, c) <==> Linked(s2.db, j.req.requester, j.req.responder);
    if Fresh(s2, c) {
      FreshStaysSound(s2, c);
    } else {
      StaleStaysNot(s2, c);
    }
  }

  lemma RejectionSound(s: Chat, j: Job)
    requires Quiet(s) && Sound(s) && j.req.Answer? && !j.req.accepted
    ensures Sound(Handle(s, j)) <==> SafeAnswer(s, j)
  {
    var a := Start(0, j.req, j.ok);
    var s1 := Step(s, a);
    assert s1.notes == map[0 := Plain(j.req)];
    assert Fresh(s, a) <==> SafeAnswer(s, j);
    if Fresh(s, a) {
      FreshStaysSound(s, a);
      FreshStaysSound(s1, Continue(0, true));
    } else {
      var r, t := j.req.requester, j.req.responder;
      var s2 := Handle(s, j);
      assert t in FriendsOf(s2.cache.friends, r) && !Linked(s2.db, r, t) && !RemovalInFlight(s2, r, t);
    }
  }

  lemma OthersSound(s: Chat, j: Job)
    requires Quiet(s) && ForeignKeys(s.db) && Sound(s) && !j.req.Answer?
    ensures Sound(Handle(s, j))
  {
    var c := Continue(0, j.second);
    FreshStaysSound(s, Start(0, j.req, j.ok));
    var s1 := Step(s, Start(0, j.req, j.ok));
    FreshStaysSound(s1, c);
    if !Final(s1, c) {
      var s2 := Step(s1, c);
      forall f | f in s2.notes[0].friends ensures Linked(s2.db, j.req.uid, f) {
        ListedIffLinked(s.db, j.req.uid, f);
      }
      FreshStaysSound(s2, Continue(0, true));
    }
  }

  /** One undisturbed request leaves memory a symmetric part of the table exactly when it is a safe answer, or none. */
  lemma AnswerSoundIffSafe(s: Chat, j: Job)
    requires Quiet(s) && ForeignKeys(s.db) && Sound(s)
    ensures Sound(Handle(s, j)) <==> SafeAnswer(s, j)
  {
    if !j.req.Answer? {
      OthersSound(s, j);
    } else if j.req.accepted {
      AcceptanceSound(s, j);
    } else {
      RejectionSound(s, j);
    }
  }

  ghost predicate AlwaysExact(s: Chat, jobs: seq<Job>)
    requires Quiet(s)
    decreases |jobs|
  {
    Sound(s) && (jobs != [] ==> AlwaysExact(Handle(s, jobs[0]), jobs[1..]))
  }

  predicate AlwaysSafe(s: Chat, jobs: seq<Job>)
    requires Quiet(s)
    decreases |jobs|
  {
    jobs != [] ==> SafeAnswer(s, jobs[0]) && AlwaysSafe(Handle(s, jobs[0]), jobs[1..])
  }

  /** Memory stays a symmetric part of the table through a whole undisturbed run exactly when every answer is safe. */
  lemma {:induction false} ExactIffSafe(s: Chat, jobs: seq<Job>)
    requires Quiet(s) && ForeignKeys(s.db) && Sound(s)
    ensures AlwaysExact(s, jobs) <==> AlwaysSafe(s, jobs)
    ensures AlwaysSafe(s, jobs) ==> Sound(HandleAll(s, jobs))
    decreases |jobs|
  {
    if jobs != [] {
      HandleForeignKeys(s, jobs[0]);
      AnswerSoundIffSafe(s, jobs[0]);
      if SafeAnswer(s, jobs[0]) {
        ExactIffSafe(Handle(s, jobs[0]), jobs[1..]);
      }
    }
  }

  /** With both conditions the list sent to a user who has logged in is exactly the stored one. */
  lemma SentListIsStoredList(db: FriendDb, jobs: seq<Job>, u: string)
    requires ForeignKeys(db) && AlwaysSafe(Boot(db), jobs) && AlwaysHarmless(Boot(db), jobs)
    ensures var s := HandleAll(Boot(db), jobs);
            u in s.loggedIn ==> FriendsOf(s.cache.friends, u) == FriendList(s.db, u)
  {
    var s := HandleAll(Boot(db), jobs);
    ExactIffSafe(Boot(db), jobs);
    TrackedIffHarmless(Boot(db), jobs);
    if u in s.loggedIn {
      QuietExact(s, u);
    }
  }

  /** Answering only open requests, with an UPDATE that succeeds or a rejection, is safe. */
  lemma OpenAnswersAreSafe(s: Chat, j: Job)
    requires j.req.Answer? ==> HasStatus(s.db, j.req.requester, j.req.responder, PENDING) && (j.ok || !j.req.accepted)
    ensures SafeAnswer(s, j)
  {
  }

  /** Rejecting after having accepted takes the pair out of the table and leaves it in memory. */
  lemma RejectionAfterAcceptance(s: Chat, r: string, t: string)
    requires Quiet(s) && ForeignKeys(s.db) && r != t && HasStatus(s.db, r, t, PENDING) && HasStatus(s.db, t, r, REJECTED)
    ensures var after := Handle(Handle(s, Job(Answer(r, t, true), true, true)), Job(Answer(r, t, false), true, true));
            t in FriendsOf(after.cache.friends, r) && t !in FriendList(after.db, r)
  {
    var s1 := Step(s, Start(0, Answer(r, t, true), true));
    var s2 := Step(s1, Continue(0, true));
    assert s2.notes[0] == Plain(Answer(r, t, true));
    MemoryFriends(s2.cache, s2.notes[0], r);
    var s3 := Handle(s, Job(Answer(r, t, true), true, true));
    assert t in FriendsOf(s3.cache.friends, r);
    var s4 := Step(s3, Start(0, Answer(r, t, false), true));
    MemoryFriends(s4.cache, s4.notes[0], r);
  }

  /** A removal whose DELETE fails takes a stored friend out of memory. */
  lemma FailedRemovalLosesFriend(s: Chat, u: string, v: string)
    requires Quiet(s) && ForeignKeys(s.db) && Linked(s.db, u, v)
    ensures var after := Handle(s, Job(Unfriend(u, v), false, true));
            v in FriendList(after.db, u) && v !in FriendsOf(after.cache.friends, u)
  {
    ListedIffLinked(s.db, u, v);
    var s1 := Step(s, Start(0, Unfriend(u, v), false));
    MemoryFriends(s1.cache, s1.notes[0], u);
  }

  /** An acceptance whose statements come after an older removal's, and whose memory step comes before it, is forgotten. */
  lemma InterleavingLosesFriend(s: Chat, u: string, v: string)
    requires Quiet(s) && u in s.loggedIn && u in s.db.users && v in s.db.users && u != v
    ensures var run := [Start(0, Unfriend(u, v), true), Start(1, Answer(u, v, true), true), Continue(1, true),
                        Continue(1, true), Continue(0, true)];
            LegalRun(s, run) && v in FriendList(Run(s, run).db, u) && v !in FriendsOf(Run(s, run).cache.friends, u)
  {
    var run := [Start(0, Unfriend(u, v), true), Start(1, Answer(u, v, true), true), Continue(1, true),
                Continue(1, true), Continue(0, true)];
    var s1 := Step(s, run[0]);
    var s2 := Step(s1, run[1]);
    var s3 := Step(s2, run[2]);
    var s4 := Step(s3, run[3]);
    var s5 := Step(s4, run[4]);
    assert HasStatus(s5.db, v, u, ACCEPTED);
    MemoryFriends(s4.cache, s4.notes[0], u);
    RunCons(s4, run[4..]);
    RunCons(s3, run[3..]);
    RunCons(s2, run[2..]);
    RunCons(s1, run[1..]);
    RunCons(s, run);
  }

  // ----- open requests -----

  /**
   An answer's UPDATE does not fail on an open request of a user who has logged in, and the requests to
   a user who logs in for the first time are read, or kept already.
   */
  predicate Settles(s: Chat, j: Job) {
    match j.req
    case Answer(r, t, _) => !j.ok && HasStatus(s.db, r, t, PENDING) ==> t !in s.loggedIn
    case Login(u) =>
      !j.second && u in s.db.users && u !in s.loggedIn ==>
        forall r :: r in PendingRequests(s.db, u) ==> Key(r, u) in s.cache.pending
    case _ => true
  }

  /** The last step: with colon-free uids only the answer's own request matters. */
  lemma FinalRemembers(s: Chat, req: Request)
    requires 0 in s.notes && Final(s, Continue(0, true)) && s.notes == map[0 := s.notes[0]]
    requires s.notes[0].Plain? ==> s.notes[0] == Plain(req)
    requires ForeignKeys(s.db) && AllColonFree(s.db.users) && Remembered(s)
    ensures Remembered(Step(s, Continue(0, true))) <==>
            !(s.notes[0].Plain? && req.Answer? && OpenFor(s, req.requester, req.responder))
  {
    var c := Continue(0, true);
    if s.notes[0].Plain? && req.Answer? {
      ColonFreeCareful(s, 0, true);
    }
    if Careful(s, c) {
      CarefulRemembers(s, c);
    } else {
      CarelessForgets(s, c);
    }
  }

  lemma LoginRemembers(s: Chat, j: Job)
    requires Quiet(s) && ForeignKeys(s.db) && Remembered(s) && j.req.Login? && AllColonFree(s.db.users)
    ensures Remembered(Handle(s, j)) <==> Settles(s, j)
  {
    var a, c, u := Start(0, j.req, j.ok), Continue(0, j.second), j.req.uid;
    StepForeignKeys(s, a);
    CarefulRemembers(s, a);
    var s1 := Step(s, a);
    if Final(s1, c) {
      FinalRemembers(s1, j.req);
    } else {
      StepForeignKeys(s1, c);
      assert Told(s1, c) <==> Settles(s, j) by {
        assert forall r :: Kept(s1, Key(r, u)) <==> Key(r, u) in s.cache.pending;
      }
      if Settles(s, j) {
        CarefulRemembers(s1, c);
        FinalRemembers(Step(s1, c), j.req);
      } else {
        var r :| r in PendingRequests(s.db, u) && Key(r, u) !in s.cache.pending;
        var t := Handle(s, j);
        assert OpenFor(t, r, u) && !Kept(t, Key(r, u));
      }
    }
  }

  lemma HandleRemembersIff(s: Chat, j: Job)
    requires Quiet(s) && ForeignKeys(s.db) && Remembered(s)
    requires AllColonFree(s.db.users) && (j.req.Register? ==> ColonFree(j.req.uid))
    ensures AllColonFree(Handle(s, j).db.users)
    ensures Remembered(Handle(s, j)) <==> Settles(s, j)
  {
    if j.req.Login? {
      LoginRemembers(s, j);
    } else {
      var c := Continue(0, j.second);
      var a := Start(0, j.req, j.ok);
      StepForeignKeys(s, a);
      CarefulRemembers(s, a);
      var s1 := Step(s, a);
      if Final(s1, c) {
        FinalRemembers(s1, j.req);
      } else {
        StepForeignKeys(s1, c);
        CarefulRemembers(s1, c);
        FinalRemembers(Step(s1, c), j.req);
      }
    }
  }

  ghost predicate AlwaysRemembered(s: Chat, jobs: seq<Job>)
    requires Quiet(s)
    decreases |jobs|
  {
    Remembered(s) && (jobs != [] ==> AlwaysRemembered(Handle(s, jobs[0]), jobs[1..]))
  }

  predicate AlwaysSettles(s: Chat, jobs: seq<Job>)
    requires Quiet(s)
    decreases |jobs|
  {
    jobs != [] ==> Settles(s, jobs[0]) && AlwaysSettles(Handle(s, jobs[0]), jobs[1..])
  }

  /** With undisturbed handlers and colon-free uids, no open request is ever forgotten exactly when no answer and no login fails on one. */
  lemma {:induction false} RememberedIffSettles(s: Chat, jobs: seq<Job>)
    requires Quiet(s) && ForeignKeys(s.db) && Remembered(s) && AllColonFree(s.db.users)
    requires forall j :: j in jobs && j.req.Register? ==> ColonFree(j.req.uid)
    ensures AlwaysRemembered(s, jobs) <==> AlwaysSettles(s, jobs)
    ensures AlwaysSettles(s, jobs) ==> Remembered(HandleAll(s, jobs))
    decreases |jobs|
  {
    if jobs != [] {
      HandleForeignKeys(s, jobs[0]);
      HandleRemembersIff(s, jobs[0]);
      if Settles(s, jobs[0]) {
        RememberedIffSettles(Handle(s, jobs[0]), jobs[1..]);
      } else {
        assert !Remembered(Handle(s, jobs[0]));
      }
    }
  }

  lemma {:induction false} SuccessSettles(s: Chat, jobs: seq<Job>)
    requires Quiet(s) && AllSucceed(jobs)
    ensures AlwaysSettles(s, jobs)
    decreases |jobs|
  {
    if jobs != [] {
      SuccessSettles(Handle(s, jobs[0]), jobs[1..]);
    }
  }

  /** Then every open request to a user who has logged in is in memory. */
  lemma OpenRequestsAreRemembered(db: FriendDb, jobs: seq<Job>, r: string, u: string)
    requires ForeignKeys(db) && AllColonFree(db.users) && AlwaysSettles(Boot(db), jobs)
    requires forall j :: j in jobs && j.req.Register? ==> ColonFree(j.req.uid)
    ensures var s := HandleAll(Boot(db), jobs);
            u in s.loggedIn && r in PendingRequests(s.db, u) ==> Key(r, u) in s.cache.pending
  {
    var s := HandleAll(Boot(db), jobs);
    RememberedIffSettles(Boot(db), jobs);
    if u in s.loggedIn && r in PendingRequests(s.db, u) {
      assert OpenFor(s, r, u) && Kept(s, Key(r, u));
    }
  }

  lemma RejectEffect(s: Chat, requester: string, responder: string, ok: bool)
    requires Quiet(s)
    ensures var s' := Handle(s, Job(Answer(requester, responder, false), ok, true));
            && s'.db == (if ok then Decide(s.db, requester, responder, false) else s.db) && s'.loggedIn == s.loggedIn
            && s'.cache.pending == s.cache.pending - {Key(requester, responder)}
  {
  }

  /** With a colon in a requester's uid, rejecting a request of another pair makes the server forget one that is open. */
  lemma ColonForgets(s: Chat, a: string, b: string, c: string)
    requires Quiet(s) && HasStatus(s.db, a + ":" + b, c, PENDING)
    ensures var after := Handle(s, Job(Answer(a, b + ":" + c, false), true, true));
            a + ":" + b in PendingRequests(after.db, c) && Key(a + ":" + b, c) !in after.cache.pending
  {
    var r := a + ":" + b;
    RejectEffect(s, a, b + ":" + c, true);
    assert |c| < |b + ":" + c|;
    assert Key(r, c) == Key(a, b + ":" + c);
    assert (r, c) in s.db.status && (r, c).0 == r;
  }

  /** A rejection whose UPDATE fails leaves the request open and makes the server forget it. */
  lemma FailedAnswerForgets(s: Chat, r: string, u: string)
    requires Quiet(s) && HasStatus(s.db, r, u, PENDING)
    ensures var after := Handle(s, Job(Answer(r, u, false), false, true));
            r in PendingRequests(after.db, u) && Key(r, u) !in after.cache.pending
  {
    RejectEffect(s, r, u, false);
    assert (r, u) in s.db.status && (r, u).0 == r;
  }

  // ----- the handlers -----

  lemma AddFriendsNone(friends: map<string, set<string>>, uid: string)
    ensures AddFriends(friends, uid, {}) == friends
  {
  }

  lemma SameFriends(a: map<string, set<string>>, b: map<string, set<string>>)
    requires a.Keys == b.Keys && forall w :: FriendsOf(a, w) == FriendsOf(b, w)
    ensures a == b
  {
    forall w | w in a ensures a[w] == b[w] {
      assert FriendsOf(a, w) == FriendsOf(b, w);
    }
  }

  lemma AddFriendOf(friends: map<string, set<string>>, u: string, v: string, w: string)
    ensures FriendsOf(AddFriend(friends, u, v), w) ==
            FriendsOf(friends, w) + (if w == u then {v} else {}) + (if w == v then {u} else {})
  {
  }

  lemma AddFriendsOf(friends: map<string, set<string>>, uid: string, fs: set<string>, w: string)
    ensures FriendsOf(AddFriends(friends, uid, fs), w) ==
            FriendsOf(friends, w) + (if w == uid then fs else {}) + (if w in fs then {uid} else {})
  {
  }

  lemma AddFriendsNextOf(friends: map<string, set<string>>, uid: string, done: set<string>, f: string, w: string)
    ensures FriendsOf(AddFriend(AddFriends(friends, uid, done), uid, f), w) == FriendsOf(AddFriends(friends, uid, done + {f}), w)
  {
    AddFriendOf(AddFriends(friends, uid, done), uid, f, w);
    AddFriendsOf(friends, uid, done, w);
    AddFriendsOf(friends, uid, done + {f}, w);
  }

  lemma AddFriendsNext(friends: map<string, set<string>>, uid: string, done: set<string>, f: string)
    ensures AddFriend(AddFriends(friends, uid, done), uid, f) == AddFriends(friends, uid, done + {f})
  {
    var before := AddFriend(AddFriends(friends, uid, done), uid, f);
    var after := AddFriends(friends, uid, done + {f});
    assert before.Keys == after.Keys;
    forall w ensures FriendsOf(before, w) == FriendsOf(after, w) {
      AddFriendsNextOf(friends, uid, done, f, w);
    }
    SameFriends(before, after);
  }

  /** Each handler is a worker part, which ends with the handler's note in flight, and a loop part, which takes the note. */
  class FriendHandlers {
    const repo: MySQLFriendRepo
    const sessions: SessionManager
    ghost var loggedIn: set<string>
    ghost var notes: map<CallId, Note>

    ghost function View(): Chat
      reads this, repo, sessions
    {
      Chat(repo.View(), sessions.CacheView(), loggedIn, notes)
    }

    constructor (repo: MySQLFriendRepo, sessions: SessionManager)
      ensures this.repo == repo && this.sessions == sessions && loggedIn == {} && notes == map[]
    {
      this.repo, this.sessions, loggedIn, notes := repo, sessions, {}, map[];
    }

    method RememberFriend(uid: string, f: string, ghost before: map<string, set<string>>, ghost done: set<string>)
      requires sessions.friendships == AddFriends(before, uid, done)
      modifies sessions`friendships
      ensures sessions.friendships == AddFriends(before, uid, done + {f})
    {
      AddFriendsNext(before, uid, done, f);
      sessions.AddFriendship(uid, f);
    }

    method RememberFriends(uid: string, friends: set<string>)
      modifies sessions`friendships
      ensures sessions.friendships == AddFriends(old(sessions.friendships), uid, friends)
    {
      var todo := friends;
      ghost var before, done := sessions.friendships, {};
      AddFriendsNone(before, uid);
      while todo != {}
        invariant done + todo == friends
        invariant sessions.friendships == AddFriends(before, uid, done)
        decreases |todo|
      {
        var f :| f in todo;
        RememberFriend(uid, f, before, done);
        todo, done := todo - {f}, done + {f};
      }
      assert done == friends;
    }

    method RememberRequests(uid: string, requesters: set<string>)
      modifies sessions`pending
      ensures sessions.pending == old(sessions.pending) + set r | r in requesters :: Key(r, uid)
    {
      var todo := requesters;
      ghost var done: set<string> := {};
      while todo != {}
        invariant done + todo == requesters
        invariant sessions.pending == old(sessions.pending) + set r | r in done :: Key(r, uid)
        decreases |todo|
      {
        var r :| r in todo;
        sessions.AddPendingRequest(r, uid);
        todo, done := todo - {r}, done + {r};
      }
      assert done == requesters;
    }

    /** The two reads of a login, whose failure gives an empty list; between them other handlers may run, here they do not. */
    method ReadLogin(ghost c: CallId, uid: string, first: bool, second: bool) returns (friends: set<string>, requesters: set<string>)
      requires c !in notes && uid in repo.users
      modifies this`notes
      ensures var read := Step(old(View()), Start(c, Login(uid), first)); View() == Step(read, Continue(c, second))
      ensures notes[c] == LoginNote(uid, friends, requesters)
    {
      friends := if first then FriendList(repo.View(), uid) else {};
      notes := notes[c := FriendsRead(uid, friends)];
      requesters := if second then PendingRequests(repo.View(), uid) else {};
      notes := notes[c := LoginNote(uid, friends, requesters)];
    }

    method FinishLogin(ghost c: CallId, uid: string, friends: set<string>, requesters: set<string>)
      requires c in notes && notes[c] == LoginNote(uid, friends, requesters)
      modifies this`loggedIn, this`notes, sessions`friendships, sessions`pending
      ensures View() == Step(old(View()), Continue(c, true))
      ensures sessions.pending == old(sessions.pending) + set r | r in requesters :: r + ":" + uid
    {
      RememberFriends(uid, friends);
      RememberRequests(uid, requesters);
      loggedIn, notes := loggedIn + {uid}, notes - {c};
    }

    method StoreFriendRequest(ghost c: CallId, from: string, to: string, served: bool)
      requires c !in notes
      modifies this`notes, repo`status
      ensures View() == Step(old(View()), Start(c, Ask(from, to), served))
    {
      if to in repo.users {
        var _ := repo.AddFriendRequest(from, to, served);
      }
      notes := notes[c := Plain(Ask(from, to))];
    }

    method FinishFriendRequest(ghost c: CallId, from: string, to: string)
      requires c in notes && notes[c] == Plain(Ask(from, to))
      modifies this`notes, sessions`pending
      ensures View() == Step(old(View()), Continue(c, true))
      ensures sessions.pending == old(sessions.pending) + {from + ":" + to}
    {
      sessions.AddPendingRequest(from, to);
      notes := notes - {c};
    }

    method StoreFriendResponse(ghost c: CallId, requester: string, responder: string, accepted: bool, served: bool, inserted: bool)
      requires c !in notes
      modifies this`notes, repo`status
      ensures var decided := Step(old(View()), Start(c, Answer(requester, responder, accepted), served));
              View() == if served && accepted then Step(decided, Continue(c, inserted)) else decided
      ensures notes[c] == Plain(Answer(requester, responder, accepted))
    {
      var _ := repo.RespondFriendRequest(requester, responder, accepted, served, inserted);
      notes := notes[c := Plain(Answer(requester, responder, accepted))];
    }

    method FinishFriendResponse(ghost c: CallId, requester: string, responder: string, accepted: bool)
      requires c in notes && notes[c] == Plain(Answer(requester, responder, accepted))
      modifies this`notes, sessions`friendships, sessions`pending
      ensures View() == Step(old(View()), Continue(c, true))
      ensures sessions.pending == old(sessions.pending) - {requester + ":" + responder}
    {
      if accepted {
        sessions.AddFriendship(requester, responder);
      }
      sessions.RemovePendingRequest(requester, responder);
      notes := notes - {c};
    }

    method StoreFriendRemove(ghost c: CallId, uid: string, target: string, served: bool)
      requires c !in notes
      modifies this`notes, repo`status
      ensures View() == Step(old(View()), Start(c, Unfriend(uid, target), served))
    {
      var _ := repo.RemoveFriends(uid, target, served);
      notes := notes[c := Plain(Unfriend(uid, target))];
    }

    method FinishFriendRemove(ghost c: CallId, uid: string, target: string)
      requires c in notes && notes[c] == Plain(Unfriend(uid, target))
      modifies this`notes, sessions`friendships
      ensures View() == Step(old(View()), Continue(c, true))
    {
      sessions.RemoveFriendship(uid, target);
      notes := notes - {c};
    }
  }
}
