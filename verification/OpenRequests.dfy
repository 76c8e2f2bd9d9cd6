/** The open friend requests that the server keeps in memory as joined keys, over the same interleaved runs. */
module OpenRequests {
  import opened FriendRepo
  import opened SessionManager
  import opened FriendCache

  // ----- keys -----

  predicate ColonFree(uid: string) {
    ':' !in uid
  }

  predicate AllColonFree(users: set<string>) {
    forall u :: u in users ==> ColonFree(u)
  }

  lemma SplitKey(r: string, t: string, r': string, t': string)
    requires Key(r, t) == Key(r', t') && |r| == |r'|
    ensures r == r' && t == t'
  {
    assert r == Key(r, t)[..|r|] && r' == Key(r', t')[..|r|];
    assert t == Key(r, t)[|r| + 1..] && t' == Key(r', t')[|r| + 1..];
  }

  /** Keys tell pairs apart when no requester's uid contains a colon. */
  lemma KeyInjective(r: string, t: string, r': string, t': string)
    requires Key(r, t) == Key(r', t') && ColonFree(r) && ColonFree(r')
    ensures r == r' && t == t'
  {
    var k := Key(r, t);
    assert k[|r|] == ':' && forall i :: 0 <= i < |r| ==> k[i] == r[i];
    assert Key(r', t')[|r'|] == ':' && forall i :: 0 <= i < |r'| ==> Key(r', t')[i] == r'[i];
    assert |r| == |r'|;
    SplitKey(r, t, r', t');
  }

  lemma OneColonKey(r: string, u: string, r': string, u': string)
    requires ColonFree(r) && ColonFree(u) && Key(r, u) == Key(r', u')
    ensures r == r' && u == u'
  {
    var k := Key(r, u);
    assert forall i :: 0 <= i < |r| ==> k[i] == r[i];
    assert forall i :: |r| < i < |k| ==> k[i] == u[i - |r| - 1];
    assert Key(r', u')[|r'|] == ':';
    assert k[|r'|] == ':';
    SplitKey(r, u, r', u');
  }

  // ----- no open request is forgotten -----

  /** `u` has logged in, or its login has read its open requests. */
  predicate Heeded(s: Chat, u: string) {
    u in s.loggedIn || exists c :: c in s.notes && s.notes[c].LoginNote? && s.notes[c].uid == u
  }

  /** The memory step to come adds the key. */
  predicate CarriesKey(n: Note, k: string) {
    match n
    case LoginNote(uid, _, rs) => exists r :: r in rs && Key(r, uid) == k
    case Plain(Ask(from, to)) => Key(from, to) == k
    case _ => false
  }

  predicate Kept(s: Chat, k: string) {
    k in s.cache.pending || exists c :: c in s.notes && CarriesKey(s.notes[c], k)
  }

  predicate OpenFor(s: Chat, r: string, u: string) {
    Heeded(s, u) && HasStatus(s.db, r, u, PENDING)
  }

  /** Every open request to a user who is heeded is remembered, or about to be. */
  ghost predicate Remembered(s: Chat) {
    forall r, u :: OpenFor(s, r, u) ==> Kept(s, Key(r, u))
  }

  /** A login whose open requests cannot be read is not the user's first, or the requests are kept already. */
  predicate Told(s: Chat, a: Action)
    requires Legal(s, a)
  {
    a.Continue? && s.notes[a.c].FriendsRead? && !a.ok && !Heeded(s, s.notes[a.c].uid) ==>
      forall r :: r in PendingRequests(s.db, s.notes[a.c].uid) ==> Kept(s, Key(r, s.notes[a.c].uid))
  }

  /**
   The memory step of an answer erases no key of a request that is open, unless another handler in
   flight carries the key; and logins are told.
   */
  ghost predicate Careful(s: Chat, a: Action)
    requires Legal(s, a)
  {
    Told(s, a) && Keeps(s, a)
  }

  ghost predicate Keeps(s: Chat, a: Action)
    requires Legal(s, a)
  {
    a.Continue? && s.notes[a.c].Plain? && s.notes[a.c].req.Answer? ==>
      var k := Key(s.notes[a.c].req.requester, s.notes[a.c].req.responder);
      (exists r, u :: OpenFor(s, r, u) && Key(r, u) == k) ==>
        exists d :: d in s.notes && d != a.c && CarriesKey(s.notes[d], k)
  }

  lemma StaysKept(s: Chat, a: Action, r: string, u: string)
    requires Legal(s, a) && Keeps(s, a) && Kept(s, Key(r, u))
    requires OpenFor(s, r, u) || !Final(s, a)
    ensures Kept(Step(s, a), Key(r, u))
  {
    var s' := Step(s, a);
    var k := Key(r, u);
    if Final(s, a) && s.notes[a.c].Plain? && s.notes[a.c].req.Answer? && k !in s'.cache.pending && k in s.cache.pending {
      var d :| d in s.notes && d != a.c && CarriesKey(s.notes[d], k);
      assert d in s'.notes && CarriesKey(s'.notes[d], k);
    } else if k !in s.cache.pending {
      var c :| c in s.notes && CarriesKey(s.notes[c], k);
      assert (Final(s, a) && c == a.c) || (c in s'.notes && s'.notes[c] == s.notes[c]);
    }
  }

  lemma NewlyOpen(s: Chat, a: Action, r: string, u: string)
    requires Legal(s, a) && Told(s, a) && OpenFor(Step(s, a), r, u)
    ensures OpenFor(s, r, u) || Kept(Step(s, a), Key(r, u)) || (!Final(s, a) && Kept(s, Key(r, u)))
  {
    var s' := Step(s, a);
    if !HasStatus(s.db, r, u, PENDING) {
      assert a.c in s'.notes && CarriesKey(s'.notes[a.c], Key(r, u));
    } else if !Heeded(s, u) {
      var c :| c in s'.notes && s'.notes[c].LoginNote? && s'.notes[c].uid == u;
      assert c == a.c;
      assert (r, u) in s.db.status && (r, u).0 == r;
      assert r in PendingRequests(s.db, u);
      assert a.ok ==> CarriesKey(s'.notes[c], Key(r, u));
    }
  }

  lemma CarefulRemembers(s: Chat, a: Action)
    requires Legal(s, a) && Remembered(s) && Careful(s, a)
    ensures Remembered(Step(s, a))
  {
    forall r, u | OpenFor(Step(s, a), r, u)
      ensures Kept(Step(s, a), Key(r, u))
    {
      NewlyOpen(s, a, r, u);
      if OpenFor(s, r, u) || (!Final(s, a) && Kept(s, Key(r, u))) {
        StaysKept(s, a, r, u);
      }
    }
  }

  lemma UntoldMisses(s: Chat, a: Action)
    requires Legal(s, a) && !Told(s, a)
    ensures !Remembered(Step(s, a))
  {
    var s' := Step(s, a);
    var u := s.notes[a.c].uid;
    var r :| r in PendingRequests(s.db, u) && !Kept(s, Key(r, u));
    assert s'.notes[a.c].LoginNote? && s'.notes[a.c].requesters == {};
    assert OpenFor(s', r, u) && !Kept(s', Key(r, u));
  }

  lemma CarelessForgets(s: Chat, a: Action)
    requires Legal(s, a) && !Careful(s, a)
    ensures !Remembered(Step(s, a))
  {
    if !Told(s, a) {
      UntoldMisses(s, a);
    } else {
      UnkeptForgets(s, a);
    }
  }

  lemma UnkeptForgets(s: Chat, a: Action)
    requires Legal(s, a) && !Keeps(s, a)
    ensures !Remembered(Step(s, a))
  {
    var s' := Step(s, a);
    var k := Key(s.notes[a.c].req.requester, s.notes[a.c].req.responder);
    var r, u :| OpenFor(s, r, u) && Key(r, u) == k;
    if u !in s.loggedIn {
      var c :| c in s.notes && s.notes[c].LoginNote? && s.notes[c].uid == u;
      assert c in s'.notes && s'.notes[c] == s.notes[c];
    }
    assert OpenFor(s', r, u) && !Kept(s', k);
  }

  ghost predicate AlwaysRemembered(s: Chat, actions: seq<Action>)
    requires LegalRun(s, actions)
    decreases |actions|
  {
    Remembered(s) && (actions != [] ==> AlwaysRemembered(Step(s, actions[0]), actions[1..]))
  }

  ghost predicate AlwaysCareful(s: Chat, actions: seq<Action>)
    requires LegalRun(s, actions)
    decreases |actions|
  {
    actions != [] ==> Careful(s, actions[0]) && AlwaysCareful(Step(s, actions[0]), actions[1..])
  }

  /** Over whole interleaved runs: no open request is ever forgotten exactly when every step is careful. */
  lemma {:induction false} RememberedIffCareful(s: Chat, actions: seq<Action>)
    requires LegalRun(s, actions) && Remembered(s)
    ensures AlwaysRemembered(s, actions) <==> AlwaysCareful(s, actions)
    ensures AlwaysCareful(s, actions) ==> Remembered(Run(s, actions))
    decreases |actions|
  {
    if actions != [] {
      if Careful(s, actions[0]) {
        CarefulRemembers(s, actions[0]);
        RememberedIffCareful(Step(s, actions[0]), actions[1..]);
      } else {
        CarelessForgets(s, actions[0]);
        assert !Remembered(Step(s, actions[0]));
      }
    }
  }

  /** Among users without colons in their uids, an answer is careful exactly when its own request is not open again, or carried. */
  lemma ColonFreeCareful(s: Chat, c: CallId, ok: bool)
    requires c in s.notes && s.notes[c].Plain? && s.notes[c].req.Answer?
    requires ForeignKeys(s.db) && AllColonFree(s.db.users)
    ensures var r, t := s.notes[c].req.requester, s.notes[c].req.responder;
            Careful(s, Continue(c, ok)) <==>
              (OpenFor(s, r, t) ==> exists d :: d in s.notes && d != c && CarriesKey(s.notes[d], Key(r, t)))
  {
    var r, t := s.notes[c].req.requester, s.notes[c].req.responder;
    forall r', u' | OpenFor(s, r', u') && Key(r', u') == Key(r, t)
      ensures r' == r && u' == t
    {
      assert (r', u').0 in s.db.users && (r', u').1 in s.db.users;
      OneColonKey(r', u', r, t);
    }
  }

  /**
   Colons apart, an answer overtaken by a removal and a new request forgets the new one: it is open in
   the table, and its key is gone.
   */
  lemma OvertakenAnswerForgets(s: Chat, r: string, u: string)
    requires s.notes == map[] && ForeignKeys(s.db) && u in s.loggedIn && r in s.db.users && u in s.db.users
    ensures var run := [Start(0, Answer(r, u, false), true), Start(1, Unfriend(r, u), true), Start(2, Ask(r, u), true),
                        Continue(1, true), Continue(2, true), Continue(0, true)];
            LegalRun(s, run) && r in PendingRequests(Run(s, run).db, u) && Key(r, u) !in Run(s, run).cache.pending
  {
    var run := [Start(0, Answer(r, u, false), true), Start(1, Unfriend(r, u), true), Start(2, Ask(r, u), true),
                Continue(1, true), Continue(2, true), Continue(0, true)];
    var s1 := Step(s, run[0]);
    var s2 := Step(s1, run[1]);
    var s3 := Step(s2, run[2]);
    var s4 := Step(s3, run[3]);
    var s5 := Step(s4, run[4]);
    var s6 := Step(s5, run[5]);
    assert (r, u) in s6.db.status && s6.db.status[(r, u)] == PENDING && (r, u).0 == r;
    RunCons(s5, run[5..]);
    RunCons(s4, run[4..]);
    RunCons(s3, run[3..]);
    RunCons(s2, run[2..]);
    RunCons(s1, run[1..]);
    RunCons(s, run);
  }

  lemma RunCons(s: Chat, actions: seq<Action>)
    requires actions != [] && Legal(s, actions[0]) && LegalRun(Step(s, actions[0]), actions[1..])
    ensures LegalRun(s, actions) && Run(s, actions) == Run(Step(s, actions[0]), actions[1..])
  {
  }
}
