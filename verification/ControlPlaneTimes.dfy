/** The promises about sessions and leases over whole runs, in terms of the marks the runs leave. */
module ControlPlaneTimes {
  import opened Wrappers
  import opened ControlPlane
  import opened ControlPlaneInvariant
  import opened ControlPlaneRuns
  import opened ControlPlaneHistory
  import opened ControlPlaneMarks

  // --- the promises ---

  ghost predicate SilentSince(marks: set<Mark>, n: Id, now: Time) {
    forall x, at: Time :: Heard(n, x, at) in marks ==> at + 120_000 <= now
  }

  /** A node's session is replaced only once nothing has been heard from the node for two minutes. */
  lemma TakeoverNeedsSilence(run: seq<Event>, now: Time, step: Step, n: Id)
    requires LegalRun(EMPTY, run) && Legal(Final(EMPTY, run), now, step)
    requires var s, t := Final(EMPTY, run).tables, After(Final(EMPTY, run), now, step);
             n in s.nodes && s.nodes[n].session.Some? && (n in t.nodes ==> t.nodes[n].session != s.nodes[n].session)
    ensures SilentSince(Marks(EMPTY, run), n, now)
    ensures HeardOnce(Marks(EMPTY, run), n, Final(EMPTY, run).tables.nodes[n].session.value)
  {
    MarksAreTimed(run);
    var w, marks := Final(EMPTY, run), Marks(EMPTY, run);
    assert HeardAt(marks, w.tables, n);
    StepNodes(w, now, step);
    var t := After(w, now, step);
    var same := SameVoice(w.tables, t, n);
  }

  /**
   A heartbeat is accepted exactly if its node is known and not revoked, and it comes from the node's session,
   or from a session the node has never had after two minutes without a sign of any; the session then owns it.
   */
  lemma HeartbeatsAreHeard(run: seq<Event>, now: Time, n: Id, session: Session, runtimes: seq<RuntimeReport>,
      reissue: map<Id, Id>)
    requires LegalRun(EMPTY, run) && Legal(Final(EMPTY, run), now, DoHeartbeat(n, session, runtimes, reissue))
    ensures var s, marks := Final(EMPTY, run).tables, Marks(EMPTY, run);
            var tx := Heartbeat(s, n, session, runtimes, reissue, now);
            && (tx.reply.Ok? <==>
                  && n in s.nodes && !s.nodes[n].revoked
                  && (s.nodes[n].session == Some(session)
                      || (!HeardOnce(marks, n, session) && SilentSince(marks, n, now))))
            && (tx.reply.Ok? ==>
                  && n in tx.tables.nodes && tx.tables.nodes[n].session == Some(session)
                  && tx.tables.nodes[n].heartbeatAt == Some(now))
            && (tx.reply.Err? ==> tx.tables == s)
  {
    MarksAreTimed(run);
    var s, marks := Final(EMPTY, run).tables, Marks(EMPTY, run);
    if n in s.nodes && !s.nodes[n].revoked {
      assert HeardAt(marks, s, n) && RetiredAt(marks, s, n, session);
      if !SessionRefused(s, n, session, now) {
        ReportAllFrame(Connect(s, n, session, reissue, now), n, runtimes, now);
      }
    }
  }

  /**
   A lease excludes any other: a command is granted again only more than 30 s after its last grant, and after
   the last progress accepted under it, unless an unknown result of that lease was taken in between.
   */
  lemma LeasesExclude(run: seq<Event>, id: Id, k: nat, at: Time, k': nat, at': Time)
    requires LegalRun(EMPTY, run) && Sign(Marks(EMPTY, run), id, k, at) && Granted(id, k', at') in Marks(EMPTY, run)
    requires at < at'
    ensures at + 30_000 < at' || UnsureWithin(Marks(EMPTY, run), id, k, at, at')
  {
    MarksAreTimed(run);
    assert Apart(Marks(EMPTY, run), id, k, at, at');
  }

  /** The progress accepted under one lease has growing numbers, unless an unknown result came in between. */
  lemma ProgressGrows(run: seq<Event>, id: Id, k: nat, q: nat, at: Time, q': nat, at': Time)
    requires LegalRun(EMPTY, run) && Renewed(id, k, q, at) in Marks(EMPTY, run)
             && Renewed(id, k, q', at') in Marks(EMPTY, run)
    requires at < at'
    ensures q < q' || UnsureWithin(Marks(EMPTY, run), id, k, at, at')
  {
    MarksAreTimed(run);
    assert InSequence(Marks(EMPTY, run), id, k, q, at, q', at');
  }

  /** A command of the node's epoch that waits, or whose lease has passed. */
  predicate Due(s: Tables, n: Id, o: Id, now: Time) {
    && n in s.nodes && o in s.commands && s.commands[o].node == n && s.commands[o].epoch == s.nodes[n].epoch
    && (s.commands[o].status == Pending
        || (s.commands[o].status == Leased && s.commands[o].lease.Some? && s.commands[o].lease.value < now))
  }

  lemma DueIsClaimable(s: Tables, n: Id, o: Id, now: Time)
    requires Inv(s)
    ensures Due(s, n, o, now) <==> Claimable(s, n, o, now)
  {
    if o in s.commands { assert Sound(s, o); }
  }

  /**
   A claim by the node's session takes the oldest due command: it is leased for 30 s under the next attempt if
   it has had fewer than five, and else ends with its operation. Only if none is due does the claim take none.
   */
  lemma ClaimsTakeTheOldest(w: World, now: Time, n: Id, session: Session, routing: bool, artifact: Option<string>,
      pick: Option<Id>)
    requires Reachable(w) && Legal(w, now, DoClaim(n, session, routing, artifact, pick))
    requires n in w.tables.nodes && !w.tables.nodes[n].revoked && w.tables.nodes[n].session == Some(session)
    ensures var s, tx := w.tables, Claim(w.tables, n, session, routing, artifact, pick, now);
            Advertised(s, tx.tables, n, routing, artifact)
            && if pick.None? then
              && (forall o :: !Due(s, n, o, now))
              && tx.reply == Ok(None) && tx.tables.commands == s.commands && tx.tables.operations == s.operations
            else
              var o := pick.value;
              && Due(s, n, o, now) && o in s.operations && s.operations[o].status == Running
              && (forall p :: Due(s, n, p, now) ==> s.commands[o].createdAt <= s.commands[p].createdAt)
              && ClaimLeaves(s, tx, o, now)
  {
    ReachableIsGood(w);
    forall o ensures Due(w.tables, n, o, now) <==> Claimable(w.tables, n, o, now) {
      DueIsClaimable(w.tables, n, o, now);
    }
    ClaimTakes(w.tables, n, session, routing, artifact, pick, now);
  }

  lemma ClaimTakes(s: Tables, n: Id, session: Session, routing: bool, artifact: Option<string>, pick: Option<Id>,
      now: Time)
    requires AllSound(s) && NextCommand(s, n, pick, now)
    requires n in s.nodes && !s.nodes[n].revoked && s.nodes[n].session == Some(session)
    ensures var tx := Claim(s, n, session, routing, artifact, pick, now);
            Advertised(s, tx.tables, n, routing, artifact)
            && if pick.None? then
              tx.reply == Ok(None) && tx.tables.commands == s.commands && tx.tables.operations == s.operations
            else
              && pick.value in s.operations && s.operations[pick.value].status == Running
              && ClaimLeaves(s, tx, pick.value, now)
  {
    if pick.Some? { assert Sound(s, pick.value); }
  }

  /** The node remembers that it routes, and the artifact it has; only commands and operations may differ besides. */
  predicate Advertised(s: Tables, t: Tables, n: Id, routing: bool, artifact: Option<string>)
    requires n in s.nodes
  {
    var node := s.nodes[n];
    t == s.(nodes := s.nodes[n := node.(providerRouting := if routing then true else node.providerRouting,
                                        artifact := if artifact == None then node.artifact else artifact)],
            commands := t.commands, operations := t.operations)
  }

  /** The rows after a claim takes a command. */
  predicate ClaimLeaves(s: Tables, tx: Tx<Option<Grant>>, o: Id, now: Time)
    requires o in s.commands && o in s.operations
  {
    var c, op := s.commands[o], s.operations[o];
    if c.attempts < 5 then
      && tx.reply == Ok(Some(Grant(c.id, o, c.endpoint, c.generation, c.epoch, c.attempts + 1, c.action)))
      && tx.tables.commands == s.commands[o := c.(status := Leased, attempts := c.attempts + 1,
                                                  lease := Some(now + 30_000))]
      && tx.tables.operations == s.operations
    else
      && c.attempts == 5 && tx.reply == Ok(None)
      && tx.tables.commands == s.commands[o := c.(status := Broken, resultAt := Some(now))]
      && tx.tables.operations == s.operations[o := op.(status := Failed, progress := None)]
  }
}
