/** What the processes that share a token file get done: a process that waited goes on with what
    another stored, the lock can always be released, and a refresh can then always be made. */
module TokenProgress {
  import opened Wrappers
  import opened TokenStore
  import opened TokenLock

  // ---- what reading the file again decides ----

  /** A process that has the lock goes on with what the file holds: with no tokens it stops; if
      the file's refresh token is the one it came to spend, that is current, and it may be sent;
      otherwise the file's tokens are taken over, and their refresh token is the current one. */
  lemma ReloadGoesOn(s: System, moves: seq<Move>, p: nat)
    requires Initial(s) && p < |s.procs|
    ensures var r := Run(s, moves);
            && |r.procs| == |s.procs| == |Run(s, moves + [Move(p, Reload)]).procs|
            && (r.procs[p].phase.Holds? ==>
                  var q := Run(s, moves + [Move(p, Reload)]).procs[p];
                  && q.memory == Loaded(r.file)
                  && if TokensIn(r.file).None? then q.phase == Leaving
                     else if RefreshIn(r.file) == Some(r.procs[p].phase.spent) then
                       q.phase == Ready(r.procs[p].phase.spent) && r.server.current == Some(q.phase.spent)
                     else
                       && q.phase == Adopted && q.inUse == TokensIn(r.file)
                       && RefreshOf(q.inUse) == r.server.current)
  {
    InitialHolds(s);
    RunKeeps(s, moves);
    RunKeeps(s, moves + [Move(p, Reload)]);
    RunSnoc(s, moves, Move(p, Reload));
    var r := Run(s, moves);
    hide Run;
    if r.procs[p].phase.Holds? {
      assert Critical(r.procs[p].phase);
      assert HolderOk(r, r.procs[p]);
    }
  }

  // ---- a refresh from start to end ----

  lemma RunSix(s: System, p: nat, a: Deed, b: Deed, c: Deed, d: Deed, e: Deed, f: Deed)
    requires p < |s.procs|
    ensures |Run(s, [Move(p, a), Move(p, b), Move(p, c)]).procs| == |s.procs|
    ensures Run(s, [Move(p, a), Move(p, b), Move(p, c), Move(p, d), Move(p, e), Move(p, f)])
            == Run(Run(s, [Move(p, a), Move(p, b), Move(p, c)]), [Move(p, d), Move(p, e), Move(p, f)])
  {
    RunThree(s, Move(p, a), Move(p, b), Move(p, c));
    LengthKept(s, p, a);
    LengthKept(Do(s, p, a), p, b);
    LengthKept(Do(Do(s, p, a), p, b), p, c);
    hide Do;
    RunsOn(s, [Move(p, a), Move(p, b), Move(p, c)], [Move(p, d), Move(p, e), Move(p, f)]);
    assert [Move(p, a), Move(p, b), Move(p, c)] + [Move(p, d), Move(p, e), Move(p, f)]
        == [Move(p, a), Move(p, b), Move(p, c), Move(p, d), Move(p, e), Move(p, f)];
  }

  function Refreshing(p: nat, access: nat, expiresAt: Option<real>): seq<Move>
  {
    [Move(p, Lock), Move(p, Reload), Move(p, Send), Move(p, Serve(true)), Move(p, Store(access, expiresAt)),
     Move(p, Leave)]
  }

  lemma RefreshEnds(s: System, p: nat, access: nat, expiresAt: Option<real>)
    requires p < |s.procs| && s.procs[p].phase.Sent? && s.server.current == Some(s.procs[p].phase.spent)
    ensures var r := Run(s, [Move(p, Serve(true)), Move(p, Store(access, expiresAt)), Move(p, Leave)]);
            var tokens := Tokens(access, Some(s.server.upcoming));
            && r == With(
                      s.(lock := None, server := Rotated(s.server),
                         file := Ours(s.procs[p].memory.(tokens := Some(tokens), expiresAt := expiresAt))),
                      p, Proc(Some(tokens), s.procs[p].memory.(tokens := Some(tokens), expiresAt := expiresAt), Idle))
  {
    hide Run;
    hide Do;
    RunThree(s, Move(p, Serve(true)), Move(p, Store(access, expiresAt)), Move(p, Leave));
    ServeStep(s, p);
    var s1 := Do(s, p, Serve(true));
    StoreStep(s1, p, access, expiresAt);
    var s2 := Do(s1, p, Store(access, expiresAt));
    LeaveStep(s2, p);
    assert s2.procs[p := s2.procs[p].(phase := Idle)] == s.procs[p := s2.procs[p].(phase := Idle)];
  }

  lemma ServeStep(s: System, p: nat)
    requires p < |s.procs| && s.procs[p].phase.Sent? && s.server.current == Some(s.procs[p].phase.spent)
    ensures Do(s, p, Serve(true))
            == With(s.(server := Rotated(s.server)), p, s.procs[p].(phase := Answered(Some(s.server.upcoming))))
  {
  }

  lemma StoreStep(s: System, p: nat, access: nat, expiresAt: Option<real>)
    requires p < |s.procs| && s.procs[p].phase.Answered? && s.procs[p].phase.reply.Some?
    ensures var tokens := Some(Tokens(access, s.procs[p].phase.reply));
            var memory := s.procs[p].memory.(tokens := tokens, expiresAt := expiresAt);
            Do(s, p, Store(access, expiresAt)) == With(s.(file := Ours(memory)), p, Proc(tokens, memory, Leaving))
  {
  }

  lemma LeaveStep(s: System, p: nat)
    requires p < |s.procs| && s.procs[p].phase.Leaving?
    ensures Do(s, p, Leave) == With(s.(lock := None), p, s.procs[p].(phase := Idle))
  {
  }

  /** A refresh that the server accepts leaves the new tokens in the file, in use and in memory,
      the server with their refresh token, the lock free, and everyone else as they were. */
  lemma RefreshCompletes(s: System, p: nat, access: nat, expiresAt: Option<real>)
    requires p < |s.procs| && s.lock.None? && s.procs[p].phase.Wants?
    requires RefreshIn(s.file) == Some(s.procs[p].phase.spent) == s.server.current
    ensures var r := Run(s, Refreshing(p, access, expiresAt));
            var tokens := Some(Tokens(access, Some(s.server.upcoming)));
            && |r.procs| == |s.procs| && r.procs == s.procs[p := r.procs[p]]
            && r.lock.None? && r.loggedOut == s.loggedOut && r.server == Rotated(s.server)
            && TokensIn(r.file) == r.procs[p].inUse == r.procs[p].memory.tokens == tokens
            && r.procs[p].phase == Idle && r.server.current == RefreshIn(r.file)
  {
    RunSix(s, p, Lock, Reload, Send, Serve(true), Store(access, expiresAt), Leave);
    RefreshIsSent(s, p);
    RefreshEnds(Run(s, [Move(p, Lock), Move(p, Reload), Move(p, Send)]), p, access, expiresAt);
    hide Run;
  }

  /** A refresh that the server refuses changes neither the file nor the server, and leaves the
      process without tokens to use until it reads its own again. */
  lemma RefusedRefreshKeeps(s: System, p: nat)
    requires p < |s.procs| && s.procs[p].phase.Sent?
    ensures var r := Run(s, [Move(p, Serve(false)), Move(p, Fail), Move(p, Leave)]);
            && r.file == s.file && r.server == s.server && r.loggedOut == s.loggedOut && r.lock.None?
            && r.procs == s.procs[p := Proc(None, s.procs[p].memory, Idle)]
  {
    hide Run;
    hide Do;
    RunThree(s, Move(p, Serve(false)), Move(p, Fail), Move(p, Leave));
    RefuseStep(s, p);
    var s1 := Do(s, p, Serve(false));
    FailStep(s1, p);
    var s2 := Do(s1, p, Fail);
    LeaveStep(s2, p);
    assert s1.procs[p := s2.procs[p]] == s.procs[p := s2.procs[p]];
  }

  lemma RefuseStep(s: System, p: nat)
    requires p < |s.procs| && s.procs[p].phase.Sent?
    ensures Do(s, p, Serve(false)) == With(s, p, s.procs[p].(phase := Answered(None)))
  {
  }

  lemma FailStep(s: System, p: nat)
    requires p < |s.procs| && s.procs[p].phase.Answered? && s.procs[p].phase.reply.None?
    ensures Do(s, p, Fail) == With(s, p, s.procs[p].(inUse := None, phase := Leaving))
  {
  }

  lemma RunTwo(s: System, a: Move, b: Move)
    requires a.p < |s.procs| && b.p < |s.procs|
    ensures |Do(s, a.p, a.d).procs| == |s.procs| && Run(s, [a, b]) == Do(Do(s, a.p, a.d), b.p, b.d)
  {
    hide Do;
    LengthKept(s, a.p, a.d);
    RunSnoc(s, [], a);
    RunSnoc(s, [a], b);
    assert [] + [a] == [a] && [a] + [b] == [a, b];
  }

  /** What the lock and the second reading are for. When two processes want to spend the same
      token and one refreshes first, the other, once it has the lock, uses the tokens the first
      one stored: it does not spend the token the server has retired. */
  lemma TheWaiterAdopts(s: System, p: nat, q: nat, access: nat, expiresAt: Option<real>)
    requires Initial(s) && p < |s.procs| && q < |s.procs| && p != q
    requires s.procs[p].phase.Wants? && s.procs[q].phase == s.procs[p].phase
    requires s.server.current == Some(s.procs[p].phase.spent)
    ensures var r := Run(s, Refreshing(p, access, expiresAt) + [Move(q, Lock), Move(q, Reload)]);
            && |r.procs| == |s.procs| && r.procs[q].phase == Adopted
            && r.procs[q].inUse == TokensIn(r.file) == Some(Tokens(access, Some(s.server.upcoming)))
            && RefreshOf(r.procs[q].inUse) == r.server.current && s.procs[q].phase.spent in r.server.retired
  {
    RefreshCompletes(s, p, access, expiresAt);
    var after := Run(s, Refreshing(p, access, expiresAt));
    RunsOn(s, Refreshing(p, access, expiresAt), [Move(q, Lock), Move(q, Reload)]);
    RunTwo(after, Move(q, Lock), Move(q, Reload));
    hide Run;
    hide Refreshing;
    assert after.procs[q] == s.procs[q];
  }

  // ---- the lock is never stuck ----

  /** What the lock's holder can do next, whatever the server says, towards releasing it. */
  function NextDeed(phase: Phase): Deed
  {
    match phase
    case Holds(_) => Reload
    case Adopted => Finish
    case Ready(_) => Send
    case Sent(_) => Serve(false)
    case Answered(reply) => if reply.Some? then Store(0, None) else Fail
    case Saving => SaveMetadata("")
    case LogoutHolds => ReadRecord
    case LogoutRead(_) => Revoke(false)
    case LogoutRevoked => Unlink
    case _ => Leave
  }

  function StepsLeft(phase: Phase): nat
  {
    match phase
    case Holds(_) => 5
    case Ready(_) => 4
    case LogoutHolds => 4
    case Sent(_) => 3
    case LogoutRead(_) => 3
    case Adopted => 2
    case Answered(_) => 2
    case Saving => 2
    case LogoutRevoked => 2
    case _ => 1
  }

  lemma NextDeedGoesOn(s: System, h: nat)
    requires OnlyHolder(s) && s.lock == Some(h)
    ensures h < |s.procs|
    ensures var s' := Do(s, h, NextDeed(s.procs[h].phase));
            && OnlyHolder(s') && |s'.procs| == |s.procs|
            && (s'.lock.None? || (s'.lock == Some(h) && StepsLeft(s'.procs[h].phase) < StepsLeft(s.procs[h].phase)))
  {
    LockStep(s, h, NextDeed(s.procs[h].phase));
    hide OnlyHolder;
    hide MetadataSave;
    assert Critical(s.procs[h].phase) by { HolderIsCritical(s, h); }
  }

  lemma HolderIsCritical(s: System, h: nat)
    requires OnlyHolder(s) && s.lock == Some(h)
    ensures h < |s.procs| && Critical(s.procs[h].phase)
  {
  }

  /** The moves are all one process's. */
  predicate AllBy(moves: seq<Move>, h: nat)
  {
    forall i :: 0 <= i < |moves| ==> moves[i].p == h
  }

  lemma {:induction false} HolderCanLeave(s: System, h: nat) returns (moves: seq<Move>)
    requires OnlyHolder(s) && s.lock == Some(h)
    ensures AllBy(moves, h) && Run(s, moves).lock.None?
    decreases if h < |s.procs| then StepsLeft(s.procs[h].phase) else 0
  {
    hide OnlyHolder;
    hide Do;
    NextDeedGoesOn(s, h);
    var m := Move(h, NextDeed(s.procs[h].phase));
    var s' := Do(s, h, m.d);
    RunSnoc(s, [], m);
    assert [] + [m] == [m];
    if s'.lock.None? {
      moves := [m];
    } else {
      var rest := HolderCanLeave(s', h);
      RunsOn(s, [m], rest);
      moves := [m] + rest;
    }
  }

  /** From every reachable state the process that holds the lock can release it by itself,
      whatever the server answers and whatever the file holds. */
  lemma LockIsNeverStuck(s: System, moves: seq<Move>)
    requires Initial(s)
    ensures var r := Run(s, moves);
            r.lock.Some? ==> exists more :: AllBy(more, r.lock.value) && Run(s, moves + more).lock.None?
  {
    InitialHolds(s);
    RunKeeps(s, moves);
    var r := Run(s, moves);
    hide Run;
    if r.lock.Some? {
      var more := HolderCanLeave(r, r.lock.value);
      RunsOn(s, moves, more);
    }
  }

  /** And with the lock free, as long as nobody logged out and the server accepts a token, any
      idle process can make a refresh, whatever it had in memory before. */
  lemma AnyoneCanRefresh(s: System, moves: seq<Move>, p: nat, access: nat, expiresAt: Option<real>)
    requires Initial(s) && p < |s.procs|
    ensures var r := Run(s, moves);
            var r' := Run(s, moves + ([Move(p, Start), Move(p, Want)] + Refreshing(p, access, expiresAt)));
            && |r.procs| == |s.procs|
            && (r.lock.None? && !r.loggedOut && r.server.current.Some? && r.procs[p].phase.Idle? ==>
                  && r'.lock.None? && r'.server == Rotated(r.server) && |r'.procs| == |s.procs|
                  && TokensIn(r'.file) == r'.procs[p].inUse == Some(Tokens(access, Some(r.server.upcoming))))
  {
    InitialHolds(s);
    RunKeeps(s, moves);
    FileIsCurrent(s, moves);
    var r := Run(s, moves);
    var first := [Move(p, Start), Move(p, Want)];
    RunsOn(s, moves, first + Refreshing(p, access, expiresAt));
    RunsOn(r, first, Refreshing(p, access, expiresAt));
    RunTwo(r, Move(p, Start), Move(p, Want));
    if r.lock.None? && !r.loggedOut && r.server.current.Some? && r.procs[p].phase.Idle? {
      var wanting := Run(r, first);
      StartsWanting(r, p);
      RefreshCompletes(wanting, p, access, expiresAt);
    }
    hide Run;
    hide Do;
    hide Refreshing;
  }

  lemma StartsWanting(r: System, p: nat)
    requires p < |r.procs| && r.procs[p].phase.Idle? && RefreshIn(r.file).Some?
    ensures var s := Do(Do(r, p, Start), p, Want);
            && s == r.(procs := s.procs) && |s.procs| == |r.procs|
            && s.procs[p].phase == Wants(RefreshIn(r.file).value)
  {
  }

  // ---- logging out, and metadata ----

  lemma ReadAndRevoke(s: System, p: nat)
    requires p < |s.procs| && s.lock.None? && s.procs[p].phase.LogoutWaits? && !s.file.Missing?
    ensures var server := if RefreshIn(s.file).Some? then Retired(s.server, RefreshIn(s.file).value) else s.server;
            Run(s, [Move(p, LockForLogout), Move(p, ReadRecord), Move(p, Revoke(true))])
            == With(s.(lock := Some(p), server := server), p, s.procs[p].(phase := LogoutRevoked))
  {
    RunThree(s, Move(p, LockForLogout), Move(p, ReadRecord), Move(p, Revoke(true)));
    hide Run;
  }

  lemma UnlinkAndLeave(s: System, p: nat)
    requires p < |s.procs| && s.procs[p].phase.LogoutRevoked?
    ensures Run(s, [Move(p, Unlink), Move(p, Leave)])
            == With(s.(lock := None, file := Missing, loggedOut := true), p, s.procs[p].(phase := Idle))
  {
    hide Run;
    hide Do;
    RunTwo(s, Move(p, Unlink), Move(p, Leave));
    UnlinkStep(s, p);
    LeaveStep(Do(s, p, Unlink), p);
    assert s.procs[p := s.procs[p].(phase := Leaving)][p := s.procs[p].(phase := Idle)]
        == s.procs[p := s.procs[p].(phase := Idle)];
  }

  lemma UnlinkStep(s: System, p: nat)
    requires p < |s.procs| && s.procs[p].phase.LogoutRevoked?
    ensures Do(s, p, Unlink)
            == With(s.(file := Missing, loggedOut := true), p, s.procs[p].(phase := Leaving))
  {
  }

  /** A logout that has its turn revokes the token the server accepts and removes the file. */
  lemma LogoutRevokes(s: System, moves: seq<Move>, p: nat)
    requires Initial(s) && p < |s.procs|
    ensures var r := Run(s, moves);
            && |r.procs| == |s.procs|
            && (r.lock.None? && !r.loggedOut && r.procs[p].phase.LogoutWaits? && !r.file.Missing? ==>
                  var out := Run(s, moves + ([Move(p, LockForLogout), Move(p, ReadRecord), Move(p, Revoke(true))]
                                             + [Move(p, Unlink), Move(p, Leave)]));
                  && out.file.Missing? && out.server.current.None? && out.lock.None? && out.loggedOut
                  && (r.server.current.Some? ==> r.server.current.value in out.server.retired))
  {
    RunKeepsFrom(s, moves);
    FileIsCurrent(s, moves);
    var r := Run(s, moves);
    var first := [Move(p, LockForLogout), Move(p, ReadRecord), Move(p, Revoke(true))];
    RunsOn(s, moves, first + [Move(p, Unlink), Move(p, Leave)]);
    RunsOn(r, first, [Move(p, Unlink), Move(p, Leave)]);
    if r.lock.None? && r.procs[p].phase.LogoutWaits? && !r.file.Missing? {
      ReadAndRevoke(r, p);
      UnlinkAndLeave(Run(r, first), p);
    }
    hide Run;
  }

  lemma RunKeepsFrom(s: System, moves: seq<Move>)
    requires Initial(s)
    ensures Inv(Run(s, moves)) && |Run(s, moves).procs| == |s.procs|
  {
    InitialHolds(s);
    RunKeeps(s, moves);
  }

  /** Metadata learned while a process goes on under the lock with another's tokens is in the file
      at once. */
  lemma LearnedUnderLockIsKept(s: System, moves: seq<Move>, p: nat, metadata: string)
    requires Initial(s) && p < |s.procs|
    ensures var r := Run(s, moves);
            && |r.procs| == |s.procs|
            && (r.procs[p].phase.Adopted? && r.procs[p].memory.metadata != Some(metadata) ==>
                  HoldsMetadata(Run(s, moves + [Move(p, LearnMetadata(metadata))]).file, metadata))
  {
    RunKeepsFrom(s, moves);
    RunSnoc(s, moves, Move(p, LearnMetadata(metadata)));
    var r := Run(s, moves);
    hide Run;
    if r.procs[p].phase.Adopted? {
      assert Critical(r.procs[p].phase);
      assert HolderOk(r, r.procs[p]);
      SavedExactlyWhen(r.procs[p].memory, r.file, metadata, true, false);
    }
  }
}
