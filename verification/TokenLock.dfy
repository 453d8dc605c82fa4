/** Processes that share a token file, its lock, and a server that rotates refresh tokens: the
    refresh grant of section 6 of RFC 6749, and revocation as in section 2 of RFC 7009. */
module TokenLock {
  import opened Wrappers
  import opened TokenStore

  /** Where a process is in the flow. */
  datatype Phase =
    | Idle
    | Wants(spent: nat)                 // a refresh is due with the token in memory
    | Holds(spent: nat)                 // the lock is taken, the file not yet read
    | Adopted                           // another process had refreshed: its tokens are in use
    | Ready(spent: nat)                 // the refresh may be sent
    | Sent(spent: nat)                  // the server has the request
    | Answered(reply: Option<nat>)      // the server rotated the token, or refused
    | Saving                            // the lock was free, and is held to save metadata
    | LogoutWaits
    | LogoutHolds
    | LogoutRead(found: Option<nat>)
    | LogoutRevoked
    | Leaving                           // about to release the lock

  /** A process: the tokens its flow uses, the storage's copy of the file, and its phase. */
  datatype Proc = Proc(inUse: Option<Tokens>, memory: Memory, phase: Phase)

  /** The authorization server: the one refresh token it accepts, those it has retired, and the
      next one it will issue. */
  datatype Server = Server(current: Option<nat>, retired: set<nat>, upcoming: nat)

  /** Everything at once. `loggedOut` says that a logout has removed the file. */
  datatype System = System(procs: seq<Proc>, lock: Option<nat>, file: File, server: Server, loggedOut: bool)

  datatype Deed =
    | Start                                   // read the file, without the lock
    | Restart                                 // use the storage's tokens again, after a failure
    | Want | GiveUp | Lock | Reload | WantAgain | Send
    | Serve(accepted: bool)
    | Store(access: nat, expiresAt: Option<real>)
    | Fail
    | LearnMetadata(metadata: string)
    | TryLock | SaveMetadata(metadata: string)
    | BeginLogout | LockForLogout | ReadRecord | Revoke(done: bool) | Unlink
    | Finish                                  // nothing more to send under the lock
    | Leave

  function RefreshOf(tokens: Option<Tokens>): Option<nat>
  {
    if tokens.Some? then tokens.value.refresh else None
  }

  function With(s: System, p: nat, q: Proc): System
    requires p < |s.procs|
  {
    s.(procs := s.procs[p := q])
  }

  /** The server rotates the token it is shown, when it is the current one. */
  function Rotated(v: Server): Server
    requires v.current.Some?
  {
    Server(Some(v.upcoming), v.retired + {v.current.value}, v.upcoming + 1)
  }

  function Retired(v: Server, token: nat): Server
  {
    v.(current := if v.current == Some(token) then None else v.current, retired := v.retired + {token})
  }

  /** What process p does next; a deed that is not possible changes nothing. */
  function Do(s: System, p: nat, d: Deed): System
    requires p < |s.procs|
  {
    var q := s.procs[p];
    match d
    case Start =>
      if q.phase.Idle? then
        With(s, p, q.(memory := Loaded(s.file), inUse := Loaded(s.file).tokens))
      else s
    case Restart => if q.phase.Idle? then With(s, p, q.(inUse := q.memory.tokens)) else s
    case Want =>
      if q.phase.Idle? && RefreshOf(q.inUse).Some? then
        With(s, p, q.(phase := Wants(RefreshOf(q.inUse).value)))
      else s
    case GiveUp => if q.phase.Wants? || q.phase.LogoutWaits? then With(s, p, q.(phase := Idle)) else s
    case Lock =>
      if q.phase.Wants? && s.lock.None? then With(s.(lock := Some(p)), p, q.(phase := Holds(q.phase.spent))) else s
    case Reload => if q.phase.Holds? then With(s, p, Reloaded(q, s.file)) else s
    case WantAgain =>
      if q.phase.Adopted? && RefreshOf(q.inUse).Some? then
        With(s, p, q.(phase := Ready(RefreshOf(q.inUse).value)))
      else s
    case Send => if q.phase.Ready? then With(s, p, q.(phase := Sent(q.phase.spent))) else s
    case Serve(accepted) =>
      if !q.phase.Sent? then s
      else if accepted && s.server.current == Some(q.phase.spent) then
        With(s.(server := Rotated(s.server)), p, q.(phase := Answered(Some(s.server.upcoming))))
      else With(s, p, q.(phase := Answered(None)))
    case Store(access, expiresAt) =>
      if q.phase.Answered? && q.phase.reply.Some? then
        var tokens := Some(Tokens(access, q.phase.reply));
        var memory := q.memory.(tokens := tokens, expiresAt := expiresAt);
        With(s.(file := Ours(memory)), p, Proc(tokens, memory, Leaving))
      else s
    case Fail =>
      if q.phase.Answered? && q.phase.reply.None? then With(s, p, q.(inUse := None, phase := Leaving)) else s
    case LearnMetadata(metadata) =>
      if q.phase.Adopted? || q.phase.Answered? then
        var saved := MetadataSave(q.memory, s.file, metadata, true, false);
        With(s.(file := saved.file), p, q.(memory := saved.memory))
      else if q.phase.Idle? && s.lock.Some? then
        With(s, p, q.(memory := MetadataSave(q.memory, s.file, metadata, false, false).memory))
      else s
    case TryLock =>
      if q.phase.Idle? && s.lock.None? then With(s.(lock := Some(p)), p, q.(phase := Saving)) else s
    case SaveMetadata(metadata) =>
      if q.phase.Saving? then
        var saved := MetadataSave(q.memory, s.file, metadata, false, true);
        With(s.(file := saved.file), p, q.(memory := saved.memory, phase := Leaving))
      else s
    case BeginLogout => if q.phase.Idle? then With(s, p, q.(phase := LogoutWaits)) else s
    case LockForLogout =>
      if q.phase.LogoutWaits? && s.lock.None? then With(s.(lock := Some(p)), p, q.(phase := LogoutHolds)) else s
    case ReadRecord =>
      if q.phase.LogoutHolds? then
        With(s, p, q.(phase := if s.file.Missing? then Leaving else LogoutRead(RefreshIn(s.file))))
      else s
    case Revoke(done) =>
      if q.phase.LogoutRead? then
        var server := if done && q.phase.found.Some? then Retired(s.server, q.phase.found.value) else s.server;
        With(s.(server := server), p, q.(phase := LogoutRevoked))
      else s
    case Unlink =>
      if q.phase.LogoutRevoked? then With(s.(file := Missing, loggedOut := true), p, q.(phase := Leaving)) else s
    case Finish => if q.phase.Adopted? then With(s, p, q.(phase := Leaving)) else s
    case Leave => if q.phase.Leaving? then With(s.(lock := None), p, q.(phase := Idle)) else s
  }

  /** After the lock is taken the file is read again: without tokens the flow ends; with other
      tokens than the one about to be spent, those are used instead. */
  function Reloaded(q: Proc, f: File): Proc
    requires q.phase.Holds?
  {
    var memory := Loaded(f);
    if memory.tokens.None? then q.(memory := memory, phase := Leaving)
    else if memory.tokens.value.refresh != Some(q.phase.spent) then Proc(memory.tokens, memory, Adopted)
    else q.(memory := memory, phase := Ready(q.phase.spent))
  }

  // ---- the invariant ----

  /** The phases that hold the lock. */
  predicate Critical(phase: Phase)
  {
    !phase.Idle? && !phase.Wants? && !phase.LogoutWaits?
  }

  /** The file agrees with the server: its refresh token is the current one, and after a logout
      it has no tokens at all. */
  predicate Settled(s: System)
  {
    if s.loggedOut then TokensIn(s.file).None? else RefreshIn(s.file) == s.server.current
  }

  /** What holds of the process that has the lock. */
  predicate HolderOk(s: System, q: Proc)
  {
    match q.phase
    case Adopted => Settled(s) && q.inUse.Some? && q.inUse == TokensIn(s.file)
    case Ready(spent) => Settled(s) && RefreshIn(s.file) == Some(spent)
    case Sent(spent) => Settled(s) && RefreshIn(s.file) == Some(spent)
    case Answered(reply) => if reply.Some? then !s.loggedOut && s.server.current == reply else Settled(s)
    case LogoutRevoked => s.loggedOut ==> TokensIn(s.file).None?
    case LogoutRead(found) => Settled(s) && found == RefreshIn(s.file)
    case _ => Settled(s)
  }

  predicate ServerOk(v: Server)
  {
    && (v.current.Some? ==> v.current.value < v.upcoming && v.current.value !in v.retired)
    && forall t :: t in v.retired ==> t < v.upcoming
  }

  predicate OnlyHolder(s: System)
  {
    && (s.lock.Some? ==> s.lock.value < |s.procs|)
    && forall p :: 0 <= p < |s.procs| ==> (Critical(s.procs[p].phase) <==> s.lock == Some(p))
  }

  predicate Inv(s: System)
  {
    && OnlyHolder(s) && ServerOk(s.server)
    && (if s.lock.Some? then HolderOk(s, s.procs[s.lock.value]) else Settled(s))
  }

  /** Processes start outside the lock, with a file that agrees with the server. */
  predicate Initial(s: System)
  {
    && s.lock.None? && !s.loggedOut && ServerOk(s.server) && Settled(s)
    && forall p :: 0 <= p < |s.procs| ==> !Critical(s.procs[p].phase)
  }

  /** The phases a process takes the lock into. */
  predicate Entering(phase: Phase)
  {
    phase.Holds? || phase.Saving? || phase.LogoutHolds?
  }

  lemma LockStep(s: System, p: nat, d: Deed)
    requires OnlyHolder(s) && p < |s.procs|
    ensures OnlyHolder(Do(s, p, d)) && |Do(s, p, d).procs| == |s.procs|
    ensures !Critical(s.procs[p].phase) && !Critical(Do(s, p, d).procs[p].phase) ==>
              Do(s, p, d) == s.(procs := Do(s, p, d).procs)
    ensures !Critical(s.procs[p].phase) && Critical(Do(s, p, d).procs[p].phase) ==>
              && s.lock.None? && Do(s, p, d) == s.(procs := Do(s, p, d).procs, lock := Some(p))
              && Entering(Do(s, p, d).procs[p].phase)
    ensures forall k :: 0 <= k < |s.procs| && k != p ==> Do(s, p, d).procs[k] == s.procs[k]
  {
    hide SharedSave;
    hide Loaded;
  }

  /** Every deed of the lock's holder keeps what the holder relies on. */
  lemma HolderStep(s: System, p: nat, d: Deed)
    requires Inv(s) && p < |s.procs| && s.lock == Some(p)
    ensures var s' := Do(s, p, d);
            && ServerOk(s'.server)
            && (if s'.lock.Some? then s'.lock == Some(p) && HolderOk(s', s'.procs[p]) else Settled(s'))
  {
    hide OnlyHolder;
  }

  lemma InvStep(s: System, p: nat, d: Deed)
    requires Inv(s) && p < |s.procs|
    ensures Inv(Do(s, p, d)) && |Do(s, p, d).procs| == |s.procs|
  {
    hide Do;
    LockStep(s, p, d);
    if s.lock == Some(p) {
      HolderStep(s, p, d);
    } else {
      assert !Critical(s.procs[p].phase);
    }
  }

  // ---- whole runs ----

  /** A step of the whole system: some process does something. */
  datatype Move = Move(p: nat, d: Deed)

  function Run(s: System, moves: seq<Move>): System
  {
    if moves == [] then s
    else
      var before := Run(s, moves[..|moves| - 1]);
      var m := moves[|moves| - 1];
      if m.p < |before.procs| then Do(before, m.p, m.d) else before
  }

  lemma {:induction false} RunKeeps(s: System, moves: seq<Move>)
    requires Inv(s)
    ensures Inv(Run(s, moves)) && |Run(s, moves).procs| == |s.procs|
  {
    if moves != [] {
      RunKeeps(s, moves[..|moves| - 1]);
      var m := moves[|moves| - 1];
      var before := Run(s, moves[..|moves| - 1]);
      if m.p < |before.procs| { InvStep(before, m.p, m.d); }
    }
  }

  lemma InitialHolds(s: System)
    requires Initial(s)
    ensures Inv(s)
  {
  }

  /** Whatever the processes do, in whatever order, a refresh is only ever sent with the token
      the server accepts now, never with one it has retired. */
  lemma NoRetiredTokenIsSent(s: System, moves: seq<Move>, p: nat)
    requires Initial(s) && p < |s.procs|
    ensures var r := Run(s, moves);
            && p < |r.procs|
            && (var phase := r.procs[p].phase;
                phase.Ready? || phase.Sent? ==>
                  r.server.current == Some(phase.spent) && phase.spent !in r.server.retired && !r.loggedOut)
  {
    InitialHolds(s);
    RunKeeps(s, moves);
    var r := Run(s, moves);
    if r.procs[p].phase.Ready? || r.procs[p].phase.Sent? {
      assert Critical(r.procs[p].phase);
      assert HolderOk(r, r.procs[p]);
    }
  }

  /** Two processes are never inside the lock at once. */
  lemma OneInside(s: System, moves: seq<Move>, p: nat, q: nat)
    requires Initial(s) && p < q < |s.procs|
    ensures var r := Run(s, moves);
            |r.procs| == |s.procs| && !(Critical(r.procs[p].phase) && Critical(r.procs[q].phase))
  {
    InitialHolds(s);
    RunKeeps(s, moves);
  }

  /** Whenever the lock is free, and nobody has logged out, the file holds the server's current
      refresh token. */
  lemma FileIsCurrent(s: System, moves: seq<Move>)
    requires Initial(s)
    ensures var r := Run(s, moves);
            r.lock.None? && !r.loggedOut ==> RefreshIn(r.file) == r.server.current
  {
    InitialHolds(s);
    RunKeeps(s, moves);
  }

  lemma {:induction false} LoggedOutStays(s: System, moves: seq<Move>)
    requires s.loggedOut
    ensures Run(s, moves).loggedOut
  {
    if moves != [] { LoggedOutStays(s, moves[..|moves| - 1]); }
  }

  lemma {:induction false} RunsOn(s: System, moves: seq<Move>, more: seq<Move>)
    ensures Run(Run(s, moves), more) == Run(s, moves + more)
  {
    if more == [] {
      assert moves + [] == moves;
    } else {
      assert (moves + more)[..|moves + more| - 1] == moves + more[..|more| - 1];
      RunsOn(s, moves, more[..|more| - 1]);
    }
  }

  /** Once a logout has removed the file it holds no tokens again, whatever the other processes
      were doing, had in memory, or do from then on; and no refresh is sent any more. */
  lemma LogoutIsFinal(s: System, moves: seq<Move>, p: nat, more: seq<Move>)
    requires Initial(s) && p < |Run(s, moves).procs| && Run(s, moves).procs[p].phase.LogoutRevoked?
    ensures var r := Run(s, moves + [Move(p, Unlink)] + more);
            && TokensIn(r.file).None?
            && forall k :: 0 <= k < |r.procs| ==> !r.procs[k].phase.Ready? && !r.procs[k].phase.Sent?
  {
    var out := moves + [Move(p, Unlink)];
    assert out[..|out| - 1] == moves;
    assert Run(s, out).loggedOut;
    RunsOn(s, out, more);
    LoggedOutStays(Run(s, out), more);
    InitialHolds(s);
    RunKeeps(s, out + more);
    var r := Run(s, out + more);
    forall k | 0 <= k < |r.procs| ensures !r.procs[k].phase.Ready? && !r.procs[k].phase.Sent? {
      if r.procs[k].phase.Ready? || r.procs[k].phase.Sent? { NoRetiredTokenIsSent(s, out + more, k); }
    }
  }

  lemma RunSnoc(s: System, moves: seq<Move>, m: Move)
    ensures var before := Run(s, moves);
            Run(s, moves + [m]) == if m.p < |before.procs| then Do(before, m.p, m.d) else before
  {
  }

  lemma RunThree(s: System, a: Move, b: Move, c: Move)
    requires a.p < |s.procs| && b.p < |s.procs| && c.p < |s.procs|
    ensures var s1 := Do(s, a.p, a.d);
            |s1.procs| == |s.procs|
            && var s2 := Do(s1, b.p, b.d);
               |s2.procs| == |s.procs| && Run(s, [a, b, c]) == Do(s2, c.p, c.d)
  {
    hide Do;
    LengthKept(s, a.p, a.d);
    LengthKept(Do(s, a.p, a.d), b.p, b.d);
    RunSnoc(s, [], a);
    RunSnoc(s, [a], b);
    RunSnoc(s, [a, b], c);
    assert [] + [a] == [a] && [a] + [b] == [a, b] && [a, b] + [c] == [a, b, c];
  }

  lemma LengthKept(s: System, p: nat, d: Deed)
    requires p < |s.procs|
    ensures |Do(s, p, d).procs| == |s.procs|
  {
    hide MetadataSave;
    hide Loaded;
  }

  /** A refresh whose token is still the file's is sent. */
  lemma RefreshIsSent(s: System, p: nat)
    requires p < |s.procs| && s.lock.None? && s.procs[p].phase.Wants?
    requires RefreshIn(s.file) == Some(s.procs[p].phase.spent)
    ensures Run(s, [Move(p, Lock), Move(p, Reload), Move(p, Send)])
            == With(s.(lock := Some(p)), p,
                    s.procs[p].(memory := Loaded(s.file), phase := Sent(s.procs[p].phase.spent)))
  {
    RunThree(s, Move(p, Lock), Move(p, Reload), Move(p, Send));
    hide Run;
  }

  /** A refresh that is accepted retires the token it was sent with. */
  lemma RefreshIsAccepted(s: System, p: nat, access: nat)
    requires p < |s.procs| && s.procs[p].phase.Sent? && s.server.current == Some(s.procs[p].phase.spent)
    ensures var r := Run(s, [Move(p, Serve(true)), Move(p, Store(access, None)), Move(p, Leave)]);
            && r.lock.None? && r.server == Rotated(s.server)
            && |r.procs| == |s.procs| && r.procs == s.procs[p := r.procs[p]]
  {
    RunThree(s, Move(p, Serve(true)), Move(p, Store(access, None)), Move(p, Leave));
    hide Run;
  }

  /** What reading the file again is for: when two processes want to spend the same token, the
      one that waits can be left wanting to spend a token the server has retired. */
  lemma TheLoserHoldsARetiredToken(s: System, p: nat, q: nat, access: nat)
    requires Initial(s) && p < |s.procs| && q < |s.procs| && p != q
    requires s.procs[p].phase.Wants? && s.procs[q].phase == s.procs[p].phase
    requires s.server.current == Some(s.procs[p].phase.spent)
    ensures exists moves ::
              var r := Run(s, moves);
              |r.procs| == |s.procs| && r.procs[q].phase.Wants? && r.procs[q].phase.spent in r.server.retired
  {
    var first := [Move(p, Lock), Move(p, Reload), Move(p, Send)];
    var second := [Move(p, Serve(true)), Move(p, Store(access, None)), Move(p, Leave)];
    RefreshIsSent(s, p);
    RefreshIsAccepted(Run(s, first), p, access);
    RunsOn(s, first, second);
    hide Run;
    assert Run(s, first + second).procs[q] == s.procs[q];
  }
}
