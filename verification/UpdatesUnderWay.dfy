/** Updates between their read and their answer: what they commit, and when they
    are sure of the atomic store's answer. */
module UpdatesUnderWay {
  import opened Wrappers
  import opened Tasks
  import opened AtomicStore
  import opened TaskTable
  import opened StoreProtocol
  import opened StoreInvariant
  import opened StoreTheorems

  /** A fresh update left alone: accepted exactly when the row's status permits
      it, and refused from that status otherwise. */
  lemma UpdateAlone(s: State, c: nat, id: string, to: TaskStatus)
    requires c < |s.conns| && s.conns[c].Busy? && s.conns[c].op == Update(id, to) && s.conns[c].pc == Begin
    requires Known(s.rows) && id in s.rows
    ensures var end := Next(Next(s, c, Statement(false)), c, Statement(false));
            var now := StatusOf(s.rows, id).value;
            && end.conns == s.conns[c := end.conns[c]] && end.conns[c].Busy? && end.conns[c].agent == s.conns[c].agent
            && end.conns[c].pc == Finished(if CanTransitionTo(now, to) then Found(Task(id, to, None, map[]))
                                           else Rejected(IllegalTransition(now, to)))
            && Known(end.rows) && StatusOf(end.rows, id) == Some(if CanTransitionTo(now, to) then to else now)
            && end.log == s.log + (if CanTransitionTo(now, to)
                                   then [Write(c, s.conns[c].agent, id, ByUpdate, |s.log|, to)] else [])
  {
    var now := StatusOf(s.rows, id).value;
    var first := Next(s, c, Statement(false));
    assert first == ExecuteUpdate(s, c, id, to);
    if CanTransitionTo(now, to) {
      GuardIsStatusGuard(s.rows, id, now);
      WriteRow(s.rows, id, to);
      assert Next(first, c, Statement(false)) == ExecuteUpdate(first, c, id, to);
    }
  }

  /** The row of an update past its read is still there. */
  lemma GuardedRowIsThere(rows: Table, s: State, c: nat)
    requires Inv(rows, s) && c < |s.conns| && s.conns[c].Busy? && s.conns[c].op.Update? && s.conns[c].pc.Guarded?
    ensures StatusOf(s.rows, s.conns[c].op.id).Some? && CanTransitionTo(s.conns[c].pc.from, s.conns[c].op.to)
  {
    var id := s.conns[c].op.id;
    assert ConnOk(rows, s, c);
    if StatusOf(s.rows, id).None? {
      assert s.log[..|s.log|] == s.log;
      MovedMeansWritten(rows, s.log, s.conns[c].pc.read, id);
      assert false;
    }
  }

  /** An update that has read `from`, left alone from there. It commits exactly
      when the row is at `from` again or still, and its reply is the atomic
      store's exactly unless the row has moved to another status that permits it. */
  lemma GuardedUpdateAlone(rows: Table, s: State, c: nat)
    requires Inv(rows, s) && c < |s.conns| && s.conns[c].Busy? && s.conns[c].op.Update? && s.conns[c].pc.Guarded?
    ensures var op, from := s.conns[c].op, s.conns[c].pc.from;
            var end := Next(Next(s, c, Statement(false)), c, Statement(false));
            && StatusOf(s.rows, op.id).Some? && end.conns == s.conns[c := end.conns[c]]
            && end.conns[c].Busy? && end.conns[c].agent == s.conns[c].agent
            && var now := StatusOf(s.rows, op.id).value;
               && end.conns[c].pc == Finished(if now == from then Found(Task(op.id, op.to, None, map[]))
                                              else Rejected(IllegalTransition(now, op.to)))
               && StatusOf(end.rows, op.id) == Some(if now == from then op.to else now)
               && (end.conns[c].pc.reply == Apply(op, Abs(s.rows)).1 <==> now == from || !CanTransitionTo(now, op.to))
  {
    var op, from := s.conns[c].op, s.conns[c].pc.from;
    GuardedRowIsThere(rows, s, c);
    GuardIsStatusGuard(s.rows, op.id, from);
    WriteRow(s.rows, op.id, op.to);
    var first := Next(s, c, Statement(false));
    assert first == ExecuteUpdate(s, c, op.id, op.to);
    if StatusOf(s.rows, op.id).value != from {
      assert Next(first, c, Statement(false)) == ExecuteUpdate(first, c, op.id, op.to);
    }
  }

  // ---- when an update under way is sure of the atomic store's answer ----

  /** Connection `c` does nothing but go on with its operation, and none of its
      statements fails. */
  ghost predicate GoesOn(schedule: Schedule, c: nat) {
    forall i :: 0 <= i < |schedule| && schedule[i].0 == c ==> schedule[i].1 == Statement(false)
  }

  /** If the operation on connection `c` has taken effect, it has done what the
      atomic store does. */
  ghost predicate AnsweredAtomically(s: State, c: nat) {
    c < |s.conns| && s.conns[c].Busy? ==>
      forall e :: TookEffectAt(s.events, c, s.conns[c], e) ==> s.events[e].manner == Atomic
  }

  /** An update from a live status that can only be refused by now. */
  ghost predicate SureOfRefusal(s: State, c: nat, id: string, since: nat) {
    && c < |s.conns| && s.conns[c].Busy? && s.conns[c].op.Update? && s.conns[c].op.id == id && s.conns[c].since == since
    && (s.conns[c].pc.Guarded? || s.conns[c].pc.Reread? || s.conns[c].pc.Finished?)
    && StatusOf(s.rows, id).Some? && IsTerminal(StatusOf(s.rows, id).value)
    && forall e :: since <= e < |s.events| && s.events[e].conn == c ==> s.events[e].manner == Atomic
  }

  lemma RefusalStep(rows: Table, s: State, c: nat, id: string, since: nat)
    requires Inv(rows, s) && SureOfRefusal(s, c, id, since)
    ensures SureOfRefusal(Next(s, c, Statement(false)), c, id, since)
  {
    var conn := s.conns[c];
    assert ConnOk(rows, s, c);
    if !conn.pc.Finished? {
      assert Next(s, c, Statement(false)) == ExecuteUpdate(s, c, id, conn.op.to);
      if conn.pc.Guarded? {
        GuardIsStatusGuard(s.rows, id, conn.pc.from);
      }
    }
  }

  lemma OthersLeaveRefusal(s: State, c: nat, id: string, since: nat, d: nat, a: Action)
    requires SureOfRefusal(s, c, id, since) && d != c
    requires var now := StatusOf(Next(s, d, a).rows, id); now.Some? && IsTerminal(now.value)
    ensures SureOfRefusal(Next(s, d, a), c, id, since)
  {
    if d < |s.conns| && s.conns[d].Busy? && a == Statement(false) && !s.conns[d].pc.Finished? {
      match s.conns[d].op
      case Insert(_) =>
      case Get(_) =>
      case Update(other, to) => assert Next(s, d, a) == ExecuteUpdate(s, d, other, to);
      case Cancel(other) => assert Next(s, d, a) == ExecuteCancel(s, d, other);
    }
  }

  lemma {:induction false} RefusalIsSure(rows: Table, s: State, c: nat, id: string, since: nat, schedule: Schedule)
    requires Inv(rows, s) && SureOfRefusal(s, c, id, since) && InsertsNone(s, schedule, id) && GoesOn(schedule, c)
    ensures SureOfRefusal(Run(s, schedule), c, id, since)
    decreases |schedule|
  {
    if schedule == [] {
    } else {
      var init, last := schedule[..|schedule| - 1], schedule[|schedule| - 1];
      var mid, end := Run(s, init), Run(s, schedule);
      NextGrows(mid, last.0, last.1);
      RunGrows(s, init);
      assert forall k :: 0 <= k < |mid.log| ==> mid.log[k] == end.log[k];
      RefusalIsSure(rows, s, c, id, since, init);
      RunKeeps(rows, s, init);
      if last.0 == c {
        RefusalStep(rows, mid, c, id, since);
      } else {
        RunRankNeverFalls(rows, s, schedule, id);
        OthersLeaveRefusal(mid, c, id, since, last.0, last.1);
      }
    }
  }

  /** The other live status. */
  function Flip(status: TaskStatus): TaskStatus {
    if status == Working then InputRequired else Working
  }

  lemma FlipRow(rows: Table, s: State, d: nat, id: string, to: TaskStatus)
    requires Inv(rows, s) && d < |s.conns| && s.conns[d].Idle?
    requires var now := StatusOf(s.rows, id); now.Some? && !IsTerminal(now.value) && to == Flip(now.value)
    ensures var end := Run(s, Solo(d, 0, Update(id, to)));
            && Inv(rows, end) && end.conns == s.conns && StatusOf(end.rows, id) == Some(to)
            && end.log == s.log + [Write(d, 0, id, ByUpdate, |s.log|, to)]
  {
    RunKeeps(rows, s, Solo(d, 0, Update(id, to)));
    RunSolo(s, d, 0, Update(id, to));
    var called := Next(s, d, Call(0, Update(id, to)));
    UpdateAlone(called, d, id, to);
    var done := Next(Next(called, d, Statement(false)), d, Statement(false));
    ReturnsIdle(done, d);
    assert done.conns[d := Idle] == s.conns;
  }

  lemma {:induction false} RunConcat(s: State, first: Schedule, second: Schedule)
    ensures Run(s, first + second) == Run(Run(s, first), second)
    decreases |second|
  {
    if second == [] {
      assert first + second == first;
    } else {
      assert (first + second)[..|first + second| - 1] == first + second[..|second| - 1];
      RunConcat(s, first, second[..|second| - 1]);
    }
  }

  /** The row leaves the status that was read, if it has not yet. */
  lemma RowLeaves(rows: Table, s: State, c: nat, d: nat) returns (schedule: Schedule)
    requires Inv(rows, s) && c < |s.conns| && s.conns[c].Busy? && s.conns[c].op.Update? && s.conns[c].pc.Guarded?
    requires d < |s.conns| && d != c && s.conns[d].Idle?
    requires var now := StatusOf(s.rows, s.conns[c].op.id); now.Some? && !IsTerminal(now.value)
    ensures var id, end := s.conns[c].op.id, Run(s, schedule);
            && Inv(rows, end) && end.conns == s.conns && GoesOn(schedule, c) && InsertsNone(s, schedule, id)
            && StatusOf(end.rows, id) == Some(Flip(s.conns[c].pc.from))
  {
    var id, from := s.conns[c].op.id, s.conns[c].pc.from;
    GuardedRowIsThere(rows, s, c);
    if StatusOf(s.rows, id) == Some(from) {
      schedule := Solo(d, 0, Update(id, Flip(from)));
      FlipRow(rows, s, d, id, Flip(from));
    } else {
      schedule := [];
    }
  }

  lemma GuardMisses(rows: Table, s: State, c: nat)
    requires Inv(rows, s) && c < |s.conns| && s.conns[c].Busy? && s.conns[c].op.Update? && s.conns[c].pc.Guarded?
    requires StatusOf(s.rows, s.conns[c].op.id) == Some(Flip(s.conns[c].pc.from))
    ensures var tried := Next(s, c, Statement(false));
            && Inv(rows, tried)
            && tried == s.(conns := s.conns[c := s.conns[c].(pc := Reread(s.conns[c].pc.read))])
  {
    var conn := s.conns[c];
    NextKeeps(rows, s, c, Statement(false));
    GuardIsStatusGuard(s.rows, conn.op.id, conn.pc.from);
    assert Next(s, c, Statement(false)) == ExecuteUpdate(s, c, conn.op.id, conn.op.to);
  }

  lemma RereadTooLate(rows: Table, s: State, c: nat)
    requires Inv(rows, s) && c < |s.conns| && s.conns[c].Busy? && s.conns[c].op.Update? && s.conns[c].pc.Reread?
    requires var now := StatusOf(s.rows, s.conns[c].op.id); now.Some? && CanTransitionTo(now.value, s.conns[c].op.to)
    ensures Next(s, c, Statement(false)).log == s.log
    ensures !AnsweredAtomically(Next(s, c, Statement(false)), c)
  {
    var end := Next(s, c, Statement(false));
    assert end == ExecuteUpdate(s, c, s.conns[c].op.id, s.conns[c].op.to);
    assert ConnOk(rows, s, c);
    assert TookEffectAt(end.events, c, end.conns[c], |s.events|);
  }

  lemma BackTooLate(rows: Table, s: State, c: nat, d: nat, back: TaskStatus)
    requires Inv(rows, s) && c < |s.conns| && s.conns[c].Busy? && s.conns[c].op.Update? && s.conns[c].pc.Reread?
    requires d < |s.conns| && d != c && s.conns[d].Idle? && CanTransitionTo(back, s.conns[c].op.to)
    requires StatusOf(s.rows, s.conns[c].op.id) == Some(Flip(back)) && back == Flip(Flip(back))
    ensures var late := Run(s, Solo(d, 0, Update(s.conns[c].op.id, back)));
            var end := Next(late, c, Statement(false));
            !AnsweredAtomically(end, c) && end.log == s.log + [Write(d, 0, s.conns[c].op.id, ByUpdate, |s.log|, back)]
  {
    FlipRow(rows, s, d, s.conns[c].op.id, back);
    RereadTooLate(rows, Run(s, Solo(d, 0, Update(s.conns[c].op.id, back))), c);
  }

  /** An update whose row has left the status it read and comes back to it too
      late: it is refused from a status that permits it. */
  lemma ComesBackTooLate(rows: Table, s: State, c: nat, d: nat) returns (schedule: Schedule)
    requires Inv(rows, s) && c < |s.conns| && s.conns[c].Busy? && s.conns[c].op.Update? && s.conns[c].pc.Guarded?
    requires d < |s.conns| && d != c && s.conns[d].Idle?
    requires StatusOf(s.rows, s.conns[c].op.id) == Some(Flip(s.conns[c].pc.from))
    ensures GoesOn(schedule, c) && InsertsNone(s, schedule, s.conns[c].op.id)
    ensures !AnsweredAtomically(Run(s, schedule), c)
  {
    var id, from := s.conns[c].op.id, s.conns[c].pc.from;
    GuardedRowIsThere(rows, s, c);
    GuardMisses(rows, s, c);
    BackTooLate(rows, Next(s, c, Statement(false)), c, d, from);
    schedule := Between(s, c, Solo(d, 0, Update(id, from)));
  }

  /** One statement of connection `c` before a schedule, and one after it. */
  lemma Between(s: State, c: nat, middle: Schedule) returns (schedule: Schedule)
    requires GoesOn(middle, c)
    ensures GoesOn(schedule, c)
    ensures Run(s, schedule) == Next(Run(Next(s, c, Statement(false)), middle), c, Statement(false))
  {
    var one: Schedule := [(c, Statement(false))];
    schedule := one + middle + one;
    RunMore(s, [], c, Statement(false));
    assert [] + one == one;
    RunConcat(s, one, middle);
    RunMore(s, one + middle, c, Statement(false));
  }

  /** Exactly when an update past its read is sure of the atomic store's answer,
      whatever the other connections do short of inserting its row: when the row
      is terminal already. On a live row there is always a run in which it is
      refused from a status that permits it. */
  lemma SureIffTerminal(rows: Table, s: State, c: nat, d: nat)
    requires Inv(rows, s) && c < |s.conns| && s.conns[c].Busy? && s.conns[c].op.Update? && s.conns[c].pc.Guarded?
    requires d < |s.conns| && d != c && s.conns[d].Idle?
    ensures StatusOf(s.rows, s.conns[c].op.id).Some?
    ensures (forall schedule :: InsertsNone(s, schedule, s.conns[c].op.id) && GoesOn(schedule, c) ==>
               AnsweredAtomically(Run(s, schedule), c))
            <==> IsTerminal(StatusOf(s.rows, s.conns[c].op.id).value)
  {
    var id := s.conns[c].op.id;
    GuardedRowIsThere(rows, s, c);
    if IsTerminal(StatusOf(s.rows, id).value) {
      assert ConnOk(rows, s, c);
      forall schedule | InsertsNone(s, schedule, id) && GoesOn(schedule, c)
        ensures AnsweredAtomically(Run(s, schedule), c)
      {
        RefusalIsSure(rows, s, c, id, s.conns[c].since, schedule);
      }
    } else {
      var leaves := RowLeaves(rows, s, c, d);
      var left := Run(s, leaves);
      var late := ComesBackTooLate(rows, left, c, d);
      RunConcat(s, leaves, late);
      RunGrows(s, leaves);
      RunGrows(left, late);
      assert forall k :: 0 <= k < |left.log| ==> Run(left, late).log[k] == left.log[k];
      assert InsertsNone(s, leaves + late, id) && GoesOn(leaves + late, c);
    }
  }
}
