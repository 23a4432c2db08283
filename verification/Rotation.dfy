/** Refresh calls that overlap. Each looks its token up and checks it, revokes it, and
    issues the next one, a call to Postgres per step, in any interleaving with other
    Refresh, Login and Logout calls. */
module Rotation {
  import opened Wrappers
  import opened Sessions

  /** A Refresh that has accepted the token in `row`, before and after it revokes it. */
  datatype Proc = Checked(row: nat) | Rotated(row: nat)

  datatype Snapshot = Snapshot(tokens: seq<Token>, procs: map<nat, Proc>, now: nat)

  /** A Refresh that rejects its token, or fails before revoking it, is no step at all or
      an Abandon; one that fails later is an Abandon as well. */
  datatype Step =
    | Check(id: nat, presented: RawToken, at: nat)
    | Revoke(id: nat, at: nat)
    | Issue(id: nat, minted: RawToken, at: nat)
    | Abandon(id: nat, at: nat)
    | LogIn(user: UserId, minted: RawToken, at: nat)
    | LogOut(row: nat, at: nat)

  predicate Valid(t: Token, at: nat) {
    t.revokedAt.None? && at <= t.expiresAt
  }

  /** The clock never goes back. */
  predicate Enabled(s: Snapshot, a: Step) {
    s.now <= a.at &&
    match a
    case Check(id, presented, at) =>
      var found := Find(s.tokens, Sha256(presented));
      id !in s.procs && found.Some? && Valid(s.tokens[found.value], at)
    case Revoke(id, _) => id in s.procs && s.procs[id].Checked? && s.procs[id].row < |s.tokens|
    case Issue(id, _, _) => id in s.procs && s.procs[id].Rotated? && s.procs[id].row < |s.tokens|
    case Abandon(id, _) => id in s.procs
    case LogIn(_, _, _) => true
    case LogOut(row, _) => row < |s.tokens|
  }

  function Minted(u: UserId, minted: RawToken, at: nat, parent: Option<nat>): Token {
    Token(u, Sha256(minted), at + REFRESH_TTL, None, parent)
  }

  function Next(s: Snapshot, a: Step): Snapshot
    requires Enabled(s, a)
  {
    match a
    case Check(id, presented, at) =>
      Snapshot(s.tokens, s.procs[id := Checked(Find(s.tokens, Sha256(presented)).value)], at)
    case Revoke(id, at) =>
      Snapshot(Revoked(s.tokens, s.procs[id].row, at), s.procs[id := Rotated(s.procs[id].row)], at)
    case Issue(id, minted, at) =>
      var row := s.procs[id].row;
      Snapshot(s.tokens + [Minted(s.tokens[row].user, minted, at, Some(row))], s.procs - {id}, at)
    case Abandon(id, at) => Snapshot(s.tokens, s.procs - {id}, at)
    case LogIn(u, minted, at) => Snapshot(s.tokens + [Minted(u, minted, at, None)], s.procs, at)
    case LogOut(row, at) => Snapshot(Revoked(s.tokens, row, at), s.procs, at)
  }

  ghost predicate Run(trace: seq<Snapshot>, steps: seq<Step>) {
    && |trace| == |steps| + 1 && trace[0] == Snapshot([], map[], 0)
    && forall i :: 0 <= i < |steps| ==> Enabled(trace[i], steps[i]) && trace[i + 1] == Next(trace[i], steps[i])
  }

  /** Two calls have accepted the token, and neither has revoked it. */
  ghost predicate Overlap(s: Snapshot, i: nat) {
    exists a, b :: a in s.procs && b in s.procs && a != b && s.procs[a] == Checked(i) && s.procs[b] == Checked(i)
  }

  /** At most one call or token comes after token `i`, and only once it is revoked. */
  ghost predicate Single(s: Snapshot, i: nat) {
    && (forall a :: a in s.procs ==> s.procs[a].row < |s.tokens|)
    && (forall j :: 0 <= j < |s.tokens| && s.tokens[j].parent.Some? ==> s.tokens[j].parent.value < |s.tokens|)
    && (forall j, k :: 0 <= j < k < |s.tokens| ==> s.tokens[j].parent != Some(i) || s.tokens[k].parent != Some(i))
    && (forall a, b :: a in s.procs && b in s.procs && a != b ==> s.procs[a].row != i || s.procs[b].row != i)
    && (forall a, j :: a in s.procs && s.procs[a].row == i && 0 <= j < |s.tokens| ==> s.tokens[j].parent != Some(i))
    && (forall a :: a in s.procs && s.procs[a] == Rotated(i) ==> s.tokens[i].revokedAt.Some?)
    && (forall j :: 0 <= j < |s.tokens| && s.tokens[j].parent == Some(i) ==> s.tokens[i].revokedAt.Some?)
  }

  lemma CheckKeepsSingle(s: Snapshot, a: Step, i: nat)
    requires Enabled(s, a) && a.Check? && Single(s, i) && !Overlap(Next(s, a), i)
    ensures Single(Next(s, a), i)
  {
    var s' := Next(s, a);
    if s'.procs[a.id].row == i {
      forall b | b in s.procs ensures s.procs[b].row != i {
        assert b != a.id && (s'.procs[b] == Checked(i) ==> Overlap(s', i));
      }
    }
  }

  lemma RevokeKeepsSingle(s: Snapshot, a: Step, i: nat)
    requires Enabled(s, a) && (a.Revoke? || a.LogOut?) && Single(s, i)
    ensures Single(Next(s, a), i)
  {
    var tokens, tokens' := s.tokens, Next(s, a).tokens;
    assert forall j :: 0 <= j < |tokens| ==> tokens'[j].parent == tokens[j].parent;
    assert forall j :: 0 <= j < |tokens| && tokens[j].revokedAt.Some? ==> tokens'[j].revokedAt.Some?;
  }

  lemma LogInKeepsSingle(s: Snapshot, a: Step, i: nat)
    requires Enabled(s, a) && a.LogIn? && Single(s, i)
    ensures Single(Next(s, a), i)
  {
    var tokens, tokens' := s.tokens, Next(s, a).tokens;
    assert forall j :: 0 <= j < |tokens| ==> tokens'[j] == tokens[j];
    assert |tokens'| == |tokens| + 1 && tokens'[|tokens|].parent == None;
  }

  /** The call's token gets its successor as the call ends. */
  lemma IssueKeepsSingle(s: Snapshot, a: Step, i: nat)
    requires Enabled(s, a) && a.Issue? && Single(s, i)
    ensures Single(Next(s, a), i)
  {
    var row, tokens, s' := s.procs[a.id].row, s.tokens, Next(s, a);
    assert forall j :: 0 <= j < |tokens| ==> s'.tokens[j] == tokens[j];
    assert |s'.tokens| == |tokens| + 1 && s'.tokens[|tokens|].parent == Some(row);
    if row == i {
      assert s.procs[a.id] == Rotated(i);
      assert forall j :: 0 <= j < |tokens| ==> tokens[j].parent != Some(i);
      assert forall b :: b in s'.procs ==> s'.procs[b].row != i;
    }
  }

  lemma StepKeepsSingle(s: Snapshot, a: Step, i: nat)
    requires Enabled(s, a) && Single(s, i) && !Overlap(Next(s, a), i)
    ensures Single(Next(s, a), i)
  {
    match a
    case Check(_, _, _) => CheckKeepsSingle(s, a, i);
    case Revoke(_, _) => RevokeKeepsSingle(s, a, i);
    case LogOut(_, _) => RevokeKeepsSingle(s, a, i);
    case Issue(_, _, _) => IssueKeepsSingle(s, a, i);
    case LogIn(_, _, _) => LogInKeepsSingle(s, a, i);
    case Abandon(_, _) =>
  }

  lemma {:induction false} RunKeepsSingle(trace: seq<Snapshot>, steps: seq<Step>, n: nat, i: nat)
    requires Run(trace, steps) && n < |trace| && forall m :: 0 <= m <= n ==> !Overlap(trace[m], i)
    ensures Single(trace[n], i)
  {
    if n > 0 {
      RunKeepsSingle(trace, steps, n - 1, i);
      StepKeepsSingle(trace[n - 1], steps[n - 1], i);
    }
  }

  /** A token gets a second successor only if two Refresh calls were at once past the
      check and before the revocation: a replay that begins after the first call has
      revoked the token never succeeds, whatever else overlaps. */
  lemma SecondUseNeedsOverlap(trace: seq<Snapshot>, steps: seq<Step>, n: nat, i: nat, j: nat, k: nat)
    requires Run(trace, steps) && n < |trace|
    requires j < k < |trace[n].tokens|
    requires trace[n].tokens[j].parent == trace[n].tokens[k].parent == Some(i)
    ensures exists m :: 0 <= m <= n && Overlap(trace[m], i)
  {
    if forall m :: 0 <= m <= n ==> !Overlap(trace[m], i) {
      RunKeepsSingle(trace, steps, n, i);
    }
  }

  /** And whenever two calls are, both can still succeed, because Revoke does not ask
      whether the token is revoked already: the condition is exact. */
  lemma OverlapAllowsSecondUse(s: Snapshot, i: nat, a: nat, b: nat, first: RawToken, second: RawToken)
    requires i < |s.tokens| && a in s.procs && b in s.procs && a != b
    requires s.procs[a] == Checked(i) && s.procs[b] == Checked(i)
    ensures Enabled(s, Revoke(a, s.now))
    ensures var s1 := Next(s, Revoke(a, s.now));
            Enabled(s1, Issue(a, first, s.now)) &&
            var s2 := Next(s1, Issue(a, first, s.now));
            Enabled(s2, Revoke(b, s.now)) &&
            var s3 := Next(s2, Revoke(b, s.now));
            Enabled(s3, Issue(b, second, s.now)) &&
            var tokens, n := Next(s3, Issue(b, second, s.now)).tokens, |s.tokens|;
            && |tokens| == n + 2
            && tokens[n].parent == Some(i) && Valid(tokens[n], s.now) && tokens[n].hash == Sha256(first)
            && tokens[n + 1].parent == Some(i) && Valid(tokens[n + 1], s.now) && tokens[n + 1].hash == Sha256(second)
  {
  }

  /** It does arise: from the token of any Login, two calls can both come to that point. */
  lemma OverlapIsReachable(u: UserId, minted: RawToken, at: nat) returns (trace: seq<Snapshot>, steps: seq<Step>)
    ensures Run(trace, steps) && |steps| == 3 && Overlap(trace[3], 0)
  {
    steps := [LogIn(u, minted, at), Check(0, minted, at), Check(1, minted, at)];
    var row := [Minted(u, minted, at, None)];
    assert Find(row, Sha256(minted)) == Some(0);
    trace := [Snapshot([], map[], 0), Snapshot(row, map[], at), Snapshot(row, map[0 := Checked(0)], at),
              Snapshot(row, map[0 := Checked(0), 1 := Checked(0)], at)];
    assert trace[3].procs[0] == trace[3].procs[1] == Checked(0);
  }

  /** A Refresh that overlaps no other takes the three steps in a row. */
  lemma AloneIsRefresh(tokens: seq<Token>, c: Call, now: nat)
    requires c.Refresh? && Do(tokens, c).1.Ok? && now <= c.at <= c.issued
    ensures var s := Snapshot(tokens, map[], now);
            Enabled(s, Check(0, c.presented, c.at)) &&
            var s1 := Next(s, Check(0, c.presented, c.at));
            Enabled(s1, Revoke(0, c.at)) &&
            var s2 := Next(s1, Revoke(0, c.at));
            Enabled(s2, Issue(0, c.minted, c.issued)) &&
            Next(s2, Issue(0, c.minted, c.issued)) == Snapshot(Do(tokens, c).0, map[], c.issued)
  {
    var s1 := Next(Snapshot(tokens, map[], now), Check(0, c.presented, c.at));
    var s2 := Next(s1, Revoke(0, c.at));
    assert Next(s2, Issue(0, c.minted, c.issued)).procs == map[];
  }

  /** And Login and Logout are one step each. */
  lemma OthersAreOneStep(tokens: seq<Token>, procs: map<nat, Proc>, c: Call, i: nat, now: nat)
    requires now <= Start(c) && Do(tokens, c).1.Ok? && !c.Refresh?
    requires c.Logout? ==> IsRow(tokens, c.presented, i) && c.getOk
    ensures var s := Snapshot(tokens, procs, now);
            var a := if c.Login? then LogIn(c.lookup.user, c.minted, c.issued) else LogOut(i, c.at);
            Enabled(s, a) && Next(s, a) == Snapshot(Do(tokens, c).0, procs, Start(c))
  {
    if c.Logout? { LogoutOutcome(tokens, c, i); }
  }

  // ----- Chains -----

  /** Links point back to revoked tokens of the same user that expire no later, and a
      call's token is where it found it. */
  ghost predicate Dated(s: Snapshot) {
    && (forall j :: 0 <= j < |s.tokens| ==> GoodLink(s.tokens, j))
    && (forall j :: 0 <= j < |s.tokens| ==> s.tokens[j].expiresAt <= s.now + REFRESH_TTL)
    && (forall a :: a in s.procs ==>
          s.procs[a].row < |s.tokens| && (s.procs[a].Rotated? ==> s.tokens[s.procs[a].row].revokedAt.Some?))
  }

  lemma RevokeKeepsDated(s: Snapshot, row: nat, at: nat)
    requires Dated(s) && row < |s.tokens| && s.now <= at
    ensures Dated(Snapshot(Revoked(s.tokens, row, at), s.procs, at))
  {
    var tokens := Revoked(s.tokens, row, at);
    forall j | 0 <= j < |tokens| ensures GoodLink(tokens, j) {
      assert GoodLink(s.tokens, j);
    }
  }

  lemma AppendKeepsDated(s: Snapshot, t: Token, at: nat)
    requires Dated(s) && s.now <= at && t.expiresAt == at + REFRESH_TTL
    requires t.parent.Some? ==>
               && t.parent.value < |s.tokens| && s.tokens[t.parent.value].revokedAt.Some?
               && s.tokens[t.parent.value].user == t.user
    ensures Dated(Snapshot(s.tokens + [t], s.procs, at))
  {
    var tokens := s.tokens + [t];
    forall j | 0 <= j < |tokens| ensures GoodLink(tokens, j) {
      if j < |s.tokens| { assert GoodLink(s.tokens, j); }
    }
  }

  lemma StepKeepsDated(s: Snapshot, a: Step)
    requires Dated(s) && Enabled(s, a)
    ensures Dated(Next(s, a))
  {
    match a
    case Check(_, _, _) =>
    case Revoke(id, at) => RevokeKeepsDated(s, s.procs[id].row, at);
    case LogOut(row, at) => RevokeKeepsDated(s, row, at);
    case Issue(id, minted, at) =>
      var row := s.procs[id].row;
      AppendKeepsDated(s, Minted(s.tokens[row].user, minted, at, Some(row)), at);
    case LogIn(u, minted, at) => AppendKeepsDated(s, Minted(u, minted, at, None), at);
    case Abandon(_, _) =>
  }

  lemma {:induction false} RunKeepsDated(trace: seq<Snapshot>, steps: seq<Step>, n: nat)
    requires Run(trace, steps) && n < |trace|
    ensures Dated(trace[n])
  {
    if n > 0 {
      RunKeepsDated(trace, steps, n - 1);
      StepKeepsDated(trace[n - 1], steps[n - 1]);
    }
  }

  /** In every interleaving in which no two calls are ever at once past the check and
      before the revocation of one token, whatever else overlaps, the tokens of a
      session form a single chain of which at most the last is live. */
  lemma ChainWithoutOverlap(trace: seq<Snapshot>, steps: seq<Step>, n: nat, i: nat, j: nat)
    requires Run(trace, steps) && n < |trace|
    requires forall m, t :: 0 <= m <= n ==> !Overlap(trace[m], t)
    requires i < j < |trace[n].tokens|
    ensures Linked(trace[n].tokens) && OneChain(trace[n].tokens, i, j)
  {
    var tokens := trace[n].tokens;
    RunKeepsDated(trace, steps, n);
    forall x, y | 0 <= x < y < |tokens| && tokens[x].parent.Some? ensures tokens[x].parent != tokens[y].parent {
      RunKeepsSingle(trace, steps, n, tokens[x].parent.value);
    }
    LinkedIsChain(tokens, i, j);
  }
}
