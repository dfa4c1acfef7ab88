/** Runs in which one node alone has logged a path, and both nodes run cycles, overlapped in any
    way. The logger deals with one entry per cycle, the newest first, so the oldest has the last
    word at the other node; and the other node, which logged nothing, can take the logger's own
    file (internal/reconciler/reconciler.go:61-256, internal/grpc/server.go:112-137). */
module OldestLast {
  import opened Wrappers
  import opened Changelog
  import opened Cycle
  import opened Protocol
  import opened Blocking
  import opened OneCycle
  import opened OneLogger

  ghost predicate LoneAt(s: System, k: Key, x: Side) { OneSided(s.conf, k, Get(s, x), Get(s, Other(x))) }

  /** Both nodes run cycles, whatever fails, loses its reply or restarts; the path itself is
      neither edited nor logged, and pruning takes none of its pending entries. */
  ghost predicate LoneRun(states: seq<System>, moves: seq<Move>, k: Key, x: Side) {
    && IsRun(states, moves) && LoneAt(states[0], k, x)
    && forall i | 0 <= i < |moves| :: LoneStep(states[i], moves[i], k)
  }

  predicate LoneStep(s: System, m: Move, k: Key) {
    SparesKey(m.action, k) && LeavesPending(Get(s, m.side).node, m.action, k)
  }

  /** The move takes the file of side `x`. */
  predicate Takes(s: System, m: Move, k: Key, x: Side) {
    m.side == Other(x) && TakesFile(Get(s, x), Get(s, Other(x)), m.action, k)
  }

  predicate TakenBefore(states: seq<System>, moves: seq<Move>, i: nat, k: Key, x: Side)
    requires i <= |moves| < |states|
  {
    exists j | 0 <= j < i :: Takes(states[j], moves[j], k, x)
  }

  function FileOf(s: System, k: Key, x: Side): Option<Content> { FileAt(Get(s, x).node.tree, k) }

  lemma LoneMove(s: System, m: Move, s': System, k: Key, x: Side, oldest: Entry)
    requires LoneAt(s, k, x) && Follows(s, m, s') && LoneStep(s, m, k)
    ensures LoneAt(s', k, x) && Pending(Get(s', x), k) <= Pending(Get(s, x), k)
    ensures FileOf(s', k, x) == if Takes(s, m, k, x) then None else FileOf(s, k, x)
    ensures DueKept(Get(s, x).node, Get(s, Other(x)).node, Get(s', x).node, Get(s', Other(x)).node, k, oldest)
  {
    var me, peer := Get(s, m.side), Get(s, Other(m.side));
    StepKeepsValid(s.conf, me, peer, m.action);
    if m.side == x {
      LoggerKeepsDue(s.conf, k, me, peer, m.action, oldest);
    } else {
      PeerKeepsDue(s.conf, k, peer, me, m.action, oldest);
    }
  }

  /** What holds after some moves. */
  ghost predicate LoneSince(s0: System, s: System, taken: bool, k: Key, x: Side, oldest: Entry) {
    && LoneAt(s, k, x) && Pending(Get(s, x), k) <= Pending(Get(s0, x), k)
    && FileOf(s, k, x) == (if taken then None else FileOf(s0, k, x)) && (taken ==> Pending(Get(s, x), k) == {})
    && DueKept(Get(s0, x).node, Get(s0, Other(x)).node, Get(s, x).node, Get(s, Other(x)).node, k, oldest)
  }

  lemma LoneNext(s0: System, s: System, m: Move, s': System, taken: bool, k: Key, x: Side, oldest: Entry)
    requires LoneSince(s0, s, taken, k, x, oldest) && Follows(s, m, s') && LoneStep(s, m, k)
    ensures LoneSince(s0, s', taken || Takes(s, m, k, x), k, x, oldest)
  {
    LoneMove(s, m, s', k, x, oldest);
  }

  lemma {:induction false} LoneSoFar(states: seq<System>, moves: seq<Move>, i: nat, k: Key, x: Side, oldest: Entry)
    requires LoneRun(states, moves, k, x) && i <= |moves|
    ensures LoneSince(states[0], states[i], TakenBefore(states, moves, i, k, x), k, x, oldest)
  {
    if i > 0 {
      LoneSoFar(states, moves, i - 1, k, x, oldest);
      assert Follows(states[i - 1], moves[i - 1], states[i]) && LoneStep(states[i - 1], moves[i - 1], k);
      var taken := TakenBefore(states, moves, i - 1, k, x);
      LoneNext(states[0], states[i - 1], moves[i - 1], states[i], taken, k, x, oldest);
      assert TakenBefore(states, moves, i, k, x)
        <==> taken || Takes(states[i - 1], moves[i - 1], k, x);
    }
  }

  /** The logger's file stays where it is until a turn of the other node takes it, which none
      does while an entry of the path is pending. */
  lemma FileStaysUnlessTaken(states: seq<System>, moves: seq<Move>, i: nat, k: Key, x: Side)
    requires LoneRun(states, moves, k, x) && i <= |moves|
    ensures FileOf(states[i], k, x) == if TakenBefore(states, moves, i, k, x) then None else FileOf(states[0], k, x)
    ensures Pending(Get(states[i], x), k) != {} ==> !TakenBefore(states, moves, i, k, x)
  {
    LoneSoFar(states, moves, i, k, x, AnyEntry(k));
  }

  function AnyEntry(k: Key): Entry { Entry(0, k, Delete, Stamp(0, 0), "") }

  /** The trees agree on the path. */
  predicate AgreeOn(s: System, k: Key) { FileAt(s.left.node.tree, k) == FileAt(s.right.node.tree, k) }

  /** When the logger's entries of the path are settled, the other node has what the oldest of
      them says: the logger's file, or none if that is a delete; if the logger had no file,
      any delete removes the other's. The trees then agree on the path if and only if: where
      the logger had the file, the oldest entry is a delete exactly if the file has been
      taken; where it had none, some entry is a delete or the other node had none either. */
  lemma OldestDecides(states: seq<System>, moves: seq<Move>, i: nat, k: Key, x: Side, id: nat)
    requires LoneRun(states, moves, k, x) && i <= |moves|
    requires IsOldest(Get(states[0], x).node.rows, k, id) && Pending(Get(states[i], x), k) == {}
    ensures var file, file' := FileOf(states[0], k, x), FileOf(states[0], k, Other(x));
      var rows := Get(states[0], x).node.rows;
      var oldest, taken := rows[id].entry, TakenBefore(states, moves, i, k, x);
      && FileOf(states[i], k, Other(x)) == (if file.Some? then (if oldest.kind.Delete? then None else file)
                                            else if DeletePending(rows, k) then None else file')
      && (AgreeOn(states[i], k) <==>
            if file.Some? then (oldest.kind.Delete? <==> taken) else DeletePending(rows, k) || file' == None)
  {
    LoneSoFar(states, moves, i, k, x, Get(states[0], x).node.rows[id].entry);
  }

  /* ---- the taking, by what is known before it ---- */

  /** The fetch at step `f` is the last of side `y` before step `j`. */
  predicate LastFetch(moves: seq<Move>, f: nat, j: nat, y: Side) {
    && f < j <= |moves| && moves[f].side == y && moves[f].action.Fetch?
    && forall n | f < n < j :: moves[n].side == y ==> !moves[n].action.Fetch?
  }

  /** A node in its cycle still has what it fetched. */
  predicate Holds(d: Daemon, remote: map<Key, Entry>) { d.phase.Idle? || d.phase.remote == remote }

  lemma HoldsOn(s: System, m: Move, s': System, y: Side, remote: map<Key, Entry>)
    requires ValidSystem(s) && Follows(s, m, s') && Holds(Get(s, y), remote)
    requires m.side == y ==> !m.action.Fetch?
    ensures Holds(Get(s', y), remote)
  {
    StepKeepsLogs(s.conf, Get(s, m.side), Get(s, Other(m.side)), m.action);
  }

  lemma HoldsNext(states: seq<System>, moves: seq<Move>, j: nat, y: Side, remote: map<Key, Entry>)
    requires IsRun(states, moves) && ValidSystem(states[0]) && j < |moves| && Holds(Get(states[j], y), remote)
    requires moves[j].side == y ==> !moves[j].action.Fetch?
    ensures Holds(Get(states[j + 1], y), remote)
  {
    RunKeepsValid(states, moves, j);
    assert Follows(states[j], moves[j], states[j + 1]);
    HoldsOn(states[j], moves[j], states[j + 1], y, remote);
  }

  lemma HoldsAfter(states: seq<System>, moves: seq<Move>, f: nat, y: Side)
    requires IsRun(states, moves) && f < |moves| && moves[f].side == y && moves[f].action.Fetch?
    ensures Holds(Get(states[f + 1], y), moves[f].action.remote)
  {
    assert Follows(states[f], moves[f], states[f + 1]);
  }

  lemma {:induction false} HoldsSince(states: seq<System>, moves: seq<Move>, f: nat, j: nat, y: Side)
    requires IsRun(states, moves) && ValidSystem(states[0]) && LastFetch(moves, f, j, y)
    ensures Holds(Get(states[j], y), moves[f].action.remote)
  {
    if j == f + 1 {
      HoldsAfter(states, moves, f, y);
    } else {
      HoldsSince(states, moves, f, j - 1, y);
      HoldsNext(states, moves, j - 1, y, moves[f].action.remote);
    }
  }

  lemma StaysIdle(s: System, m: Move, s': System, y: Side)
    requires ValidSystem(s) && Follows(s, m, s') && Get(s, y).phase.Idle? && !(m.side == y && m.action.Fetch?)
    ensures Get(s', y).phase.Idle?
  {
    StepKeepsLogs(s.conf, Get(s, m.side), Get(s, Other(m.side)), m.action);
  }

  ghost predicate HasFetched(moves: seq<Move>, j: nat, y: Side) {
    exists n: nat :: LastFetch(moves, n, j, y)
  }

  lemma LastFetchStays(moves: seq<Move>, j: nat, y: Side)
    requires j < |moves| && HasFetched(moves, j, y) && !(moves[j].side == y && moves[j].action.Fetch?)
    ensures HasFetched(moves, j + 1, y)
  {
    var n: nat :| LastFetch(moves, n, j, y);
    assert LastFetch(moves, n, j + 1, y);
  }

  /** A node in the middle of its cycle has fetched. */
  lemma {:induction false} FetchedOrIdle(states: seq<System>, moves: seq<Move>, j: nat, y: Side)
    requires IsRun(states, moves) && ValidSystem(states[0]) && Get(states[0], y).phase.Idle? && j <= |moves|
    ensures Get(states[j], y).phase.Idle? || HasFetched(moves, j, y)
  {
    if j > 0 {
      var m := moves[j - 1];
      FetchedOrIdle(states, moves, j - 1, y);
      RunKeepsValid(states, moves, j - 1);
      assert Follows(states[j - 1], m, states[j]);
      if m.side == y && m.action.Fetch? {
        assert LastFetch(moves, j - 1, j, y);
      } else if Get(states[j - 1], y).phase.Idle? {
        StaysIdle(states[j - 1], m, states[j], y);
      } else {
        LastFetchStays(moves, j - 1, y);
      }
    }
  }

  predicate SeesDelete(a: Action, k: Key) { a.Fetch? && k in a.remote && a.remote[k].kind.Delete? }

  /** The move at `j` is a turn of side `y` for the path whose call gets through; the fetch at `n`,
      with which its cycle began, saw a delete. */
  predicate TurnAfter(moves: seq<Move>, n: nat, j: nat, k: Key, y: Side) {
    && j < |moves| && LastFetch(moves, n, j, y) && SeesDelete(moves[n].action, k)
    && moves[j].side == y && IsTurn(moves[j].action, k) && moves[j].action.env.callOk
  }

  lemma TakesIffFetched(states: seq<System>, moves: seq<Move>, n: nat, j: nat, k: Key, x: Side)
    requires IsRun(states, moves) && ValidSystem(states[0]) && j < |moves| && LastFetch(moves, n, j, Other(x))
    ensures Takes(states[j], moves[j], k, x)
            <==> TurnAfter(moves, n, j, k, Other(x)) && Pending(Get(states[j], x), k) == {}
  {
    HoldsSince(states, moves, n, j, Other(x));
    assert Follows(states[j], moves[j], states[j + 1]);
  }

  /** Such a turn of the other node came when nothing of the path was pending at the logger. */
  predicate SeenBefore(states: seq<System>, moves: seq<Move>, i: nat, k: Key, x: Side)
    requires i <= |moves| < |states|
  {
    exists j: nat, n: nat | n < j < i :: TurnAfter(moves, n, j, k, Other(x)) && Pending(Get(states[j], x), k) == {}
  }

  /** The logger's file is taken if and only if some fetch of the other node saw a delete and
      the turn of that cycle came when the logger had marked its last entry. */
  lemma TakenIffSeen(states: seq<System>, moves: seq<Move>, i: nat, k: Key, x: Side)
    requires LoneRun(states, moves, k, x) && i <= |moves| && Get(states[0], Other(x)).phase.Idle?
    ensures TakenBefore(states, moves, i, k, x) <==> SeenBefore(states, moves, i, k, x)
  {
    if TakenBefore(states, moves, i, k, x) {
      var j: nat :| j < i && Takes(states[j], moves[j], k, x);
      FetchedOrIdle(states, moves, j, Other(x));
      var n: nat :| LastFetch(moves, n, j, Other(x));
      TakesIffFetched(states, moves, n, j, k, x);
    }
    if SeenBefore(states, moves, i, k, x) {
      var j: nat, n: nat :|
        n < j < i && TurnAfter(moves, n, j, k, Other(x)) && Pending(Get(states[j], x), k) == {};
      TakesIffFetched(states, moves, n, j, k, x);
    }
  }

  /** A fetch sees a delete exactly if that is the logger's newest pending entry of the path. */
  lemma SeesIfNewest(states: seq<System>, moves: seq<Move>, n: nat, k: Key, x: Side, e: Entry)
    requires IsRun(states, moves) && n < |moves| && moves[n].side == Other(x) && moves[n].action.Fetch?
    requires IsNewest(Get(states[n], x).node.rows, k, e)
    ensures SeesDelete(moves[n].action, k) <==> e.kind.Delete?
  {
    assert Follows(states[n], moves[n], states[n + 1]);
    SnapshotOfNewest(moves[n].action.remote, Get(states[n], x).node.rows, k, e);
  }
}
