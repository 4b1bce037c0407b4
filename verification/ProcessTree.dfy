// src/core/agents/agent-config-resolver.ts: finding the agent among the descendants of
// a pane's process. The process table may list a pid twice, and parents may be cyclic.
module ProcessTree {
  import opened Basics

  datatype Row = Row(pid: int, ppid: int, command: string)

  // ---- The table as a graph -------------------------------------------------------------

  predicate IsChild(rows: seq<Row>, p: int, c: int) {
    exists k :: 0 <= k < |rows| && rows[k].ppid == p && rows[k].pid == c
  }

  // The last row of a pid gives its command.
  function CommandOf(rows: seq<Row>, pid: int): Option<string> {
    if rows == [] then None
    else if rows[|rows| - 1].pid == pid then Some(rows[|rows| - 1].command)
    else CommandOf(rows[..|rows| - 1], pid)
  }

  lemma {:induction false} LastRowGivesCommand(rows: seq<Row>, k: nat)
    requires k < |rows| && forall j :: k < j < |rows| ==> rows[j].pid != rows[k].pid
    ensures CommandOf(rows, rows[k].pid) == Some(rows[k].command)
  {
    var n := |rows| - 1;
    if k < n {
      LastRowGivesCommand(rows[..n], k);
      assert rows[..n][k] == rows[k];
    }
  }

  // A process whose (non-empty) command the caller is looking for.
  predicate IsAgent(rows: seq<Row>, matches: string -> bool, pid: int) {
    var command := CommandOf(rows, pid);
    command.Some? && command.value != "" && matches(command.value)
  }

  ghost predicate IsPath(rows: seq<Row>, path: seq<int>) {
    path != [] && forall k :: 0 <= k < |path| - 1 ==> IsChild(rows, path[k], path[k + 1])
  }

  // The process is reached from the root through `depth` generations.
  ghost predicate ReachedAt(rows: seq<Row>, root: int, pid: int, depth: nat) {
    exists path :: IsPath(rows, path) && |path| == depth + 1 && path[0] == root && path[depth] == pid
  }

  lemma RootReached(rows: seq<Row>, root: int)
    ensures ReachedAt(rows, root, root, 0)
  {
    assert IsPath(rows, [root]);
  }

  lemma ChildReached(rows: seq<Row>, root: int, p: int, c: int, depth: nat)
    requires ReachedAt(rows, root, p, depth) && IsChild(rows, p, c)
    ensures ReachedAt(rows, root, c, depth + 1)
  {
    var path :| IsPath(rows, path) && |path| == depth + 1 && path[0] == root && path[depth] == p;
    var longer := path + [c];
    assert IsPath(rows, longer) && longer[depth + 1] == c;
  }

  // ---- Children lists, as the loop over the rows builds them ------------------------------

  function ChildList(rows: seq<Row>, p: int): seq<int> {
    if rows == [] then []
    else ChildList(rows[..|rows| - 1], p)
         + if rows[|rows| - 1].ppid == p then [rows[|rows| - 1].pid] else []
  }

  lemma {:induction false} ChildListIsChildren(rows: seq<Row>, p: int, c: int)
    ensures c in ChildList(rows, p) <==> IsChild(rows, p, c)
  {
    if rows != [] {
      var n := |rows| - 1;
      ChildListIsChildren(rows[..n], p, c);
      if c in ChildList(rows[..n], p) {
        var k :| 0 <= k < n && rows[..n][k].ppid == p && rows[..n][k].pid == c;
        assert rows[k].ppid == p && rows[k].pid == c;
      }
      if k :| 0 <= k < n && rows[k].ppid == p && rows[k].pid == c {
        assert rows[..n][k] == rows[k];
      }
    }
  }

  // Children come in the order of the table.
  lemma {:induction false} ChildListInOrder(rows: seq<Row>, more: seq<Row>, p: int)
    ensures ChildList(rows + more, p) == ChildList(rows, p) + ChildList(more, p)
  {
    if more == [] {
      assert rows + more == rows;
    } else {
      var n := |more| - 1;
      ChildListInOrder(rows, more[..n], p);
      assert (rows + more)[..|rows + more| - 1] == rows + more[..n];
    }
  }

  lemma ChildOfOneRow(r: Row, p: int)
    ensures ChildList([r], p) == if r.ppid == p then [r.pid] else []
  {
    assert [r][..0] == [];
  }

  function Pids(rows: seq<Row>): set<int> {
    set r | r in rows :: r.pid
  }

  lemma NoRows()
    ensures forall p :: ChildList([], p) == [] && CommandOf([], p).None?
  {
  }

  lemma NextRow(rows: seq<Row>, i: nat, p: int)
    requires i < |rows|
    ensures ChildList(rows[..i + 1], p)
         == if rows[i].ppid == p then ChildList(rows[..i], p) + [rows[i].pid] else ChildList(rows[..i], p)
    ensures CommandOf(rows[..i + 1], p)
         == if rows[i].pid == p then Some(rows[i].command) else CommandOf(rows[..i], p)
  {
    assert rows[..i + 1][..i] == rows[..i] && rows[..i + 1][i] == rows[i];
  }

  method IndexRows(rows: seq<Row>) returns (children: map<int, seq<int>>, command: map<int, string>)
    ensures forall p :: ChildrenIn(children, p) == ChildList(rows, p)
    ensures forall p :: (if p in command then Some(command[p]) else None) == CommandOf(rows, p)
  {
    hide ChildList, CommandOf;
    children, command := map[], map[];
    var i := 0;
    NoRows();
    while i < |rows|
      invariant 0 <= i <= |rows|
      invariant forall p :: ChildrenIn(children, p) == ChildList(rows[..i], p)
      invariant forall p :: (if p in command then Some(command[p]) else None) == CommandOf(rows[..i], p)
    {
      var r := rows[i];
      ghost var before, names := children, command;
      command := command[r.pid := r.command];
      if r.ppid in children {
        children := children[r.ppid := children[r.ppid] + [r.pid]];
      } else {
        children := children[r.ppid := [r.pid]];
      }
      forall p
        ensures ChildrenIn(children, p) == ChildList(rows[..i + 1], p)
        ensures (if p in command then Some(command[p]) else None) == CommandOf(rows[..i + 1], p)
      {
        NextRow(rows, i, p);
        assert ChildrenIn(before, p) == ChildList(rows[..i], p);
        assert (if p in names then Some(names[p]) else None) == CommandOf(rows[..i], p);
      }
      i := i + 1;
    }
    assert rows[..i] == rows;
  }

  function ChildrenIn(children: map<int, seq<int>>, p: int): seq<int> {
    if p in children then children[p] else []
  }

  // ---- What the breadth-first walk keeps -----------------------------------------------------

  // The queue with its depths, and the processes already visited with theirs.
  ghost predicate WalkInv(
    rows: seq<Row>, root: int, matches: string -> bool, queue: seq<int>, depths: seq<nat>, seen: map<int, nat>)
  {
    && |queue| == |depths|
    && (forall k :: 0 <= k < |queue| ==> ReachedAt(rows, root, queue[k], depths[k]))
    && (forall j, k :: 0 <= j < k < |queue| ==> depths[j] <= depths[k] <= depths[j] + 1)
    && (root in seen || (queue != [] && queue[0] == root && depths[0] == 0))
    && (forall v :: v in seen ==> !IsAgent(rows, matches, v))
    && (forall v :: v in seen ==> forall k :: 0 <= k < |queue| ==> seen[v] <= depths[k])
    && (root in seen ==> seen[root] == 0)
    && (forall v, c :: v in seen && IsChild(rows, v, c) ==> Known(queue, depths, seen, c, seen[v] + 1))
  }

  // The process has been visited, or waits in the queue, at no more than this depth.
  ghost predicate Known(queue: seq<int>, depths: seq<nat>, seen: map<int, nat>, pid: int, depth: nat)
    requires |queue| == |depths|
  {
    || (pid in seen && seen[pid] <= depth)
    || exists k :: 0 <= k < |queue| && queue[k] == pid && depths[k] <= depth
  }

  // Along any path from the root, the walk knows every process up to and including the
  // first one it has not visited.
  lemma {:induction false} PathIsKnown(
    rows: seq<Row>, root: int, matches: string -> bool, queue: seq<int>, depths: seq<nat>, seen: map<int, nat>,
    path: seq<int>, n: nat)
    requires WalkInv(rows, root, matches, queue, depths, seen)
    requires IsPath(rows, path) && path[0] == root && n < |path|
    ensures (path[n] in seen && seen[path[n]] <= n)
         || exists k, m :: 0 <= k < |queue| && 0 <= m <= n && queue[k] == path[m] && depths[k] <= m
  {
    if n == 0 {
      if root !in seen { assert queue[0] == path[0] && depths[0] <= 0; }
    } else {
      PathIsKnown(rows, root, matches, queue, depths, seen, path, n - 1);
      var v := path[n - 1];
      if v in seen && seen[v] <= n - 1 {
        assert IsChild(rows, v, path[n]);
        assert Known(queue, depths, seen, path[n], seen[v] + 1);
        if !(path[n] in seen && seen[path[n]] <= n) {
          var k :| 0 <= k < |queue| && queue[k] == path[n] && depths[k] <= seen[v] + 1;
          assert depths[k] <= n;
        }
      } else {
        var k, m :| 0 <= k < |queue| && 0 <= m <= n - 1 && queue[k] == path[m] && depths[k] <= m;
      }
    }
  }

  // No agent lies above the depth of the queue's front.
  lemma NoAgentAbove(
    rows: seq<Row>, root: int, matches: string -> bool, queue: seq<int>, depths: seq<nat>, seen: map<int, nat>,
    pid: int, depth: nat)
    requires WalkInv(rows, root, matches, queue, depths, seen)
    requires ReachedAt(rows, root, pid, depth) && IsAgent(rows, matches, pid)
    ensures queue != [] && depths[0] <= depth
  {
    var path :| IsPath(rows, path) && |path| == depth + 1 && path[0] == root && path[depth] == pid;
    PathIsKnown(rows, root, matches, queue, depths, seen, path, depth);
    var k, m :| 0 <= k < |queue| && 0 <= m <= depth && queue[k] == path[m] && depths[k] <= m;
    assert depths[0] <= depths[k];
  }

  lemma SkipKeepsInv(
    rows: seq<Row>, root: int, matches: string -> bool, queue: seq<int>, depths: seq<nat>, seen: map<int, nat>)
    requires WalkInv(rows, root, matches, queue, depths, seen) && queue != [] && queue[0] in seen
    ensures WalkInv(rows, root, matches, queue[1..], depths[1..], seen)
  {
    forall v, c | v in seen && IsChild(rows, v, c) ensures Known(queue[1..], depths[1..], seen, c, seen[v] + 1) {
      assert Known(queue, depths, seen, c, seen[v] + 1);
      if !(c in seen && seen[c] <= seen[v] + 1) {
        var k :| 0 <= k < |queue| && queue[k] == c && depths[k] <= seen[v] + 1;
        // visited processes were visited no deeper than the front of the queue
        assert k > 0;
        assert queue[1..][k - 1] == c && depths[1..][k - 1] == depths[k];
      }
    }
  }

  lemma VisitReaches(rows: seq<Row>, root: int, queue: seq<int>, depths: seq<nat>, children: seq<int>, more: seq<nat>)
    requires |queue| == |depths| && queue != []
    requires forall k :: 0 <= k < |queue| ==> ReachedAt(rows, root, queue[k], depths[k])
    requires children == ChildList(rows, queue[0])
    requires |more| == |children| && forall k :: 0 <= k < |more| ==> more[k] == depths[0] + 1
    ensures
      var queue', depths' := queue[1..] + children, depths[1..] + more;
      forall k :: 0 <= k < |queue'| ==> ReachedAt(rows, root, queue'[k], depths'[k])
  {
    var n := |queue| - 1;
    forall k | 0 <= k < |children| ensures ReachedAt(rows, root, children[k], more[k]) {
      ChildListIsChildren(rows, queue[0], children[k]);
      ChildReached(rows, root, queue[0], children[k], depths[0]);
    }
  }

  lemma VisitKnows(
    rows: seq<Row>, queue: seq<int>, depths: seq<nat>, seen: map<int, nat>, children: seq<int>, more: seq<nat>,
    v: int, c: int)
    requires |queue| == |depths| && queue != [] && queue[0] !in seen
    requires children == ChildList(rows, queue[0])
    requires |more| == |children| && forall k :: 0 <= k < |more| ==> more[k] == depths[0] + 1
    requires forall k :: 0 <= k < |depths| ==> depths[0] <= depths[k]
    requires IsChild(rows, v, c) && (v == queue[0] || (v in seen && Known(queue, depths, seen, c, seen[v] + 1)))
    ensures Known(queue[1..] + children, depths[1..] + more, seen[queue[0] := depths[0]], c,
                  seen[queue[0] := depths[0]][v] + 1)
  {
    var n, queue', depths' := |queue| - 1, queue[1..] + children, depths[1..] + more;
    if v == queue[0] {
      ChildListIsChildren(rows, v, c);
      var k :| 0 <= k < |children| && children[k] == c;
      assert queue'[n + k] == c && depths'[n + k] == depths[0] + 1;
    } else if !(c in seen && seen[c] <= seen[v] + 1) {
      var k :| 0 <= k < |queue| && queue[k] == c && depths[k] <= seen[v] + 1;
      if k > 0 { assert queue'[k - 1] == c && depths'[k - 1] == depths[k]; }
    }
  }

  // Visiting the front of the queue: its children, one generation deeper, join the end.
  lemma VisitKeepsInv(
    rows: seq<Row>, root: int, matches: string -> bool, queue: seq<int>, depths: seq<nat>, seen: map<int, nat>,
    children: seq<int>, more: seq<nat>)
    requires WalkInv(rows, root, matches, queue, depths, seen) && queue != [] && queue[0] !in seen
    requires !IsAgent(rows, matches, queue[0])
    requires children == ChildList(rows, queue[0])
    requires |more| == |children| && forall k :: 0 <= k < |more| ==> more[k] == depths[0] + 1
    ensures WalkInv(rows, root, matches, queue[1..] + children, depths[1..] + more, seen[queue[0] := depths[0]])
  {
    hide IsAgent, IsChild, ReachedAt, Known, ChildList;
    var pid, d := queue[0], depths[0];
    var queue', depths', seen' := queue[1..] + children, depths[1..] + more, seen[pid := d];
    assert forall k :: 0 <= k < |depths| ==> d <= depths[k] <= d + 1;
    VisitReaches(rows, root, queue, depths, children, more);
    forall v, c | v in seen' && IsChild(rows, v, c) ensures Known(queue', depths', seen', c, seen'[v] + 1) {
      VisitKnows(rows, queue, depths, seen, children, more, v, c);
    }
  }

  lemma WalkStarts(rows: seq<Row>, root: int, matches: string -> bool)
    ensures WalkInv(rows, root, matches, [root], [0], map[])
  {
    RootReached(rows, root);
  }

  // An agent at the front of the queue is as close to the root as any.
  lemma FrontIsClosest(
    rows: seq<Row>, root: int, matches: string -> bool, queue: seq<int>, depths: seq<nat>, seen: map<int, nat>)
    requires WalkInv(rows, root, matches, queue, depths, seen) && queue != []
    ensures ReachedAt(rows, root, queue[0], depths[0])
    ensures forall pid, other: nat ::
      ReachedAt(rows, root, pid, other) && IsAgent(rows, matches, pid) ==> depths[0] <= other
  {
    forall pid, other: nat | ReachedAt(rows, root, pid, other) && IsAgent(rows, matches, pid)
      ensures depths[0] <= other
    {
      NoAgentAbove(rows, root, matches, queue, depths, seen, pid, other);
    }
  }

  lemma NoneLeft(rows: seq<Row>, root: int, matches: string -> bool, seen: map<int, nat>)
    requires WalkInv(rows, root, matches, [], [], seen)
    ensures forall pid, depth: nat :: ReachedAt(rows, root, pid, depth) ==> !IsAgent(rows, matches, pid)
  {
    forall pid, depth: nat | ReachedAt(rows, root, pid, depth) ensures !IsAgent(rows, matches, pid) {
      if IsAgent(rows, matches, pid) {
        NoAgentAbove(rows, root, matches, [], [], seen, pid, depth);
      }
    }
  }

  lemma ChildrenInTable(rows: seq<Row>, p: int, k: nat)
    requires k < |ChildList(rows, p)|
    ensures ChildList(rows, p)[k] in Pids(rows)
  {
    ChildListIsChildren(rows, p, ChildList(rows, p)[k]);
  }

  // Main result: the walk ends on every table. It answers null exactly when no
  // reachable process is an agent, and otherwise an agent that no other reachable agent
  // is closer to the pane than.
  method FindAgentPid(rows: seq<Row>, panePid: int, matches: string -> bool) returns (found: Option<int>)
    ensures found.None? <==>
              forall pid, depth: nat :: ReachedAt(rows, panePid, pid, depth) ==> !IsAgent(rows, matches, pid)
    ensures found.Some? ==>
              && IsAgent(rows, matches, found.value)
              && exists depth: nat ::
                   && ReachedAt(rows, panePid, found.value, depth)
                   && forall pid, other: nat ::
                        ReachedAt(rows, panePid, pid, other) && IsAgent(rows, matches, pid) ==> depth <= other
  {
    hide WalkInv, ReachedAt, ChildList, Pids;
    var children, command := IndexRows(rows);
    var queue := [panePid];
    var seen: set<int> := {};
    ghost var depths: seq<nat> := [0];
    ghost var visited: map<int, nat> := map[];
    ghost var universe := {panePid} + Pids(rows);
    WalkStarts(rows, panePid, matches);
    while queue != []
      invariant seen == visited.Keys && |queue| == |depths|
      invariant WalkInv(rows, panePid, matches, queue, depths, visited)
      invariant forall k :: 0 <= k < |queue| ==> queue[k] in universe
      decreases universe - seen, |queue|
    {
      var pid := queue[0];
      if pid in seen {
        SkipKeepsInv(rows, panePid, matches, queue, depths, visited);
        queue, depths := queue[1..], depths[1..];
        continue;
      }
      var cmd := if pid in command then Some(command[pid]) else None;
      assert cmd == CommandOf(rows, pid);
      if cmd.Some? && cmd.value != "" && matches(cmd.value) {
        FrontIsClosest(rows, panePid, matches, queue, depths, visited);
        return Some(pid);
      }
      var next := ChildrenIn(children, pid);
      ghost var more: seq<nat> := seq(|next|, _ => depths[0] + 1);
      VisitKeepsInv(rows, panePid, matches, queue, depths, visited, next, more);
      forall k | 0 <= k < |next| ensures next[k] in universe {
        ChildrenInTable(rows, pid, k);
      }
      seen := seen + {pid};
      visited := visited[pid := depths[0]];
      queue := PushAll(queue[1..], next);
      depths := depths[1..] + more;
    }
    NoneLeft(rows, panePid, matches, visited);
    return None;
  }

  method PushAll(queue: seq<int>, pids: seq<int>) returns (longer: seq<int>)
    ensures longer == queue + pids
  {
    longer := queue;
    var i := 0;
    while i < |pids|
      invariant 0 <= i <= |pids| && longer == queue + pids[..i]
    {
      longer := longer + [pids[i]];
      i := i + 1;
    }
    assert pids[..i] == pids;
  }
}
