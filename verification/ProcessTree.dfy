/**
 What one child process has started, followed through snapshots of the process
 table. Any table is allowed: parents that are missing, loops of parents, pids
 and group numbers used again.
 */
module ProcessTrees {
  import opened Basics

  type Pid = int

  type Group = int

  datatype Process = Process(parent: Pid, group: Group)

  type Table = map<Pid, Process>

  // ----------------------------------------------------------------- descendants

  /** `path` goes from `root` down to `p`, child by child. */
  ghost predicate Descends(table: Table, root: Pid, path: seq<Pid>, p: Pid) {
    && path != [] && path[0] == root && path[|path| - 1] == p
    && (forall k :: 0 <= k < |path| ==> path[k] in table)
    && (forall k :: 0 <= k < |path| - 1 ==> table[path[k + 1]].parent == path[k])
  }

  ghost predicate Descendant(table: Table, root: Pid, p: Pid) {
    exists path :: Descends(table, root, path, p)
  }

  lemma RootDescends(table: Table, root: Pid)
    requires root in table
    ensures Descendant(table, root, root)
  {
    assert Descends(table, root, [root], root);
  }

  lemma ChildDescends(table: Table, root: Pid, p: Pid, c: Pid)
    requires Descendant(table, root, p) && c in table && table[c].parent == p
    ensures Descendant(table, root, c)
  {
    var path :| Descends(table, root, path, p);
    assert Descends(table, root, path + [c], c);
  }

  /** A set closed under children holds every descendant of its members. */
  lemma {:induction false} ClosedHolds(table: Table, root: Pid, seen: set<Pid>, path: seq<Pid>, p: Pid)
    requires Descends(table, root, path, p) && root in seen
    requires forall c :: c in table && table[c].parent in seen ==> c in seen
    ensures p in seen
    decreases |path|
  {
    if |path| > 1 {
      var up := path[..|path| - 1];
      assert Descends(table, root, up, up[|up| - 1]);
      ClosedHolds(table, root, seen, up, up[|up| - 1]);
    }
  }

  function ChildrenOf(children: map<Pid, seq<Pid>>, q: Pid): seq<Pid> {
    if q in children then children[q] else []
  }

  function Elements(s: seq<Pid>): set<Pid> {
    set x | x in s
  }

  function Kids(table: Table, done: set<Pid>, q: Pid): set<Pid> {
    set c | c in done && c in table && table[c].parent == q
  }

  /** `children` lists the pids of `done` under their parents. */
  ghost predicate Gathered(table: Table, done: set<Pid>, children: map<Pid, seq<Pid>>) {
    forall q :: Elements(ChildrenOf(children, q)) == Kids(table, done, q)
  }

  lemma GatherOne(table: Table, done: set<Pid>, children: map<Pid, seq<Pid>>, c: Pid)
    requires Gathered(table, done, children) && c in table
    ensures var p := table[c].parent;
      Gathered(table, done + {c}, children[p := ChildrenOf(children, p) + [c]])
  {
    var p := table[c].parent;
    var more := children[p := ChildrenOf(children, p) + [c]];
    forall q ensures Elements(ChildrenOf(more, q)) == Kids(table, done + {c}, q) {
      assert Elements(ChildrenOf(children, q)) == Kids(table, done, q);
      if q == p {
        assert Elements(ChildrenOf(more, p)) == Elements(ChildrenOf(children, p)) + {c};
        assert Kids(table, done + {c}, p) == Kids(table, done, p) + {c};
      } else {
        assert ChildrenOf(more, q) == ChildrenOf(children, q);
        assert Kids(table, done + {c}, q) == Kids(table, done, q);
      }
    }
  }

  lemma SomeLeft(todo: set<Pid>)
    ensures todo == {} || exists p :: p in todo
  {
    if forall p :: p !in todo {
      assert todo == {};
    }
  }

  /** The children of each pid, gathered in one pass over the table. */
  method Children(table: Table) returns (children: map<Pid, seq<Pid>>)
    ensures Gathered(table, table.Keys, children)
  {
    children := map[];
    var todo := table.Keys;
    while todo != {}
      invariant todo <= table.Keys && Gathered(table, table.Keys - todo, children)
    {
      SomeLeft(todo);
      var pid :| pid in todo;
      GatherOne(table, table.Keys - todo, children, pid);
      assert table.Keys - (todo - {pid}) == (table.Keys - todo) + {pid};
      children := children[table[pid].parent := ChildrenOf(children, table[pid].parent) + [pid]];
      todo := todo - {pid};
    }
    assert table.Keys - todo == table.Keys;
  }

  /** The worklist stands between the root and what has been seen: all of it
      descends from the root, and children of the seen are seen or waiting. */
  ghost predicate Walking(table: Table, root: Pid, seen: set<Pid>, todo: seq<Pid>) {
    && (forall p :: p in seen || p in todo ==> p in table && Descendant(table, root, p))
    && (root in seen || root in todo)
    && (forall c :: c in table && table[c].parent in seen ==> c in seen || c in todo)
  }

  lemma WalkStarts(table: Table, root: Pid)
    requires root in table
    ensures Walking(table, root, {}, [root])
  {
    RootDescends(table, root);
  }

  /** The last of the worklist was seen before. */
  lemma WalkSkips(table: Table, root: Pid, seen: set<Pid>, todo: seq<Pid>, p: Pid)
    requires Walking(table, root, seen, todo + [p]) && p in seen
    ensures Walking(table, root, seen, todo)
  {
    assert forall x :: x in todo ==> x in todo + [p];
    assert forall x :: x in todo + [p] ==> x in todo || x == p;
  }

  /** The last of the worklist is new: its children take its place. */
  lemma WalkVisits(table: Table, root: Pid, seen: set<Pid>, todo: seq<Pid>, p: Pid, more: seq<Pid>)
    requires Walking(table, root, seen, todo + [p])
    requires Elements(more) == Kids(table, table.Keys, p)
    ensures Walking(table, root, seen + {p}, todo + more)
  {
    assert p in todo + [p];
    assert forall x :: x in todo ==> x in todo + [p];
    assert forall x :: x in todo + [p] ==> x in todo || x == p;
    assert forall c :: c in Elements(more) <==> c in more;
    forall c | c in more ensures c in table && Descendant(table, root, c) {
      assert c in Kids(table, table.Keys, p);
      ChildDescends(table, root, p, c);
    }
  }

  lemma WalkEnds(table: Table, root: Pid, seen: set<Pid>)
    requires Walking(table, root, seen, [])
    ensures forall p :: p in seen <==> Descendant(table, root, p)
  {
    forall p | Descendant(table, root, p) ensures p in seen {
      var path :| Descends(table, root, path, p);
      ClosedHolds(table, root, seen, path, p);
    }
  }

  lemma Popped(todo: seq<Pid>)
    requires |todo| > 0
    ensures todo == todo[..|todo| - 1] + [todo[|todo| - 1]]
  {
  }

  /** Each pid is listed with its group. */
  ghost predicate Grouped(table: Table, ours: map<Pid, Group>) {
    forall p :: p in ours ==> p in table && ours[p] == table[p].group
  }

  lemma GroupOne(table: Table, ours: map<Pid, Group>, p: Pid)
    requires Grouped(table, ours) && p in table
    ensures Grouped(table, ours[p := table[p].group])
  {
  }

  lemma FewerLeft(all: set<Pid>, seen: set<Pid>, p: Pid)
    requires p in all && p !in seen
    ensures |all - (seen + {p})| < |all - seen|
  {
    assert all - seen == (all - (seen + {p})) + {p};
  }

  /** The worklist: every descendant of a live root and nothing else, however
      the parents run. */
  method Walk(table: Table, root: Pid) returns (ours: map<Pid, Group>)
    requires root in table
    ensures (forall p :: p in ours <==> Descendant(table, root, p)) && Grouped(table, ours)
  {
    var children := Children(table);
    ours := map[];
    var todo := [root];
    WalkStarts(table, root);
    assert ours.Keys == {};
    while |todo| > 0
      invariant Walking(table, root, ours.Keys, todo)
      invariant Grouped(table, ours)
      decreases |table.Keys - ours.Keys|, |todo|
    {
      var pid := todo[|todo| - 1];
      ghost var seen := ours.Keys;
      Popped(todo);
      todo := todo[..|todo| - 1];
      if pid in ours {
        WalkSkips(table, root, seen, todo, pid);
      } else {
        var more := ChildrenOf(children, pid);
        assert Elements(more) == Kids(table, table.Keys, pid);
        WalkVisits(table, root, seen, todo, pid, more);
        GroupOne(table, ours, pid);
        ours := ours[pid := table[pid].group];
        assert ours.Keys == seen + {pid};
        FewerLeft(table.Keys, seen, pid);
        todo := todo + more;
      }
    }
    WalkEnds(table, root, ours.Keys);
  }

  // --------------------------------------------------------------------- the tree

  /** What a tree remembers: the pids and groups it saw last. */
  datatype Memory = Memory(root: Pid, reaped: bool, pids: map<Pid, Group>, groups: set<Group>)

  /** A tree that has not looked yet. */
  function Fresh(root: Pid): Memory {
    Memory(root, false, map[], {root})
  }

  /** Which processes of a table belong to the tree: descendants of a root not
      yet reaped, remembered pids still in their group, and members of the
      remembered groups; never the reaped root's pid, never the runner's own
      group. */
  ghost predicate Belongs(m: Memory, table: Table, own: Group, p: Pid)
    requires p in table
  {
    && (|| (!m.reaped && m.root in table && Descendant(table, m.root, p))
        || (p in m.pids && m.pids[p] == table[p].group)
        || table[p].group in m.groups)
    && !(m.reaped && p == m.root)
    && table[p].group != own
  }

  ghost function Ours(m: Memory, table: Table, own: Group): map<Pid, Group> {
    map p | p in table && Belongs(m, table, own, p) :: table[p].group
  }

  ghost function Refreshed(m: Memory, table: Table, own: Group): Memory {
    var ours := Ours(m, table, own);
    var live := set p | p in table :: table[p].group;
    var groups := set g | g in m.groups + ours.Values && g in live && g != own;
    m.(pids := ours, groups := if m.reaped && m.root !in ours.Values then groups - {m.root} else groups)
  }

  ghost function Reaped(m: Memory): Memory {
    m.(reaped := true, pids := m.pids - {m.root})
  }

  class Tree {
    const root: Pid
    var reaped: bool
    var pids: map<Pid, Group>
    var groups: set<Group>

    ghost function View(): Memory
      reads this
    {
      Memory(root, reaped, pids, groups)
    }

    constructor (root: Pid)
      ensures View() == Fresh(root)
    {
      this.root := root;
      reaped, pids, groups := false, map[], {root};
    }

    method RootReaped()
      modifies this
      ensures View() == Reaped(old(View()))
    {
      reaped := true;
      pids := pids - {root};
    }

    /** The table's processes that belong to the tree, each with its group. */
    method Scan(table: Table, own: Group) returns (ours: map<Pid, Group>)
      ensures ours == Ours(View(), table, own)
    {
      var found: map<Pid, Group> := map[];
      if !reaped && root in table {
        found := Walk(table, root);
      }
      found := found + map p | p in pids && p in table && table[p].group == pids[p] :: pids[p];
      found := found + map p | p in table && table[p].group in groups :: table[p].group;
      if reaped {
        found := found - {root};
      }
      ours := map p | p in found && found[p] != own :: found[p];
      ghost var all := Ours(View(), table, own);
      assert forall p :: p in found ==> p in table && found[p] == table[p].group;
      assert forall p :: p in ours <==> p in all;
      assert forall p :: p in ours ==> ours[p] == all[p];
    }

    /** Remember what the table shows now. */
    method Refresh(table: Table, own: Group) returns (ours: map<Pid, Group>)
      modifies this
      ensures ours == Ours(old(View()), table, own) && View() == Refreshed(old(View()), table, own)
    {
      ours := Scan(table, own);
      pids := ours;
      var live := set p | p in table :: table[p].group;
      groups := set g | g in groups + ours.Values && g in live && g != own;
      if reaped && root !in ours.Values {
        groups := groups - {root};
      }
    }
  }

  // ---------------------------------------------------------------- over every run

  datatype Step = Reap | See(table: Table, own: Group)

  ghost function After(m: Memory, s: Step): Memory {
    match s
    case Reap => Reaped(m)
    case See(table, own) => Refreshed(m, table, own)
  }

  ghost function Run(m: Memory, steps: seq<Step>): Memory
    decreases |steps|
  {
    if steps == [] then m else Run(After(m, steps[0]), steps[1..])
  }

  /** Nothing of group `g` is remembered. */
  ghost predicate Forgotten(m: Memory, g: Group) {
    g !in m.groups && g !in m.pids.Values
  }

  /** What a reaped tree has forgotten it finds in no table. */
  lemma ForgottenStays(m: Memory, table: Table, own: Group, g: Group)
    requires m.reaped && Forgotten(m, g)
    ensures g !in Ours(m, table, own).Values && Forgotten(Refreshed(m, table, own), g)
  {
    var ours := Ours(m, table, own);
    forall p | p in ours ensures ours[p] != g {
      assert p in m.pids ==> m.pids[p] in m.pids.Values;
    }
  }

  /** Once the root is reaped and group `g` forgotten, no process that takes the
      number `g` later, whatever the tables show, enters the tree. */
  lemma {:induction false} NeverReturns(m: Memory, steps: seq<Step>, g: Group, table: Table, own: Group)
    requires m.reaped && Forgotten(m, g)
    ensures var end := Run(m, steps); end.reaped && Forgotten(end, g) && g !in Ours(end, table, own).Values
    decreases |steps|
  {
    if steps == [] {
      ForgottenStays(m, table, own, g);
    } else {
      if steps[0].See? {
        ForgottenStays(m, steps[0].table, steps[0].own, g);
      } else {
        assert forall p :: p in Reaped(m).pids ==> p in m.pids && m.pids[p] in m.pids.Values;
      }
      NeverReturns(After(m, steps[0]), steps[1..], g, table, own);
    }
  }

  /** A reaped tree forgets the root's group when it sees nothing of its own in
      it, and any group of which the table shows no process. */
  lemma Forgets(m: Memory, table: Table, own: Group, g: Group)
    requires m.reaped
    requires g !in Ours(m, table, own).Values && (g == m.root || forall p :: p in table ==> table[p].group != g)
    ensures Forgotten(Refreshed(m, table, own), g)
  {
  }

  /** Both together, for the root's group: after the first look that finds it
      empty, it stays so for the tree. */
  lemma RootGroupNeverReturns(m: Memory, seen: Table, own: Group, steps: seq<Step>, table: Table, later: Group)
    requires m.reaped && m.root !in Ours(m, seen, own).Values
    ensures m.root !in Ours(Run(Refreshed(m, seen, own), steps), table, later).Values
  {
    Forgets(m, seen, own, m.root);
    NeverReturns(Refreshed(m, seen, own), steps, m.root, table, later);
  }

  /** Once reaped, the root's pid is never a member again, whoever has it. */
  lemma {:induction false} ReapedRootIsOut(m: Memory, steps: seq<Step>, table: Table, own: Group)
    requires m.reaped
    ensures var end := Run(m, steps); end.reaped && end.root == m.root && m.root !in Ours(end, table, own)
    decreases |steps|
  {
    if steps != [] {
      ReapedRootIsOut(After(m, steps[0]), steps[1..], table, own);
    }
  }

  /** A look keeps group `g` in memory: it is not the runner's own, and the table
      shows a process in it, other than one with the reaped root's pid in the
      root's group. */
  ghost predicate Keeps(root: Pid, s: Step, g: Group) {
    s.See? ==> s.own != g && exists p :: p in s.table && s.table[p].group == g && (p != root || g != root)
  }

  lemma KeptByLook(m: Memory, s: Step, g: Group)
    requires m.reaped && g in m.groups && Keeps(m.root, s, g)
    ensures g in After(m, s).groups
  {
    if s.See? {
      var p :| p in s.table && s.table[p].group == g && (p != m.root || g != m.root);
      var live := set q | q in s.table :: s.table[q].group;
      assert g in live;
      if g == m.root {
        var ours := Ours(m, s.table, s.own);
        assert p in ours && ours[p] == g;
      }
    }
  }

  lemma LostByLook(m: Memory, s: Step, g: Group)
    requires m.reaped && !Keeps(m.root, s, g)
    ensures Forgotten(After(m, s), g)
  {
    var ours := Ours(m, s.table, s.own);
    forall p | p in ours ensures ours[p] != g {
      assert p != m.root;
    }
  }

  /** A process in a group the reaped tree remembers is taken for the tree's
      exactly when every look so far kept the group: whether it is the tree's own
      or has taken the number since the last look makes no difference. */
  lemma {:induction false} ReuseExactly(m: Memory, steps: seq<Step>, g: Group, table: Table, own: Group, p: Pid)
    requires m.reaped && g in m.groups && p in table && table[p].group == g
    ensures p in Ours(Run(m, steps), table, own) <==>
      p != m.root && own != g && forall i :: 0 <= i < |steps| ==> Keeps(m.root, steps[i], g)
    decreases |steps|
  {
    if steps != [] {
      var next := After(m, steps[0]);
      if Keeps(m.root, steps[0], g) {
        KeptByLook(m, steps[0], g);
        ReuseExactly(next, steps[1..], g, table, own, p);
        assert forall i :: 0 <= i < |steps[1..]| ==> steps[1..][i] == steps[i + 1];
        if forall i :: 0 <= i < |steps[1..]| ==> Keeps(m.root, steps[1..][i], g) {
          forall i | 0 <= i < |steps| ensures Keeps(m.root, steps[i], g) {
            assert i > 0 ==> steps[i] == steps[1..][i - 1];
          }
        }
      } else {
        LostByLook(m, steps[0], g);
        NeverReturns(next, steps[1..], g, table, own);
      }
    }
  }

  // ------------------------------------------------------- membership, exactly

  /** The remembered pids are all in remembered groups. */
  ghost predicate Known(m: Memory) {
    forall p :: p in m.pids ==> m.pids[p] in m.groups
  }

  /** The table shows a process in `g`, other than one with the reaped root's pid
      in the root's own group. */
  ghost predicate Inhabited(table: Table, root: Pid, reaped: bool, g: Group) {
    exists p :: p in table && table[p].group == g && !(reaped && p == root && g == root)
  }

  /** The table shows a descendant of the root in `g`. */
  ghost predicate Reaches(table: Table, root: Pid, g: Group) {
    exists q :: q in table && table[q].group == g && Descendant(table, root, q)
  }

  lemma OursIs(m: Memory, table: Table, own: Group, p: Pid)
    requires Known(m) && p in table
    ensures p in Ours(m, table, own) <==>
      && table[p].group != own && !(m.reaped && p == m.root)
      && ((!m.reaped && Descendant(table, m.root, p)) || table[p].group in m.groups)
  {
    if Descendant(table, m.root, p) {
      var path :| Descends(table, m.root, path, p);
      assert path[0] in table;
    }
  }

  /** What a look leaves of a group: kept if it was remembered and someone is in
      it, new if a descendant is. */
  lemma LookExactly(m: Memory, table: Table, own: Group, g: Group)
    requires Known(m)
    ensures g in Refreshed(m, table, own).groups <==>
      && own != g
      && ((g in m.groups && Inhabited(table, m.root, m.reaped, g)) || (!m.reaped && Reaches(table, m.root, g)))
    ensures Known(Refreshed(m, table, own))
  {
    var ours := Ours(m, table, own);
    var live := set p | p in table :: table[p].group;
    forall p | p in table
      ensures p in ours <==>
        && table[p].group != own && !(m.reaped && p == m.root)
        && ((!m.reaped && Descendant(table, m.root, p)) || table[p].group in m.groups)
      ensures table[p].group in live
    {
      OursIs(m, table, own, p);
    }
    assert forall p :: p in ours ==> ours[p] in ours.Values;
    if own != g && !m.reaped && Reaches(table, m.root, g) {
      var q :| q in table && table[q].group == g && Descendant(table, m.root, q);
      assert q in ours && ours[q] == g;
    }
    if own != g && g in m.groups && Inhabited(table, m.root, m.reaped, g) {
      var p :| p in table && table[p].group == g && !(m.reaped && p == m.root && g == m.root);
      assert m.reaped && g == m.root ==> p in ours && ours[p] == g;
    }
  }

  ghost predicate ReapedIn(steps: seq<Step>) {
    exists j :: 0 <= j < |steps| && steps[j].Reap?
  }

  /** Group `g` comes to the tree with the `i`th step: the root's own before any
      of them, others with a look that shows a descendant there while the root
      is not reaped. */
  ghost predicate Seeded(root: Pid, steps: seq<Step>, i: nat, g: Group)
    requires i <= |steps|
  {
    if i == 0 then g == root
    else
      && steps[i - 1].See? && steps[i - 1].own != g && !ReapedIn(steps[..i - 1])
      && Reaches(steps[i - 1].table, root, g)
  }

  /** The step at `j`, if it is a look, finds someone in `g`. */
  ghost predicate Shows(root: Pid, steps: seq<Step>, j: nat, g: Group)
    requires j < |steps|
  {
    steps[j].See? ==> steps[j].own != g && Inhabited(steps[j].table, root, ReapedIn(steps[..j]), g)
  }

  /** Group `g` came to the tree at some step, and no look since has found it
      empty. */
  ghost predicate Tracked(root: Pid, steps: seq<Step>, g: Group) {
    exists i: nat :: i <= |steps| && TrackedFrom(root, steps, i, g)
  }

  ghost predicate TrackedFrom(root: Pid, steps: seq<Step>, i: nat, g: Group)
    requires i <= |steps|
  {
    Seeded(root, steps, i, g) && forall j :: i <= j < |steps| ==> Shows(root, steps, j, g)
  }

  lemma {:induction false} RunSnoc(m: Memory, steps: seq<Step>)
    requires steps != []
    ensures Run(m, steps) == After(Run(m, steps[..|steps| - 1]), steps[|steps| - 1])
    decreases |steps|
  {
    var k := |steps| - 1;
    if k == 0 {
      assert steps[..0] == [] && steps[1..] == [];
    } else {
      RunSnoc(After(m, steps[0]), steps[1..]);
      assert steps[1..][..k - 1] == steps[..k][1..];
    }
  }

  lemma TrackedInit(root: Pid, steps: seq<Step>, i: nat, g: Group)
    requires steps != [] && i <= |steps| - 1
    ensures var init := steps[..|steps| - 1];
      TrackedFrom(root, steps, i, g) <==> TrackedFrom(root, init, i, g) && Shows(root, steps, |steps| - 1, g)
  {
    var k := |steps| - 1;
    var init := steps[..k];
    assert i > 0 ==> init[..i - 1] == steps[..i - 1];
    forall j | i <= j < k ensures Shows(root, steps, j, g) <==> Shows(root, init, j, g) {
      assert init[..j] == steps[..j];
    }
  }

  /** One step more: tracked before and found, or new with it. */
  lemma TrackedSnoc(root: Pid, steps: seq<Step>, g: Group)
    requires steps != []
    ensures Tracked(root, steps, g) <==>
      || (Tracked(root, steps[..|steps| - 1], g) && Shows(root, steps, |steps| - 1, g))
      || Seeded(root, steps, |steps|, g)
  {
    var k := |steps| - 1;
    var init := steps[..k];
    if Tracked(root, steps, g) {
      var i: nat :| i <= |steps| && TrackedFrom(root, steps, i, g);
      if i <= k {
        TrackedInit(root, steps, i, g);
      }
    }
    if Tracked(root, init, g) && Shows(root, steps, k, g) {
      var i: nat :| i <= |init| && TrackedFrom(root, init, i, g);
      TrackedInit(root, steps, i, g);
    }
    if Seeded(root, steps, |steps|, g) {
      assert TrackedFrom(root, steps, |steps|, g);
    }
  }

  lemma ReapedSnoc(steps: seq<Step>)
    requires steps != []
    ensures ReapedIn(steps) <==> ReapedIn(steps[..|steps| - 1]) || steps[|steps| - 1].Reap?
  {
    if ReapedIn(steps[..|steps| - 1]) {
      var j :| 0 <= j < |steps| - 1 && steps[..|steps| - 1][j].Reap?;
      assert steps[j].Reap?;
    }
  }

  /** What a tree remembers after any steps: exactly the groups it tracks. */
  lemma {:induction false} TrackedExactly(root: Pid, steps: seq<Step>, g: Group)
    ensures var m := Run(Fresh(root), steps);
      && m.root == root && (m.reaped <==> ReapedIn(steps)) && Known(m)
      && (g in m.groups <==> Tracked(root, steps, g))
    decreases |steps|
  {
    if steps == [] {
      assert g == root ==> TrackedFrom(root, steps, 0, g);
    } else {
      var k := |steps| - 1;
      TrackedExactly(root, steps[..k], g);
      RunSnoc(Fresh(root), steps);
      ReapedSnoc(steps);
      TrackedSnoc(root, steps, g);
      if steps[k].See? {
        LookExactly(Run(Fresh(root), steps[..k]), steps[k].table, steps[k].own, g);
      }
    }
  }

  /** Who belongs to a tree after any steps, in any table: not the runner's group,
      not the reaped root's pid; and a descendant of a root not yet reaped, or a
      process in a group that came to the tree and was never seen empty since. */
  lemma MemberExactly(root: Pid, steps: seq<Step>, table: Table, own: Group, p: Pid)
    requires p in table
    ensures p in Ours(Run(Fresh(root), steps), table, own) <==>
      && table[p].group != own && !(ReapedIn(steps) && p == root)
      && ((!ReapedIn(steps) && Descendant(table, root, p)) || Tracked(root, steps, table[p].group))
  {
    TrackedExactly(root, steps, table[p].group);
    OursIs(Run(Fresh(root), steps), table, own, p);
  }

  /** Once a look has found one of the tree's processes in a group, every process
      in it belongs to the tree for as long as no look finds it empty, reparented
      or not, whether the root has been reaped or not. */
  lemma {:induction false} GroupStays(root: Pid, steps: seq<Step>, i: nat, p: Pid, g: Group)
    requires i < |steps| && steps[i].See? && p in Ours(Run(Fresh(root), steps[..i]), steps[i].table, steps[i].own)
    requires steps[i].table[p].group == g
    requires forall j :: i < j < |steps| ==> Shows(root, steps, j, g)
    ensures Tracked(root, steps, g)
    decreases |steps|
  {
    var k := |steps| - 1;
    var init := steps[..k];
    if i == k {
      MemberExactly(root, init, steps[k].table, steps[k].own, p);
      TrackedSnoc(root, steps, g);
    } else {
      assert init[..i] == steps[..i];
      forall j | i < j < k ensures Shows(root, init, j, g) {
        assert init[..j] == steps[..j] && Shows(root, steps, j, g);
      }
      GroupStays(root, init, i, p, g);
      TrackedSnoc(root, steps, g);
    }
  }

  /** A process found once belongs to the tree in every later table, as long as
      all of them show it in the same group: that is not the runner's, and it is
      not the root once reaped. */
  lemma ProcessStays(root: Pid, steps: seq<Step>, i: nat, p: Pid, g: Group, table: Table, own: Group)
    requires i < |steps| && steps[i].See? && p in Ours(Run(Fresh(root), steps[..i]), steps[i].table, steps[i].own)
    requires steps[i].table[p].group == g && (p == root ==> !ReapedIn(steps))
    requires forall j :: i < j < |steps| && steps[j].See? ==>
      steps[j].own != g && p in steps[j].table && steps[j].table[p].group == g
    requires own != g && p in table && table[p].group == g
    ensures p in Ours(Run(Fresh(root), steps), table, own)
  {
    forall j | i < j < |steps| ensures Shows(root, steps, j, g) {
      if ReapedIn(steps[..j]) {
        var r :| 0 <= r < j && steps[..j][r].Reap?;
        assert steps[r].Reap?;
      }
    }
    GroupStays(root, steps, i, p, g);
    MemberExactly(root, steps, table, own, p);
  }

  /** A group that empties and is taken again between two looks is not told
      apart: process 9, new in group 5, is taken for the tree's. */
  lemma UnseenReuse()
    ensures var m := Reaped(Memory(5, false, map[], {5}));
            var first := Refreshed(m, map[7 := Process(1, 5)], 1);
            9 in Ours(first, map[9 := Process(1, 5)], 1)
  {
    var m := Reaped(Memory(5, false, map[], {5}));
    var table: Table := map[7 := Process(1, 5)];
    var ours := Ours(m, table, 1);
    assert 7 in ours && ours[7] == 5;
    var live := set p | p in table :: table[p].group;
    assert 5 in live;
  }
}
