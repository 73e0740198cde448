/** How serial requests sit inside the task machine: one task driven to its end on its own. */
module ReplicaDriving {
  import opened Sequences
  import opened Shared
  import opened ReplicaRouter
  import opened ReplicaServing
  import opened ReplicaRuns

  datatype Reply = Reply(probe: bool, post: Post)

  /** One task resumed on its own with these replies, one after another. */
  ghost function Drive(s: Router, task: Task, replies: seq<Reply>): (Router, Task)
    decreases |replies|
  {
    if replies == [] then (s, task)
    else
      var (u, pc) := Continue(s, task, replies[0].probe, replies[0].post);
      Drive(u, task.(pc := pc), replies[1..])
  }

  lemma DriveCons(s: Router, task: Task, r: Reply, more: seq<Reply>)
    ensures var (u, pc) := Continue(s, task, r.probe, r.post);
            Drive(s, task, [r] + more) == Drive(u, task.(pc := pc), more)
  {
    assert ([r] + more)[1..] == more;
  }

  lemma {:induction false} DriveAppend(s: Router, task: Task, a: seq<Reply>, b: seq<Reply>)
    ensures Drive(s, task, a + b) == (var (u, v) := Drive(s, task, a); Drive(u, v, b))
    decreases |a|
  {
    if a == [] {
      assert a + b == b;
    } else {
      var (u, pc) := Continue(s, task, a[0].probe, a[0].post);
      DriveAppend(u, task.(pc := pc), a[1..], b);
      assert (a + b)[1..] == a[1..] + b;
    }
  }

  /** A reply that the task does not look at. */
  const UNREAD := Reply(true, Accepted)

  lemma {:induction false} SweepDrives(s: Router, task: Task, todo: seq<Replica>, probe: ReplicaId -> bool)
      returns (replies: seq<Reply>)
    requires task.pc == Sweeping(todo)
    ensures Drive(s, task, replies) == (s.Sweep(todo, probe), task.(pc := Sweeping([])))
    decreases |todo|
  {
    replies := [];
    if todo != [] {
      var r, rest := todo[0], todo[1..];
      if r.id in s.fenced {
        var more := SweepDrives(s, task.(pc := Sweeping(rest)), rest, probe);
        DriveCons(s, task, UNREAD, more);
        replies := [UNREAD] + more;
      } else {
        var u := if probe(r.id) then s else s.Fence(r.id, HealthProbeFailed);
        var more := SweepDrives(u, task.(pc := Sweeping(rest)), rest, probe);
        var answer := Reply(probe(r.id), Accepted);
        DriveCons(s, task.(pc := SweepProbing(r, rest)), answer, more);
        DriveCons(s, task, UNREAD, [answer] + more);
        replies := [UNREAD] + ([answer] + more);
      }
    }
  }

  lemma {:induction false} FloorDrives(s: Router, task: Task, todo: seq<Replica>, ready: nat,
      probe: ReplicaId -> bool) returns (replies: seq<Reply>)
    requires task.pc == Flooring(todo, ready)
    ensures Drive(s, task, replies) == (s, task.(pc := Flooring([], ready + |Passing(todo, probe)|)))
    decreases |todo|
  {
    replies := [];
    if todo != [] {
      var rest, count := todo[1..], if probe(todo[0].id) then ready + 1 else ready;
      var more := FloorDrives(s, task.(pc := Flooring(rest, count)), rest, count, probe);
      var answer := Reply(probe(todo[0].id), Accepted);
      DriveCons(s, task, answer, more);
      replies := [answer] + more;
    }
  }

  /** What the comprehension at 157-161 still has to add from position `next` on. */
  ghost function Remaining(s: Router, next: nat, probe: ReplicaId -> bool): seq<Replica>
    requires next <= |s.replicas|
  {
    Passing(Live(s.replicas[next..], s.fenced), probe)
  }

  lemma RemainingStep(s: Router, next: nat, found: seq<Replica>, probe: ReplicaId -> bool)
    requires next < |s.replicas|
    ensures var r := s.replicas[next];
            var found' := if r.active && r.id !in s.fenced && probe(r.id) then found + [r] else found;
            found' + Remaining(s, next + 1, probe) == found + Remaining(s, next, probe)
  {
    SliceStep(s.replicas, next);
    var r, live := s.replicas[next], Live(s.replicas[next + 1..], s.fenced);
    if r.active && r.id !in s.fenced {
      assert ([r] + live)[1..] == live;
    } else {
      assert Live(s.replicas[next..], s.fenced) == [] + live == live;
    }
  }

  lemma {:induction false} PickDrives(s: Router, task: Task, next: nat, found: seq<Replica>, probe: ReplicaId -> bool)
      returns (replies: seq<Reply>)
    requires task.pc == Picking(next, found) && next <= |s.replicas|
    ensures Drive(s, task, replies) == (s, task.(pc := Picking(|s.replicas|, found + Remaining(s, next, probe))))
    decreases |s.replicas| - next
  {
    if next == |s.replicas| {
      replies := [];
      assert s.replicas[next..] == [];
      assert found + Remaining(s, next, probe) == found;
    } else {
      var r := s.replicas[next];
      var found' := if r.active && r.id !in s.fenced && probe(r.id) then found + [r] else found;
      RemainingStep(s, next, found, probe);
      var more := PickDrives(s, task.(pc := Picking(next + 1, found')), next + 1, found', probe);
      replies := PickOneDrives(s, task, next, found, probe, more);
    }
  }

  lemma PickOneDrives(s: Router, task: Task, next: nat, found: seq<Replica>, probe: ReplicaId -> bool,
      more: seq<Reply>) returns (replies: seq<Reply>)
    requires task.pc == Picking(next, found) && next < |s.replicas|
    ensures var r := s.replicas[next];
            var found' := if r.active && r.id !in s.fenced && probe(r.id) then found + [r] else found;
            Drive(s, task, replies) == Drive(s, task.(pc := Picking(next + 1, found')), more)
  {
    var r := s.replicas[next];
    if r.active && r.id !in s.fenced {
      var answer := Reply(probe(r.id), Accepted);
      DriveCons(s, task.(pc := PickProbing(r, next, found)), answer, more);
      DriveCons(s, task, UNREAD, [answer] + more);
      replies := [UNREAD] + ([answer] + more);
    } else {
      DriveCons(s, task, UNREAD, more);
      replies := [UNREAD] + more;
    }
  }

  lemma {:induction false} PostDrives(s: Router, task: Task, todo: seq<Replica>, post: ReplicaId -> Post)
      returns (replies: seq<Reply>)
    requires task.pc == Posting(todo)
    ensures Drive(s, task, replies) == (s.Forward(todo, task.key, task.requestId, post).0, task.(pc := Over))
    decreases |todo|
  {
    var answer := if todo == [] then UNREAD else Reply(true, post(todo[0].id));
    var more := [];
    if todo != [] && !post(todo[0].id).Accepted? {
      more := PostDrives(s.Fence(todo[0].id, Blame(post(todo[0].id))), task.(pc := Posting(todo[1..])), todo[1..],
        post);
    }
    DriveCons(s, task, answer, more);
    replies := [answer] + more;
  }

  lemma SweepThenFloor(s: Router, task: Task, net: Net) returns (replies: seq<Reply>)
    requires task.pc == Sweeping(Active(s.replicas))
    ensures var u := s.Sweep(Active(s.replicas), net.sweep);
            Drive(s, task, replies) == (u, task.(pc := Flooring([], |Passing(Live(u.replicas, u.fenced), net.floor)|)))
  {
    var u := s.Sweep(Active(s.replicas), net.sweep);
    var live := Live(u.replicas, u.fenced);
    var a := SweepDrives(s, task, Active(s.replicas), net.sweep);
    var b := FloorDrives(u, task.(pc := Flooring(live, 0)), live, 0, net.floor);
    DriveCons(u, task.(pc := Sweeping([])), UNREAD, b);
    DriveAppend(s, task, a, [UNREAD] + b);
    replies := a + ([UNREAD] + b);
  }

  /** A request driven from its arrival to the point where its candidates are known. */
  lemma RequestPicks(s: Router, task: Task, net: Net) returns (replies: seq<Reply>)
    requires task.pc == Sweeping(Active(s.replicas))
    ensures var p := s.Prepare(net);
            Drive(s, task, replies) == (p, task.(pc := Picking(|p.replicas|, p.Candidates(net))))
  {
    var p := s.Prepare(net);
    var u := s.Sweep(Active(s.replicas), net.sweep);
    var a := SweepThenFloor(s, task, net);
    var b := PickDrives(p, task.(pc := Picking(0, [])), 0, [], net.pick);
    DriveCons(u, task.(pc := Flooring([], |Passing(Live(u.replicas, u.fenced), net.floor)|)), UNREAD, b);
    DriveAppend(s, task, a, [UNREAD] + b);
    replies := a + ([UNREAD] + b);
    assert p.replicas[0..] == p.replicas && [] + Remaining(p, 0, net.pick) == p.Candidates(net);
  }

  /** ... and, when there are any, to its first post. */
  lemma RequestPosts(s: Router, task: Task, net: Net) returns (replies: seq<Reply>)
    requires task.pc == Sweeping(Active(s.replicas)) && s.Prepare(net).Candidates(net) != []
    ensures Drive(s, task, replies) == (s.Prepare(net), task.(pc := Posting(Turn(s.Prepare(net), net))))
  {
    var p := s.Prepare(net);
    var a := RequestPicks(s, task, net);
    DriveCons(p, task.(pc := Picking(|p.replicas|, p.Candidates(net))), UNREAD, []);
    DriveAppend(s, task, a, [UNREAD] + []);
    replies := a + ([UNREAD] + []);
  }

  lemma RequestDrives(s: Router, task: Task, net: Net) returns (replies: seq<Reply>)
    requires task.pc == Sweeping(Active(s.replicas))
    ensures Drive(s, task, replies) == (s.RouteRequest(task.key, task.requestId, net).0, task.(pc := Over))
  {
    var p := s.Prepare(net);
    if p.Candidates(net) == [] {
      var a := RequestPicks(s, task, net);
      DriveCons(p, task.(pc := Picking(|p.replicas|, [])), UNREAD, []);
      DriveAppend(s, task, a, [UNREAD] + []);
      replies := a + ([UNREAD] + []);
    } else {
      var a := RequestPosts(s, task, net);
      var b := PostDrives(p, task.(pc := Posting(Turn(p, net))), Turn(p, net), net.post);
      DriveAppend(s, task, a, b);
      replies := a + b;
    }
  }

  /** The actions that drive task `t`. */
  ghost function Resumes(t: nat, replies: seq<Reply>): seq<Action> {
    seq(|replies|, i requires 0 <= i < |replies| => Resume(t, replies[i].probe, replies[i].post))
  }

  /** Driving a task is a run in which that task alone is resumed. */
  lemma {:induction false} DriveIsARun(start: Router, sofar: seq<Action>, s: Router, tasks: seq<Task>, t: nat,
      replies: seq<Reply>)
    requires Run(start, sofar) == Sys(s, tasks) && t < |tasks|
    ensures var (u, task) := Drive(s, tasks[t], replies);
            Run(start, sofar + Resumes(t, replies)) == Sys(u, tasks[t := task])
    decreases |replies|
  {
    if replies == [] {
      assert sofar + Resumes(t, replies) == sofar && tasks[t := tasks[t]] == tasks;
    } else {
      var a := Resume(t, replies[0].probe, replies[0].post);
      var (u, pc) := Continue(s, tasks[t], replies[0].probe, replies[0].post);
      var moved := tasks[t := tasks[t].(pc := pc)];
      RunAppend(start, sofar, a);
      DriveIsARun(start, sofar + [a], u, moved, t, replies[1..]);
      assert sofar + [a] + Resumes(t, replies[1..]) == sofar + Resumes(t, replies);
      var task := Drive(s, tasks[t], replies).1;
      assert moved[t := task] == tasks[t := task];
    }
  }

  /** `acts` goes on from `sofar` by resuming task `t` only. */
  ghost predicate OnlyResumes(sofar: seq<Action>, acts: seq<Action>, t: nat) {
    sofar <= acts && forall i :: |sofar| <= i < |acts| ==> acts[i].Resume? && acts[i].task == t
  }

  /** A request that arrives and is then driven alone. */
  lemma ArriveAndDrive(start: Router, sofar: seq<Action>, s: Router, tasks: seq<Task>, key: string, requestId: string,
      replies: seq<Reply>)
    returns (acts: seq<Action>)
    requires Run(start, sofar) == Sys(s, tasks) && s.Admits(s.tenant, key)
    ensures OnlyResumes(sofar + [Arrive(s.tenant, key, requestId)], acts, |tasks|)
    ensures var (u, task) := Drive(s, Task(key, requestId, Sweeping(Active(s.replicas))), replies);
            Run(start, acts) == Sys(u, tasks + [task])
  {
    var a, task := Arrive(s.tenant, key, requestId), Task(key, requestId, Sweeping(Active(s.replicas)));
    RunAppend(start, sofar, a);
    DriveIsARun(start, sofar + [a], s, tasks + [task], |tasks|, replies);
    acts := sofar + [a] + Resumes(|tasks|, replies);
    var other := Drive(s, task, replies).1;
    assert (tasks + [task])[|tasks| := other] == tasks + [other];
  }

  /** The serial handler is a run of the task machine: the request arrives, then its task alone is resumed. */
  lemma SerialInferIsARun(start: Router, sofar: seq<Action>, s: Router, tasks: seq<Task>, key: string,
      requestId: string, net: Net)
    returns (acts: seq<Action>)
    requires Run(start, sofar) == Sys(s, tasks) && s.Admits(s.tenant, key)
    ensures OnlyResumes(sofar + [Arrive(s.tenant, key, requestId)], acts, |tasks|)
    ensures Run(start, acts) == Sys(s.Infer(s.tenant, key, requestId, net).0, tasks + [Task(key, requestId, Over)])
  {
    var replies := RequestDrives(s, Task(key, requestId, Sweeping(Active(s.replicas))), net);
    acts := ArriveAndDrive(start, sofar, s, tasks, key, requestId, replies);
  }
}
