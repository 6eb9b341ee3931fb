/** The admission pipeline of the scheduler API: register dependencies, reject deadlocks,
    then allocate. */
module SchedulerApi {
  import opened Options
  import opened Graphs
  import TaskGraph
  import opened DeadlockDetection
  import RA = ResourceAllocation

  /** 400 with the reported cycle, 507, or queued on a node. */
  datatype Outcome = Deadlock(cycle: Option<seq<Name>>) | NoCapacity | Queued(node: RA.Id)

  class Api {
    const detector: DeadlockDetector
    const allocator: RA.ResourceAllocator

    ghost predicate Valid()
      reads detector, allocator
    {
      TaskGraph.WellFormed(detector.graph) && !Cyclic(detector.graph.adj) && RA.WellFormed(allocator.c)
    }

    /** Three empty nodes, the third twice as large, and no task. */
    constructor ()
      ensures Valid() && fresh(detector) && fresh(allocator)
      ensures detector.graph == TaskGraph.EMPTY
      ensures allocator.c.order == ["node-1", "node-2", "node-3"] && allocator.c.allocations == map[]
      ensures allocator.c.nodes == map["node-1" := RA.Node(4.0, 4096.0, 0.0, 0.0), "node-2" := RA.Node(4.0, 4096.0, 0.0, 0.0),
                                       "node-3" := RA.Node(8.0, 8192.0, 0.0, 0.0)]
    {
      detector := new DeadlockDetector();
      allocator := new RA.ResourceAllocator();
      new;
      allocator.AddNode("node-1", 4.0, 4096.0);
      allocator.AddNode("node-2", 4.0, 4096.0);
      allocator.AddNode("node-3", 8.0, 8192.0);
      AcyclicIfListed(detector.graph.adj, []);
    }

    /** A request is rejected for a deadlock exactly when a listed dependency is the task itself
        or already leads to it, and then the reported cycle is always empty, because it is looked
        up after the removal. A request that finds no capacity stays registered in the graph. */
    method SubmitTask(taskId: Name, dependsOn: seq<Name>, cpu: real, memory: real) returns (r: Outcome)
      requires Valid()
      modifies detector, allocator
      ensures Valid()
      ensures r.Deadlock? <==> exists d :: d in dependsOn && Reaches(old(detector.graph.adj), d, taskId)
      ensures r.Deadlock? ==> r.cycle == None && allocator.c == old(allocator.c)
      ensures detector.graph == TaskGraph.Admit(old(detector.graph), taskId, dependsOn)
      ensures r.NoCapacity? ==> allocator.c == old(allocator.c)
      ensures !r.Deadlock? ==>
                (r.NoCapacity? <==> forall n :: n in old(allocator.c).nodes ==> !old(allocator.c).nodes[n].Fits(cpu, memory))
      ensures r.Queued? ==> r.node in old(allocator.c).nodes
                            && allocator.c == RA.Take(old(allocator.c), r.node, taskId, cpu, memory)
      ensures r.Queued? ==> exists k: nat :: RA.Chosen(old(allocator.c), RA.BestFit, cpu, memory, k)
                                             && old(allocator.c).order[k] == r.node
    {
      ghost var before := detector.graph;
      TaskGraph.DeadlockIffDependencyReaches(before, taskId, dependsOn);
      TaskGraph.AdmitAcyclic(before, taskId, dependsOn);
      detector.AddTask(taskId, dependsOn);
      var deadlock := detector.HasDeadlock();
      if deadlock {
        detector.RemoveTask(taskId);
        var cycle := detector.GetCycle();
        return Deadlock(cycle);
      }
      var success, node := allocator.Allocate(taskId, cpu, memory, RA.BestFit);
      if !success {
        return NoCapacity;
      }
      return Queued(node);
    }
  }
}
