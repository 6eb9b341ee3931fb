/** Tasks of the scheduler queues. Comparison and equality look at (priority, submitted_at)
    only. */
module Tasks {
  /** CRITICAL = 0, HIGH = 1, MEDIUM = 2, LOW = 3. */
  type Level = p: int | 0 <= p < 4 witness 0

  class Task {
    var priority: Level
    const submittedAt: real
    const taskId: string
    const estimatedDuration: int

    constructor (priority: Level, submittedAt: real, taskId: string, estimatedDuration: int)
      ensures this.priority == priority && this.submittedAt == submittedAt
      ensures this.taskId == taskId && this.estimatedDuration == estimatedDuration
    {
      this.priority, this.submittedAt := priority, submittedAt;
      this.taskId, this.estimatedDuration := taskId, estimatedDuration;
    }
  }

  /** Task.__lt__ as the ordered dataclass defines it. */
  predicate Less(a: Task, b: Task)
    reads a, b
  {
    a.priority < b.priority || (a.priority == b.priority && a.submittedAt < b.submittedAt)
  }

  /** Task.__eq__: the id does not count. */
  predicate Same(a: Task, b: Task)
    reads a, b
  {
    a.priority == b.priority && a.submittedAt == b.submittedAt
  }
}
