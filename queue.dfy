/** Each variant's module-level `tasks_queue`, which it shares with its
    worker threads: a first-in, first-out queue of tasks. */
module Tasks {

  class TaskQueue<T> {
    var items: seq<T>

    constructor()
      ensures items == []
    {
      items := [];
    }

    /** `tasks_queue.put(task)`: the task joins at the back. */
    method Put(task: T)
      modifies this
      ensures items == old(items) + [task]
    {
      items := items + [task];
    }

    /** What a worker's `tasks_queue.get` hands out: the oldest task. The
        source blocks while the queue is empty; here the caller waits. */
    method Get() returns (task: T)
      requires items != []
      modifies this
      ensures [task] + items == old(items)
    {
      task := items[0];
      items := items[1..];
    }
  }
}
