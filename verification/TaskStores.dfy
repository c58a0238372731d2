/**
 A project's store of tasks, by the contract the kernel keeps with it: a command runs
 against its stream as the stream is, appends what it decides atomically, and is answered
 as a duplicate, recording nothing, once its id is on the stream.
 */
module TaskStores {
  import opened Wrappers
  import opened Tasks

  /** Every task stream of the project, by harp id; a stream not there is empty. */
  type Store = map<string, Stream>

  function StreamOf(store: Store, task: string): Stream {
    if task in store then store[task] else []
  }

  /** The stream holds an event the command `id` caused. */
  predicate Found(stream: Stream, id: string) {
    exists i :: 0 <= i < |stream| && stream[i].cause == id
  }

  /** What became of a command sent to a stream. */
  datatype Handled = Duplicate | Left(event: Option<TaskEvent>) | Rejected(rejection: TaskRejection)

  /** The command `id` sent to the stream of `task` at the instant `at`. */
  function Committed(store: Store, task: string, command: TaskCommand, at: Timestamp, id: string): (Store, Handled) {
    var stream := StreamOf(store, task);
    if Found(stream, id) then (store, Duplicate) else
    var decided := Decide(Replay(stream), stream != [], command);
    if decided.Failure? then (store, Rejected(decided.error))
    else if decided.value.None? then (store, Left(None))
    else (store[task := stream + [Recorded(decided.value.value, at, id)]], Left(decided.value))
  }
}
