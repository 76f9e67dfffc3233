/**
  The actor scheduler of skynet_mq.c, skynet_server.c and skynet_handle.c as a system of
  interleaved steps: any number of workers, senders, launches and kills.

  A step is one section under a spin lock or the write/read lock of the handle table, or one
  atomic operation on a reference count. What a thread still has to do is an activity; the
  activities of one call stack (a callback that sends, a send made while a queue is drained,
  the final skynet_context_release of a dispatch) run as separate activities, which only adds
  interleavings. An actor is one incarnation of a context together with its message queue.
 */
module Scheduler {

  type ActorId = nat
  type Handle = nat

  datatype Message = Message(source: Handle, session: int, error: bool, data: nat)

  /** struct skynet_context (ref) and its struct message_queue, with the history of the queue. */
  datatype Actor = Actor(
    handle: Handle,
    init: bool,                 // the module's init function has succeeded
    ref: int,
    contents: seq<Message>,
    inGlobal: bool,
    release: bool,
    freed: bool,                // the queue's memory has been freed
    deletions: nat,             // calls of delete_context
    pushed: seq<Message>,       // every message ever accepted by skynet_mq_push
    delivered: seq<Message>,    // messages popped by a worker for the callback
    dropped: seq<Message>,      // messages popped by _drop_queue
    replies: seq<Message>)      // errors handed to skynet_send by drop_message

  /** What some thread is about to do. */
  datatype Activity =
    | Creator(a: ActorId)                           // skynet_context_new, module init running
    | Discard(a: ActorId)                           // it has failed, about to retire the handle
    | Worker(a: ActorId)                            // a worker owns the queue, no context yet
    | Orphan(a: ActorId)                            // about to call skynet_mq_release
    | Run(a: ActorId, ctx: ActorId)                 // inside the dispatch loop, between messages
    | Call(a: ActorId, ctx: ActorId, msg: Message)  // inside the service's callback
    | Requeue(a: ActorId, ctx: ActorId)             // got another queue, about to push this one back
    | Drop(a: ActorId)                              // inside _drop_queue
    | Reply(a: ActorId, msg: Message)               // inside drop_message
    | Emptied(a: ActorId)                           // drained, about to free the queue
    | Sender(a: ActorId, msg: Message)              // skynet_context_push after the grab
    | Releaser(a: ActorId)                          // about to call skynet_context_release
    | Deleter(a: ActorId)                           // the count reached zero: delete_context
  {
    /** What the activity owns of actor x. */
    predicate Owns(role: Role, x: ActorId) {
      match role
      case Queue => a == x && !Sender? && !Releaser? && !Deleter?
      case Reference =>
        if Run? || Call? || Requeue? then ctx == x else (Creator? || Sender? || Releaser?) && a == x
      case Deletion => Deleter? && a == x
      case Answer => Reply? && a == x
      case Launching => (Creator? || Discard?) && a == x
    }
  }

  /** The queue, one count of `ref`, the duty to delete the context, to answer a dropped message, or to end a launch. */
  datatype Role = Queue | Reference | Deletion | Answer | Launching

  datatype State = State(
    actors: map<ActorId, Actor>,
    table: map<Handle, ActorId>,
    runq: seq<ActorId>,
    acts: map<nat, Activity>,
    nextAct: nat)

  const Init := State(map[], map[], [], map[], 0)

  datatype Step =
    | LaunchStep(a: ActorId, handle: Handle)
    | LaunchOkStep(i: nat)
    | LaunchFailStep(i: nat)
    | DiscardStep(i: nat)
    | PopGlobalStep
    | GrabStep(i: nat)
    | ReleaseQueueStep(i: nat)
    | PopMessageStep(i: nat)
    | ReturnStep(i: nat)
    | EndSliceStep(i: nat)
    | PushBackStep(i: nat)
    | DropMessageStep(i: nat)
    | DropReplyStep(i: nat)
    | FreeStep(i: nat)
    | SendStep(to: Handle, msg: Message)
    | PushMessageStep(i: nat)
    | ReleaseStep(i: nat)
    | MarkReleaseStep(i: nat)
    | RetireStep(handle: Handle)

  // ---------------------------------------------------------------------------
  // Building blocks of the steps

  function Spawn(s: State, act: Activity): State {
    s.(acts := s.acts[s.nextAct := act], nextAct := s.nextAct + 1)
  }

  function Finish(s: State, i: nat): State {
    s.(acts := s.acts - {i})
  }

  function Become(s: State, i: nat, act: Activity): State {
    Spawn(Finish(s, i), act)
  }

  function Put(s: State, a: ActorId, r: Actor): State {
    s.(actors := s.actors[a := r])
  }

  /** skynet_globalmq_push */
  function PushQueue(s: State, a: ActorId): State {
    s.(runq := s.runq + [a])
  }

  /** The error drop_message sends back for a message dropped from the queue of `handle`. */
  function ErrorFor(handle: Handle, msg: Message): Message {
    Message(handle, msg.session, true, 0)
  }

  // ---------------------------------------------------------------------------
  // The steps

  predicate Doing(s: State, i: nat) {
    i in s.acts && s.acts[i].a in s.actors
  }

  /** skynet_context_new: register the handle and create the queue; `ref` counts the table and the creator. */
  function Launch(s: State, a: ActorId, h: Handle): State {
    var r := Actor(h, false, 2, [], true, false, false, 0, [], [], [], []);
    Spawn(s.(actors := s.actors[a := r], table := s.table[h := a]), Creator(a))
  }

  /** A handle is not reissued while the queue of an earlier incarnation exists. */
  predicate MayLaunch(s: State, a: ActorId, h: Handle) {
    && a !in s.actors && h != 0 && h !in s.table
    && forall b :: b in s.actors && !s.actors[b].freed ==> s.actors[b].handle != h
  }

  /** The module's init succeeded: push the queue, release the creator's reference. */
  function LaunchOk(s: State, i: nat): State
    requires Doing(s, i)
  {
    var a := s.acts[i].a;
    PushQueue(Become(Put(s, a, s.actors[a].(init := true)), i, Releaser(a)), a)
  }

  /** It failed: release the reference, then retire the handle and give up the queue. */
  function LaunchFail(s: State, i: nat): State
    requires i in s.acts
  {
    Spawn(Become(s, i, Discard(s.acts[i].a)), Releaser(s.acts[i].a))
  }

  function DiscardHandle(s: State, i: nat): State
    requires Doing(s, i)
  {
    Retire(Become(s, i, Orphan(s.acts[i].a)), s.actors[s.acts[i].a].handle)
  }

  /** skynet_globalmq_pop by a worker without a queue. */
  function PopGlobal(s: State): State
    requires s.runq != []
  {
    Spawn(s.(runq := s.runq[1..]), Worker(s.runq[0]))
  }

  predicate Grabs(s: State, h: Handle) {
    h in s.table && s.table[h] in s.actors
  }

  /** skynet_handle_grab: one more reference to the context registered under the handle. */
  function AddRef(s: State, h: Handle): State
    requires Grabs(s, h)
  {
    var r := s.actors[s.table[h]];
    Put(s, s.table[h], r.(ref := r.ref + 1))
  }

  /** The start of a dispatch: grab the context by the handle of the queue. */
  function Grab(s: State, i: nat): State
    requires Doing(s, i)
  {
    var a := s.acts[i].a;
    var h := s.actors[a].handle;
    if Grabs(s, h) then Become(AddRef(s, h), i, Run(a, s.table[h])) else Become(s, i, Orphan(a))
  }

  /** skynet_mq_release */
  function ReleaseQueue(s: State, i: nat): State
    requires Doing(s, i)
  {
    var a := s.acts[i].a;
    if s.actors[a].release then Become(s, i, Drop(a)) else PushQueue(Finish(s, i), a)
  }

  /** skynet_mq_pop in the dispatch loop; on an empty queue the worker lets the queue go. */
  function PopMessage(s: State, i: nat): State
    requires Doing(s, i) && s.acts[i].Run?
  {
    var a, c := s.acts[i].a, s.acts[i].ctx;
    var r := s.actors[a];
    if r.contents != [] then
      Become(Put(s, a, r.(contents := r.contents[1..], delivered := r.delivered + [r.contents[0]])),
             i, Call(a, c, r.contents[0]))
    else Become(Put(s, a, r.(inGlobal := false)), i, Releaser(c))
  }

  /** The callback returns. */
  function Return(s: State, i: nat): State
    requires i in s.acts && s.acts[i].Call?
  {
    Become(s, i, Run(s.acts[i].a, s.acts[i].ctx))
  }

  /** End of the slice: take the next queue, or keep this one when the global list is empty. */
  function EndSlice(s: State, i: nat): State
    requires i in s.acts && s.acts[i].Run?
  {
    var a, c := s.acts[i].a, s.acts[i].ctx;
    if s.runq == [] then Spawn(Become(s, i, Worker(a)), Releaser(c))
    else Become(PopGlobal(s), i, Requeue(a, c))
  }

  /** skynet_globalmq_push of the queue just served. */
  function PushBack(s: State, i: nat): State
    requires i in s.acts && s.acts[i].Requeue?
  {
    PushQueue(Become(s, i, Releaser(s.acts[i].ctx)), s.acts[i].a)
  }

  /** skynet_mq_pop in _drop_queue. */
  function DropMessage(s: State, i: nat): State
    requires Doing(s, i)
  {
    var a := s.acts[i].a;
    var r := s.actors[a];
    if r.contents != [] then
      Become(Put(s, a, r.(contents := r.contents[1..], dropped := r.dropped + [r.contents[0]])), i, Reply(a, r.contents[0]))
    else Become(Put(s, a, r.(inGlobal := false)), i, Emptied(a))
  }

  /** What drop_message sends for one message: nothing when the source is 0. */
  function ErrorsFor(handle: Handle, msg: Message): seq<Message> {
    if msg.source == 0 then [] else [ErrorFor(handle, msg)]
  }

  /** drop_message hands the error for the message to skynet_send. */
  function Answered(s: State, i: nat): State
    requires Doing(s, i) && s.acts[i].Reply?
  {
    var a := s.acts[i].a;
    var r := s.actors[a];
    Become(Put(s, a, r.(replies := r.replies + ErrorsFor(r.handle, s.acts[i].msg))), i, Drop(a))
  }

  /** drop_message: report the error to the source; skynet_send to address 0 does nothing. */
  function DropReply(s: State, i: nat): State
    requires Doing(s, i) && s.acts[i].Reply?
  {
    var msg := s.acts[i].msg;
    if msg.source == 0 then Answered(s, i)
    else StartSend(Answered(s, i), msg.source, ErrorFor(s.actors[s.acts[i].a].handle, msg))
  }

  /** _release: free the drained queue. */
  function Free(s: State, i: nat): State
    requires Doing(s, i)
  {
    Finish(Put(s, s.acts[i].a, s.actors[s.acts[i].a].(freed := true)), i)
  }

  /** skynet_context_push, first half: grab the destination, or fail. */
  function StartSend(s: State, to: Handle, msg: Message): State {
    if Grabs(s, to) then Spawn(AddRef(s, to), Sender(s.table[to], msg)) else s
  }

  /** skynet_mq_push */
  function PushMessage(s: State, i: nat): State
    requires Doing(s, i) && s.acts[i].Sender?
  {
    var a, msg := s.acts[i].a, s.acts[i].msg;
    var r := s.actors[a];
    var r' := r.(contents := r.contents + [msg], pushed := r.pushed + [msg], inGlobal := true);
    var t := Become(Put(s, a, r'), i, Releaser(a));
    if r.inGlobal then t else PushQueue(t, a)
  }

  /** skynet_context_release: the one that brings the count to zero deletes the context. */
  function Release(s: State, i: nat): State
    requires Doing(s, i)
  {
    var a := s.acts[i].a;
    var r := s.actors[a];
    if r.ref == 1 then Become(Put(s, a, r.(ref := 0, deletions := r.deletions + 1)), i, Deleter(a))
    else Finish(Put(s, a, r.(ref := r.ref - 1)), i)
  }

  /** skynet_mq_mark_release, from delete_context. */
  function MarkRelease(s: State, i: nat): State
    requires Doing(s, i)
  {
    var a := s.acts[i].a;
    var r := s.actors[a];
    var t := Finish(Put(s, a, r.(release := true)), i);
    if r.inGlobal then t else PushQueue(t, a)
  }

  /** skynet_handle_retire: empty the slot; its reference is released outside the lock. */
  function Retire(s: State, h: Handle): State {
    if h in s.table then Spawn(s.(table := s.table - {h}), Releaser(s.table[h])) else s
  }

  predicate Enabled(s: State, step: Step) {
    match step
    case LaunchStep(a, h) => MayLaunch(s, a, h)
    case LaunchOkStep(i) => Doing(s, i) && s.acts[i].Creator?
    case LaunchFailStep(i) => Doing(s, i) && s.acts[i].Creator?
    case DiscardStep(i) => Doing(s, i) && s.acts[i].Discard?
    case PopGlobalStep => s.runq != []
    case GrabStep(i) => Doing(s, i) && s.acts[i].Worker?
    case ReleaseQueueStep(i) => Doing(s, i) && s.acts[i].Orphan?
    case PopMessageStep(i) => Doing(s, i) && s.acts[i].Run?
    case ReturnStep(i) => Doing(s, i) && s.acts[i].Call?
    case EndSliceStep(i) => Doing(s, i) && s.acts[i].Run?
    case PushBackStep(i) => Doing(s, i) && s.acts[i].Requeue?
    case DropMessageStep(i) => Doing(s, i) && s.acts[i].Drop?
    case DropReplyStep(i) => Doing(s, i) && s.acts[i].Reply?
    case FreeStep(i) => Doing(s, i) && s.acts[i].Emptied?
    case SendStep(to, msg) => true
    case PushMessageStep(i) => Doing(s, i) && s.acts[i].Sender?
    case ReleaseStep(i) => Doing(s, i) && s.acts[i].Releaser?
    case MarkReleaseStep(i) => Doing(s, i) && s.acts[i].Deleter?
    case RetireStep(h) => true
  }

  function Next(s: State, step: Step): State
    requires Enabled(s, step)
  {
    match step
    case LaunchStep(a, h) => Launch(s, a, h)
    case LaunchOkStep(i) => LaunchOk(s, i)
    case LaunchFailStep(i) => LaunchFail(s, i)
    case DiscardStep(i) => DiscardHandle(s, i)
    case PopGlobalStep => PopGlobal(s)
    case GrabStep(i) => Grab(s, i)
    case ReleaseQueueStep(i) => ReleaseQueue(s, i)
    case PopMessageStep(i) => PopMessage(s, i)
    case ReturnStep(i) => Return(s, i)
    case EndSliceStep(i) => EndSlice(s, i)
    case PushBackStep(i) => PushBack(s, i)
    case DropMessageStep(i) => DropMessage(s, i)
    case DropReplyStep(i) => DropReply(s, i)
    case FreeStep(i) => Free(s, i)
    case SendStep(to, msg) => StartSend(s, to, msg)
    case PushMessageStep(i) => PushMessage(s, i)
    case ReleaseStep(i) => Release(s, i)
    case MarkReleaseStep(i) => MarkRelease(s, i)
    case RetireStep(h) => Retire(s, h)
  }
}
