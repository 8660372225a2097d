/** The Run loop all three worker roles share: fetch a message, hand it to the
    role's ProcessQueueMessage, and on a StorageException apply the poison
    rule. The endless loop is modelled by a finite script of passes whose
    environment choices (which message the queue hands out, which call fails,
    the clock) are given; the one-second and five-second sleeps are not modelled. */
module PollLoop {
  import opened Entities
  import opened AzureStorage

  /** A message delivered more often than this is deleted when a StorageException is caught. */
  const PoisonThreshold := 5

  /** One pass of the loop as the environment decides it: whether GetMessage
      throws, which message it hands out, which storage call of the handling
      fails, and the clock text a watermark would show. */
  datatype Iteration = Iteration(fetchFails: bool, pick: nat, fault: Fault, stamp: string)

  /** Running: the loop goes on; Halted: an exception escaped Run. */
  datatype Status = Running | Halted

  /** A role's ProcessQueueMessage as a transition of the storage state. */
  type Handler = (Cloud, Message, Fault, string) -> Step

  /** The state after one pass, and the message the loop's msg variable holds. */
  datatype Tick = Tick(cloud: Cloud, msg: Option<Message>, status: Status)

  /** The catch (StorageException) block on queue q. The message deleted is the one
      the msg variable holds; a DeleteMessage that fails there is not caught. */
  function Catch(q: seq<Message>, msg: Option<Message>): (r: (seq<Message>, Status))
    ensures r.0 == q || (msg.Some? && r.0 == RemoveId(q, msg.value.id))
    ensures r.0 != q <==> msg.Some? && msg.value.dequeueCount > PoisonThreshold && HasId(q, msg.value.id)
    ensures r.1 == Halted <==> msg.Some? && msg.value.dequeueCount > PoisonThreshold && !HasId(q, msg.value.id)
  {
    if msg.Some? && msg.value.dequeueCount > PoisonThreshold then
      if HasId(q, msg.value.id) then (RemoveId(q, msg.value.id), Running)
      else (q, Halted)
    else (q, Running)
  }

  /** One pass of the while loop. When GetMessage throws, msg keeps the message of
      an earlier pass, and the poison rule is applied to that one. */
  function Iterate(h: Handler, st: Cloud, last: Option<Message>, it: Iteration): (r: Tick)
    ensures it.fetchFails ==> r.msg == last && r.cloud == st.(queue := Catch(st.queue, last).0)
                               && r.status == Catch(st.queue, last).1
    ensures !it.fetchFails ==> r.msg == Fetch(st.queue, it.pick).1
    ensures !it.fetchFails && r.msg.None? ==> r == Tick(st, None, Running)
  {
    if it.fetchFails then
      var c := Catch(st.queue, last);
      Tick(st.(queue := c.0), last, c.1)
    else
      var (q, msg) := Fetch(st.queue, it.pick);
      var fetched := st.(queue := q);
      match msg
      case None => Tick(fetched, None, Running)
      case Some(m) =>
        var step := h(fetched, m, it.fault, it.stamp);
        match step.outcome
        case Done => Tick(step.cloud, msg, Running)
        case Fatal => Tick(step.cloud, msg, Halted)
        case StorageFault =>
          var c := Catch(step.cloud.queue, msg);
          Tick(step.cloud.(queue := c.0), msg, c.1)
  }

  /** Run over a script of passes from state st with msg holding last: the final
      state, and whether the loop is still running. */
  function Run(h: Handler, st: Cloud, last: Option<Message>, script: seq<Iteration>): (Cloud, Status)
    decreases |script|
  {
    if script == [] then (st, Running)
    else
      var t := Iterate(h, st, last, script[0]);
      if t.status == Halted then (t.cloud, Halted) else Run(h, t.cloud, t.msg, script[1..])
  }

  /** Passes that find nothing to fetch leave the state as it was, and the loop running. */
  lemma {:induction false} IdleRunChangesNothing(h: Handler, st: Cloud, last: Option<Message>, script: seq<Iteration>)
    requires forall k :: 0 <= k < |script| ==> !script[k].fetchFails && script[k].pick >= |st.queue|
    ensures Run(h, st, last, script) == (st, Running)
    decreases |script|
  {
    if script != [] {
      assert Fetch(st.queue, script[0].pick).1.None?;
      IdleRunChangesNothing(h, st, None, script[1..]);
    }
  }

  /** Once an exception has escaped Run, no later pass runs. */
  lemma {:induction false} HaltedRunIgnoresRest(h: Handler, st: Cloud, last: Option<Message>, done: seq<Iteration>, rest: seq<Iteration>)
    requires Run(h, st, last, done).1 == Halted
    ensures Run(h, st, last, done + rest) == Run(h, st, last, done)
    decreases |done|
  {
    assert done != [];
    assert (done + rest)[0] == done[0];
    var t := Iterate(h, st, last, done[0]);
    if t.status != Halted {
      assert (done + rest)[1..] == done[1..] + rest;
      HaltedRunIgnoresRest(h, t.cloud, t.msg, done[1..], rest);
    }
  }

  /** The catch block on the role's queue object. */
  method CatchStorageException(q: MessageQueue, msg: Option<Message>) returns (status: Status)
    modifies q
    ensures (q.messages, status) == Catch(old(q.messages), msg)
    ensures q.nextId == old(q.nextId)
  {
    status := Running;
    if msg.Some? && msg.value.dequeueCount > PoisonThreshold {
      var outcome := q.DeleteMessage(msg.value, false);
      if outcome != Done {
        status := Halted;
      }
    }
  }

  // ---------------------------------------------------------------- the poison bound

  function Repeat(it: Iteration, n: nat): (r: seq<Iteration>)
    ensures |r| == n
    ensures forall k :: 0 <= k < n ==> r[k] == it
  {
    if n == 0 then [] else [it] + Repeat(it, n - 1)
  }

  /** The handler throws a StorageException on every delivery of the message
      with this id and body and changes nothing, as long as only the queue
      differs from st. */
  ghost predicate AlwaysFails(h: Handler, st: Cloud, id: nat, body: Payload, fault: Fault)
  {
    forall c: Cloud, m: Message, s: string ::
      c == st.(queue := c.queue) && m.id == id && m.payload == body ==> h(c, m, fault, s) == Step(c, StorageFault)
  }

  /** Replacing a message by one with the same id does not change what deleting that id leaves. */
  lemma {:induction false} RemoveIdIgnoresUpdate(q: seq<Message>, i: nat, m: Message)
    requires i < |q| && m.id == q[i].id
    ensures RemoveId(q[i := m], m.id) == RemoveId(q, m.id)
  {
    if i > 0 {
      RemoveIdIgnoresUpdate(q[1..], i - 1, m);
      assert q[i := m][1..] == q[1..][i - 1 := m];
    } else {
      assert q[i := m][1..] == q[1..];
    }
  }

  /** Whether a message always fails does not depend on the rest of the queue. */
  lemma AlwaysFailsOnAnyQueue(h: Handler, st: Cloud, q: seq<Message>, id: nat, body: Payload, fault: Fault)
    requires AlwaysFails(h, st, id, body, fault)
    ensures AlwaysFails(h, st.(queue := q), id, body, fault)
  {
    forall c: Cloud, m: Message, s: string | c == st.(queue := q).(queue := c.queue) && m.id == id && m.payload == body
      ensures h(c, m, fault, s) == Step(c, StorageFault)
    {
      assert c == st.(queue := c.queue);
    }
  }

  /** One pass that delivers a message that always fails: the catch block deletes
      it once its count exceeds PoisonThreshold, and otherwise only its count grows. */
  lemma FailingPass(h: Handler, st: Cloud, last: Option<Message>, i: nat, fault: Fault, stamp: string)
    requires i < |st.queue|
    requires AlwaysFails(h, st, st.queue[i].id, st.queue[i].payload, fault)
    ensures var m := st.queue[i].(dequeueCount := st.queue[i].dequeueCount + 1);
            (Iterate(h, st, last, Iteration(false, i, fault, stamp))
             == if m.dequeueCount > PoisonThreshold then Tick(st.(queue := RemoveId(st.queue, m.id)), Some(m), Running)
                else Tick(st.(queue := st.queue[i := m]), Some(m), Running))
  {
    var m := st.queue[i].(dequeueCount := st.queue[i].dequeueCount + 1);
    var st1 := st.(queue := st.queue[i := m]);
    assert Fetch(st.queue, i) == (st1.queue, Some(m));
    assert h(st1, m, fault, stamp) == Step(st1, StorageFault);
    if m.dequeueCount > PoisonThreshold {
      assert st1.queue[i] == m && m in st1.queue;
      RemoveIdIgnoresUpdate(st.queue, i, m);
    }
  }

  /** A message that always fails stays in the queue while it has been
      delivered at most PoisonThreshold times; each pass delivers it once more. */
  lemma {:induction false} FailingMessageStays(h: Handler, st: Cloud, last: Option<Message>, i: nat,
                                               n: nat, fault: Fault, stamp: string)
    requires i < |st.queue| && st.queue[i].dequeueCount + n <= PoisonThreshold
    requires AlwaysFails(h, st, st.queue[i].id, st.queue[i].payload, fault)
    ensures Run(h, st, last, Repeat(Iteration(false, i, fault, stamp), n))
         == (st.(queue := st.queue[i := st.queue[i].(dequeueCount := st.queue[i].dequeueCount + n)]), Running)
    decreases n
  {
    var it := Iteration(false, i, fault, stamp);
    if n == 0 {
      assert st.queue[i := st.queue[i].(dequeueCount := st.queue[i].dequeueCount)] == st.queue;
    } else {
      var m := st.queue[i].(dequeueCount := st.queue[i].dequeueCount + 1);
      var st1 := st.(queue := st.queue[i := m]);
      FailingPass(h, st, last, i, fault, stamp);
      AlwaysFailsOnAnyQueue(h, st, st1.queue, m.id, m.payload, fault);
      FailingMessageStays(h, st1, Some(m), i, n - 1, fault, stamp);
      assert Repeat(it, n)[0] == it && Repeat(it, n)[1..] == Repeat(it, n - 1);
      assert st1.queue[i := st1.queue[i].(dequeueCount := st1.queue[i].dequeueCount + (n - 1))]
          == st.queue[i := st.queue[i].(dequeueCount := st.queue[i].dequeueCount + n)];
    }
  }

  /** A message that always fails is deleted by the pass that delivers it for
      the (PoisonThreshold + 1)-th time, and nothing else in the queue changes. */
  lemma {:induction false} FailingMessageDeleted(h: Handler, st: Cloud, last: Option<Message>, i: nat,
                                                 fault: Fault, stamp: string)
    requires i < |st.queue| && st.queue[i].dequeueCount <= PoisonThreshold
    requires AlwaysFails(h, st, st.queue[i].id, st.queue[i].payload, fault)
    ensures Run(h, st, last, Repeat(Iteration(false, i, fault, stamp), PoisonThreshold + 1 - st.queue[i].dequeueCount))
         == (st.(queue := RemoveId(st.queue, st.queue[i].id)), Running)
    decreases PoisonThreshold - st.queue[i].dequeueCount
  {
    var it := Iteration(false, i, fault, stamp);
    var n := PoisonThreshold + 1 - st.queue[i].dequeueCount;
    var id := st.queue[i].id;
    var m := st.queue[i].(dequeueCount := st.queue[i].dequeueCount + 1);
    var st1 := st.(queue := st.queue[i := m]);
    FailingPass(h, st, last, i, fault, stamp);
    var t := Iterate(h, st, last, it);
    assert Repeat(it, n)[0] == it;
    assert Run(h, st, last, Repeat(it, n)) == Run(h, t.cloud, t.msg, Repeat(it, n)[1..]);
    if st.queue[i].dequeueCount == PoisonThreshold {
      assert Repeat(it, n)[1..] == [];
    } else {
      assert t == Tick(st1, Some(m), Running);
      assert Repeat(it, n)[1..] == Repeat(it, n - 1);
      assert st1.queue[i] == m;
      AlwaysFailsOnAnyQueue(h, st, st1.queue, id, m.payload, fault);
      FailingMessageDeleted(h, st1, Some(m), i, fault, stamp);
      assert PoisonThreshold + 1 - st1.queue[i].dequeueCount == n - 1;
      RemoveIdIgnoresUpdate(st.queue, i, m);
      assert st1.(queue := RemoveId(st1.queue, id)) == st.(queue := RemoveId(st.queue, id));
    }
  }
}
