/**
 The sending half of `Session` itself: the queue and its mutex as fields that each access updates
 in place, and the bytes given to the socket.
 */
module SendQueue {
  import opened Bytes
  import opened Storage
  import opened SendProtocol
  import opened SendInvariant

  class SendQueue {
    var sendQueue: seq<Frame>
    var sendMutex: Option<Owner>
    // The program counters and locals of the threads in `Send`, and the asynchronous writes.
    var threads: seq<Thread>
    var writes: seq<Write>
    // History.
    ghost var accepted: seq<Frame>
    ghost var popped: nat
    ghost var wire: seq<Byte>

    ghost function View(): State
      reads this
    {
      State(sendQueue, sendMutex, threads, writes, accepted, popped, wire)
    }

    constructor (n: nat)
      ensures View() == Init(n) && Inv(View())
    {
      sendQueue, sendMutex := [], None;
      threads, writes := seq(n, _ => Idle), [];
      accepted, popped, wire := [], 0, [];
      new;
      InitInv(n);
    }

    /** `async_write` of the front. */
    method AsyncWriteFront()
      requires sendQueue != []
      modifies this`writes
      ensures View() == StartWrite(old(View()))
    {
      var node := sendQueue[0];
      writes := writes + [Sending(node, 0)];
    }

    // ---- Send ----------------------------------------------------------------------------------

    method TryLock(t: nat)
      requires t < |threads| && threads[t].SendLock?
      modifies this`sendMutex, this`threads
      ensures View() == Next(old(View()), t)
    {
      if sendMutex.None? {
        sendMutex := Some(ByThread(t));
        threads := threads[t := ReadPending(threads[t].node)];
      }
    }

    method ReadIfPending(t: nat)
      requires t < |threads| && threads[t].ReadPending?
      modifies this`threads
      ensures View() == Next(old(View()), t)
    {
      var pending := |sendQueue| == 0;
      threads := threads[t := CheckSize(threads[t].node, pending)];
    }

    method CheckQueueSize(t: nat)
      requires t < |threads| && threads[t].CheckSize?
      modifies this`threads
      ensures View() == Next(old(View()), t)
    {
      var CheckSize(node, pending) := threads[t];
      if |sendQueue| >= SEND_QUEUE_MAX_LEN {
        threads := threads[t := RejectUnlock];
      } else {
        threads := threads[t := Push(node, pending)];
      }
    }

    method Emplace(t: nat)
      requires t < |threads| && threads[t].Push?
      modifies this`sendQueue, this`threads, this`accepted
      ensures View() == Next(old(View()), t)
      ensures sendQueue == old(sendQueue) + [old(threads)[t].node] && threads[t].PushUnlock?
    {
      var Push(node, pending) := threads[t];
      sendQueue := sendQueue + [node];
      accepted := accepted + [node];
      threads := threads[t := PushUnlock(pending)];
    }

    method Unlock(t: nat)
      requires t < |threads| && (threads[t].RejectUnlock? || threads[t].PushUnlock?)
      modifies this`sendMutex, this`threads
      ensures View() == Next(old(View()), t)
    {
      sendMutex := None;
      if threads[t].PushUnlock? && threads[t].pending {
        threads := threads[t := StartFront];
      } else {
        threads := threads[t := Idle];
      }
    }

    method Access(t: nat)
      requires t < |threads| && Defined(View(), t)
      modifies this`sendQueue, this`sendMutex, this`threads, this`writes, this`accepted
      ensures View() == Next(old(View()), t)
    {
      match threads[t] {
        case Idle =>
        case SendLock(_) => TryLock(t);
        case ReadPending(_) => ReadIfPending(t);
        case CheckSize(_, _) => CheckQueueSize(t);
        case Push(_, _) => Emplace(t);
        case RejectUnlock => Unlock(t);
        case PushUnlock(_) => Unlock(t);
        case StartFront =>
          AsyncWriteFront();
          threads := threads[t := Idle];
      }
    }

    // ---- the socket and handle_write ---------------------------------------------------------------

    /** The socket takes the next `count` bytes. */
    method TransmitBytes(w: nat, count: nat)
      requires w < |writes| && writes[w].Sending? && writes[w].sent + count <= |writes[w].frame|
      modifies this`writes, this`wire
      ensures View() == Transmitted(old(View()), w, count)
    {
      var Sending(frame, sent) := writes[w];
      wire := wire + frame[sent..sent + count];
      writes := writes[w := if sent + count == |frame| then HandleLock else Sending(frame, sent + count)];
    }

    method HandleWrite(w: nat)
      requires w < |writes| && HandleDefined(View(), w)
      modifies this`sendQueue, this`sendMutex, this`writes, this`popped
      ensures View() == NextHandle(old(View()), w)
    {
      match writes[w] {
        case HandleLock =>
          if sendMutex.None? {
            sendMutex := Some(ByWrite(w));
            writes := writes[w := HandlePop];
          }
        case HandlePop =>
          sendQueue, popped := sendQueue[1..], popped + 1;
          writes := writes[w := HandleTest];
        case HandleTest =>
          var empty := |sendQueue| == 0;
          writes := writes[w := if empty then HandleUnlock else HandleStart];
        case HandleStart =>
          writes := writes[w := HandleUnlock];
          AsyncWriteFront();
        case HandleUnlock =>
          sendMutex := None;
          writes := writes[w := Finished];
        case Sending(_, _) =>
        case Finished =>
        case Failed(_, _) =>
      }
    }

    // ---- scheduler ---------------------------------------------------------------------------

    method Perform(e: Event)
      requires Inv(View())
      modifies this
      ensures View() == Step(old(View()), e)
    {
      match e {
        case Send(t, node) => if t < |threads| && threads[t].Idle? { threads := threads[t := SendLock(node)]; }
        case Advance(t) =>
          if t < |threads| {
            StepDefined(View(), t);
            Access(t);
          }
        case Transmit(w, count) =>
          if w < |writes| && writes[w].Sending? && writes[w].sent + count <= |writes[w].frame| { TransmitBytes(w, count); }
        case Fail(w) =>
          if w < |writes| && writes[w].Sending? { writes := writes[w := Failed(writes[w].frame, writes[w].sent)]; }
        case Handle(w) =>
          if w < |writes| {
            HandleStepDefined(View(), w);
            HandleWrite(w);
          }
      }
    }

    /** Any interleaving of the sending threads, the socket and the completions, in place. */
    method Schedule(es: seq<Event>)
      requires Inv(View())
      modifies this
      ensures View() == Run(old(View()), es) && Inv(View())
    {
      ghost var s := View();
      for i := 0 to |es|
        invariant View() == Run(s, es[..i]) && Inv(View())
      {
        assert es[..i + 1][..i] == es[..i];
        StepKeepsInv(View(), es[i]);
        Perform(es[i]);
      }
      assert es[..|es|] == es;
    }
  }
}
