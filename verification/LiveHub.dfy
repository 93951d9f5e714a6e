/**
 The server side of live updates: numbered frames, a fixed ring of the latest ones, and one bounded queue
 per subscriber that is closed as soon as it would overflow.
 */
module LiveHub {
  import opened Basics

  /** What a frame says; only the kinds the client treats specially are told apart. */
  datatype Body = Stopped | Resync | Update(what: string)

  datatype Frame = Frame(seqNo: int, body: Body)

  const RING_SIZE: int := 2000
  const SUBSCRIBER_BUFFER: int := 256

  /** The log of everything ever published; the frame at index k carries number k + 1. */
  ghost predicate Numbered(log: seq<Frame>) {
    forall k | 0 <= k < |log| :: log[k].seqNo == k + 1
  }

  /** A subscriber's channel: what it has not read yet, and whether more can arrive. */
  datatype Queue = Queue(buf: seq<Frame>, open: bool)

  /** One send on a subscriber's channel, as a publish attempts it. */
  function Offer(q: Queue, f: Frame): Queue {
    if |q.buf| < SUBSCRIBER_BUFFER then q.(buf := q.buf + [f]) else q.(open := false)
  }

  datatype Subscription = Subscription(head: nat, replay: bool, missed: seq<Frame>)

  /** What a subscriber that has seen everything up to `since` is told when the log is `log`. */
  function SubscriptionAt(log: seq<Frame>, since: int): Subscription {
    var head := |log|;
    if since == 0 || since >= head then Subscription(head, true, [])
    else if since < head - Min(head, RING_SIZE) then Subscription(head, false, [])
    else Subscription(head, true, log[since..])
  }

  class Channel {
    var queue: Queue

    constructor ()
      ensures queue == Queue([], true)
    {
      queue := Queue([], true);
    }

    /** A receive; `ok` is false once the channel is closed and drained. */
    method Receive() returns (f: Frame, ok: bool)
      requires queue.buf != [] || !queue.open
      modifies this
      ensures ok <==> old(queue.buf) != []
      ensures ok ==> [f] + queue.buf == old(queue.buf) && queue.open == old(queue.open)
      ensures !ok ==> queue == old(queue)
    {
      f, ok := Frame(0, Stopped), queue.buf != [];
      if ok {
        f := queue.buf[0];
        queue := queue.(buf := queue.buf[1..]);
      }
    }
  }

  class Hub {
    var subs: set<Channel>
    var seqNo: int
    const ring: array<Frame>
    var head: int
    var n: int
    var listeners: int
    var closed: bool
    ghost var log: seq<Frame>

    /** The ring holds exactly the last min(seq, 2000) frames of the log. */
    ghost predicate RingIsTail()
      reads this, ring
    {
      && ring.Length == RING_SIZE
      && seqNo == |log| && n == Min(|log|, RING_SIZE) && head == |log| % RING_SIZE
      && forall k | |log| - n <= k < |log| :: ring[k % RING_SIZE] == log[k]
    }

    ghost predicate Valid()
      reads this, ring, subs
    {
      && RingIsTail() && Numbered(log)
      && (closed ==> subs == {})
      && forall ch | ch in subs :: ch.queue.open
    }

    constructor ()
      ensures Valid() && log == [] && subs == {} && !closed && fresh(ring)
    {
      subs, seqNo, head, n, listeners, closed, log := {}, 0, 0, 0, 0, false, [];
      ring := new Frame[RING_SIZE](_ => Frame(0, Stopped));
    }

    /** The part of a publish that stores the frame. */
    method Store(f: Frame)
      requires Valid() && f.seqNo == |log| + 1
      modifies this`seqNo, this`head, this`n, this`log, ring
      ensures RingIsTail() && Numbered(log) && log == old(log) + [f]
    {
      seqNo := seqNo + 1;
      log := log + [f];
      ring[head] := f;
      RingStep(|log| - 1);
      head := (head + 1) % RING_SIZE;
      if n < RING_SIZE {
        n := n + 1;
      }
    }

    method Publish(body: Body)
      requires Valid()
      modifies this, ring, subs
      ensures Valid() && closed == old(closed) && listeners == old(listeners)
      ensures log == old(log) + [Frame(|old(log)| + 1, body)]
      ensures forall ch | ch in old(subs) :: ch.queue == Offer(old(ch.queue), Frame(|old(log)| + 1, body))
      ensures subs == set ch | ch in old(subs) && ch.queue.open
    {
      var f := Frame(seqNo + 1, body);
      Store(f);
      Broadcast(f);
    }

    /** The part of a publish that sends: a subscriber whose queue is full is dropped on the spot. */
    method Broadcast(f: Frame)
      requires forall ch | ch in subs :: ch.queue.open
      modifies this`subs, subs
      ensures forall ch | ch in old(subs) :: ch.queue == Offer(old(ch.queue), f)
      ensures subs == set ch | ch in old(subs) && ch.queue.open
    {
      var todo := subs;
      while todo != {}
        invariant todo <= old(subs)
        invariant forall ch | ch in todo :: ch.queue == old(ch.queue)
        invariant forall ch | ch in old(subs) - todo :: ch.queue == Offer(old(ch.queue), f)
        invariant forall ch :: ch in subs <==> ch in old(subs) && ch.queue.open
        decreases |todo|
      {
        var ch :| ch in todo;
        todo := todo - {ch};
        if |ch.queue.buf| < SUBSCRIBER_BUFFER {
          ch.queue := ch.queue.(buf := ch.queue.buf + [f]);
        } else {
          subs := subs - {ch};
          ch.queue := ch.queue.(open := false);
        }
      }
    }

    method Subscribe(since: int) returns (ch: Channel?, sub: Subscription)
      requires Valid()
      modifies this
      ensures Valid() && log == old(log) && closed == old(closed)
      ensures old(closed) <==> ch == null
      ensures ch == null ==> subs == old(subs) && listeners == old(listeners)
      ensures ch != null ==> fresh(ch) && ch.queue == Queue([], true) && subs == old(subs) + {ch}
      ensures ch != null ==> listeners == old(listeners) + 1 && sub == SubscriptionAt(log, since)
    {
      sub := Subscription(0, true, []);
      if closed {
        return null, sub;
      }
      listeners := listeners + 1;
      ch := new Channel();
      subs := subs + {ch};
      sub := sub.(head := seqNo);
      if since == 0 || since >= sub.head {
        return;
      }
      if since < sub.head - n {
        sub := sub.(replay := false);
        return;
      }
      var missed := Replay(since);
      sub := sub.(missed := missed);
    }

    /** The frames after `since`, read off the ring from its oldest slot on. */
    method Replay(since: int) returns (missed: seq<Frame>)
      requires RingIsTail() && Numbered(log) && |log| - n <= since <= |log|
      ensures missed == log[since..]
    {
      missed := [];
      var count := n;
      for i := 0 to count
        invariant missed == if |log| - count + i <= since then [] else log[since..|log| - count + i]
      {
        ghost var k := |log| - count + i;
        SlotOf(|log|, count, i);
        var f := ring[(head - n + i + RING_SIZE) % RING_SIZE];
        assert f == log[k];
        if f.seqNo > since {
          assert log[since..k + 1] == log[since..k] + [f];
          missed := missed + [f];
        }
      }
    }

    method Unsubscribe(ch: Channel)
      requires Valid()
      modifies this
      ensures Valid() && log == old(log) && closed == old(closed)
      ensures subs == old(subs) - {ch} && listeners == old(listeners) - 1
    {
      subs := subs - {ch};
      listeners := listeners - 1;
    }

    /** The locked part of a shutdown, after its last message went out: nobody may join, every queue ends. */
    method CloseAll()
      requires Valid()
      modifies this, subs
      ensures Valid() && closed && subs == {} && log == old(log) && listeners == old(listeners)
      ensures forall ch | ch in old(subs) :: ch.queue == old(ch.queue).(open := false)
    {
      closed := true;
      var todo := subs;
      while todo != {}
        invariant todo == subs && subs <= old(subs)
        invariant RingIsTail() && Numbered(log) && log == old(log) && closed && listeners == old(listeners)
        invariant forall ch | ch in todo :: ch.queue == old(ch.queue)
        invariant forall ch | ch in old(subs) - todo :: ch.queue == old(ch.queue).(open := false)
        decreases |todo|
      {
        var ch :| ch in todo;
        todo := todo - {ch};
        subs := subs - {ch};
        ch.queue := ch.queue.(open := false);
      }
    }
  }

  /** Storing one more frame overwrites no slot that the ring still answers for. */
  lemma RingStep(size: nat)
    ensures (size % RING_SIZE + 1) % RING_SIZE == (size + 1) % RING_SIZE
    ensures forall k: int | 0 <= k && size + 1 - RING_SIZE <= k < size :: k % RING_SIZE != size % RING_SIZE
  {
  }

  /** The code's slot arithmetic, with the ring size added to keep Go's remainder non-negative. */
  lemma SlotOf(size: nat, n: nat, i: nat)
    requires n == Min(size, RING_SIZE) && i < n
    ensures (size % RING_SIZE - n + i + RING_SIZE) % RING_SIZE == (size - n + i) % RING_SIZE
    ensures 0 <= size % RING_SIZE - n + i + RING_SIZE
  {
  }

  /** A replay is never partial: either it is refused or it is everything after `since`, without a hole. */
  lemma ReplayIsComplete(log: seq<Frame>, since: int)
    requires Numbered(log) && 0 < since < |log|
    ensures var sub := SubscriptionAt(log, since);
            && (sub.replay <==> |log| - since <= RING_SIZE)
            && (sub.replay ==> |sub.missed| == |log| - since
                               && forall i | 0 <= i < |sub.missed| :: sub.missed[i] == log[since + i] && sub.missed[i].seqNo == since + i + 1)
            && (!sub.replay ==> sub.missed == [])
  {
  }
}
