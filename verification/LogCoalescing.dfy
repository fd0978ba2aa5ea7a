/** The log thread: messages that ask for it are published once in a while, with the
    number of times they came. */
module LogCoalescing {
  import opened RingBuffers

  /** The delay that stands for "clear the delays". */
  const CLEAR_DELAY: int := 0x7FFF_FFFF_FFFF_FFFF

  /** `merged` is 0 for a message that is passed on as it came; otherwise the message
      stands for that many equal ones. */
  datatype Message = Message(text: string, timestamp: int, delay: int, level: int, merged: nat) {
    /** What is written: the number of equal messages is put in front of the text. */
    function Shown(): string {
      if merged <= 1 then text else "[x" + Decimal(merged) + "] " + text
    }
  }

  function Decimal(n: nat): string {
    var last := ['0' + (n % 10) as char];
    if n < 10 then last else Decimal(n / 10) + last
  }

  /** `s` is the decimal numeral of `n`: digits without leading zeros that add up to it. */
  ghost predicate Numeral(s: string, n: nat) {
    if |s| == 0 then false
    else
      var k := |s| - 1;
      && '0' <= s[k] <= '9'
      && if k == 0 then n == s[0] as int - '0' as int
         else n >= 10 && n % 10 == s[k] as int - '0' as int && Numeral(s[..k], n / 10)
  }

  lemma {:induction false} DecimalIs(n: nat)
    ensures Numeral(Decimal(n), n)
  {
    if n >= 10 {
      DecimalIs(n / 10);
      assert Decimal(n)[..|Decimal(n)| - 1] == Decimal(n / 10);
    }
  }

  /** A message that stands for several has their number in front, and no other has. */
  lemma {:induction false} ShownIs(m: Message)
    ensures m.merged <= 1 ==> m.Shown() == m.text
    ensures m.merged > 1 ==> exists number :: Numeral(number, m.merged) && m.Shown() == "[x" + number + "] " + m.text
  {
    DecimalIs(m.merged);
    var number := Decimal(m.merged);
    assert m.merged > 1 ==> m.Shown() == "[x" + number + "] " + m.text;
  }

  /** An entry of the queue: a message, or the null pointer that asks for a flush. */
  datatype Entry = Flush | Entry(message: Message)

  datatype Delay = Delay(last: int, count: nat, level: int)

  type Storage = map<string, Delay>

  // ----- counting -----------------------------------------------------------------------

  function Pending(storage: Storage, text: string): nat {
    if text in storage then storage[text].count else 0
  }

  /** How many messages with `text` the merged ones among `s` stand for. */
  function Merged(s: seq<Message>, text: string): nat {
    if s == [] then 0
    else Merged(s[..|s| - 1], text) + (if s[|s| - 1].text == text then s[|s| - 1].merged else 0)
  }

  function Queued(q: seq<Entry>, text: string): nat {
    if q == [] then 0
    else Queued(q[..|q| - 1], text)
         + (if q[|q| - 1].Entry? && q[|q| - 1].message.text == text then q[|q| - 1].message.merged else 0)
  }

  function Arrived(s: seq<Message>, text: string): nat {
    if s == [] then 0 else Arrived(s[..|s| - 1], text) + (if s[|s| - 1].text == text then 1 else 0)
  }

  lemma {:induction false} MergedSnoc(s: seq<Message>, m: Message, text: string)
    ensures Merged(s + [m], text) == Merged(s, text) + (if m.text == text then m.merged else 0)
  {
    assert (s + [m])[..|s|] == s;
  }

  lemma {:induction false} QueuedSnoc(q: seq<Entry>, e: Entry, text: string)
    ensures Queued(q + [e], text) == Queued(q, text) + Queued([e], text)
  {
    assert (q + [e])[..|q|] == q && [e][..0] == [];
  }

  lemma {:induction false} QueuedCons(e: Entry, q: seq<Entry>, text: string)
    ensures Queued([e] + q, text) == Queued([e], text) + Queued(q, text)
  {
    if q == [] {
      assert [e] + q == [e];
    } else {
      var n := |q| - 1;
      QueuedCons(e, q[..n], text);
      assert [e] + q == ([e] + q[..n]) + [q[n]] && q == q[..n] + [q[n]];
      QueuedSnoc([e] + q[..n], q[n], text);
      QueuedSnoc(q[..n], q[n], text);
    }
  }

  lemma {:induction false} ArrivedSnoc(s: seq<Message>, m: Message, text: string)
    ensures Arrived(s + [m], text) == Arrived(s, text) + (if m.text == text then 1 else 0)
  {
    assert (s + [m])[..|s|] == s;
  }

  /** Every delayed message that came is in exactly one place: published, waiting in the
      queue as part of a merged message, or pending. */
  ghost predicate Conserved(storage: Storage, queue: seq<Entry>, published: seq<Message>, arrivals: seq<Message>) {
    forall text :: Arrived(arrivals, text) == Merged(published, text) + Queued(queue, text) + Pending(storage, text)
  }

  /** The published messages with `text` that had asked for a delay. */
  function DelayedOf(published: seq<Message>, text: string): seq<Message> {
    if published == [] then []
    else
      var front, m := DelayedOf(published[..|published| - 1], text), published[|published| - 1];
      if m.text == text && m.delay != 0 then front + [m] else front
  }

  lemma {:induction false} DelayedOfSnoc(s: seq<Message>, m: Message, text: string)
    ensures DelayedOf(s + [m], text) == DelayedOf(s, text) + (if m.text == text && m.delay != 0 then [m] else [])
  {
    assert (s + [m])[..|s|] == s;
  }

  ghost predicate Suffix<T>(a: seq<T>, b: seq<T>) {
    |a| <= |b| && b[|b| - |a|..] == a
  }

  /** The times between publications are longer than the delay of the later one. */
  ghost predicate Spaced(s: seq<Message>) {
    forall i | 0 < i < |s| :: s[i].timestamp - s[i - 1].timestamp > s[i].delay
  }

  /** What is stored of a text: `since` holds its publications since it was stored. */
  ghost predicate Remembers(d: Delay, since: seq<Message>, published: seq<Message>, text: string) {
    && Spaced(since) && Suffix(since, DelayedOf(published, text))
    && d.last == if since == [] then 0 else since[|since| - 1].timestamp
  }

  ghost predicate Known(storage: Storage, since: map<string, seq<Message>>, published: seq<Message>) {
    storage.Keys == since.Keys && forall text | text in storage :: Remembers(storage[text], since[text], published, text)
  }

  /** Only clearing the delays and the log thread itself put merged messages into the queue. */
  ghost predicate Plain(queue: seq<Entry>) {
    forall e | e in queue :: e.Entry? && e.message.delay != 0 ==> e.message.merged == 0
  }

  // ----- single changes ---------------------------------------------------------------

  lemma {:induction false} PublishedOther(storage: Storage, since: map<string, seq<Message>>, published: seq<Message>, m: Message)
    requires Known(storage, since, published) && m.delay == 0
    ensures Known(storage, since, published + [m])
  {
    forall text | text in storage ensures Remembers(storage[text], since[text], published + [m], text) {
      DelayedOfSnoc(published, m, text);
      assert Remembers(storage[text], since[text], published, text);
    }
  }

  /** A regular or merged message leaves the queue and is published. */
  lemma {:induction false} PassedOn(storage: Storage, m: Message, queue: seq<Entry>, published: seq<Message>, arrivals: seq<Message>)
    requires Conserved(storage, [Entry(m)] + queue, published, arrivals)
    ensures Conserved(storage, queue, published + [m], arrivals)
  {
    forall text ensures Arrived(arrivals, text) == Merged(published + [m], text) + Queued(queue, text) + Pending(storage, text) {
      MergedSnoc(published, m, text);
      QueuedCons(Entry(m), queue, text);
      QueuedOne(Entry(m), text);
    }
  }

  lemma {:induction false} QueuedOne(e: Entry, text: string)
    ensures Queued([e], text) == if e.Entry? && e.message.text == text then e.message.merged else 0
  {
    assert [e][..0] == [] && Queued([], text) == 0;
  }

  /** An entry that stands for no delayed message leaves the queue. */
  lemma {:induction false} Ignored(storage: Storage, e: Entry, queue: seq<Entry>, published: seq<Message>, arrivals: seq<Message>)
    requires Conserved(storage, [e] + queue, published, arrivals) && (e.Entry? ==> e.message.merged == 0)
    ensures Conserved(storage, queue, published, arrivals)
  {
    forall text ensures Arrived(arrivals, text) == Merged(published, text) + Queued(queue, text) + Pending(storage, text) {
      QueuedCons(e, queue, text);
      QueuedOne(e, text);
    }
  }

  /** A delayed message is counted. */
  lemma {:induction false} Counted(storage: Storage, d: Delay, m: Message, queue: seq<Entry>, published: seq<Message>, arrivals: seq<Message>)
    requires Conserved(storage, queue, published, arrivals) && d.count == Pending(storage, m.text) + 1
    ensures Conserved(storage[m.text := d], queue, published, arrivals + [m])
  {
    forall text ensures Arrived(arrivals + [m], text)
                     == Merged(published, text) + Queued(queue, text) + Pending(storage[m.text := d], text)
    {
      ArrivedSnoc(arrivals, m, text);
    }
  }

  /** What is pending for a text is published, or put into the queue, in one message. */
  lemma {:induction false} PendingPublished(storage: Storage, d: Delay, m: Message, queue: seq<Entry>, published: seq<Message>, arrivals: seq<Message>)
    requires Conserved(storage, queue, published, arrivals)
    requires m.merged == Pending(storage, m.text) && d.count == 0
    ensures Conserved(storage[m.text := d], queue, published + [m], arrivals)
  {
    forall text ensures Arrived(arrivals, text)
                     == Merged(published + [m], text) + Queued(queue, text) + Pending(storage[m.text := d], text)
    {
      MergedSnoc(published, m, text);
    }
  }

  lemma {:induction false} PendingQueued(storage: Storage, m: Message, queue: seq<Entry>, published: seq<Message>, arrivals: seq<Message>)
    requires Conserved(storage, queue, published, arrivals)
    requires m.text in storage && m.merged == storage[m.text].count
    ensures Conserved(storage - {m.text}, queue + [Entry(m)], published, arrivals)
    ensures m.merged == 0 ==> Conserved(storage - {m.text}, queue, published, arrivals)
  {
    forall text ensures Queued(queue + [Entry(m)], text) + Pending(storage - {m.text}, text)
                     == Queued(queue, text) + Pending(storage, text)
    {
      QueuedSnoc(queue, Entry(m), text);
      QueuedOne(Entry(m), text);
    }
    if m.merged == 0 {
      forall text ensures Pending(storage - {m.text}, text) == Pending(storage, text) {}
    }
  }

  /** One more publication of a stored text. */
  lemma {:induction false} KnownAfter(storage: Storage, since: map<string, seq<Message>>, published: seq<Message>, d: Delay, m: Message)
    requires Known(storage, since, published) && m.delay != 0 && d.last == m.timestamp
    requires m.timestamp - (if m.text in storage then storage[m.text].last else 0) > m.delay
    ensures Known(storage[m.text := d], since[m.text := (if m.text in since then since[m.text] else []) + [m]], published + [m])
  {
    hide Remembers;
    var storage', since' := storage[m.text := d], since[m.text := (if m.text in since then since[m.text] else []) + [m]];
    if m.text in storage {
      RemembersOneMore(storage[m.text], since[m.text], published, m, d);
    } else {
      RemembersFirst(published, m, d);
    }
    forall text | text in storage' ensures Remembers(storage'[text], since'[text], published + [m], text) {
      if text != m.text {
        RemembersOther(storage[text], since[text], published, m, text);
      }
    }
  }

  lemma {:induction false} RemembersOther(d: Delay, since: seq<Message>, published: seq<Message>, m: Message, text: string)
    requires Remembers(d, since, published, text) && text != m.text
    ensures Remembers(d, since, published + [m], text)
  {
    DelayedOfSnoc(published, m, text);
  }

  lemma {:induction false} RemembersOneMore(was: Delay, since: seq<Message>, published: seq<Message>, m: Message, d: Delay)
    requires Remembers(was, since, published, m.text) && m.delay != 0 && d.last == m.timestamp && m.timestamp - was.last > m.delay
    ensures Remembers(d, since + [m], published + [m], m.text)
  {
    DelayedOfSnoc(published, m, m.text);
  }

  lemma {:induction false} RemembersFirst(published: seq<Message>, m: Message, d: Delay)
    requires m.delay != 0 && d.last == m.timestamp
    ensures Remembers(d, [] + [m], published + [m], m.text)
  {
    DelayedOfSnoc(published, m, m.text);
  }

  /** A message that is held back leaves the time of the last publication alone. */
  lemma {:induction false} KnownHeld(storage: Storage, since: map<string, seq<Message>>, published: seq<Message>, text: string, d: Delay)
    requires Known(storage, since, published) && d.last == (if text in storage then storage[text].last else 0)
    ensures Known(storage[text := d], since[text := if text in since then since[text] else []], published)
  {
    assert text in storage ==> Remembers(storage[text], since[text], published, text);
  }

  /** The texts that are not in `left` have been looked at, and the old ones are gone. */
  ghost predicate Cleared(was: Storage, storage: Storage, left: set<string>, now: int) {
    && left <= storage.Keys <= was.Keys && (forall text | text in storage :: storage[text] == was[text])
    && forall text | text in was && text !in left :: text in storage <==> now - was[text].last <= 3600
  }

  lemma {:induction false} ClearedOne(was: Storage, storage: Storage, left: set<string>, now: int, text: string)
    requires Cleared(was, storage, left, now) && text in left
    ensures text in storage && text in was && storage[text] == was[text]
    ensures Cleared(was, if now - storage[text].last > 3600 then storage - {text} else storage, left - {text}, now)
  {
  }

  lemma {:induction false} ClearedNone(was: Storage, now: int)
    ensures Cleared(was, was, was.Keys, now)
  {
  }

  lemma {:induction false} ClearedAll(was: Storage, storage: Storage, now: int)
    requires Cleared(was, storage, {}, now)
    ensures storage == Kept(was, now)
  {
  }

  lemma {:induction false} Forgotten(storage: Storage, since: map<string, seq<Message>>, published: seq<Message>, text: string)
    requires Known(storage, since, published)
    ensures Known(storage - {text}, since - {text}, published)
  {
  }

  lemma {:induction false} PlainSnoc(queue: seq<Entry>, m: Message)
    requires Plain(queue) && m.delay == 0
    ensures Plain(queue + [Entry(m)])
  {
  }

  // ----- what becomes of a message -----------------------------------------------------

  function DelayOf(storage: Storage, text: string): Delay {
    if text in storage then storage[text] else Delay(0, 0, 0)
  }

  predicate IsDelayed(e: Entry) {
    e.Entry? && e.message.delay != 0 && e.message.delay != CLEAR_DELAY
  }

  /** The last publication of the text is longer ago than the message asks for. */
  predicate Due(storage: Storage, m: Message) {
    m.timestamp - DelayOf(storage, m.text).last > m.delay
  }

  /** A message that is due stands for all that are pending and itself. */
  function Published(storage: Storage, m: Message): Message {
    m.(merged := DelayOf(storage, m.text).count + 1)
  }

  function Stored(storage: Storage, m: Message): Storage {
    var d := DelayOf(storage, m.text);
    storage[m.text := if Due(storage, m) then Delay(m.timestamp, 0, m.level) else Delay(d.last, d.count + 1, m.level)]
  }

  /** The texts that were published within the hour. */
  function Kept(storage: Storage, now: int): Storage {
    map text | text in storage && now - storage[text].last <= 3600 :: storage[text]
  }

  /** Every message sent says what was pending for a text that is forgotten. */
  ghost predicate Sent(sent: seq<Entry>, was: Storage) {
    forall e | e in sent :: e.Entry? && e.message.text in was &&
      var d := was[e.message.text]; d.count > 0 && e.message == Message(e.message.text, d.last, 0, d.level, d.count)
  }

  /** What becomes of a delayed message: if its text was last published longer ago than it asks
      for (at time 0 if never), it is published for all that came since, itself included;
      otherwise it is counted. */
  ghost predicate Coalesced(was: Storage, m: Message, storage: Storage, published: seq<Message>) {
    var last, count := if m.text in was then was[m.text].last else 0, if m.text in was then was[m.text].count else 0;
    if m.timestamp - last > m.delay
    then storage == was[m.text := Delay(m.timestamp, 0, m.level)]
         && published == [Message(m.text, m.timestamp, m.delay, m.level, count + 1)]
    else storage == was[m.text := Delay(last, count + 1, m.level)] && published == []
  }

  lemma {:induction false} StoredIs(storage: Storage, m: Message)
    ensures Coalesced(storage, m, Stored(storage, m), if Due(storage, m) then [Published(storage, m)] else [])
  {
  }

  /** What clearing the delays does: the texts published over an hour ago are forgotten, and for
      each of them that has messages pending one message with their number is queued. */
  ghost predicate Forgot(was: Storage, storage: Storage, sent: seq<Entry>, now: int) {
    && (forall text :: text in storage <==> text in was && now - was[text].last <= 3600)
    && (forall text | text in storage :: storage[text] == was[text])
    && (forall e | e in sent :: e.Entry? && e.message.text in was && e.message.text !in storage)
    && (forall e | e in sent :: e.Entry? && e.message.text in was && was[e.message.text].count > 0
          && e.message == Message(e.message.text, was[e.message.text].last, 0, was[e.message.text].level, was[e.message.text].count))
    && forall text | text in was && text !in storage && was[text].count > 0 ::
         Entry(Message(text, was[text].last, 0, was[text].level, was[text].count)) in sent
  }

  /** The log thread so far, for the texts that are not in `left`. */
  ghost predicate SentFor(sent: seq<Entry>, was: Storage, left: set<string>, now: int) {
    && (forall e | e in sent :: e.Entry? && e.message.text in was && e.message.text !in left && now - was[e.message.text].last > 3600)
    && forall text | text in was && text !in left && now - was[text].last > 3600 && was[text].count > 0 ::
         Entry(Message(text, was[text].last, 0, was[text].level, was[text].count)) in sent
  }

  lemma {:induction false} SentForOne(sent: seq<Entry>, was: Storage, left: set<string>, now: int, text: string)
    requires SentFor(sent, was, left, now) && text in left && text in was
    ensures now - was[text].last <= 3600 || was[text].count == 0 ==> SentFor(sent, was, left - {text}, now)
    ensures now - was[text].last > 3600
            ==> SentFor(sent + [Entry(Message(text, was[text].last, 0, was[text].level, was[text].count))], was, left - {text}, now)
  {
  }

  lemma {:induction false} NoneSent(was: Storage, now: int)
    ensures SentFor([], was, was.Keys, now)
  {
  }

  lemma {:induction false} ForgotIs(was: Storage, storage: Storage, sent: seq<Entry>, now: int)
    requires storage == Kept(was, now) && Sent(sent, was) && SentFor(sent, was, {}, now)
    ensures Forgot(was, storage, sent, now)
  {
  }

  // ----- the log thread ---------------------------------------------------------------

  class LogInstance {
    var storage: Storage
    var messages: seq<Message>
    var queue: seq<Entry>
    const lastMessages: RingBuffer<Message>
    /** Delayed messages processed; messages published; messages given to the handlers;
        publications of each stored text since it was stored. */
    ghost var arrivals: seq<Message>
    ghost var published: seq<Message>
    ghost var handled: seq<Message>
    ghost var since: map<string, seq<Message>>

    ghost predicate Valid()
      reads this, lastMessages, lastMessages.buffer
    {
      && lastMessages.Valid() && lastMessages.buffer.Length == 200
      && lastMessages.Contents() == LastOf(published, 200)
      && published == handled + messages && Plain(queue)
      && Conserved(storage, queue, published, arrivals)
      && Known(storage, since, published)
    }

    constructor ()
      ensures Valid() && fresh(lastMessages) && fresh(lastMessages.buffer)
      ensures queue == [] && arrivals == [] && published == []
    {
      storage, messages, queue := map[], [], [];
      lastMessages := new RingBuffer<Message>(200);
      arrivals, published, handled, since := [], [], [], map[];
    }

    /** Another thread sends a message, or asks for a flush. */
    method Send(e: Entry)
      requires Valid() && (e.Entry? ==> e.message.merged == 0)
      modifies this`queue
      ensures Valid() && queue == old(queue) + [e]
    {
      queue := queue + [e];
      forall text ensures Queued(queue, text) == Queued(old(queue), text) {
        QueuedSnoc(old(queue), e, text);
        QueuedOne(e, text);
      }
    }

    /** What is stored, after an entry left the queue. `out` is what becomes of it unless
        it is held back. */
    method DelayMessage(e: Entry, now: int) returns (held: bool, out: Entry)
      requires Conserved(storage, [e] + queue, published, arrivals) && Known(storage, since, published) && Plain([e] + queue)
      modifies this`storage, this`queue, this`arrivals, this`since
      ensures (out.Flush? <==> e.Flush?) && (held ==> e.Entry?)
      ensures held ==> Conserved(storage, queue, published, arrivals) && Known(storage, since, published)
      ensures !held && out.Entry? ==> Conserved(storage, queue, published + [out.message], arrivals)
                                      && Known(storage, since, published + [out.message])
      ensures !held && out.Flush? ==> Conserved(storage, queue, published, arrivals) && Known(storage, since, published)
      ensures Plain(queue)
      ensures arrivals == if IsDelayed(e) then old(arrivals) + [e.message] else old(arrivals)
      ensures e.Flush? || e.message.delay == 0 ==> !held && out == e && storage == old(storage) && queue == old(queue)
      ensures e.Entry? && e.message.delay == CLEAR_DELAY ==>
                held && storage == Kept(old(storage), now) && old(queue) <= queue && Sent(queue[|old(queue)|..], old(storage))
      ensures IsDelayed(e) ==>
                held == !Due(old(storage), e.message) && storage == Stored(old(storage), e.message) && queue == old(queue)
                && (!held ==> out == Entry(Published(old(storage), e.message)))
                && Coalesced(old(storage), e.message, storage, if held then [] else [out.message])
      ensures e.Entry? && e.message.delay == CLEAR_DELAY ==>
                old(queue) <= queue && Forgot(old(storage), storage, queue[|old(queue)|..], now)
    {
      hide Conserved, Known, Coalesced, Forgot;
      out := e;
      assert e in [e] + queue;
      assert Plain(queue) by { assert forall x | x in queue :: x in [e] + queue; }
      if e.Flush? {
        Ignored(storage, e, queue, published, arrivals);
        return false, out;
      }
      var m := e.message;
      if m.delay == 0 {
        PassedOn(storage, m, queue, published, arrivals);
        PublishedOther(storage, since, published, m);
        return false, out;
      }
      Ignored(storage, e, queue, published, arrivals);
      if m.delay == CLEAR_DELAY {
        ClearDelayMessages(now);
        return true, out;
      }
      held, out := CountMessage(m);
    }

    method CountMessage(m: Message) returns (held: bool, out: Entry)
      requires Conserved(storage, queue, published, arrivals) && Known(storage, since, published) && m.delay != 0
      modifies this`storage, this`arrivals, this`since
      ensures out.Entry? && arrivals == old(arrivals) + [m]
      ensures held == !Due(old(storage), m) && storage == Stored(old(storage), m)
      ensures !held ==> out == Entry(Published(old(storage), m))
      ensures Coalesced(old(storage), m, storage, if held then [] else [out.message])
      ensures held ==> Conserved(storage, queue, published, arrivals) && Known(storage, since, published)
      ensures !held ==> Conserved(storage, queue, published + [out.message], arrivals)
                        && Known(storage, since, published + [out.message])
    {
      hide Conserved, Known, Coalesced;
      StoredIs(storage, m);
      var d := DelayOf(storage, m.text);
      ghost var was := storage;
      d := d.(count := d.count + 1);
      d := d.(level := m.level);
      storage := storage[m.text := d];
      arrivals := arrivals + [m];
      Counted(was, d, m, queue, published, old(arrivals));
      if m.timestamp - d.last > m.delay {
        var o := m.(merged := d.count);
        var z := d.(count := 0, last := m.timestamp);
        PendingPublished(storage, z, o, queue, published, arrivals);
        KnownAfter(was, since, published, z, o);
        assert was[m.text := z] == storage[m.text := z];
        storage := storage[m.text := z];
        since := since[m.text := (if m.text in since then since[m.text] else []) + [o]];
        return false, Entry(o);
      }
      KnownHeld(was, since, published, m.text, d);
      since := since[m.text := if m.text in since then since[m.text] else []];
      return true, Entry(m);
    }

    /** Forgets every text that was not published within the hour, and sends what is
        pending for it. */
    method ClearDelayMessages(now: int)
      requires Conserved(storage, queue, published, arrivals) && Known(storage, since, published) && Plain(queue)
      modifies this`storage, this`queue, this`since
      ensures Conserved(storage, queue, published, arrivals) && Known(storage, since, published) && Plain(queue)
      ensures storage == Kept(old(storage), now) && old(queue) <= queue && Sent(queue[|old(queue)|..], old(storage))
      ensures Forgot(old(storage), storage, queue[|old(queue)|..], now)
    {
      hide Conserved, Known, Plain, Cleared, SentFor, Forgot;
      ghost var was, before, sent := storage, queue, [];
      var left := storage.Keys;
      ClearedNone(was, now);
      NoneSent(was, now);
      while left != {}
        invariant Conserved(storage, queue, published, arrivals) && Known(storage, since, published) && Plain(queue)
        invariant Cleared(was, storage, left, now)
        invariant queue == before + sent && Sent(sent, was) && SentFor(sent, was, left, now)
        decreases |left|
      {
        var text :| text in left;
        ClearedOne(was, storage, left, now, text);
        SentForOne(sent, was, left, now, text);
        left := left - {text};
        var d := storage[text];
        if now - d.last > 3600 {
          var m := Message(text, d.last, 0, d.level, d.count);
          PendingQueued(storage, m, queue, published, arrivals);
          Forgotten(storage, since, published, text);
          PlainSnoc(queue, m);
          if d.count > 0 {
            queue := queue + [Entry(m)];
            sent := sent + [Entry(m)];
          }
          storage := storage - {text};
          since := since - {text};
        }
      }
      ClearedAll(was, storage, now);
      assert queue[|before|..] == sent;
      ForgotIs(was, storage, sent, now);
    }

    /** One round of the thread's loop. */
    method Loop(now: int)
      requires Valid() && queue != []
      modifies this, lastMessages, lastMessages.buffer
      ensures Valid()
      ensures old(queue)[0].Flush? ==> messages == [] && handled == old(handled) + old(messages)
      ensures old(queue)[0].Entry? ==> handled == old(handled)
      ensures var e := old(queue)[0];
              && arrivals == (if IsDelayed(e) then old(arrivals) + [e.message] else old(arrivals))
              && published == old(published) + (
                   if e.Flush? || e.message.delay == CLEAR_DELAY || (e.message.delay != 0 && !Due(old(storage), e.message)) then []
                   else if e.message.delay == 0 then [e.message]
                   else [Published(old(storage), e.message)])
              && (if e.Entry? && e.message.delay == CLEAR_DELAY
                  then storage == Kept(old(storage), now) && old(queue)[1..] <= queue
                       && Sent(queue[|old(queue)| - 1..], old(storage))
                  else queue == old(queue)[1..] && storage == if IsDelayed(e) then Stored(old(storage), e.message) else old(storage))
      ensures var e := old(queue)[0];
              e.Entry? ==>
                if e.message.delay == 0 then storage == old(storage) && published == old(published) + [e.message] && queue == old(queue)[1..]
                else if e.message.delay == 0x7FFF_FFFF_FFFF_FFFF
                then published == old(published) && old(queue)[1..] <= queue && Forgot(old(storage), storage, queue[|old(queue)| - 1..], now)
                else old(published) <= published && Coalesced(old(storage), e.message, storage, published[|old(published)|..])
    {
      hide Conserved, Known, Plain, LastOf, Due, Published, Stored, Kept, Sent, Coalesced, Forgot;
      var e := queue[0];
      queue := queue[1..];
      assert old(queue) == [e] + queue;
      var held, out := DelayMessage(e, now);
      if held {
        return;
      }
      if out.Entry? {
        lastMessages.Push(out.message);
        PushLast(published, out.message, 200);
        published := published + [out.message];
        messages := messages + [out.message];
        return;
      }
      handled := handled + messages;
      messages := [];
    }
  }
}
