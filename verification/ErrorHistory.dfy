/** The errors that a cyclic task remembers: the last runs of equal messages. */
module ErrorHistories {
  import opened Common
  import opened RingBuffers

  datatype ErrorInfo = ErrorInfo(timestamp: int, message: string, count: nat)

  /** An error as it was reported. */
  datatype Report = Report(message: string, time: int)

  const CAPACITY: nat := 10

  /** One more report: it belongs to the last run or begins a new one. */
  function Add(runs: seq<ErrorInfo>, e: Report): seq<ErrorInfo> {
    var n := |runs|;
    if n > 0 && runs[n - 1].message == e.message
    then runs[..n - 1] + [ErrorInfo(e.time, e.message, runs[n - 1].count + 1)]
    else runs + [ErrorInfo(e.time, e.message, 1)]
  }

  /** The run-length encoding of a history; a run has the time of its last report. */
  function Runs(history: seq<Report>): seq<ErrorInfo> {
    if history == [] then [] else Add(Runs(history[..|history| - 1]), history[|history| - 1])
  }

  /** The messages that runs stand for. */
  function Messages(runs: seq<ErrorInfo>): seq<string> {
    if runs == [] then []
    else Messages(runs[..|runs| - 1]) + Repeat(runs[|runs| - 1].message, runs[|runs| - 1].count)
  }

  function Texts(history: seq<Report>): seq<string> {
    seq(|history|, i requires 0 <= i < |history| => history[i].message)
  }

  lemma {:induction false} MessagesSnoc(runs: seq<ErrorInfo>, r: ErrorInfo)
    ensures Messages(runs + [r]) == Messages(runs) + Repeat(r.message, r.count)
  {
    assert (runs + [r])[..|runs|] == runs;
  }

  /** No run is empty, and neighbours differ. */
  ghost predicate Maximal(runs: seq<ErrorInfo>) {
    && (forall i | 0 <= i < |runs| :: runs[i].count > 0)
    && forall i | 0 < i < |runs| :: runs[i - 1].message != runs[i].message
  }

  lemma {:induction false} AddEncodes(runs: seq<ErrorInfo>, e: Report)
    requires Maximal(runs)
    ensures Maximal(Add(runs, e)) && Messages(Add(runs, e)) == Messages(runs) + [e.message]
  {
    var n := |runs|;
    if n > 0 && runs[n - 1].message == e.message {
      var r := runs[n - 1];
      assert runs == runs[..n - 1] + [r];
      MessagesSnoc(runs[..n - 1], r);
      MessagesSnoc(runs[..n - 1], ErrorInfo(e.time, e.message, r.count + 1));
      assert Repeat(r.message, r.count) + [e.message] == Repeat(r.message, r.count + 1);
    } else {
      MessagesSnoc(runs, ErrorInfo(e.time, e.message, 1));
      assert Repeat(e.message, 1) == [e.message];
    }
  }

  ghost predicate Encodes(runs: seq<ErrorInfo>, history: seq<Report>) {
    && Messages(runs) == Texts(history) && Maximal(runs)
    && (history != [] ==> runs != [] && runs[|runs| - 1].timestamp == history[|history| - 1].time)
  }

  lemma {:induction false} EncodesOneMore(front: seq<Report>, e: Report)
    requires Encodes(Runs(front), front)
    ensures Encodes(Runs(front + [e]), front + [e])
  {
    hide Runs, Messages, Maximal, Repeat;
    RunsSnoc(front, e);
    AddEncodes(Runs(front), e);
    assert Texts(front + [e]) == Texts(front) + [e.message];
  }

  /** The runs say exactly what was reported, in order, and are as long as they can be. */
  lemma {:induction false} RunsEncode(history: seq<Report>)
    ensures Encodes(Runs(history), history)
  {
    if history != [] {
      var k := |history| - 1;
      RunsEncode(history[..k]);
      EncodesOneMore(history[..k], history[k]);
      assert history == history[..k] + [history[k]];
    }
  }

  function Reversed<T>(s: seq<T>): (r: seq<T>)
    ensures |r| == |s| && forall i | 0 <= i < |s| :: r[i] == s[|s| - 1 - i]
  {
    seq(|s|, i requires 0 <= i < |s| => s[|s| - 1 - i])
  }

  class CyclicTask {
    const errors: RingBuffer<ErrorInfo>
    var errorsCount: nat
    ghost var history: seq<Report>

    /** The ring is the end of the encoded history, and the count is that of all runs. */
    ghost predicate Valid()
      reads this, errors, errors.buffer
    {
      && errors.Valid() && errors.buffer.Length == CAPACITY
      && errors.Contents() == LastOf(Runs(history), CAPACITY)
      && errorsCount == |Runs(history)|
    }

    constructor ()
      ensures Valid() && history == [] && fresh(errors) && fresh(errors.buffer)
    {
      errors := new RingBuffer<ErrorInfo>(CAPACITY);
      errorsCount := 0;
      history := [];
    }

    method SaveError(text: string, now: int)
      requires Valid()
      modifies this, errors, errors.buffer
      ensures Valid() && history == old(history) + [Report(text, now)]
    {
      hide Runs, Add, LastOf, InRing, Slot, Shape;
      ghost var e := Report(text, now);
      ghost var runs, c := Runs(history), errors.Contents();
      ghost var next := Add(runs, e);
      RunsSnoc(history, e);
      AddInRing(runs, e, CAPACITY);
      history := history + [e];
      assert Runs(history) == next && c == LastOf(runs, CAPACITY);
      if errors.size > 0 && errors.Back().message == text {
        var back := errors.Back();
        assert back == c[|c| - 1];
        errors.SetBack(back.(count := back.count + 1).(timestamp := now));
        assert errors.Contents() == LastOf(next, CAPACITY) && |next| == |runs|;
        return;
      }
      errorsCount := errorsCount + 1;
      errors.Push(ErrorInfo(now, text, 1));
      assert errors.Contents() == LastOf(next, CAPACITY) && |next| == |runs| + 1;
    }

    /** The newest error first. */
    method CurrentErrors() returns (result: seq<ErrorInfo>)
      requires Valid()
      ensures result == Reversed(LastOf(Runs(history), CAPACITY))
    {
      result := errors.CopyTo();
      result := Reversed(result);
    }
  }

  lemma {:induction false} RunsSnoc(history: seq<Report>, e: Report)
    ensures Runs(history + [e]) == Add(Runs(history), e)
  {
    assert (history + [e])[..|history|] == history;
  }

  /** Adding a report to all runs shows in the ring as adding it to the ring. */
  lemma {:induction false} AddInRing(runs: seq<ErrorInfo>, e: Report, n: nat)
    requires n > 0
    ensures var c := LastOf(runs, n);
            if c != [] && c[|c| - 1].message == e.message
            then LastOf(Add(runs, e), n) == c[..|c| - 1] + [ErrorInfo(e.time, e.message, c[|c| - 1].count + 1)]
                 && |Add(runs, e)| == |runs|
            else LastOf(Add(runs, e), n) == LastOf(c + [ErrorInfo(e.time, e.message, 1)], n) && |Add(runs, e)| == |runs| + 1
  {
    var c := LastOf(runs, n);
    if runs != [] {
      assert c[|c| - 1] == runs[|runs| - 1];
      ReplaceLast(runs, ErrorInfo(e.time, e.message, c[|c| - 1].count + 1), n);
    }
    PushLast(runs, ErrorInfo(e.time, e.message, 1), n);
    hide LastOf;
  }

  lemma {:induction false} ReplaceLast<T>(s: seq<T>, x: T, n: nat)
    requires n > 0 && s != []
    ensures LastOf(s[..|s| - 1] + [x], n) == LastOf(s, n)[..|LastOf(s, n)| - 1] + [x]
  {
  }
}
