/**
  What a goroutine behind a result does, in order: it sends on the result's channel, sets a
  field of the result (Usage, Final), and closes the channel.
*/
module Channels {
  import opened Options

  datatype Act<C, V> = Send(chunk: C) | Set(value: V) | Close

  function Sends<C, V>(cs: seq<C>): (log: seq<Act<C, V>>)
    ensures |log| == |cs| && forall i :: 0 <= i < |log| ==> log[i] == Send(cs[i])
  {
    seq(|cs|, i requires 0 <= i < |cs| => Send(cs[i]))
  }

  /** Everything sent, as the consumer receives it. */
  function Chunks<C, V>(log: seq<Act<C, V>>): seq<C> {
    if log == [] then []
    else
      var last := log[|log| - 1];
      Chunks(log[..|log| - 1]) + if last.Send? then [last.chunk] else []
  }

  /** What the field holds after these acts. */
  function Stored<C, V>(log: seq<Act<C, V>>): Option<V> {
    if log == [] then None
    else if log[|log| - 1].Set? then Some(log[|log| - 1].value)
    else Stored(log[..|log| - 1])
  }

  /** The channel is closed by the last act and by no earlier one, so nothing follows the close. */
  predicate ClosesLast<C, V>(log: seq<Act<C, V>>) {
    && log != [] && log[|log| - 1].Close?
    && forall i :: 0 <= i < |log| - 1 ==> !log[i].Close?
  }

  /** Zero or more non-terminal items, then exactly one terminal item. */
  predicate EndsOnce<C>(cs: seq<C>, terminal: C -> bool) {
    && cs != []
    && terminal(cs[|cs| - 1])
    && forall i :: 0 <= i < |cs| - 1 ==> !terminal(cs[i])
  }

  /** A consumer that has received the i-th act and all before it, but nothing later, reads this from the field. */
  function ReadAfter<C, V>(log: seq<Act<C, V>>, i: nat): Option<V>
    requires i < |log|
  {
    Stored(log[..i + 1])
  }

  lemma {:induction false} StepLog<C, V>(log: seq<Act<C, V>>, a: Act<C, V>)
    ensures Chunks(log + [a]) == Chunks(log) + if a.Send? then [a.chunk] else []
    ensures Stored(log + [a]) == if a.Set? then Some(a.value) else Stored(log)
  {
    assert (log + [a])[..|log|] == log;
  }

  lemma {:induction false} SendsOnly<C, V>(cs: seq<C>)
    ensures Chunks(Sends<C, V>(cs)) == cs && Stored(Sends<C, V>(cs)) == None
  {
    if cs != [] {
      var front := cs[..|cs| - 1];
      SendsOnly<C, V>(front);
      assert Sends<C, V>(cs)[..|cs| - 1] == Sends<C, V>(front);
      assert front + [cs[|cs| - 1]] == cs;
    }
  }

  /** The chunks, then the close. */
  function FailedLog<C, V>(cs: seq<C>): seq<Act<C, V>> {
    Sends(cs) + [Close]
  }

  lemma {:induction false} FailedLogMeans<C, V>(cs: seq<C>)
    ensures var log := FailedLog<C, V>(cs); Chunks(log) == cs && Stored(log) == None && ClosesLast(log)
  {
    SendsOnly<C, V>(cs);
    StepLog<C, V>(Sends(cs), Close);
    assert cs + [] == cs;
  }

  /** The field is set before the last chunk is sent. */
  function EarlyLog<C, V>(cs: seq<C>, v: V, last: C): seq<Act<C, V>> {
    Sends(cs) + [Set(v)] + [Send(last)] + [Close]
  }

  /** In this order whoever receives the last chunk, or sees the close, reads the value. */
  lemma {:induction false} EarlyLogMeans<C, V>(cs: seq<C>, v: V, last: C)
    ensures var log := EarlyLog<C, V>(cs, v, last);
            && Chunks(log) == cs + [last] && Stored(log) == Some(v) && ClosesLast(log)
            && log[|cs| + 1] == Send(last) && ReadAfter(log, |cs| + 1) == Some(v)
  {
    var sends := Sends<C, V>(cs);
    var two := sends + [Set(v)];
    var three := two + [Send(last)];
    SendsOnly<C, V>(cs);
    StepLog(sends, Set(v));
    StepLog(two, Send(last));
    StepLog(three, Close);
    assert cs + [] == cs && cs + [last] + [] == cs + [last];
    assert |two| == |cs| + 1 && |three| == |cs| + 2;
    assert (three + [Close])[..|three|] == three;
    assert three[|two|] == Send(last);
  }

  /** The field is set after the last chunk was sent, but before the close. */
  function LateLog<C, V>(cs: seq<C>, v: V): seq<Act<C, V>> {
    Sends(cs) + [Set(v)] + [Close]
  }

  /**
    In this order whoever sees the close reads the value, and whoever only received the last chunk
    may still read nothing.
  */
  lemma {:induction false} LateLogMeans<C, V>(cs: seq<C>, v: V)
    ensures var log := LateLog<C, V>(cs, v);
            && Chunks(log) == cs && Stored(log) == Some(v) && ClosesLast(log)
            && (cs != [] ==> log[|cs| - 1] == Send(cs[|cs| - 1]) && ReadAfter(log, |cs| - 1) == None)
  {
    var sends, log := Sends<C, V>(cs), LateLog<C, V>(cs, v);
    SendsOnly<C, V>(cs);
    StepLog(sends, Set(v));
    StepLog(sends + [Set(v)], Close);
    assert cs + [] == cs;
    if cs != [] {
      assert log[..|cs|] == sends;
    }
  }
}
