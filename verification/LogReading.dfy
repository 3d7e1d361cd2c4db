/** The bridge between the container's log thread and the attempt: `ContainerLogReader` and
    `expect_message` of engine.py. */
module LogReading {
  import opened Domain
  import opened Comparators

  /** What the log generator does next: it yields a chunk, or it raises (a dropped connection, bytes
      that do not decode). It may also simply end. */
  datatype Raw = Chunk(text: string) | GeneratorError

  /** An item of the queue; `Sentinel` marks the end. */
  datatype Item = Text(line: string) | Sentinel

  /** The lines up to the point where the generator stops. */
  function Lines(lx: Lexis, raw: seq<Raw>): seq<Item> {
    if raw == [] || raw[0].GeneratorError? then []
    else [Text(Strip(lx, raw[0].text))] + Lines(lx, raw[1..])
  }

  /** The whole stream a reader would deliver: the stripped lines, then the sentinel once. */
  function Stream(lx: Lexis, raw: seq<Raw>): seq<Item> {
    Lines(lx, raw) + [Sentinel]
  }

  lemma {:induction false} LinesAreText(lx: Lexis, raw: seq<Raw>)
    ensures |Lines(lx, raw)| <= |raw|
    ensures forall k :: 0 <= k < |Lines(lx, raw)| ==>
              raw[k].Chunk? && Lines(lx, raw)[k] == Text(Strip(lx, raw[k].text))
    ensures |Lines(lx, raw)| < |raw| ==> raw[|Lines(lx, raw)|].GeneratorError?
  {
    if raw != [] && raw[0].Chunk? {
      var rest := Lines(lx, raw[1..]);
      LinesAreText(lx, raw[1..]);
      forall k | 0 <= k < |Lines(lx, raw)|
        ensures raw[k].Chunk? && Lines(lx, raw)[k] == Text(Strip(lx, raw[k].text))
      {
        if k > 0 { assert Lines(lx, raw)[k] == rest[k - 1] && raw[k] == raw[1..][k - 1]; }
      }
      assert |rest| < |raw[1..]| ==> raw[1..][|rest|] == raw[|rest| + 1];
    }
  }

  /** Whatever a consumer has taken from a reader: lines only, or lines closed by one sentinel. */
  lemma PrefixShape(lx: Lexis, raw: seq<Raw>, taken: seq<Item>)
    requires taken <= Stream(lx, raw)
    ensures forall k :: 0 <= k < |taken| - 1 ==> taken[k].Text?
    ensures forall k :: 0 <= k < |taken| && taken[k].Text? ==>
              k < |raw| && raw[k].Chunk? && taken[k].line == Strip(lx, raw[k].text)
    ensures Sentinel in taken ==> |taken| == |Lines(lx, raw)| + 1
  {
    LinesAreText(lx, raw);
    assert forall k :: 0 <= k < |taken| ==> taken[k] == Stream(lx, raw)[k];
  }

  class LogReader {
    const lx: Lexis
    const raw: seq<Raw>
    /** How many chunks the thread has taken from the generator. */
    var read: nat
    /** The thread has ended, with or without delivering the sentinel. */
    var stopped: bool
    var queue: seq<Item>
    /** Everything the consumer has got so far. */
    ghost var taken: seq<Item>

    ghost predicate Valid()
      reads this
    {
      taken + queue <= Stream(lx, raw)
      && (!stopped ==> read <= |Lines(lx, raw)| && taken + queue == Lines(lx, raw)[..read])
    }

    constructor (lx: Lexis, raw: seq<Raw>)
      ensures Valid() && this.lx == lx && this.raw == raw && taken == [] && queue == [] && read == 0 && !stopped
    {
      this.lx, this.raw := lx, raw;
      read, stopped, queue, taken := 0, false, [], [];
    }

    /** One turn of the reader thread. It pushes the next line, stripped, or the sentinel once the generator
        has stopped, unless the event loop is closed, in which case it ends silently. */
    method ReadOne(loopClosed: bool)
      requires Valid()
      modifies this
      ensures Valid() && taken == old(taken)
      ensures old(stopped) ==> stopped && queue == old(queue) && read == old(read)
      ensures !old(stopped) && loopClosed ==> stopped && queue == old(queue) && read == old(read)
      ensures !old(stopped) && !loopClosed ==>
                if old(read) < |raw| && raw[old(read)].Chunk?
                then queue == old(queue) + [Text(Strip(lx, raw[old(read)].text))] && !stopped && read == old(read) + 1
                else queue == old(queue) + [Sentinel] && stopped && read == old(read)
    {
      if stopped { return; }
      LinesAreText(lx, raw);
      if loopClosed {
        stopped := true;
      } else if read < |raw| && raw[read].Chunk? {
        assert taken + (queue + [Text(Strip(lx, raw[read].text))])
            == Lines(lx, raw)[..read] + [Lines(lx, raw)[read]];
        queue := queue + [Text(Strip(lx, raw[read].text))];
        read := read + 1;
      } else {
        assert taken + (queue + [Sentinel]) == (taken + queue) + [Sentinel] == Stream(lx, raw);
        queue := queue + [Sentinel];
        stopped := true;
      }
    }

    /** Something is queued, or will be after some turns of the thread. */
    predicate Arrives(turns: nat)
      reads this
    {
      queue != [] || (turns > 0 && !stopped)
    }

    /** `wait_for(log_reader.get(), timeout)`: the thread takes some turns, then the next item is taken,
        unless nothing has arrived or the wait was over before. */
    method Get(turns: nat, late: bool) returns (item: Option<Item>)
      requires Valid()
      modifies this
      ensures Valid()
      ensures item.Some? <==> !late && old(Arrives(turns))
      ensures taken == if item.Some? then old(taken) + [item.value] else old(taken)
    {
      for i := 0 to turns
        invariant Valid() && taken == old(taken)
        invariant i == 0 ==> queue == old(queue) && stopped == old(stopped)
        invariant i > 0 ==> (queue != [] <==> old(Arrives(turns))) && (queue == [] ==> stopped)
      {
        ReadOne(false);
      }
      if late || queue == [] { return None; }
      item := Some(queue[0]);
      assert taken + queue == (taken + [queue[0]]) + queue[1..];
      taken := taken + [queue[0]];
      queue := queue[1..];
    }

    /** Succeeds exactly when the next item of the stream arrives in time and is the expected line; raises
        TimeoutError (an OSError) when nothing arrives and RuntimeError on the sentinel or another line. */
    method ExpectMessage(expected: string, turns: nat, late: bool) returns (o: Outcome)
      requires Valid()
      modifies this
      ensures Valid()
      ensures o == Raised(Fatal) <==> late || !old(Arrives(turns))
      ensures o == Raised(Fatal) <==> taken == old(taken)
      ensures o.Done? <==> taken == old(taken) + [Text(expected)]
      ensures o.Raised? ==> o.Caught()
      ensures o == Raised(Retryable) <==> exists item :: item != Text(expected) && taken == old(taken) + [item]
    {
      var item := Get(turns, late);
      if item.None? { return Raised(Fatal); }
      assert taken[|old(taken)|] == item.value;
      if item.value.Sentinel? { return Raised(Retryable); }
      if item.value.line != expected { return Raised(Retryable); }
      return Done;
    }
  }
}
