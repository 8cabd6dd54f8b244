/**
 * The collaborators a redirect mutates: the web response (status, headers,
 * body, and whether it has been sent) and the event dispatcher that receives
 * log events. Only the calls a redirect makes are modelled.
 */
module Http {

  /** One call made on a response, in the order it was made. */
  datatype Call =
    | HeadersCleared
    | StatusSet(code: int)
    | HeaderSet(name: string, value: string)
    | ContentSet(content: string)
    | Sent

  /** The observable state of a response. */
  datatype State = State(status: int, headers: map<string, string>, body: string, sent: bool)

  /** What one call does to a response. */
  function Apply(s: State, c: Call): State
  {
    match c
    case HeadersCleared => s.(headers := map[])
    case StatusSet(code) => s.(status := code)
    case HeaderSet(name, value) => s.(headers := s.headers[name := value])
    case ContentSet(content) => s.(body := content)
    case Sent => s.(sent := true)
  }

  /** The state a response reaches from `s` by the calls `calls`, in order. */
  function Replay(s: State, calls: seq<Call>): State
    decreases |calls|
  {
    if calls == [] then s else Replay(Apply(s, calls[0]), calls[1..])
  }

  lemma ReplayStep(s: State, c: Call, calls: seq<Call>)
    ensures Replay(s, [c] + calls) == Replay(Apply(s, c), calls)
  {
    assert ([c] + calls)[1..] == calls;
  }

  class Response {
    var status: int
    var headers: map<string, string>
    var body: string
    var sent: bool
    /** Every call made on this response so far, oldest first. */
    ghost var calls: seq<Call>

    function Snapshot(): State
      reads this
    {
      State(status, headers, body, sent)
    }

    constructor ()
      ensures Snapshot() == State(200, map[], "", false) && calls == []
    {
      status := 200;
      headers := map[];
      body := "";
      sent := false;
      calls := [];
    }

    method ClearHttpHeaders()
      modifies this
      ensures Snapshot() == Apply(old(Snapshot()), HeadersCleared)
      ensures calls == old(calls) + [HeadersCleared]
    {
      headers := map[];
      calls := calls + [HeadersCleared];
    }

    method SetStatusCode(code: int)
      modifies this
      ensures Snapshot() == Apply(old(Snapshot()), StatusSet(code))
      ensures calls == old(calls) + [StatusSet(code)]
    {
      status := code;
      calls := calls + [StatusSet(code)];
    }

    method SetHttpHeader(name: string, value: string)
      modifies this
      ensures Snapshot() == Apply(old(Snapshot()), HeaderSet(name, value))
      ensures calls == old(calls) + [HeaderSet(name, value)]
    {
      headers := headers[name := value];
      calls := calls + [HeaderSet(name, value)];
    }

    method SetContent(content: string)
      modifies this
      ensures Snapshot() == Apply(old(Snapshot()), ContentSet(content))
      ensures calls == old(calls) + [ContentSet(content)]
    {
      body := content;
      calls := calls + [ContentSet(content)];
    }

    method Send()
      modifies this
      ensures Snapshot() == Apply(old(Snapshot()), Sent)
      ensures calls == old(calls) + [Sent]
    {
      sent := true;
      calls := calls + [Sent];
    }
  }

  /** The event dispatcher, reduced to the log messages it has been notified of. */
  class Dispatcher {
    var log: seq<string>

    constructor ()
      ensures log == []
    {
      log := [];
    }

    method Notify(message: string)
      modifies this
      ensures log == old(log) + [message]
    {
      log := log + [message];
    }
  }
}
