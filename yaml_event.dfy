/**
 * The event stream the YAML tree is built from. The source pulls events from
 * libyaml's parser (compiler/src/yaml/context.rs, `next`); here the parser's
 * whole output is an input sequence, and reading past its end stands for the
 * parser reporting an error. Errors carry the fields of the source's
 * `DatasetError`.
 */
module YamlEvent {
  import opened Common

  /** A `%TAG` directive: the handle (such as "!" or "!e!") and the prefix it stands for. */
  datatype TagDirective = TagDirective(handle: string, prefix: string)

  datatype EventData =
    | StreamStart
    | StreamEnd
    | DocumentStart(tagDirectives: seq<TagDirective>)
    | DocumentEnd
    | Alias(alias: string)
    | ScalarEvent(anchor: Option<string>, tag: Option<string>, text: string)
    | SequenceStart(anchor: Option<string>, tag: Option<string>)
    | SequenceEnd
    | MappingStart(anchor: Option<string>, tag: Option<string>)
    | MappingEnd

  datatype Event = Event(data: EventData, startMark: Mark, endMark: Mark)

  datatype YamlError =
    /** An error the tree builder reports itself. */
    | DatasetError(problem: string, problemMark: Mark, context: Option<string>, contextMark: Option<Mark>)
    /** An error of the underlying parser. */
    | ReaderError
    /** A string slice off a character boundary, where the source panics. */
    | Panicked

  datatype Parsed<T> = Success(value: T) | Failure(error: YamlError)
  {
    predicate IsFailure() { Failure? }

    function PropagateFailure<U>(): Parsed<U>
      requires Failure?
    {
      Failure(error)
    }

    function Extract(): T
      requires Success?
    {
      value
    }
  }

  /** A dataset error with no context. */
  function Problem(message: string, mark: Mark): (e: YamlError)
    ensures e.DatasetError? && e.problem == message && e.problemMark == mark
    ensures e.context.None? && e.contextMark.None?
  {
    DatasetError(message, mark, None, None)
  }

  /** The event at `position`, or the parser's error once the events run out. */
  function NextSpec(events: seq<Event>, position: nat): (r: Parsed<Event>)
    ensures r.Success? <==> position < |events|
    ensures r.Success? ==> r.value == events[position]
  {
    if position < |events| then Success(events[position]) else Failure(ReaderError)
  }

  /** The parser as a cursor over its events. */
  class EventStream {
    const events: seq<Event>
    var position: nat

    constructor(events: seq<Event>)
      ensures this.events == events && position == 0
    {
      this.events := events;
      position := 0;
    }

    /** `next`: the next event, consumed; the cursor stays put on an error. */
    method Next() returns (r: Parsed<Event>)
      requires position <= |events|
      modifies this
      ensures r == NextSpec(events, old(position))
      ensures position == if r.Success? then old(position) + 1 else old(position)
      ensures position <= |events|
    {
      if position < |events| {
        r := Success(events[position]);
        position := position + 1;
      } else {
        r := Failure(ReaderError);
      }
    }
  }
}
