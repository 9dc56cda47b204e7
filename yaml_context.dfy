/**
 * A YAML stream: the documents between the stream's start and end events
 * (compiler/src/yaml/context.rs). Each document gets its own document
 * context, so anchors never carry over from one document to the next.
 */
module YamlContext {
  import opened Common
  import opened YamlEvent
  import opened YamlDocument

  const ExpectedDocument: string := "Expected a document"

  /**
   * `ParsingContext::parse` from `position`, with `docs` already parsed: a
   * stream start is skipped, a document start begins a document with fresh
   * anchors, the stream end finishes; any other event is "Expected a document".
   */
  function StreamSpec(events: seq<Event>, position: nat, docs: seq<Document>): (r: Parsed<seq<Document>>)
    requires position <= |events|
    ensures r.Success? ==> IsPrefix(docs, r.value)
    ensures position == |events| ==> r == Failure(ReaderError)
    decreases |events| - position
  {
    var event :- NextSpec(events, position);
    match event.data
    case StreamStart => StreamSpec(events, position + 1, docs)
    case DocumentStart(tagDirectives) =>
      var doc :- DocumentSpec(Partition(tagDirectives), events, event.startMark, Cursor(position + 1, map[]));
      StreamSpec(events, doc.1.position, docs + [doc.0])
    case StreamEnd => Success(docs)
    case _ => Failure(Problem(ExpectedDocument, event.startMark))
  }

  /** A stream that ends right after it starts holds no documents. */
  lemma EmptyStream(s: Mark, e: Mark)
    ensures StreamSpec([Event(StreamStart, s, s), Event(StreamEnd, e, e)], 0, []) == Success([])
  {
    var events := [Event(StreamStart, s, s), Event(StreamEnd, e, e)];
    assert StreamSpec(events, 1, []) == Success([]);
  }

  /** A stream start event is skipped. */
  lemma StreamStartSkipped(events: seq<Event>, position: nat, docs: seq<Document>)
    requires position < |events| && events[position].data.StreamStart?
    ensures StreamSpec(events, position, docs) == StreamSpec(events, position + 1, docs)
  {
  }

  /** The stream end returns the documents collected so far. */
  lemma StreamEndReturns(events: seq<Event>, position: nat, docs: seq<Document>)
    requires position < |events| && events[position].data.StreamEnd?
    ensures StreamSpec(events, position, docs) == Success(docs)
  {
  }

  /** A document start adds exactly one document, after those already parsed. */
  lemma DocumentAppended(events: seq<Event>, position: nat, docs: seq<Document>, doc: Document, after: nat)
    requires position < |events| && events[position].data.DocumentStart?
    requires var start := events[position];
      DocumentSpec(Partition(start.data.tagDirectives), events, start.startMark, Cursor(position + 1, map[])).Success?
      && DocumentSpec(Partition(start.data.tagDirectives), events, start.startMark, Cursor(position + 1, map[])).value.0 == doc
      && DocumentSpec(Partition(start.data.tagDirectives), events, start.startMark, Cursor(position + 1, map[])).value.1.position == after
    ensures after <= |events|
    ensures StreamSpec(events, position, docs) == StreamSpec(events, after, docs + [doc])
  {
  }

  /** An event that neither starts nor ends anything at stream level stops the stream. */
  lemma UnexpectedEventFails(events: seq<Event>, position: nat, docs: seq<Document>)
    requires position < |events|
    requires !events[position].data.StreamStart? && !events[position].data.DocumentStart?
    requires !events[position].data.StreamEnd?
    ensures StreamSpec(events, position, docs) == Failure(Problem(ExpectedDocument, events[position].startMark))
  {
  }

  /** `ParsingContext`: the parser the documents are read from. */
  class ParsingContext {
    const stream: EventStream

    constructor(stream: EventStream)
      ensures this.stream == stream
    {
      this.stream := stream;
    }

    /** `parse`: every document of the stream, in order. */
    method Parse() returns (r: Parsed<seq<Document>>)
      requires stream.position <= |stream.events|
      modifies stream
      ensures r == StreamSpec(stream.events, old(stream.position), [])
    {
      ghost var start := stream.position;
      var documents: seq<Document> := [];
      while true
        invariant start <= stream.position <= |stream.events|
        invariant StreamSpec(stream.events, start, []) == StreamSpec(stream.events, stream.position, documents)
        decreases |stream.events| - stream.position
      {
        ghost var here := stream.position;
        var event := stream.Next();
        if event.Failure? {
          return Failure(event.error);
        }
        var data := event.value.data;
        if data.StreamEnd? {
          return Success(documents);
        } else if data.DocumentStart? {
          var context := new DocumentContext(stream, data.tagDirectives);
          var document := context.Parse(event.value.startMark);
          if document.Failure? {
            return Failure(document.error);
          }
          documents := documents + [document.value];
        } else if !data.StreamStart? {
          return Failure(Problem(ExpectedDocument, event.value.startMark));
        }
      }
    }
  }
}
