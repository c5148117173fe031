/** The data the extractor reads (a parsed Angular element and its attributes)
    and the context it reports to. The context is the extractor's only channel
    of effect: every diagnostic and every registration is one call on it, and
    here each call appends one event to a log. */
module HtmlTranslationExtraction {

  /** A location in the template, as the parser gives it; the extractor only copies it. */
  datatype SourcePosition = SourcePosition(line: nat, column: nat)

  datatype Attribute = Attribute(name: string, value: string, startPosition: SourcePosition)

  /** An element: its attributes in source order, the texts of its child text
      nodes in order, and the position of its opening tag. */
  datatype AngularElement = AngularElement(
    attributes: seq<Attribute>,
    texts: seq<string>,
    startPosition: SourcePosition)

  /** The five diagnostics the extractor can emit. */
  datatype ErrorKind =
    | MissingDefaultText
    | MissingIdIndicator
    | EmptyId
    | MissingCorrespondingAttribute
    | MissingCorrespondingValue

  /** One call on the context: a registered translation, or an emitted error
      naming the marker attribute the message is about. */
  datatype Event =
    | Registration(translationId: string, defaultText: string, position: SourcePosition)
    | Diagnostic(kind: ErrorKind, attributeName: string, position: SourcePosition)

  /** The context of one extraction: a log of the calls made on it, oldest first. */
  class ExtractionContext {
    var events: seq<Event>

    constructor ()
      ensures events == []
    {
      events := [];
    }

    /** `context.emitError(message, position)`. */
    method EmitError(kind: ErrorKind, attributeName: string, position: SourcePosition)
      modifies this
      ensures events == old(events) + [Diagnostic(kind, attributeName, position)]
    {
      events := events + [Diagnostic(kind, attributeName, position)];
    }

    /** `context.registerTranslation({translationId, defaultText, position})`. */
    method RegisterTranslation(translationId: string, defaultText: string, position: SourcePosition)
      modifies this
      ensures events == old(events) + [Registration(translationId, defaultText, position)]
    {
      events := events + [Registration(translationId, defaultText, position)];
    }
  }
}
