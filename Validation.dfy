/**
 * One run of `validateTextDocument` in server/src/server.ts, as a function:
 * which diagnostics are published for a document, whether the pipeline stops
 * after the lexer, and how the server's "last analysed" globals `doc`,
 * `tokens` and `ast` change.
 *
 * The lexer (`Tokenize`) and the parser (`Parser.parse`) are not part of this
 * model; they enter as the functions `tokenize` and `parse`. Diagnostic ranges
 * are kept as raw offsets, in UTF-16 code units as JavaScript indexes strings.
 */
module Validation {
  import opened Wrappers

  /** An open document: its URI and its full text. */
  datatype TextDocument = TextDocument(uri: string, text: string)

  datatype Token = Token(kind: string, value: string, start: int, end: int)

  /** The root of the parser's tree (`StatementCommon`); the server reads only its offsets. */
  datatype Statement = Statement(kind: string, start: int, end: int)

  /** `Tokenize` yields either the token array or an error object with a span and a message. */
  datatype LexResult = Tokens(tokens: seq<Token>) | LexError(start: int, end: int, message: string)

  /** What `parser.parse()` returns, together with the parser's error fields. */
  datatype ParseResult = ParseResult(
    ast: Option<Statement>, parseError: bool, errStart: int, errEnd: int, errMessage: string)

  datatype DiagnosticSeverity = Error | Warning | Information | Hint

  /** A related-information entry: a location in the document and the detailed message. */
  datatype RelatedInformation = RelatedInformation(uri: string, start: int, end: int, message: string)

  datatype Diagnostic = Diagnostic(
    severity: DiagnosticSeverity, start: int, end: int, message: string,
    source: Option<string>, relatedInformation: seq<RelatedInformation>)

  /** The module globals `doc`, `tokens` and `ast`: the document analysed last and its results. */
  datatype Session = Session(doc: Option<TextDocument>, tokens: seq<Token>, ast: Option<Statement>)

  /** The globals after a run and the diagnostics it publishes. */
  datatype Outcome = Outcome(session: Session, diagnostics: seq<Diagnostic>)

  /** The globals before any document has been validated. */
  const InitialSession: Session := Session(None, [], None)

  /**
   * The length of a text as JavaScript's `length` counts it: in UTF-16 code
   * units, so a character outside the Basic Multilingual Plane counts twice.
   */
  function Utf16Length(s: string): (n: nat)
    ensures |s| <= n <= 2 * |s|
    // the two counts agree exactly when every character lies in the Basic Multilingual Plane
    ensures n == |s| <==> forall i :: 0 <= i < |s| ==> s[i] as int <= 0xFFFF
  {
    if s == [] then 0
    else (if s[0] as int > 0xFFFF then 2 else 1) + Utf16Length(s[1..])
  }

  /** A warning over `[start, end]`; the detailed message travels as related information when the client supports it. */
  function Report(uri: string, start: int, end: int, message: string, source: Option<string>,
                  detail: string, relatedInformationCapability: bool): (d: Diagnostic)
    ensures d.severity == Warning
    ensures d.start == start && d.end == end && d.message == message && d.source == source
    // related information exactly when the client supports it, over the same
    // range of the same document, carrying the detailed message
    ensures |d.relatedInformation| == (if relatedInformationCapability then 1 else 0)
    ensures forall ri <- d.relatedInformation ::
      ri.uri == uri && ri.start == start && ri.end == end && ri.message == detail
  {
    Diagnostic(Warning, start, end, message, source,
               if relatedInformationCapability then [RelatedInformation(uri, start, end, detail)] else [])
  }

  /** `validateTextDocument(document)`, after its settings lookup. */
  function Validate(session: Session, document: TextDocument, relatedInformationCapability: bool,
                    tokenize: string -> LexResult, parse: (seq<Token>, string) -> ParseResult): (r: Outcome)
    // the document is always recorded as the one analysed last
    ensures r.session.doc == Some(document)
    // at most one diagnostic, always a warning
    ensures |r.diagnostics| <= 1
    ensures forall d <- r.diagnostics :: d.severity == Warning
    // nothing is reported exactly when neither the lexer nor the parser fails
    ensures r.diagnostics == [] <==>
      (tokenize(document.text).Tokens? && !parse(tokenize(document.text).tokens, document.text).parseError)
    // a lexer error: one "Lexer" diagnostic over its span; tokens and tree stay as they were
    ensures tokenize(document.text).LexError? ==>
      var e := tokenize(document.text);
      r.session.tokens == session.tokens && r.session.ast == session.ast
      && r.diagnostics[0].start == e.start && r.diagnostics[0].end == e.end
      && r.diagnostics[0].message == "Lexer" && r.diagnostics[0].source == Some("ex")
      && r.diagnostics[0].relatedInformation ==
           (if relatedInformationCapability then [RelatedInformation(document.uri, e.start, e.end, e.message)] else [])
    // tokens: they and the tree are stored, even when the parser reports an error
    ensures tokenize(document.text).Tokens? ==>
      var ts := tokenize(document.text).tokens;
      var p := parse(ts, document.text);
      r.session.tokens == ts && r.session.ast == p.ast
      && (p.parseError ==>
            r.diagnostics[0].start == p.errStart && r.diagnostics[0].end == p.errEnd
            && r.diagnostics[0].message == "Parser" && r.diagnostics[0].source == None
            && r.diagnostics[0].relatedInformation ==
                 (if relatedInformationCapability
                  then [RelatedInformation(document.uri, p.errStart, p.errEnd, p.errMessage)] else []))
  {
    var text := document.text;
    match tokenize(text)
    case LexError(start, end, message) =>
      Outcome(session.(doc := Some(document)),
              [Report(document.uri, start, end, "Lexer", Some("ex"), message, relatedInformationCapability)])
    case Tokens(ts) =>
      var p := parse(ts, text);
      var diagnostics :=
        if p.parseError
        then [Report(document.uri, p.errStart, p.errEnd, "Parser", None, p.errMessage, relatedInformationCapability)]
        else [];
      Outcome(Session(Some(document), ts, p.ast), diagnostics)
  }

  // ---------------------------------------------------------------------------
  // Properties across runs
  // ---------------------------------------------------------------------------

  /** After a lexer error the parser is never consulted: any parser gives the same run. */
  lemma LexErrorStopsBeforeParsing(session: Session, document: TextDocument, relatedInformationCapability: bool,
                                   tokenize: string -> LexResult,
                                   parse1: (seq<Token>, string) -> ParseResult,
                                   parse2: (seq<Token>, string) -> ParseResult)
    requires tokenize(document.text).LexError?
    ensures Validate(session, document, relatedInformationCapability, tokenize, parse1)
         == Validate(session, document, relatedInformationCapability, tokenize, parse2)
  {
  }

  /** The published diagnostics depend on the document alone, not on what was analysed before. */
  lemma DiagnosticsIgnorePriorSession(s1: Session, s2: Session, document: TextDocument,
                                      relatedInformationCapability: bool,
                                      tokenize: string -> LexResult, parse: (seq<Token>, string) -> ParseResult)
    ensures Validate(s1, document, relatedInformationCapability, tokenize, parse).diagnostics
         == Validate(s2, document, relatedInformationCapability, tokenize, parse).diagnostics
  {
  }

  /** Validating the same document twice in a row leaves the same globals and publishes the same diagnostics. */
  lemma RevalidationIsIdempotent(session: Session, document: TextDocument, relatedInformationCapability: bool,
                                 tokenize: string -> LexResult, parse: (seq<Token>, string) -> ParseResult)
    ensures var once := Validate(session, document, relatedInformationCapability, tokenize, parse);
            Validate(once.session, document, relatedInformationCapability, tokenize, parse) == once
  {
  }
}
