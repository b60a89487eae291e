/**
 * The language server's module-level state and handlers in
 * server/src/server.ts: the settings cache (`globalSettings`,
 * `documentSettings`), the "last analysed" globals (`doc`, `tokens`, `ast`),
 * `validateTextDocument`, the close and configuration-change handlers and the
 * completion handler.
 *
 * The lexer, the parser and the static analyser are fixed functions handed to
 * the server; the client's configuration answers (`fetch`) and the analyser's
 * traversal and scope lookup are parameters of the handlers that use them.
 */
module Server {
  import opened Wrappers
  import opened Completion
  import opened Validation
  import Settings

  /** One `sendDiagnostics` notification. */
  datatype Publication = Publication(uri: string, diagnostics: seq<Diagnostic>)

  /** The cache, the globals and the notifications after revalidating a list of documents. */
  datatype Revalidation = Revalidation(
    cache: Settings.SettingsCache, session: Session, published: seq<Publication>)

  /** The URIs of a list of documents. */
  function Uris(documents: seq<TextDocument>): (uris: set<string>) {
    set k | 0 <= k < |documents| :: documents[k].uri
  }

  /** One validation run after the runs summarised in `prev`: its settings lookup, then the run itself. */
  function Step(prev: Revalidation, document: TextDocument, relatedInformationCapability: bool,
                tokenize: string -> LexResult, parse: (seq<Token>, string) -> ParseResult,
                fetch: string -> Settings.ExampleSettings): (r: Revalidation)
    // exactly one more notification, for this document, after the earlier ones
    ensures |r.published| == |prev.published| + 1
    ensures r.published[..|prev.published|] == prev.published
    ensures r.published[|prev.published|].uri == document.uri
    // the globals now describe this document
    ensures r.session.doc == Some(document)
    // the lookup keeps the capability and the global settings
    ensures r.cache.hasConfigurationCapability == prev.cache.hasConfigurationCapability
    ensures r.cache.globalSettings == prev.cache.globalSettings
  {
    var run := Validate(prev.session, document, relatedInformationCapability, tokenize, parse);
    Revalidation(Settings.GetDocumentSettings(prev.cache, document.uri, fetch).cache, run.session,
                 prev.published + [Publication(document.uri, run.diagnostics)])
  }

  /**
   * Validating `documents` one after another, each run first looking up its
   * settings: what the configuration-change handler does for the open documents.
   */
  function RevalidateAll(cache: Settings.SettingsCache, session: Session, documents: seq<TextDocument>,
                         relatedInformationCapability: bool, tokenize: string -> LexResult,
                         parse: (seq<Token>, string) -> ParseResult,
                         fetch: string -> Settings.ExampleSettings): (r: Revalidation)
    // one notification per document
    ensures |r.published| == |documents|
    // the cache is what the settings lookups alone leave behind
    ensures r.cache == CachedAfter(cache, documents, fetch)
    decreases |documents|
  {
    if documents == [] then Revalidation(cache, session, [])
    else
      var prev := RevalidateAll(cache, session, documents[..|documents| - 1],
                                relatedInformationCapability, tokenize, parse, fetch);
      Step(prev, documents[|documents| - 1], relatedInformationCapability, tokenize, parse, fetch)
  }

  /**
   * Revalidation sends one notification per document, in document order, each
   * with that document's own diagnostics; afterwards the globals describe the
   * last document.
   */
  lemma {:induction false} RevalidatePublishesEach(cache: Settings.SettingsCache, session: Session,
                                                   documents: seq<TextDocument>, relatedInformationCapability: bool,
                                                   tokenize: string -> LexResult,
                                                   parse: (seq<Token>, string) -> ParseResult,
                                                   fetch: string -> Settings.ExampleSettings)
    ensures var r := RevalidateAll(cache, session, documents, relatedInformationCapability, tokenize, parse, fetch);
            (forall k :: 0 <= k < |documents| ==>
               r.published[k].uri == documents[k].uri
               && r.published[k].diagnostics
                  == Validate(InitialSession, documents[k], relatedInformationCapability, tokenize, parse).diagnostics)
            && (documents == [] ==> r.session == session && r.cache == cache)
            && (documents != [] ==> r.session.doc == Some(documents[|documents| - 1]))
    decreases |documents|
  {
    if documents != [] {
      var init := documents[..|documents| - 1];
      var last := documents[|documents| - 1];
      RevalidatePublishesEach(cache, session, init, relatedInformationCapability, tokenize, parse, fetch);
      var prev := RevalidateAll(cache, session, init, relatedInformationCapability, tokenize, parse, fetch);
      DiagnosticsIgnorePriorSession(prev.session, InitialSession, last,
                                    relatedInformationCapability, tokenize, parse);
      var r := RevalidateAll(cache, session, documents, relatedInformationCapability, tokenize, parse, fetch);
      assert r == Step(prev, last, relatedInformationCapability, tokenize, parse, fetch);
      forall k | 0 <= k < |documents|
        ensures r.published[k].uri == documents[k].uri
        ensures r.published[k].diagnostics
             == Validate(InitialSession, documents[k], relatedInformationCapability, tokenize, parse).diagnostics
      {
        if k < |init| {
          assert r.published[k] == prev.published[k] && documents[k] == init[k];
        }
      }
    }
  }

  /** Revalidating one more document of a list is one more `Step`. */
  lemma RevalidateNext(cache: Settings.SettingsCache, session: Session, documents: seq<TextDocument>, i: nat,
                       relatedInformationCapability: bool, tokenize: string -> LexResult,
                       parse: (seq<Token>, string) -> ParseResult, fetch: string -> Settings.ExampleSettings)
    requires i < |documents|
    ensures RevalidateAll(cache, session, documents[..i + 1], relatedInformationCapability, tokenize, parse, fetch)
         == Step(RevalidateAll(cache, session, documents[..i], relatedInformationCapability, tokenize, parse, fetch),
                 documents[i], relatedInformationCapability, tokenize, parse, fetch)
  {
    assert documents[..i + 1][..i] == documents[..i];
  }

  /** The settings cache after looking up the settings of `documents` in turn. */
  function CachedAfter(cache: Settings.SettingsCache, documents: seq<TextDocument>,
                       fetch: string -> Settings.ExampleSettings): (r: Settings.SettingsCache)
    ensures r.hasConfigurationCapability == cache.hasConfigurationCapability
    ensures r.globalSettings == cache.globalSettings
    decreases |documents|
  {
    if documents == [] then cache
    else
      Settings.GetDocumentSettings(CachedAfter(cache, documents[..|documents| - 1], fetch),
                                   documents[|documents| - 1].uri, fetch).cache
  }

  /**
   * With the configuration capability, looking up the settings of a list of
   * documents leaves exactly their URIs cached in addition to what was cached
   * before: entries already present are kept, every new one holds the
   * client's answer.
   */
  lemma {:induction false} CachedAfterLookups(cache: Settings.SettingsCache, documents: seq<TextDocument>,
                                              fetch: string -> Settings.ExampleSettings)
    requires cache.hasConfigurationCapability
    ensures var m := CachedAfter(cache, documents, fetch).documentSettings;
            m.Keys == cache.documentSettings.Keys + Uris(documents)
            && (forall u :: u in cache.documentSettings ==> m[u] == cache.documentSettings[u])
            && (forall u :: u in m && u !in cache.documentSettings ==> m[u] == fetch(u))
    decreases |documents|
  {
    if documents != [] {
      var init := documents[..|documents| - 1];
      var last := documents[|documents| - 1];
      CachedAfterLookups(cache, init, fetch);
      var prev := CachedAfter(cache, init, fetch);
      var lookup := Settings.GetDocumentSettings(prev, last.uri, fetch);
      var before, after := prev.documentSettings, lookup.cache.documentSettings;
      assert CachedAfter(cache, documents, fetch) == lookup.cache;
      assert after.Keys == before.Keys + {last.uri};
      forall u | u in cache.documentSettings ensures after[u] == cache.documentSettings[u] {
        assert u in before && before[u] == cache.documentSettings[u];
      }
      forall u | u in after && u !in cache.documentSettings ensures after[u] == fetch(u) {
        if u in before {
          assert before[u] == fetch(u);
        } else {
          assert u == last.uri && lookup.requested;
        }
      }
      assert Uris(documents) == Uris(init) + {last.uri} by {
        forall u ensures u in Uris(documents) <==> u in Uris(init) + {last.uri} {
          if u in Uris(documents) {
            var k :| 0 <= k < |documents| && documents[k].uri == u;
            if k < |documents| - 1 {
              assert init[k].uri == u;
            }
          }
          if u in Uris(init) {
            var k :| 0 <= k < |init| && init[k].uri == u;
            assert documents[k].uri == u;
          }
        }
      }
    }
  }

  /** After a configuration change with the capability, the open documents' settings are all fetched afresh. */
  lemma ConfigurationChangeRefetches(cache: Settings.SettingsCache, settings: Option<Settings.ChangedSettings>,
                                     session: Session, documents: seq<TextDocument>,
                                     relatedInformationCapability: bool, tokenize: string -> LexResult,
                                     parse: (seq<Token>, string) -> ParseResult,
                                     fetch: string -> Settings.ExampleSettings)
    requires cache.hasConfigurationCapability
    ensures Settings.DidChangeConfiguration(cache, settings).Some?
    ensures var m := RevalidateAll(Settings.DidChangeConfiguration(cache, settings).value, session, documents,
                                   relatedInformationCapability, tokenize, parse, fetch).cache.documentSettings;
            m.Keys == Uris(documents) && forall u :: u in m ==> m[u] == fetch(u)
  {
    CachedAfterLookups(Settings.DidChangeConfiguration(cache, settings).value, documents, fetch);
  }

  class LanguageServer {
    /** Set once at initialisation from the client's capabilities. */
    const hasConfigurationCapability: bool
    const hasDiagnosticRelatedInformationCapability: bool
    /** The lexer and the parser the server runs. */
    const tokenize: string -> LexResult
    const parse: (seq<Token>, string) -> ParseResult

    var globalSettings: Settings.ExampleSettings
    var documentSettings: map<string, Settings.ExampleSettings>
    var doc: Option<TextDocument>
    var tokens: seq<Token>
    var ast: Option<Statement>

    /** The settings cache as a value. */
    function Cache(): (c: Settings.SettingsCache)
      reads this
    {
      Settings.SettingsCache(hasConfigurationCapability, globalSettings, documentSettings)
    }

    /** The "last analysed" globals as a value. */
    function LastAnalysed(): (s: Session)
      reads this
    {
      Session(doc, tokens, ast)
    }

    /**
     * The cache invariant of `Settings.CacheInvariant`: no entry is cached
     * without the configuration capability. No handler relies on it; each
     * keeps it, as `Settings.HandlersKeepInvariant` states of their functions.
     */
    ghost predicate Valid()
      reads this
    {
      Settings.CacheInvariant(Cache())
    }

    constructor (configurationCapability: bool, relatedInformationCapability: bool,
                 tokenize: string -> LexResult, parse: (seq<Token>, string) -> ParseResult)
      ensures Valid()
      ensures Cache() == Settings.InitialCache(configurationCapability)
      ensures LastAnalysed() == InitialSession
      ensures hasDiagnosticRelatedInformationCapability == relatedInformationCapability
      ensures this.tokenize == tokenize && this.parse == parse
    {
      hasConfigurationCapability := configurationCapability;
      hasDiagnosticRelatedInformationCapability := relatedInformationCapability;
      this.tokenize := tokenize;
      this.parse := parse;
      globalSettings := Settings.DefaultSettings;
      documentSettings := map[];
      doc := None;
      tokens := [];
      ast := None;
    }

    /** `getDocumentSettings(resource)`. */
    method GetDocumentSettings(resource: string, fetch: string -> Settings.ExampleSettings)
      returns (settings: Settings.ExampleSettings)
      requires Valid()
      modifies this
      ensures Valid()
      ensures var lookup := Settings.GetDocumentSettings(old(Cache()), resource, fetch);
              settings == lookup.settings && Cache() == lookup.cache
      ensures LastAnalysed() == old(LastAnalysed())
    {
      if !hasConfigurationCapability {
        return globalSettings;
      }
      if resource in documentSettings {
        settings := documentSettings[resource];
      } else {
        settings := fetch(resource);
        documentSettings := documentSettings[resource := settings];
      }
    }

    /** The close handler. */
    method OnDidClose(uri: string)
      requires Valid()
      modifies this
      ensures Valid()
      ensures Cache() == Settings.DidClose(old(Cache()), uri)
      ensures LastAnalysed() == old(LastAnalysed())
    {
      documentSettings := documentSettings - {uri};
    }

    /** `validateTextDocument(textDocument)`: returns the one notification it sends. */
    method ValidateTextDocument(textDocument: TextDocument, fetch: string -> Settings.ExampleSettings)
      returns (published: Publication)
      requires Valid()
      modifies this
      ensures Valid()
      ensures Cache() == Settings.GetDocumentSettings(old(Cache()), textDocument.uri, fetch).cache
      ensures var run := Validate(old(LastAnalysed()), textDocument,
                                  hasDiagnosticRelatedInformationCapability, tokenize, parse);
              LastAnalysed() == run.session
              && published == Publication(textDocument.uri, run.diagnostics)
    {
      var settings := GetDocumentSettings(textDocument.uri, fetch);
      var text := textDocument.text;
      doc := Some(textDocument);
      var diagnostics: seq<Diagnostic> := [];

      var tokensRes := tokenize(text);
      if tokensRes.LexError? {
        var diagnostic := Diagnostic(Warning, tokensRes.start, tokensRes.end, "Lexer", Some("ex"), []);
        if hasDiagnosticRelatedInformationCapability {
          diagnostic := diagnostic.(relatedInformation :=
            [RelatedInformation(textDocument.uri, diagnostic.start, diagnostic.end, tokensRes.message)]);
        }
        diagnostics := diagnostics + [diagnostic];
        return Publication(textDocument.uri, diagnostics);
      }

      var parsed := parse(tokensRes.tokens, text);
      if parsed.parseError {
        var diagnostic := Diagnostic(Warning, parsed.errStart, parsed.errEnd, "Parser", None, []);
        if hasDiagnosticRelatedInformationCapability {
          diagnostic := diagnostic.(relatedInformation :=
            [RelatedInformation(textDocument.uri, diagnostic.start, diagnostic.end, parsed.errMessage)]);
        }
        diagnostics := diagnostics + [diagnostic];
      }

      tokens := tokensRes.tokens;
      ast := parsed.ast;
      published := Publication(textDocument.uri, diagnostics);
    }

    /**
     * The configuration-change handler: update the cache, then revalidate every
     * open document in turn; returns the notifications sent. Without the
     * capability, a notification without a settings object aborts the handler
     * before anything changes.
     */
    method OnDidChangeConfiguration(settings: Option<Settings.ChangedSettings>,
                                    openDocuments: seq<TextDocument>,
                                    fetch: string -> Settings.ExampleSettings)
      returns (published: seq<Publication>)
      requires Valid()
      modifies this
      ensures Valid()
      ensures Settings.DidChangeConfiguration(old(Cache()), settings).None? ==>
        Cache() == old(Cache()) && LastAnalysed() == old(LastAnalysed()) && published == []
      ensures Settings.DidChangeConfiguration(old(Cache()), settings).Some? ==>
        var r := RevalidateAll(Settings.DidChangeConfiguration(old(Cache()), settings).value,
                               old(LastAnalysed()), openDocuments,
                               hasDiagnosticRelatedInformationCapability, tokenize, parse, fetch);
        Cache() == r.cache && LastAnalysed() == r.session && published == r.published
    {
      if hasConfigurationCapability {
        documentSettings := map[];
      } else if settings.None? {
        return [];
      } else {
        globalSettings := settings.value.languageServerExample.GetOr(Settings.DefaultSettings);
      }
      assert Settings.DidChangeConfiguration(old(Cache()), settings) == Some(Cache());
      published := RevalidateDocuments(openDocuments, fetch);
    }

    /** `documents.all().forEach(validateTextDocument)`: validates each open document in turn. */
    method RevalidateDocuments(openDocuments: seq<TextDocument>, fetch: string -> Settings.ExampleSettings)
      returns (published: seq<Publication>)
      requires Valid()
      modifies this
      ensures Valid()
      ensures var r := RevalidateAll(old(Cache()), old(LastAnalysed()), openDocuments,
                                     hasDiagnosticRelatedInformationCapability, tokenize, parse, fetch);
              Cache() == r.cache && LastAnalysed() == r.session && published == r.published
    {
      published := [];
      var i := 0;
      while i < |openDocuments|
        invariant 0 <= i <= |openDocuments|
        invariant Valid()
        invariant var r := RevalidateAll(old(Cache()), old(LastAnalysed()), openDocuments[..i],
                                         hasDiagnosticRelatedInformationCapability, tokenize, parse, fetch);
                  Cache() == r.cache && LastAnalysed() == r.session && published == r.published
      {
        var p := ValidateTextDocument(openDocuments[i], fetch);
        published := published + [p];
        RevalidateNext(old(Cache()), old(LastAnalysed()), openDocuments, i,
                       hasDiagnosticRelatedInformationCapability, tokenize, parse, fetch);
        i := i + 1;
      }
      assert openDocuments[..i] == openDocuments;
    }

    /**
     * The completion handler: nothing before a document and a tree have been
     * stored; otherwise the items of the scope the analyser finds at `offset`
     * in the tree it builds from the stored `ast`, with a root scope running
     * from the tree's start to the end of the stored document's text, measured
     * in UTF-16 code units as JavaScript's `length` counts it.
     */
    method OnCompletion(offset: int, traverse: (Statement, Scope) -> Scope,
                        getCurrentScope: (int, Scope) -> Scope)
      returns (completions: seq<CompletionItem>)
      ensures doc.None? || ast.None? ==> completions == []
      ensures doc.Some? && ast.Some? ==>
        completions == Completions(getCurrentScope(offset,
                                     traverse(ast.value, EmptyScope(ast.value.start, Utf16Length(doc.value.text)))))
    {
      if doc.None? || ast.None? {
        return [];
      }
      var globalScope := traverse(ast.value, EmptyScope(ast.value.start, Utf16Length(doc.value.text)));
      var currentScope := getCurrentScope(offset, globalScope);
      completions := GetCompletionsFromScope(currentScope);
    }
  }
}
