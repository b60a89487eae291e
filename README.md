# Cosmic language server: completion, validation and settings cache

This project models the sequential logic of the Cosmic language server
(`server/src/server.ts`), the Language Server Protocol front end that drives
the Cosmic lexer, parser and static analyser. That logic comes in three parts:

- **Completion gathering** (`Completion.dfy`). The scope tree built by the
  static analyser is folded into completion items. For each scope, the items
  of every child subtree come first, in child order, and empty (`undefined`)
  child slots are skipped. Then comes one `Variable` item per variable the
  scope declares, in declaration order. Ancestor scopes are never read. The
  model has a pure specification `Completions` and the source's loop form
  `GetCompletionsFromScope`, which is proved equal to it. The properties are
  proved against an order-free reference, `Declared`: the multiset of
  variables declared in the subtree.
- **Validation** (`Validation.dfy`). `Validate` is one run of
  `validateTextDocument` as a function of the previous "last analysed"
  globals (`doc`, `tokens`, `ast`), the document, and the results of the
  lexer and the parser. It decides which diagnostics are published and how
  the globals change:
  - A lexer error gives one "Lexer" warning over the error's span. The run
    stops before parsing, and only `doc` changes.
  - A parse error gives one "Parser" warning over the parser's error span.
    The new tokens and tree are stored anyway.
  - Otherwise nothing is reported.
- **Settings cache** (`Settings.dfy`). Without the configuration capability,
  a lookup returns the global settings. With it, the first lookup of a
  document fetches its settings from the client and caches them, and later
  lookups are served from the cache. Closing a document drops only its
  entry. A configuration change clears the cache (with the capability) or
  replaces the global settings (without it). Without the capability the
  handler reads `change.settings.languageServerExample` unguarded, so a
  notification whose `settings` is missing throws before anything changes;
  the model returns no new cache (`None`) for it and the handler does
  nothing, not even revalidate.

`Server.dfy` holds the server's module globals in a class, `LanguageServer`,
with one method per handler. Each method is proved against the functions
above. `OnDidChangeConfiguration` revalidates the open documents by calling
`RevalidateDocuments`, whose loop is specified by the fold `RevalidateAll`. `OnCompletion` returns
nothing until a document and a tree have been stored. After that it
completes from the stored tree, whichever document the request names.

The lexer (`Tokenize`), the parser (`Parser.parse`) and the analyser
(`StaticAnalysis.traverse`, `getCurrentScope`) are not part of this model.
The lexer and the parser are fixed functions given to the server's
constructor. The analyser's two operations are parameters of
`OnCompletion`. The root scope of a completion request ends at the stored
document's length as JavaScript counts it, in UTF-16 code units
(`Utf16Length`). The client's answer to a `workspace/configuration` request
is a function `fetch` of the document URI. Offsets stay raw offsets,
in UTF-16 code units as JavaScript indexes strings; a Dafny `string` cannot
hold a lone surrogate, which a JavaScript string can. The settings a validation run looks up are not used by the rest of
the run, as in the source.

Two consequences of the code worth noting:

- After a lexer error the code still replaces `doc`. A later completion
  request therefore pairs the previous tree with the new document's length.
- After a parse error the code stores the new tokens and the partial tree.
  It does not keep the previous state.

## Model

| member | source | states |
|---|---|---|
| `Completion.GetCompletionsFromScope` | server/src/server.ts:247-263 | The loop form (push each child's items, skip `undefined` children, then one item per variable) returns exactly `Completions(scope)` |
| `Completion.Completions` | server/src/server.ts:247-263 | A scope offers at least one item per variable it declares itself, and a scope without children offers exactly its own variables, in declaration order |
| `Completion.CompletionsUnfold` | server/src/server.ts:247-263 | A scope's items are its children's items, slot after slot, followed by the items of its own variables |
| `Completion.VariableItems` | server/src/server.ts:255-260 | One item per variable, in declaration order, labelled with the variable's id |
| `Completion.CompletionsMatchDeclared` | server/src/server.ts:247-263 | The number of items equals the number of variables declared in the scope and its defined descendants. Each variable is offered exactly as often as it is declared there, every item has kind Variable, and an item appears exactly when it names a variable of that subtree, so nothing from ancestors or siblings appears |
| `Completion.CompletionsOrder` | server/src/server.ts:250-260 | For any child slot `i`: the items of slots before `i`, then slot `i`'s subtree, then the later slots, then the scope's own variables |
| `Completion.OwnVariablesLast` | server/src/server.ts:255-260 | The last items are the scope's own variables, in declaration order |
| `Completion.UndefinedChildIgnored` | server/src/server.ts:250-253 | Inserting an `undefined` child anywhere does not change the items |
| `Completion.NestedVariablesIncluded` | server/src/server.ts:250-253 | Every variable declared in a child subtree, and every item offered for that child, is also offered for the enclosing scope |
| `Settings.InitialCache` | server/src/server.ts:97-101 | The initial global settings are the defaults (`maxNumberOfProblems` 1000), the cache is empty, and the cache invariant holds |
| `Settings.GetDocumentSettings` | server/src/server.ts:117-130 | Without the capability: the global settings, no request, cache unchanged. With it: the answer is the resource's cached entry afterwards; the client is asked exactly when no entry existed, and its answer is stored; no other entry changes |
| `Settings.DidClose` | server/src/server.ts:133-135 | Removes exactly the closed URI's entry and keeps every other entry and the global settings |
| `Settings.DidChangeConfiguration` | server/src/server.ts:103-111 | With the capability the cache is emptied. Without it the pushed section (or the defaults when absent) becomes the global settings and the cache is untouched. The handler aborts (no new cache) exactly when the capability is missing and the notification carries no settings object |
| `Settings.HandlersKeepInvariant` | server/src/server.ts:103-135 | No handler ever caches an entry when the client lacks the configuration capability |
| `Settings.RepeatedLookupIsCached` | server/src/server.ts:121-129 | A repeated lookup returns the first lookup's settings, sends no request and changes nothing, whatever the client would now answer |
| `Settings.FirstLookupFetches` | server/src/server.ts:121-128 | With the capability, the first lookup asks the client and inserts its answer |
| `Settings.CloseForgetsOnlyThatDocument` | server/src/server.ts:133-135 | After a close, that URI is fetched afresh; lookups of other URIs behave as before |
| `Settings.ChangeForcesRefetch` | server/src/server.ts:103-106 | A configuration change with the capability never aborts, and afterwards every lookup fetches afresh |
| `Settings.GlobalSettingsFollowChanges` | server/src/server.ts:103-119 | Without the capability, lookups return the latest pushed section, or the defaults; a notification without settings aborts and lookups keep returning the old global settings |
| `Validation.Utf16Length` | server/src/server.ts:234 | The document length `getText().length` in UTF-16 code units: between one and two units per character, and equal to the character count exactly when every character lies in the Basic Multilingual Plane |
| `Validation.Report` | server/src/server.ts:159-180 | The diagnostic built for a lexer error (and in the same way at 190-210 for a parse error): a Warning over the given span with the given message and source; one related-information entry, for the same document and the same range with the detailed message, exactly when the client supports related information, and none otherwise |
| `Validation.Validate` | server/src/server.ts:147-219 | `doc` is always updated. At most one diagnostic is published, always a Warning. There are none exactly when neither the lexer nor the parser fails. A lexer error gives a "Lexer" diagnostic (source "ex") over its span and keeps the old tokens and tree. Otherwise the new tokens and tree are stored, and a parse error gives a "Parser" diagnostic over `[errStart, errEnd]`. Related information carries the detailed message only when the client supports it |
| `Validation.LexErrorStopsBeforeParsing` | server/src/server.ts:157-187 | After a lexer error the run does not depend on the parser at all |
| `Validation.DiagnosticsIgnorePriorSession` | server/src/server.ts:152-211 | The diagnostics depend only on the document, never on what was analysed before |
| `Validation.RevalidationIsIdempotent` | server/src/server.ts:153-214 | Validating the same document twice leaves the same globals and diagnostics as validating it once |
| `Server.Step` | server/src/server.ts:147-219 | One more validation run after earlier ones: exactly one more notification, appended after the earlier ones unchanged and addressed to this document's URI; `doc` is now this document (the stored tokens and tree change only when the lexer succeeds); the lookup keeps the capability and the global settings |
| `Server.RevalidateAll` | server/src/server.ts:113-114 | Revalidating the open documents sends one notification per document and leaves the cache exactly as the settings lookups alone would |
| `Server.RevalidatePublishesEach` | server/src/server.ts:113-114 | The notifications come in document order, each for that document's URI and with that document's own diagnostics; afterwards `doc` is the last document, and with no open documents nothing changes |
| `Server.CachedAfter` | server/src/server.ts:149 | Looking up settings for a list of documents keeps the capability flag and the global settings |
| `Server.CachedAfterLookups` | server/src/server.ts:117-130 | With the capability, looking up a list of documents caches exactly their URIs in addition to the old entries, keeps old entries, and stores the client's answer for new ones |
| `Server.ConfigurationChangeRefetches` | server/src/server.ts:103-114 | After a configuration change with the capability and the revalidation, the cache holds exactly the open documents' URIs, each with the client's fresh answer |
| `Server.LanguageServer.constructor` | server/src/server.ts:97-145 | Initial state: default global settings, empty cache, no document, no tokens, no tree |
| `Server.LanguageServer.GetDocumentSettings` | server/src/server.ts:117-130 | Returns the settings and leaves the cache as `Settings.GetDocumentSettings` says; the globals are untouched |
| `Server.LanguageServer.OnDidClose` | server/src/server.ts:133-135 | The cache becomes `Settings.DidClose` of the old cache; nothing else changes |
| `Server.LanguageServer.ValidateTextDocument` | server/src/server.ts:147-219 | Performs the settings lookup, sets the globals to `Validate`'s new state and publishes exactly its diagnostics for the document's URI |
| `Server.LanguageServer.OnDidChangeConfiguration` | server/src/server.ts:103-115 | When `Settings.DidChangeConfiguration` aborts, nothing changes and nothing is published. Otherwise the cache is updated as it says, then the open documents are revalidated in turn; final state and notifications are given by `RevalidateAll` |
| `Server.LanguageServer.RevalidateDocuments` | server/src/server.ts:113-114 | Validates the open documents in turn; final cache, globals and notifications are those of `RevalidateAll` from the old state |
| `Server.LanguageServer.OnCompletion` | server/src/server.ts:222-245 | Returns no items while no document or no tree is stored. Otherwise it returns the items of the scope the analyser finds at the offset, in the tree built from the stored `ast` with a root scope from the tree's start to the stored document's length in UTF-16 code units |

## Left out

- Capability negotiation (`onInitialize`, `onInitialized`, server/src/server.ts:41-87): the two capability flags the model uses are constructor arguments; workspace-folder support is not modelled.
- The lexer, parser and static analyser modules and `structs.json` are not part of this model. They are opaque functions, and the analyser's `Scope` constructor is taken to make a scope with no variables and no children.
- `positionAt`/`offsetAt` (the text-document library): diagnostics and completion requests use raw offsets, in UTF-16 code units as JavaScript indexes strings.
- The transport: `sendDiagnostics` becomes the returned `Publication`; `documents.listen` and `connection.listen` are not modelled.
- `onDidChangeContent` (server/src/server.ts:139-141) only calls `validateTextDocument`, which `ValidateTextDocument` models.
- `onCompletionResolve` (server/src/server.ts:267-271) returns its argument unchanged.
- Promises and `await`: a settings lookup returns its value directly. Revalidating all open documents runs sequentially in document order. In the source these runs are started together and finish in whatever order the client's configuration answers arrive.
- The `try`/`catch` blocks (server/src/server.ts:156-216, 231-241) and console logging: the opaque lexer, parser and analyser never throw in this model.
- The exception the configuration-change handler throws on a notification without settings is modelled only as an abort that changes nothing; the error the connection reports for it is not modelled.
- Variables carry only their `id`, the one field the server reads.
