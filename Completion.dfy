/**
 * Completion gathering over the static analyser's scope tree
 * (`getCompletionsFromScope` in server/src/server.ts).
 *
 * A scope lists the variables declared directly in its block and its child
 * scopes; a child slot may be empty (`undefined` in the source). The items for
 * a scope are those of every child subtree, in child order, followed by one
 * item per variable of the scope itself, in declaration order. Ancestors are
 * never consulted.
 */
module Completion {
  import opened Wrappers

  /** A variable binding recorded by the analyser; only its name is read here. */
  datatype Variable = Variable(id: string)

  /** A lexical scope: its offset range, its own variables and its child scopes. */
  datatype Scope = Scope(start: int, end: int, variables: seq<Variable>, children: seq<Option<Scope>>)

  /** The value of `CompletionItemKind.Variable` in the Language Server Protocol. */
  const VariableKind: nat := 6

  /** An LSP completion item; `name` holds what the protocol calls its `label`. */
  datatype CompletionItem = CompletionItem(name: string, kind: nat)

  /** A scope with no variables and no children, as the analyser's `Scope` constructor makes it. */
  function EmptyScope(start: int, end: int): (s: Scope)
    ensures s.start == start && s.end == end
    ensures s.variables == [] && s.children == []
  {
    Scope(start, end, [], [])
  }

  /** The item pushed for one variable. */
  function ItemOf(v: Variable): (item: CompletionItem) {
    CompletionItem(v.id, VariableKind)
  }

  /** One item per variable, in declaration order. */
  function VariableItems(vs: seq<Variable>): (items: seq<CompletionItem>)
    ensures |items| == |vs|
    ensures forall k :: 0 <= k < |vs| ==> items[k] == ItemOf(vs[k])
  {
    if vs == [] then [] else [ItemOf(vs[0])] + VariableItems(vs[1..])
  }

  // ---------------------------------------------------------------------------
  // The fold itself
  // ---------------------------------------------------------------------------

  /** The items `getCompletionsFromScope` returns for `scope`. */
  function Completions(scope: Scope): (r: seq<CompletionItem>)
    // at least one item per variable of the scope itself
    ensures |scope.variables| <= |r|
    // a scope without children offers exactly its own variables
    ensures scope.children == [] ==> r == VariableItems(scope.variables)
    decreases scope, 1
  {
    ChildrenFrom(scope, 0) + VariableItems(scope.variables)
  }

  /**
   * The items of the children of `scope` from index `i` on; empty slots give
   * none. The index keeps the recursion between a scope and its children
   * well founded; `ChildrenCompletions` below is the same fold over a
   * sequence of slots, and `ChildrenFromIsSuffix` relates the two.
   */
  function ChildrenFrom(scope: Scope, i: nat): (r: seq<CompletionItem>)
    requires i <= |scope.children|
    decreases scope, 0, |scope.children| - i
  {
    if i == |scope.children| then []
    else
      (match scope.children[i]
       case None => []
       case Some(child) => Completions(child))
      + ChildrenFrom(scope, i + 1)
  }

  /** The items one child slot contributes. */
  function ChildItems(child: Option<Scope>): (items: seq<CompletionItem>) {
    match child
    case None => []
    case Some(c) => Completions(c)
  }

  /** The concatenation of `f(x)` for each `x` of `xs`, in order. */
  function Flatten<T, U>(xs: seq<T>, f: T -> seq<U>): (r: seq<U>) {
    if xs == [] then [] else f(xs[0]) + Flatten(xs[1..], f)
  }

  /** The items of a sequence of child slots, slot after slot. */
  function ChildrenCompletions(children: seq<Option<Scope>>): (items: seq<CompletionItem>) {
    Flatten(children, ChildItems)
  }

  lemma {:induction false} ChildrenFromIsSuffix(scope: Scope, i: nat)
    requires i <= |scope.children|
    ensures ChildrenFrom(scope, i) == ChildrenCompletions(scope.children[i..])
    decreases |scope.children| - i
  {
    if i < |scope.children| {
      ChildrenFromIsSuffix(scope, i + 1);
      assert scope.children[i..][1..] == scope.children[i + 1..];
    }
  }

  /** Children first, in order, then the scope's own variables. */
  lemma CompletionsUnfold(scope: Scope)
    ensures Completions(scope) == ChildrenCompletions(scope.children) + VariableItems(scope.variables)
  {
    ChildrenFromIsSuffix(scope, 0);
    assert scope.children[0..] == scope.children;
  }

  lemma {:induction false} FlattenConcat<T, U>(a: seq<T>, b: seq<T>, f: T -> seq<U>)
    ensures Flatten(a + b, f) == Flatten(a, f) + Flatten(b, f)
  {
    if a == [] {
      assert a + b == b;
    } else {
      var ab := a + b;
      assert ab[0] == a[0] && ab[1..] == a[1..] + b;
      FlattenConcat(a[1..], b, f);
      calc {
        Flatten(ab, f);
        f(a[0]) + Flatten(a[1..] + b, f);
        f(a[0]) + (Flatten(a[1..], f) + Flatten(b, f));
        (f(a[0]) + Flatten(a[1..], f)) + Flatten(b, f);
      }
    }
  }

  /** A sequence splits around its element `i`. */
  lemma FlattenSplit<T, U>(xs: seq<T>, i: nat, f: T -> seq<U>)
    requires i < |xs|
    ensures Flatten(xs, f) == Flatten(xs[..i], f) + f(xs[i]) + Flatten(xs[i + 1..], f)
  {
    var rest := xs[i..];
    assert xs == xs[..i] + rest;
    FlattenConcat(xs[..i], rest, f);
    assert rest[0] == xs[i] && rest[1..] == xs[i + 1..];
  }

  // ---------------------------------------------------------------------------
  // A reference definition: the variables declared in a subtree
  // ---------------------------------------------------------------------------

  /**
   * Every variable declared in `scope` or in any descendant reached through a
   * defined child slot, counted with multiplicity and without regard to order.
   */
  function Declared(scope: Scope): (vs: multiset<Variable>)
    decreases scope, 1
  {
    multiset(scope.variables) + DeclaredFrom(scope, 0)
  }

  /**
   * The variables declared under the children of `scope` from index `i` on.
   * As with `ChildrenFrom`, the index exists only so that the recursion
   * between a scope and its children is well founded.
   */
  function DeclaredFrom(scope: Scope, i: nat): (vs: multiset<Variable>)
    requires i <= |scope.children|
    decreases scope, 0, |scope.children| - i
  {
    if i == |scope.children| then multiset{}
    else
      (match scope.children[i]
       case None => multiset{}
       case Some(child) => Declared(child))
      + DeclaredFrom(scope, i + 1)
  }

  lemma {:induction false} VariableItemsCount(vs: seq<Variable>, v: Variable)
    ensures multiset(VariableItems(vs))[ItemOf(v)] == multiset(vs)[v]
  {
    if vs != [] {
      VariableItemsCount(vs[1..], v);
      assert vs == [vs[0]] + vs[1..];
      assert VariableItems(vs) == [ItemOf(vs[0])] + VariableItems(vs[1..]);
    }
  }

  lemma {:induction false} VariableItemsKind(vs: seq<Variable>, it: CompletionItem)
    requires it in VariableItems(vs)
    ensures it.kind == VariableKind
  {
    var k :| 0 <= k < |vs| && VariableItems(vs)[k] == it;
  }

  /**
   * Each variable is offered exactly as many times as it is declared in the
   * subtree, and every item is a variable item.
   */
  lemma {:induction false} CompletionsCountDeclared(scope: Scope, v: Variable)
    ensures multiset(Completions(scope))[ItemOf(v)] == Declared(scope)[v]
    decreases scope, 1
  {
    ChildrenFromCountDeclared(scope, 0, v);
    VariableItemsCount(scope.variables, v);
  }

  lemma {:induction false} ChildrenFromCountDeclared(scope: Scope, i: nat, v: Variable)
    requires i <= |scope.children|
    ensures multiset(ChildrenFrom(scope, i))[ItemOf(v)] == DeclaredFrom(scope, i)[v]
    decreases scope, 0, |scope.children| - i
  {
    if i < |scope.children| {
      var here, rest := ChildItems(scope.children[i]), ChildrenFrom(scope, i + 1);
      assert ChildrenFrom(scope, i) == here + rest;
      assert multiset(here + rest) == multiset(here) + multiset(rest);
      ChildrenFromCountDeclared(scope, i + 1, v);
      match scope.children[i]
      case None =>
      case Some(child) => CompletionsCountDeclared(child, v);
    }
  }

  lemma {:induction false} CompletionsAreVariables(scope: Scope, it: CompletionItem)
    requires it in Completions(scope)
    ensures it.kind == VariableKind
    decreases scope, 1
  {
    if it in ChildrenFrom(scope, 0) {
      ChildrenFromAreVariables(scope, 0, it);
    } else {
      VariableItemsKind(scope.variables, it);
    }
  }

  lemma {:induction false} ChildrenFromAreVariables(scope: Scope, i: nat, it: CompletionItem)
    requires i <= |scope.children|
    requires it in ChildrenFrom(scope, i)
    ensures it.kind == VariableKind
    decreases scope, 0, |scope.children| - i
  {
    if i < |scope.children| {
      var here, rest := ChildItems(scope.children[i]), ChildrenFrom(scope, i + 1);
      assert ChildrenFrom(scope, i) == here + rest;
      if it in rest {
        ChildrenFromAreVariables(scope, i + 1, it);
      } else {
        assert it in here;
        match scope.children[i]
        case None =>
        case Some(child) => CompletionsAreVariables(child, it);
      }
    }
  }

  lemma {:induction false} CompletionsLength(scope: Scope)
    ensures |Completions(scope)| == |Declared(scope)|
    decreases scope, 1
  {
    ChildrenFromLength(scope, 0);
  }

  lemma {:induction false} ChildrenFromLength(scope: Scope, i: nat)
    requires i <= |scope.children|
    ensures |ChildrenFrom(scope, i)| == |DeclaredFrom(scope, i)|
    decreases scope, 0, |scope.children| - i
  {
    if i < |scope.children| {
      ChildrenFromLength(scope, i + 1);
      match scope.children[i]
      case None =>
      case Some(child) => CompletionsLength(child);
    }
  }

  // ---------------------------------------------------------------------------
  // What the fold promises
  // ---------------------------------------------------------------------------

  /**
   * The number of items is the number of variables declared in the scope and
   * its defined descendants; every item is of kind Variable; an item is offered
   * exactly when it names a variable declared in that subtree, so nothing from
   * an ancestor or a sibling scope appears.
   */
  lemma CompletionsMatchDeclared(scope: Scope)
    ensures |Completions(scope)| == |Declared(scope)|
    ensures forall v :: multiset(Completions(scope))[ItemOf(v)] == Declared(scope)[v]
    ensures forall it :: it in Completions(scope) <==>
      it.kind == VariableKind && Variable(it.name) in Declared(scope)
  {
    CompletionsLength(scope);
    forall v ensures multiset(Completions(scope))[ItemOf(v)] == Declared(scope)[v] {
      CompletionsCountDeclared(scope, v);
    }
    forall it ensures it in Completions(scope) <==>
      it.kind == VariableKind && Variable(it.name) in Declared(scope)
    {
      if it in Completions(scope) {
        CompletionsAreVariables(scope, it);
      }
      CompletionsCountDeclared(scope, Variable(it.name));
      assert it.kind == VariableKind ==> it == ItemOf(Variable(it.name));
    }
  }

  /**
   * The order of the items: the subtrees of the children before slot `i`, then
   * the subtree in slot `i`, then those after it, and last the scope's own
   * variables in declaration order.
   */
  lemma CompletionsOrder(scope: Scope, i: nat)
    requires i < |scope.children|
    ensures Completions(scope) ==
      ChildrenCompletions(scope.children[..i]) + ChildItems(scope.children[i])
      + ChildrenCompletions(scope.children[i + 1..]) + VariableItems(scope.variables)
  {
    CompletionsUnfold(scope);
    FlattenSplit(scope.children, i, ChildItems);
  }

  /** The last items are the scope's own variables, in declaration order. */
  lemma OwnVariablesLast(scope: Scope)
    ensures |Completions(scope)| >= |scope.variables|
    ensures forall k :: 0 <= k < |scope.variables| ==>
      Completions(scope)[|Completions(scope)| - |scope.variables| + k] == ItemOf(scope.variables[k])
  {
    CompletionsUnfold(scope);
  }

  /** An empty child slot, wherever it is inserted, contributes no items. */
  lemma UndefinedChildIgnored(scope: Scope, i: nat)
    requires i <= |scope.children|
    ensures Completions(scope.(children := scope.children[..i] + [None] + scope.children[i..]))
         == Completions(scope)
  {
    var cs := scope.children;
    var padded := cs[..i] + [None] + cs[i..];
    CompletionsUnfold(scope);
    CompletionsUnfold(scope.(children := padded));
    FlattenConcat(cs[..i] + [None], cs[i..], ChildItems);
    FlattenConcat(cs[..i], [None], ChildItems);
    FlattenConcat(cs[..i], cs[i..], ChildItems);
    assert ChildrenCompletions([None]) == [];
    assert ChildrenCompletions(cs[..i] + [None]) == ChildrenCompletions(cs[..i]);
    assert cs[..i] + cs[i..] == cs;
    assert ChildrenCompletions(padded) == ChildrenCompletions(cs);
  }

  /**
   * A variable declared in a nested block is offered for its enclosing scope:
   * the items of a child subtree form one contiguous block of the parent's.
   */
  lemma NestedVariablesIncluded(scope: Scope, i: nat, child: Scope)
    requires i < |scope.children| && scope.children[i] == Some(child)
    ensures forall v :: v in Declared(child) ==> v in Declared(scope)
    ensures forall it :: it in Completions(child) ==> it in Completions(scope)
  {
    CompletionsOrder(scope, i);
    CompletionsMatchDeclared(scope);
    CompletionsMatchDeclared(child);
    forall v | v in Declared(child) ensures v in Declared(scope) {
      assert ItemOf(v) in Completions(child);
    }
  }

  // ---------------------------------------------------------------------------
  // The source's loop form
  // ---------------------------------------------------------------------------

  /**
   * `getCompletionsFromScope`: pushes the items of each child subtree in turn,
   * skipping empty slots, then one item per variable.
   */
  method GetCompletionsFromScope(scope: Scope) returns (completions: seq<CompletionItem>)
    ensures completions == Completions(scope)
    decreases scope
  {
    var cs := scope.children;
    completions := [];
    var i := 0;
    while i < |cs|
      invariant 0 <= i <= |cs|
      invariant completions == ChildrenCompletions(cs[..i])
    {
      match cs[i] {
        case None =>
        case Some(child) =>
          var items := GetCompletionsFromScope(child);
          completions := completions + items;
      }
      assert completions == ChildrenCompletions(cs[..i]) + ChildItems(cs[i]);
      FlattenConcat(cs[..i], [cs[i]], ChildItems);
      assert ChildrenCompletions([cs[i]]) == ChildItems(cs[i]);
      assert cs[..i + 1] == cs[..i] + [cs[i]];
      i := i + 1;
    }
    assert cs[..i] == cs;
    var vs := scope.variables;
    var j := 0;
    while j < |vs|
      invariant 0 <= j <= |vs|
      invariant completions == ChildrenCompletions(cs) + VariableItems(vs[..j])
    {
      completions := completions + [CompletionItem(vs[j].id, VariableKind)];
      assert VariableItems(vs[..j + 1]) == VariableItems(vs[..j]) + [ItemOf(vs[j])];
      j := j + 1;
    }
    assert vs[..j] == vs;
    CompletionsUnfold(scope);
  }
}
