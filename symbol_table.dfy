/** The scoped table of declared entities, with documentation waiting to be attached to the next definition. */
module SymbolTables {
  import opened Common
  import opened Errors
  import opened Spans
  import Text

  /** The value types of the language. */
  datatype ValueType = Int | Str | Bool

  /** `Display for ValueType`. */
  function ValueTypeName(t: ValueType): (s: string)
    ensures (s == "int" <==> t.Int?) && (s == "str" <==> t.Str?) && (s == "bool" <==> t.Bool?)
  {
    match t
    case Int => "int"
    case Str => "str"
    case Bool => "bool"
  }

  /** Distinct types print differently. */
  lemma {:induction false} ValueTypeNameInjective(a: ValueType, b: ValueType)
    requires ValueTypeName(a) == ValueTypeName(b)
    ensures a == b
  {
    assert ValueTypeName(a)[0] == ValueTypeName(b)[0];
  }

  /** What kind of entity a symbol stands for. */
  datatype EntityType =
    | Variable(valueType: ValueType)
    | Constant(valueType: ValueType)
    | Function(params: seq<ValueType>, returnType: ValueType)

  datatype Symbol = Symbol(entityType: EntityType, definitionSpan: Span, documentation: Option<string>, isInitialized: bool)

  /** `Symbol::new`: undocumented and not yet initialised. */
  function NewSymbol(entityType: EntityType, definitionSpan: Span): (s: Symbol)
    ensures s.entityType == entityType && s.definitionSpan == definitionSpan
    ensures s.documentation == None && !s.isInitialized
  {
    Symbol(entityType, definitionSpan, None, false)
  }

  /** `Symbol::with_documentation`: replaces the documentation and nothing else. */
  function WithDocumentation(s: Symbol, doc: string): (r: Symbol)
    ensures r.documentation == Some(doc)
    ensures r.entityType == s.entityType && r.definitionSpan == s.definitionSpan && r.isInitialized == s.isInitialized
  {
    s.(documentation := Some(doc))
  }

  /** `Symbol::mark_initialized`. */
  function MarkInitialized(s: Symbol): (r: Symbol)
    ensures r.isInitialized
    ensures r.entityType == s.entityType && r.definitionSpan == s.definitionSpan && r.documentation == s.documentation
  {
    s.(isInitialized := true)
  }

  predicate IsVariable(s: Symbol) {
    s.entityType.Variable?
  }

  predicate IsConstant(s: Symbol) {
    s.entityType.Constant?
  }

  predicate IsFunction(s: Symbol) {
    s.entityType.Function?
  }

  /** `Symbol::get_type`: the declared type, or a function's return type; every symbol has one. */
  function GetType(s: Symbol): (r: Option<ValueType>)
    ensures r.Some?
    ensures !IsFunction(s) ==> r.value == s.entityType.valueType
    ensures IsFunction(s) ==> r.value == s.entityType.returnType
  {
    match s.entityType
    case Variable(t) => Some(t)
    case Constant(t) => Some(t)
    case Function(_, t) => Some(t)
  }

  /** The innermost definition of `name`: the last scope that holds it wins. */
  function Resolve(scopes: seq<map<string, Symbol>>, name: string): Option<Symbol>
    decreases |scopes|
  {
    if |scopes| == 0 then None
    else if name in scopes[|scopes| - 1] then Some(scopes[|scopes| - 1][name])
    else Resolve(scopes[..|scopes| - 1], name)
  }

  /** `Resolve` finds a name exactly when some scope holds it, and then returns the innermost definition. */
  lemma {:induction false} ResolveIsInnermost(scopes: seq<map<string, Symbol>>, name: string)
    ensures Resolve(scopes, name).Some? <==> exists i :: 0 <= i < |scopes| && name in scopes[i]
    ensures Resolve(scopes, name).Some? ==>
      exists i :: 0 <= i < |scopes| && name in scopes[i] && Resolve(scopes, name).value == scopes[i][name]
                  && forall j :: i < j < |scopes| ==> name !in scopes[j]
    decreases |scopes|
  {
    if |scopes| > 0 {
      var init := scopes[..|scopes| - 1];
      ResolveIsInnermost(init, name);
      assert forall i :: 0 <= i < |init| ==> init[i] == scopes[i];
      if name !in scopes[|scopes| - 1] && Resolve(scopes, name).Some? {
        var i :| 0 <= i < |init| && name in init[i] && Resolve(init, name).value == init[i][name]
                 && forall j :: i < j < |init| ==> name !in init[j];
        assert forall j :: i < j < |scopes| ==> name !in scopes[j];
      }
    }
  }

  /** A new innermost scope shadows the outer ones for the names it holds and is transparent for the others. */
  lemma {:induction false} ResolveInNewScope(scopes: seq<map<string, Symbol>>, inner: map<string, Symbol>, name: string)
    ensures Resolve(scopes + [inner], name) == if name in inner then Some(inner[name]) else Resolve(scopes, name)
  {
    assert (scopes + [inner])[..|scopes|] == scopes;
  }

  /** Changing the innermost definition of `name` changes what `name` resolves to and nothing else. */
  lemma {:induction false} ResolveAfterUpdate(scopes: seq<map<string, Symbol>>, k: nat, name: string, s: Symbol, other: string)
    requires k < |scopes| && name in scopes[k]
    requires forall j :: k < j < |scopes| ==> name !in scopes[j]
    ensures Resolve(scopes[k := scopes[k][name := s]], other) == if other == name then Some(s) else Resolve(scopes, other)
    decreases |scopes|
  {
    var updated := scopes[k := scopes[k][name := s]];
    if k < |scopes| - 1 {
      assert updated[..|scopes| - 1] == scopes[..|scopes| - 1][k := scopes[k][name := s]];
      ResolveAfterUpdate(scopes[..|scopes| - 1], k, name, s, other);
    } else {
      assert updated[..|scopes| - 1] == scopes[..|scopes| - 1];
    }
  }

  /** The documentation a definition receives from the pending lines: their join, or none. */
  function PendingDocumentation(pending: seq<string>): (r: Option<string>)
    ensures r.None? <==> pending == []
  {
    if pending == [] then None else Some(Text.Join(pending, "\n"))
  }

  /** The symbol `define` stores: pending documentation, when there is some, replaces the symbol's own. */
  function Attach(s: Symbol, pending: seq<string>): (r: Symbol)
    ensures pending == [] ==> r == s
    ensures pending != [] ==> r == WithDocumentation(s, Text.Join(pending, "\n"))
  {
    if pending == [] then s else s.(documentation := Some(Text.Join(pending, "\n")))
  }

  /** `add_documentation` text: the new line goes after the existing documentation. */
  function AppendDoc(existing: Option<string>, doc: string): (r: string)
    ensures existing.None? ==> r == doc
    ensures existing.Some? ==> r == existing.value + "\n" + doc
  {
    if existing.Some? then existing.value + "\n" + doc else doc
  }

  /** The number of entries in all scopes together. */
  function TotalSize(scopes: seq<map<string, Symbol>>): nat {
    if |scopes| == 0 then 0 else TotalSize(scopes[..|scopes| - 1]) + |scopes[|scopes| - 1].Keys|
  }

  /**
   * `after` keeps every definition of `before`: as many scopes, each still holding the names it
   * held, with the same kind and type (only documentation may differ).
   */
  ghost predicate Keeps(before: seq<map<string, Symbol>>, after: seq<map<string, Symbol>>) {
    && |before| == |after|
    && forall i, n :: 0 <= i < |before| && n in before[i] ==> n in after[i] && after[i][n].entityType == before[i][n].entityType
  }

  lemma {:induction false} KeepsTransitive(a: seq<map<string, Symbol>>, b: seq<map<string, Symbol>>, c: seq<map<string, Symbol>>)
    requires Keeps(a, b) && Keeps(b, c)
    ensures Keeps(a, c)
  {
  }

  class SymbolTable {
    /** Outermost (global) scope first. */
    var scopes: seq<map<string, Symbol>>
    /** Documentation lines waiting for the next definition. */
    var pendingDocs: seq<string>

    /** The global scope is always there. */
    ghost predicate Valid()
      reads this
    {
      |scopes| >= 1
    }

    /** `SymbolTable::new`: one empty global scope and no pending documentation. */
    constructor ()
      ensures Valid() && scopes == [map[]] && pendingDocs == []
    {
      scopes := [map[]];
      pendingDocs := [];
    }

    /** `enter_scope`. */
    method EnterScope()
      requires Valid()
      modifies this
      ensures Valid() && scopes == old(scopes) + [map[]] && pendingDocs == old(pendingDocs)
    {
      scopes := scopes + [map[]];
    }

    /** `exit_scope`: drops the innermost scope, but never the global one. */
    method ExitScope()
      requires Valid()
      modifies this
      ensures Valid() && pendingDocs == old(pendingDocs)
      ensures old(|scopes|) > 1 ==> scopes == old(scopes)[..old(|scopes|) - 1]
      ensures old(|scopes|) == 1 ==> scopes == old(scopes)
    {
      if |scopes| > 1 {
        scopes := scopes[..|scopes| - 1];
      }
    }

    /** `add_pending_doc`. */
    method AddPendingDoc(doc: string)
      modifies this
      ensures pendingDocs == old(pendingDocs) + [doc] && scopes == old(scopes)
    {
      pendingDocs := pendingDocs + [doc];
    }

    /** `take_pending_docs`: the pending lines joined by newlines (None when there are none); the list is emptied. */
    method TakePendingDocs() returns (docs: Option<string>)
      modifies this
      ensures docs == PendingDocumentation(old(pendingDocs))
      ensures pendingDocs == [] && scopes == old(scopes)
    {
      if pendingDocs == [] {
        return None;
      }
      docs := Some(Text.Join(pendingDocs, "\n"));
      pendingDocs := [];
    }

    /** `clear_pending_docs`. */
    method ClearPendingDocs()
      modifies this
      ensures pendingDocs == [] && scopes == old(scopes)
    {
      pendingDocs := [];
    }

    /** The innermost scope. */
    function Current(): map<string, Symbol>
      requires Valid()
      reads this
    {
      scopes[|scopes| - 1]
    }

    /**
     * `define`: a name already in the innermost scope is an error that changes nothing; otherwise the
     * symbol, with the pending documentation attached, goes into the innermost scope.
     */
    method Define(name: string, symbol: Symbol) returns (r: Result<()>)
      requires Valid()
      modifies this
      ensures Valid() && Keeps(old(scopes), scopes)
      ensures name in old(Current()) ==>
        r == Err(EntityAlreadyDefined(symbol.definitionSpan, name, Some(old(Current())[name].definitionSpan)))
        && scopes == old(scopes) && pendingDocs == old(pendingDocs)
      ensures name !in old(Current()) ==>
        r == Ok(()) && pendingDocs == []
        && scopes == old(scopes)[..old(|scopes|) - 1] + [old(Current())[name := Attach(symbol, old(pendingDocs))]]
      ensures name !in old(Current()) ==> Lookup(name) == Some(Attach(symbol, old(pendingDocs)))
    {
      if name in scopes[|scopes| - 1] {
        return Err(EntityAlreadyDefined(symbol.definitionSpan, name, Some(scopes[|scopes| - 1][name].definitionSpan)));
      }
      ghost var pending := pendingDocs;
      var docs := TakePendingDocs();
      var stored := symbol;
      if docs.Some? {
        stored := symbol.(documentation := Some(docs.value));
      }
      assert stored == Attach(symbol, pending);
      var inner := scopes[|scopes| - 1][name := stored];
      scopes := scopes[..|scopes| - 1] + [inner];
      ResolveInNewScope(old(scopes)[..old(|scopes|) - 1], inner, name);
      r := Ok(());
    }

    /** `lookup`: the innermost definition of `name`. */
    function Lookup(name: string): Option<Symbol>
      reads this
    {
      Resolve(scopes, name)
    }

    /**
     * `add_documentation`: appends a line to the documentation of the innermost definition of
     * `name`; an unknown name is an error that changes nothing.
     */
    method AddDocumentation(name: string, doc: string) returns (r: Result<()>)
      requires Valid()
      modifies this
      ensures Valid() && |scopes| == old(|scopes|) && pendingDocs == old(pendingDocs)
      ensures old(Lookup(name)).None? ==> r == Err(UndefinedEntity(Span(0, 0, 0, 0), name)) && scopes == old(scopes)
      ensures old(Lookup(name)).Some? ==>
        r == Ok(()) && Lookup(name) == Some(old(Lookup(name)).value.(documentation := Some(AppendDoc(old(Lookup(name)).value.documentation, doc))))
      ensures forall other :: other != name ==> Lookup(other) == old(Lookup(other))
      ensures Keeps(old(scopes), scopes)
    {
      // search from the innermost scope outwards
      var i := |scopes|;
      while i > 0 && name !in scopes[i - 1]
        invariant 0 <= i <= |scopes|
        invariant forall j :: i <= j < |scopes| ==> name !in scopes[j]
        decreases i
      {
        i := i - 1;
      }
      ResolveIsInnermost(scopes, name);
      if i == 0 {
        return Err(UndefinedEntity(Span(0, 0, 0, 0), name));
      }
      var k := i - 1;
      var symbol := scopes[k][name];
      var updated := symbol.(documentation := Some(AppendDoc(symbol.documentation, doc)));
      assert Resolve(scopes, name) == Some(symbol) by {
        ResolveAfterUpdate(scopes, k, name, symbol, name);
        assert scopes[k][name := symbol] == scopes[k];
        assert scopes[k := scopes[k][name := symbol]] == scopes;
      }
      forall other
        ensures Resolve(scopes[k := scopes[k][name := updated]], other) == if other == name then Some(updated) else Resolve(scopes, other)
      {
        ResolveAfterUpdate(scopes, k, name, updated, other);
      }
      scopes := scopes[k := scopes[k][name := updated]];
      r := Ok(());
    }

    /** `all_symbols`: every (name, symbol) entry of every scope, outermost scope first, each exactly once. */
    method AllSymbols() returns (symbols: seq<(string, Symbol)>)
      ensures |symbols| == TotalSize(scopes)
      ensures forall k :: 0 <= k < |symbols| ==> InSomeScope(scopes, symbols[k])
      ensures forall i, n :: 0 <= i < |scopes| && n in scopes[i] ==> (n, scopes[i][n]) in symbols
    {
      symbols := [];
      var i := 0;
      while i < |scopes|
        invariant 0 <= i <= |scopes|
        invariant |symbols| == TotalSize(scopes[..i])
        invariant forall k :: 0 <= k < |symbols| ==> InSomeScope(scopes[..i], symbols[k])
        invariant forall j, n :: 0 <= j < i && n in scopes[j] ==> (n, scopes[j][n]) in symbols
      {
        var entries := ScopeEntries(scopes[i]);
        ghost var before := symbols;
        symbols := symbols + entries;
        assert scopes[..i + 1][..i] == scopes[..i];
        forall k | 0 <= k < |symbols|
          ensures InSomeScope(scopes[..i + 1], symbols[k])
        {
          if k < |before| {
            assert symbols[k] == before[k];
            var j :| 0 <= j < i && before[k].0 in scopes[..i][j] && before[k].1 == scopes[..i][j][before[k].0];
            assert scopes[..i + 1][j] == scopes[j];
          } else {
            assert symbols[k] == entries[k - |before|];
            assert scopes[..i + 1][i] == scopes[i];
          }
        }
        forall j, n | 0 <= j < i + 1 && n in scopes[j]
          ensures (n, scopes[j][n]) in symbols
        {
          if j < i {
            assert (n, scopes[j][n]) in before;
          } else {
            assert (n, scopes[j][n]) in entries;
          }
        }
        i := i + 1;
      }
      assert scopes[..i] == scopes;
    }
  }

  /** The entry belongs to one of the scopes. */
  ghost predicate InSomeScope(scopes: seq<map<string, Symbol>>, entry: (string, Symbol)) {
    exists i :: 0 <= i < |scopes| && entry.0 in scopes[i] && entry.1 == scopes[i][entry.0]
  }

  /** The entries of one scope in the map's (unspecified) iteration order, each exactly once. */
  method ScopeEntries(scope: map<string, Symbol>) returns (entries: seq<(string, Symbol)>)
    ensures |entries| == |scope.Keys|
    ensures forall k :: 0 <= k < |entries| ==> entries[k].0 in scope && entries[k].1 == scope[entries[k].0]
    ensures forall n :: n in scope ==> (n, scope[n]) in entries
  {
    entries := [];
    var remaining := scope.Keys;
    ghost var done: set<string> := {};
    while remaining != {}
      invariant done + remaining == scope.Keys && done !! remaining
      invariant |entries| == |done|
      invariant forall k :: 0 <= k < |entries| ==> entries[k].0 in done && entries[k].1 == scope[entries[k].0]
      invariant forall n :: n in done ==> (n, scope[n]) in entries
      decreases remaining
    {
      var n :| n in remaining;
      entries := entries + [(n, scope[n])];
      remaining := remaining - {n};
      done := done + {n};
    }
  }

  /** A definition in an inner scope shadows an outer one, and leaving the scope makes the outer one visible again. */
  lemma {:induction false} ShadowThenExit(global: map<string, Symbol>, name: string, outer: Symbol, inner: Symbol)
    requires name in global && global[name] == outer
    ensures Resolve([global, map[name := inner]], name) == Some(inner)
    ensures Resolve([global, map[name := inner]][..1], name) == Some(outer)
  {
    assert [global, map[name := inner]][..1] == [global];
  }
}
