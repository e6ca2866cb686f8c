/**
 * The scope chain of symtab.hpp. Each `SymbolTable` object is one lexical
 * scope holding a table of names and owning its parent scope. Here a table
 * object is seen through the chain it heads: a sequence of tables, the root
 * (global) scope first and the object's own scope last.
 */
module SymbolTables {
  import opened Basics
  import opened Tokens
  import opened Ast

  /** symtab.hpp `SymbolType`. */
  datatype SymbolType = Err | Void | Function | Array | Int | Bool

  /**
   * An entry of a table: a `SymbolInfo` carrying only a type, or an
   * `FnSymbolInfo` carrying a function prototype (its type is Function).
   */
  datatype SymbolInfo = Plain(symbolType: SymbolType) | FnSymbol(proto: FunctionPrototype)
  {
    /** The `_type` field. */
    function Type(): SymbolType {
      if FnSymbol? then Function else symbolType
    }

    /** The virtual `getFnProto`: null for a plain entry. */
    function FnProto(): (p: Option<FunctionPrototype>)
      ensures p.Some? <==> FnSymbol?
    {
      if FnSymbol? then Some(proto) else None
    }
  }

  type Scope = map<string, SymbolInfo>

  /** symtab.cpp `TokenToSymbolType`: the four type keywords map to their symbol types, everything else to Err. */
  function TokenToSymbolType(t: TokenKind): (s: SymbolType)
    ensures s != Err <==> IsTokenType(t)
    ensures s != Function
    ensures t == TypeInt ==> s == Int
    ensures t == TypeBool ==> s == Bool
    ensures t == TypeArray ==> s == Array
    ensures t == TypeVoid ==> s == Void
  {
    match t
    case TypeArray => Array
    case TypeInt => Int
    case TypeBool => Bool
    case TypeVoid => Void
    case _ => Err
  }

  /**
   * The entry for `name` in the innermost scope of `scopes` that has one, or
   * None when no scope does.
   */
  function Lookup(scopes: seq<Scope>, name: string): (r: Option<SymbolInfo>)
    ensures r.None? <==> forall k :: 0 <= k < |scopes| ==> name !in scopes[k]
  {
    if scopes == [] then None
    else if name in scopes[|scopes| - 1] then Some(scopes[|scopes| - 1][name])
    else Lookup(scopes[..|scopes| - 1], name)
  }

  /** `Lookup` answers from the innermost scope that holds the name. */
  lemma {:induction false} LookupFindsInnermost(scopes: seq<Scope>, name: string)
    ensures var r := Lookup(scopes, name);
      r.Some? ==> exists k :: 0 <= k < |scopes| && name in scopes[k] && r.value == scopes[k][name] &&
                              forall j :: k < j < |scopes| ==> name !in scopes[j]
    decreases |scopes|
  {
    if scopes != [] && name !in scopes[|scopes| - 1] {
      var inner := scopes[..|scopes| - 1];
      LookupFindsInnermost(inner, name);
      var r := Lookup(inner, name);
      if r.Some? {
        var k :| 0 <= k < |inner| && name in inner[k] && r.value == inner[k][name] &&
                 forall j :: k < j < |inner| ==> name !in inner[j];
        assert scopes[k] == inner[k];
      }
    }
  }

  /** Adding `name` to the innermost scope answers it from there and leaves every other name's lookup as it was. */
  lemma {:induction false} LookupAfterInsert(scopes: seq<Scope>, name: string, info: SymbolInfo, other: string)
    requires |scopes| > 0
    ensures var scopes' := scopes[..|scopes| - 1] + [scopes[|scopes| - 1][name := info]];
      Lookup(scopes', name) == Some(info) &&
      (other != name ==> Lookup(scopes', other) == Lookup(scopes, other))
  {
    var scopes' := scopes[..|scopes| - 1] + [scopes[|scopes| - 1][name := info]];
    assert scopes'[..|scopes'| - 1] == scopes[..|scopes| - 1];
  }

  /** The prefix of the names that mark a function's own scope. */
  const FnScopeMarker: string := "lilfn_"

  /** `name.substr(0, 6) == "lilfn_"`. */
  predicate HasFnScopeMarker(name: string) {
    |name| >= |FnScopeMarker| && name[..|FnScopeMarker|] == FnScopeMarker
  }

  /** A scope whose only entry is named with the marker prefix. */
  predicate IsFnScope(s: Scope) {
    |s| == 1 && exists name :: name in s && HasFnScopeMarker(name)
  }

  /** The single entry of a one-entry scope. */
  ghost function OnlyEntry(s: Scope): (info: SymbolInfo)
    requires |s| == 1
    ensures info in s.Values
  {
    var name :| name in s; s[name]
  }

  /** What `getEnclosingFnProto` finds. */
  datatype Enclosing =
    | EnclosingProto(proto: FunctionPrototype)  // the marker entry's prototype
    | NoEnclosing                                // no marker scope below the root
    | MarkerNotFunction                          // the marker entry has no prototype: the `assert` fails

  /** The innermost scope at index `k` or below, never the root, that is a function's own scope. */
  ghost function EnclosingFrom(scopes: seq<Scope>, k: nat): Enclosing
    requires k < |scopes|
  {
    if k == 0 then NoEnclosing
    else if IsFnScope(scopes[k]) then
      var info := OnlyEntry(scopes[k]);
      if info.FnSymbol? then EnclosingProto(info.proto) else MarkerNotFunction
    else EnclosingFrom(scopes, k - 1)
  }

  /** What a function scope's marker entry yields. */
  ghost function MarkerResult(s: Scope): Enclosing
    requires |s| == 1
  {
    var info := OnlyEntry(s);
    if info.FnSymbol? then EnclosingProto(info.proto) else MarkerNotFunction
  }

  /**
   * `EnclosingFrom` finds nothing exactly when no scope between the root
   * (excluded) and index `k` is a function scope.
   */
  lemma {:induction false} EnclosingFromNone(scopes: seq<Scope>, k: nat)
    requires k < |scopes|
    ensures EnclosingFrom(scopes, k).NoEnclosing? <==> forall j :: 0 < j <= k ==> !IsFnScope(scopes[j])
  {
    if k > 0 && !IsFnScope(scopes[k]) {
      EnclosingFromNone(scopes, k - 1);
    }
  }

  /** Scope `j` is a function scope and none of the scopes above it, up to index `k`, is one. */
  ghost predicate IsInnermostFnScope(scopes: seq<Scope>, j: nat, k: nat) {
    0 < j <= k < |scopes| && IsFnScope(scopes[j]) && forall i :: j < i <= k ==> !IsFnScope(scopes[i])
  }

  /** Otherwise it answers from the innermost function scope at or below `k`. */
  lemma {:induction false} EnclosingFromInnermost(scopes: seq<Scope>, k: nat)
    requires k < |scopes| && !EnclosingFrom(scopes, k).NoEnclosing?
    ensures exists j: nat :: IsInnermostFnScope(scopes, j, k) && EnclosingFrom(scopes, k) == MarkerResult(scopes[j])
  {
    if IsFnScope(scopes[k]) {
      assert IsInnermostFnScope(scopes, k, k);
    } else {
      EnclosingFromInnermost(scopes, k - 1);
      var j: nat :| IsInnermostFnScope(scopes, j, k - 1) && EnclosingFrom(scopes, k - 1) == MarkerResult(scopes[j]);
      assert IsInnermostFnScope(scopes, j, k);
    }
  }

  /** A one-entry table has exactly one key. */
  lemma OnlyKey(s: Scope, name: string)
    requires |s| == 1 && name in s
    ensures s.Keys == {name} && OnlyEntry(s) == s[name]
  {
    var rest := s.Keys - {name};
    assert s.Keys == rest + {name};
    assert |rest| == 0;
  }

  /**
   * Only function entries have type Function: plain entries are made by
   * `addSymbol` from `TokenToSymbolType`, which never yields it.
   */
  ghost predicate WellTyped(scopes: seq<Scope>) {
    forall k, name :: 0 <= k < |scopes| && name in scopes[k] ==> (scopes[k][name].Type() == Function <==> scopes[k][name].FnSymbol?)
  }

  class SymbolTable {
    /** This scope's chain: the root scope's table first, this scope's own table last. */
    var scopes: seq<Scope>

    ghost predicate Valid()
      reads this
    {
      |scopes| > 0 && WellTyped(scopes)
    }

    /** `SymbolTable(parent)`: an empty scope below `parent`'s chain (no parent gives a root). */
    constructor (parent: seq<Scope>)
      requires WellTyped(parent)
      ensures Valid() && scopes == parent + [map[]]
    {
      scopes := parent + [map[]];
    }

    /** This scope's own table. */
    function Current(): Scope
      reads this
      requires Valid()
    {
      scopes[|scopes| - 1]
    }

    /** `hasSymbolInCurrentScope`: the entry only when `name` is a key of this scope's own table. */
    function HasSymbolInCurrentScope(name: string): (r: Option<SymbolInfo>)
      reads this
      requires Valid()
      ensures r.Some? <==> name in Current()
      ensures r.Some? ==> r.value == Current()[name]
    {
      if name in Current() then Some(Current()[name]) else None
    }

    /** `hasSymbol`: this scope, then each parent in turn, until one has the name. */
    method HasSymbol(name: string) returns (r: Option<SymbolInfo>)
      requires Valid()
      ensures r == Lookup(scopes, name)
    {
      var k := |scopes| - 1;
      r := if name in scopes[k] then Some(scopes[k][name]) else None;
      while r.None? && k > 0
        invariant 0 <= k < |scopes|
        invariant r.Some? ==> r == Lookup(scopes, name)
        invariant r.None? ==> Lookup(scopes, name) == Lookup(scopes[..k], name)
        decreases k
      {
        k := k - 1;
        assert scopes[..k + 1][..k] == scopes[..k];
        r := if name in scopes[k] then Some(scopes[k][name]) else None;
      }
    }

    /**
     * `getFnProto`: walks to the root scope; the prototype when the root maps
     * `name` to a function entry, None where the source throws.
     */
    method GetFnProto(name: string) returns (r: Option<FunctionPrototype>)
      requires Valid()
      ensures r.Some? <==> name in scopes[0] && scopes[0][name].FnSymbol?
      ensures r.Some? ==> scopes[0][name] == FnSymbol(r.value)
    {
      var k := |scopes| - 1;
      while k > 0
        invariant 0 <= k < |scopes|
      {
        k := k - 1;
      }
      var root := scopes[k];
      if name !in root || root[name].Type() != Function {
        return None;
      }
      r := root[name].FnProto();
    }

    /**
     * `getEnclosingFnProto`: from this scope outwards, stopping before the root,
     * the first scope whose only entry is named `lilfn_...`.
     */
    method GetEnclosingFnProto() returns (r: Enclosing)
      requires Valid()
      ensures r == EnclosingFrom(scopes, |scopes| - 1)
    {
      var k := |scopes| - 1;
      while k > 0
        invariant 0 <= k < |scopes|
        invariant EnclosingFrom(scopes, k) == EnclosingFrom(scopes, |scopes| - 1)
        decreases k
      {
        var table := scopes[k];
        if |table| == 1 {
          var name :| name in table;
          OnlyKey(table, name);
          if HasFnScopeMarker(name) {
            var proto := table[name].FnProto();
            if proto.None? {
              return MarkerNotFunction;
            }
            return EnclosingProto(proto.value);
          }
          assert !IsFnScope(table);
        }
        k := k - 1;
      }
      r := NoEnclosing;
    }

    /**
     * `addFnSymbol`: refused when any scope of the chain already has the name;
     * otherwise a function entry is added to this scope's own table.
     */
    method AddFnSymbol(name: string, proto: FunctionPrototype) returns (added: bool)
      requires Valid()
      modifies this
      ensures Valid()
      ensures added <==> Lookup(old(scopes), name).None?
      ensures added ==> scopes == old(scopes)[..|old(scopes)| - 1] + [old(Current())[name := FnSymbol(proto)]]
      ensures !added ==> scopes == old(scopes)
    {
      var found := HasSymbol(name);
      added := false;
      if found.None? {
        added := Emplace(name, FnSymbol(proto));
      }
    }

    /**
     * `addSymbol`: as `addFnSymbol`, with a plain entry of the symbol type
     * of the type keyword `t`.
     */
    method AddSymbol(name: string, t: TokenKind) returns (added: bool)
      requires Valid()
      modifies this
      ensures Valid()
      ensures added <==> Lookup(old(scopes), name).None?
      ensures added ==> scopes == old(scopes)[..|old(scopes)| - 1] + [old(Current())[name := Plain(TokenToSymbolType(t))]]
      ensures !added ==> scopes == old(scopes)
    {
      var found := HasSymbol(name);
      added := false;
      if found.None? {
        added := Emplace(name, Plain(TokenToSymbolType(t)));
      }
    }

    /** `unordered_map::emplace` on this scope's table: inserts only a new key, and says whether it did. */
    method Emplace(name: string, info: SymbolInfo) returns (inserted: bool)
      requires Valid() && (info.Type() == Function <==> info.FnSymbol?)
      modifies this
      ensures Valid()
      ensures inserted <==> name !in old(Current())
      ensures inserted ==> scopes == old(scopes)[..|old(scopes)| - 1] + [old(Current())[name := info]]
      ensures !inserted ==> scopes == old(scopes)
    {
      inserted := name !in Current();
      if inserted {
        ghost var prev := scopes;
        scopes := scopes[..|scopes| - 1] + [Current()[name := info]];
        assert forall k :: 0 <= k < |scopes| - 1 ==> scopes[k] == prev[k];
      }
    }
  }
}
