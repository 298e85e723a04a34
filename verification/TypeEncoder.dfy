/**
 wasm-compose's type encoder as it is written: methods that change the stack of scopes. Each
 does what the function of the same name says of the state it starts from, panics included.
 */
module TypeEncoder {
  import opened Common
  import opened ComponentTypes
  import opened TypeScopes
  import T = Translation

  /** The result and the new state are those of the outcome, unless it is a panic. */
  predicate Matches<V(==)>(r: Option<V>, now: T.TState, outcome: T.Outcome<V>) {
    if outcome.Panics? then r.None? else r == Some(outcome.value) && now == outcome.st
  }

  class TypeState {
    const w: World

    var scopes: seq<Scope>
    var cur: Scope

    function State(): T.TState
      reads this
    {
      T.TState(scopes, cur)
    }

    constructor (w: World)
      ensures this.w == w && State() == T.TState([], NewScope(Builder))
    {
      this.w := w;
      scopes, cur := [], NewScope(Builder);
    }

    method Emit(item: Item) returns (index: nat)
      modifies this`cur
      ensures State() == T.Emit(old(State()), item) && index == TypeCount(old(cur).items)
    {
      index := TypeCount(cur.items);
      cur := cur.(items := cur.items + [item]);
    }

    /** Each type is translated once per scope. */
    method Ty(c: nat, id: nat) returns (r: Option<nat>)
      requires WorldOk(w) && c < |w| && id < |w[c]|
      modifies this`scopes, this`cur
      ensures Matches(r, State(), T.Ty(w, old(State()), c, id))
      decreases id, 6
    {
      if Key(c, id) in cur.typeDefs {
        return Some(cur.typeDefs[Key(c, id)]);
      }
      var index := TyInner(c, id);
      if index.None? || Key(c, id) in cur.typeDefs {
        return None;
      }
      cur := cur.(typeDefs := cur.typeDefs[Key(c, id) := index.value]);
      return index;
    }

    method FindExported(k: Key) returns (r: Option<nat>)
      ensures r == T.FindExported(cur, k)
    {
      if k !in cur.typeExports || cur.typeExports[k] !in cur.typeExportsRev {
        return None;
      }
      var keys := cur.typeExportsRev[cur.typeExports[k]];
      for j := 0 to |keys|
        invariant T.FirstCached(cur.typeDefs, keys) == T.FirstCached(cur.typeDefs, keys[j..])
      {
        if keys[j] in cur.typeDefs {
          return Some(cur.typeDefs[keys[j]]);
        }
        assert keys[j..][1..] == keys[j + 1..];
      }
      return None;
    }

    /** The innermost outer scope with an instance that exports the type: two aliases lead there. */
    method FindInOuter(k: Key) returns (r: Option<nat>)
      modifies this`scopes, this`cur
      ensures T.Holder(old(scopes), k).None? ==> r.None? && State() == old(State())
      ensures T.Holder(old(scopes), k).Some? ==>
                var found := T.AliasFrom(old(State()), T.Holder(old(scopes), k).value, k);
                State() == found.0 && r == Some(found.1)
    {
      var n := |scopes|;
      for i: nat := 0 to n
        invariant State() == old(State()) && |scopes| == n
        invariant forall j :: n - i <= j < n ==> k !in scopes[j].instanceExports
      {
        var level := n - 1 - i;
        if k in scopes[level].instanceExports {
          var (instance, name) := scopes[level].instanceExports[k];
          var index := TypeCount(scopes[level].items);
          scopes := scopes[level := scopes[level].(items := scopes[level].items + [AliasExport(instance, name)])];
          var alias := Emit(AliasOuter(i + 1, index));
          return Some(alias);
        }
      }
      return None;
    }

    /** The type may be available already, here or in an instance of some scope. */
    method Find(k: Key) returns (r: Option<nat>)
      modifies this`scopes, this`cur
      ensures T.Find(old(State()), k).None? ==> r.None? && State() == old(State())
      ensures T.Find(old(State()), k).Some? ==>
                State() == T.Find(old(State()), k).value.0 && r == Some(T.Find(old(State()), k).value.1)
    {
      r := FindExported(k);
      if r.Some? {
        return;
      }
      r := FindInOuter(k);
      if r.Some? {
        return;
      }
      if k in cur.instanceExports {
        var (instance, name) := cur.instanceExports[k];
        var alias := Emit(AliasExport(instance, name));
        return Some(alias);
      }
      return None;
    }

    method TyInner(c: nat, start: nat) returns (r: Option<nat>)
      requires WorldOk(w) && c < |w| && start < |w[c]|
      modifies this`scopes, this`cur
      ensures Matches(r, State(), T.TyInner(w, old(State()), c, start))
      decreases start, 5
    {
      hide T.Find;
      hide T.Define;
      var id: nat := start;
      while true
        invariant id <= start && State() == old(State())
        invariant T.TyInner(w, State(), c, id) == T.TyInner(w, State(), c, start)
        decreases id
      {
        var found := Find(Key(c, id));
        if found.Some? {
          return found;
        }
        assert DefOk(w[c], id);
        if w[c][id].Alias? {
          id := w[c][id].target;
        } else {
          break;
        }
      }
      r := Define(c, id);
    }

    method Define(c: nat, id: nat) returns (r: Option<nat>)
      requires WorldOk(w) && c < |w| && id < |w[c]| && !w[c][id].Alias?
      modifies this`scopes, this`cur
      ensures Matches(r, State(), T.Define(w, old(State()), c, id))
      decreases id, 4
    {
      assert DefOk(w[c], id);
      match w[c][id] {
        case Ctor(shape, args) =>
          var vs := ValTypes(c, args, id);
          if vs.None? {
            return None;
          }
          var index := Emit(DefCtor(shape, vs.value));
          return Some(index);
        case Instance(exports) =>
          var body := InstanceBodyOf(c, exports, id);
          if body.None? {
            return None;
          }
          var index := Emit(DefInstance(body.value));
          return Some(index);
        case Component(imports, exports) =>
          var body := ComponentBodyOf(c, imports, exports, id);
          if body.None? {
            return None;
          }
          var index := Emit(DefComponent(body.value));
          return Some(index);
      }
    }

    /** Value types in order, each translated with the types defined before it. */
    method ValTypes(c: nat, args: seq<ValRef>, bound: nat) returns (r: Option<seq<TVal>>)
      requires WorldOk(w) && c < |w| && forall i :: 0 <= i < |args| ==> ValOk(w[c], args[i], bound)
      modifies this`scopes, this`cur
      ensures Matches(r, State(), T.ValTypes(w, old(State()), c, args, bound))
      decreases bound, 1
    {
      hide T.ValType;
      hide ValOk;
      var vs: seq<TVal> := [];
      for j := 0 to |args|
        invariant T.ValTypes(w, old(State()), c, args[..j], bound) == T.Done(State(), vs)
      {
        var v := ValType(c, args[j], bound);
        assert args[..j + 1][..j] == args[..j];
        if v.None? {
          ValTypesPanic(w, old(State()), c, args, j + 1, bound);
          return None;
        }
        vs := vs + [v.value];
      }
      assert args[..|args|] == args;
      return Some(vs);
    }

    method ValType(c: nat, v: ValRef, bound: nat) returns (r: Option<TVal>)
      requires WorldOk(w) && c < |w| && ValOk(w[c], v, bound)
      modifies this`scopes, this`cur
      ensures Matches(r, State(), T.ValType(w, old(State()), c, v, bound))
      decreases bound, 0
    {
      match v {
        case Prim(p) =>
          return Some(TPrim(p));
        case Ref(id) =>
          var index := Ty(c, id);
          return if index.Some? then Some(TIdx(index.value)) else None;
      }
    }

    /** A reference to an imported or exported entity. */
    method EntityRef(c: nat, e: Entity, bound: nat) returns (r: Option<TRef>)
      requires WorldOk(w) && c < |w| && EntityOk(w[c], e, bound)
      modifies this`scopes, this`cur
      ensures Matches(r, State(), T.EntityRef(w, old(State()), c, e, bound))
      decreases bound, 1
    {
      hide T.Ty;
      var index: Option<nat>;
      match e {
        case FuncE(id) =>
          index := Ty(c, id);
          return if index.Some? then Some(TFunc(index.value)) else None;
        case ValueE(v) =>
          if v.Prim? {
            return Some(TValue(TPrim(v.prim)));
          }
          index := Ty(c, v.id);
          return if index.Some? then Some(TValue(TIdx(index.value))) else None;
        case TypeE(_, referenced) =>
          index := Ty(c, referenced);
          return if index.Some? then Some(TType(index.value)) else None;
        case InstanceE(id) =>
          index := Ty(c, id);
          return if index.Some? then Some(TInstance(index.value)) else None;
        case ComponentE(id) =>
          index := Ty(c, id);
          return if index.Some? then Some(TComponent(index.value)) else None;
      }
    }

    method ImportInto(c: nat, name: string, e: Entity, bound: nat) returns (r: Option<()>)
      requires WorldOk(w) && c < |w| && EntityOk(w[c], e, bound)
      modifies this`scopes, this`cur
      ensures Matches(r, State(), T.ImportInto(w, old(State()), c, name, e, bound))
      decreases bound, 2
    {
      hide T.EntityRef;
      var item := EntityRef(c, e, bound);
      if item.None? {
        return None;
      }
      var _ := Emit(Declaration(true, name, item.value));
      return Some(());
    }

    /** An exported type is from now on found at its export. */
    method ExportInto(c: nat, name: string, e: Entity, bound: nat) returns (r: Option<()>)
      requires WorldOk(w) && c < |w| && EntityOk(w[c], e, bound)
      modifies this`scopes, this`cur
      ensures Matches(r, State(), T.ExportInto(w, old(State()), c, name, e, bound))
      decreases bound, 2
    {
      hide T.EntityRef;
      var item := EntityRef(c, e, bound);
      if item.None? {
        return None;
      }
      var value := TypeCount(cur.items);
      var _ := Emit(Declaration(false, name, item.value));
      if e.TypeE? {
        var key := Key(c, e.created);
        if key in cur.typeDefs {
          return None;
        }
        cur := cur.(typeDefs := cur.typeDefs[key := value]);
        r := AddTypeExport(key, name);
        return;
      }
      return Some(());
    }

    method AddTypeExport(key: Key, name: string) returns (r: Option<()>)
      modifies this`cur
      ensures Matches(r, State(), T.AddTypeExport(old(State()), key, name))
    {
      if key in cur.typeExports {
        return None;
      }
      var others := if name in cur.typeExportsRev then cur.typeExportsRev[name] else [];
      cur := cur.(typeExports := cur.typeExports[key := name],
                  typeExportsRev := cur.typeExportsRev[name := others + [key]]);
      return Some(());
    }

    method Push(kind: BodyKind)
      modifies this`scopes, this`cur
      ensures State() == T.Push(old(State()), kind)
    {
      scopes := scopes + [cur];
      cur := NewScope(kind);
    }

    /** Leaving an instance body registers its exported types for the instance that comes next. */
    method Pop() returns (r: Option<seq<Item>>)
      modifies this`scopes, this`cur
      ensures Matches(r, State(), T.Pop(old(State())))
    {
      if scopes == [] {
        return None;
      }
      var body := cur.items;
      var outer := scopes[|scopes| - 1];
      if cur.kind.InstanceBody? {
        if exists k :: k in cur.typeExports && k in outer.instanceExports {
          return None;
        }
        outer := Registered(outer, cur.typeExports);
      }
      scopes := scopes[..|scopes| - 1];
      cur := outer;
      return Some(body);
    }

    /** All imports of a component body, in order. */
    method ImportAll(c: nat, imports: seq<Named>, bound: nat) returns (r: Option<()>)
      requires WorldOk(w) && c < |w| && NamedOk(w[c], imports, bound)
      modifies this`scopes, this`cur
      ensures Matches(r, State(), T.ImportAll(w, old(State()), c, imports, bound))
      decreases bound, 3
    {
      hide T.ImportInto;
      hide EntityOk;
      for j := 0 to |imports|
        invariant T.ImportAll(w, old(State()), c, imports[..j], bound) == T.Done(State(), ())
      {
        var done := ImportInto(c, imports[j].name, imports[j].entity, bound);
        assert imports[..j + 1][..j] == imports[..j];
        if done.None? {
          ImportAllPanic(w, old(State()), c, imports, j + 1, bound);
          return None;
        }
        assert done.value == ();
      }
      assert imports[..|imports|] == imports;
      return Some(());
    }

    /** All exports of a body, in order. */
    method ExportAll(c: nat, exports: seq<Named>, bound: nat) returns (r: Option<()>)
      requires WorldOk(w) && c < |w| && NamedOk(w[c], exports, bound)
      modifies this`scopes, this`cur
      ensures Matches(r, State(), T.ExportAll(w, old(State()), c, exports, bound))
      decreases bound, 3
    {
      hide T.ExportInto;
      hide EntityOk;
      for j := 0 to |exports|
        invariant T.ExportAll(w, old(State()), c, exports[..j], bound) == T.Done(State(), ())
      {
        var done := ExportInto(c, exports[j].name, exports[j].entity, bound);
        assert exports[..j + 1][..j] == exports[..j];
        if done.None? {
          ExportAllPanic(w, old(State()), c, exports, j + 1, bound);
          return None;
        }
        assert done.value == ();
      }
      assert exports[..|exports|] == exports;
      return Some(());
    }

    method InstanceBodyOf(c: nat, exports: seq<Named>, bound: nat) returns (r: Option<seq<Item>>)
      requires WorldOk(w) && c < |w| && NamedOk(w[c], exports, bound)
      modifies this`scopes, this`cur
      ensures Matches(r, State(), T.Body(w, old(State()), c, InstanceBody, [], exports, bound))
      decreases bound, 4, 0
    {
      hide T.ExportAll;
      Push(InstanceBody);
      var exported := ExportAll(c, exports, bound);
      if exported.None? {
        return None;
      }
      r := Pop();
    }

    method ComponentBodyOf(c: nat, imports: seq<Named>, exports: seq<Named>, bound: nat)
      returns (r: Option<seq<Item>>)
      requires WorldOk(w) && c < |w| && NamedOk(w[c], imports, bound) && NamedOk(w[c], exports, bound)
      modifies this`scopes, this`cur
      ensures Matches(r, State(), T.Body(w, old(State()), c, ComponentBody, imports, exports, bound))
      decreases bound, 4, 0
    {
      hide T.ExportAll;
      hide T.ImportAll;
      Push(ComponentBody);
      var imported := ImportAll(c, imports, bound);
      if imported.None? {
        return None;
      }
      var exported := ExportAll(c, exports, bound);
      if exported.None? {
        return None;
      }
      r := Pop();
    }
  }

  // ----- once a panic, always a panic -----

  lemma {:induction false} ValTypesPanic(w: World, st: T.TState, c: nat, args: seq<ValRef>, j: nat, bound: nat)
    requires WorldOk(w) && c < |w| && (forall i :: 0 <= i < |args| ==> ValOk(w[c], args[i], bound)) && j <= |args|
    requires T.ValTypes(w, st, c, args[..j], bound).Panics?
    ensures T.ValTypes(w, st, c, args, bound).Panics?
    decreases |args| - j
  {
    if j < |args| {
      assert args[..j + 1][..j] == args[..j];
      ValTypesPanic(w, st, c, args, j + 1, bound);
    } else {
      assert args[..j] == args;
    }
  }

  lemma {:induction false} ImportAllPanic(w: World, st: T.TState, c: nat, imports: seq<Named>, j: nat, bound: nat)
    requires WorldOk(w) && c < |w| && NamedOk(w[c], imports, bound) && j <= |imports|
    requires T.ImportAll(w, st, c, imports[..j], bound).Panics?
    ensures T.ImportAll(w, st, c, imports, bound).Panics?
    decreases |imports| - j
  {
    if j < |imports| {
      assert imports[..j + 1][..j] == imports[..j];
      ImportAllPanic(w, st, c, imports, j + 1, bound);
    } else {
      assert imports[..j] == imports;
    }
  }

  lemma {:induction false} ExportAllPanic(w: World, st: T.TState, c: nat, exports: seq<Named>, j: nat, bound: nat)
    requires WorldOk(w) && c < |w| && NamedOk(w[c], exports, bound) && j <= |exports|
    requires T.ExportAll(w, st, c, exports[..j], bound).Panics?
    ensures T.ExportAll(w, st, c, exports, bound).Panics?
    decreases |exports| - j
  {
    if j < |exports| {
      assert exports[..j + 1][..j] == exports[..j];
      ExportAllPanic(w, st, c, exports, j + 1, bound);
    } else {
      assert exports[..j] == exports;
    }
  }
}
