/**
 * The bundle's module registry: `define(name, deps, fn)` builds a module
 * from the modules it depends on and records it under its name, refusing
 * a name that is taken and a dependency that has not been defined.
 */
module Registry {
  import opened Wrappers

  /** Why `define` throws. */
  datatype DefineError =
    | CannotRedefine(name: string)
    | NotDefined(dep: string, name: string)

  /** The message of the thrown `Error`. */
  function Message(e: DefineError): (r: string)
    ensures |r| > 8 && r[..8] == "define: "
  {
    match e
    case CannotRedefine(name) => "define: cannot redefine module " + name
    case NotDefined(dep, name) => "define: module " + dep + " required by " + name + " has not been defined."
  }

  /** The index of the first name in `ds` that `defs` lacks, or `|ds|` when it has them all. */
  function FirstMissing<V>(defs: map<string, V>, ds: seq<string>): (j: nat)
    ensures j <= |ds|
    ensures forall k :: 0 <= k < j ==> ds[k] in defs
    ensures j < |ds| ==> ds[j] !in defs
    decreases |ds|
  {
    if |ds| == 0 then 0 else if ds[0] !in defs then 0 else 1 + FirstMissing(defs, ds[1..])
  }

  /** `deps.map(dep => definitions[dep])`, for dependencies that are all defined. */
  function Lookup<V>(defs: map<string, V>, ds: seq<string>): (vs: seq<V>)
    requires forall k :: 0 <= k < |ds| ==> ds[k] in defs
    ensures |vs| == |ds| && forall k :: 0 <= k < |ds| ==> vs[k] == defs[ds[k]]
    decreases |ds|
  {
    if |ds| == 0 then [] else Lookup(defs, ds[..|ds| - 1]) + [defs[ds[|ds| - 1]]]
  }

  /**
   * The `definitions` object. The ghost fields record, for each module, its
   * dependencies and when it was defined.
   */
  class Registry<V> {
    var definitions: map<string, V>
    ghost var depsOf: map<string, seq<string>>
    ghost var rank: map<string, nat>
    ghost var count: nat

    /** Every dependency of a module was defined before the module itself. */
    ghost predicate Valid()
      reads this
    {
      rank.Keys == definitions.Keys && depsOf.Keys == definitions.Keys &&
      (forall n :: n in rank ==> rank[n] < count) &&
      (forall n, k :: n in depsOf && 0 <= k < |depsOf[n]| ==>
         depsOf[n][k] in rank && rank[depsOf[n][k]] < rank[n])
    }

    constructor ()
      ensures Valid() && definitions == map[]
    {
      definitions := map[];
      depsOf := map[];
      rank := map[];
      count := 0;
    }

    /**
     * `define(name, deps, fn)`: a taken name throws first; otherwise the
     * dependencies are looked up in order and the first missing one throws;
     * otherwise `fn` applied to the dependencies' values becomes the module.
     * A throw leaves the registry as it was, and no module is ever replaced.
     */
    method Define(name: string, deps: seq<string>, fn: seq<V> -> V) returns (err: Option<DefineError>)
      requires Valid()
      modifies this
      ensures Valid()
      ensures name in old(definitions) ==> err == Some(CannotRedefine(name)) && definitions == old(definitions)
      ensures name !in old(definitions) && FirstMissing(old(definitions), deps) < |deps| ==>
        (err == Some(NotDefined(deps[FirstMissing(old(definitions), deps)], name)) &&
         definitions == old(definitions))
      ensures name !in old(definitions) && FirstMissing(old(definitions), deps) == |deps| ==>
        (err == None && definitions == old(definitions)[name := fn(Lookup(old(definitions), deps))])
      ensures forall n :: n in old(definitions) ==> n in definitions && definitions[n] == old(definitions)[n]
    {
      if name in definitions {
        return Some(CannotRedefine(name));
      }
      var missing, values := Resolve(deps);
      if missing < |deps| {
        return Some(NotDefined(deps[missing], name));
      }
      assert forall k :: 0 <= k < |deps| ==> deps[k] in rank && rank[deps[k]] < count;
      definitions := definitions[name := fn(values)];
      depsOf := depsOf[name := deps];
      rank := rank[name := count];
      count := count + 1;
      return None;
    }

    /**
     * The lookup of `deps.map`: the dependencies in order, up to the first
     * that is not defined; that one's index, or `|deps|` and all the values.
     */
    method Resolve(deps: seq<string>) returns (missing: nat, values: seq<V>)
      ensures missing == FirstMissing(definitions, deps)
      ensures missing == |deps| ==> values == Lookup(definitions, deps)
    {
      values := [];
      var k := 0;
      while k < |deps|
        invariant k <= |deps| && forall j :: 0 <= j < k ==> deps[j] in definitions
        invariant values == Lookup(definitions, deps[..k])
      {
        if deps[k] !in definitions {
          FirstMissingIs(definitions, deps, k);
          return k, values;
        }
        assert deps[..k + 1][..k] == deps[..k];
        values := values + [definitions[deps[k]]];
        k := k + 1;
      }
      assert deps[..k] == deps;
      FirstMissingIs(definitions, deps, k);
      return k, values;
    }

    /** No module depends on itself. */
    lemma NoSelfDependency(n: string)
      requires Valid() && n in depsOf
      ensures forall k :: 0 <= k < |depsOf[n]| ==> depsOf[n][k] != n
    {
    }

    /**
     * Following dependencies never leads back to where it started: along a
     * chain of dependencies the definition order strictly decreases.
     */
    lemma {:induction false} ChainDescends(path: seq<string>)
      requires Valid() && |path| >= 2
      requires forall k :: 0 <= k < |path| - 1 ==> path[k] in depsOf && path[k + 1] in depsOf[path[k]]
      ensures path[0] in rank && path[|path| - 1] in rank && rank[path[|path| - 1]] < rank[path[0]]
      decreases |path|
    {
      DependencyDescends(path[0], path[1]);
      if |path| > 2 {
        ChainDescends(path[1..]);
      }
    }

    lemma DependencyDescends(n: string, d: string)
      requires Valid() && n in depsOf && d in depsOf[n]
      ensures n in rank && d in rank && rank[d] < rank[n]
    {
      var k :| 0 <= k < |depsOf[n]| && depsOf[n][k] == d;
    }

    /** Hence no chain of dependencies is a cycle. */
    lemma Acyclic(path: seq<string>)
      requires Valid() && |path| >= 2
      requires forall k :: 0 <= k < |path| - 1 ==> path[k] in depsOf && path[k + 1] in depsOf[path[k]]
      ensures path[0] != path[|path| - 1]
    {
      ChainDescends(path);
    }
  }

  /** The first missing dependency is the one at `k` when every earlier one is defined. */
  lemma FirstMissingIs<V>(defs: map<string, V>, ds: seq<string>, k: nat)
    requires k <= |ds| && forall j :: 0 <= j < k ==> ds[j] in defs
    requires k < |ds| ==> ds[k] !in defs
    ensures FirstMissing(defs, ds) == k
  {
  }
}
