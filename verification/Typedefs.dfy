/** `collect_scalar_typedefs`: chains of type aliases, possibly cyclic, followed to their ends. */
module Typedefs {
  /** `raw` maps an alias to the type text it stands for; `norm` is `normalize_type` of a text, without aliases. */
  datatype Aliases = Aliases(raw: map<string, string>, norm: string -> string, scalars: set<string>)

  /** One link of a chain. */
  function Next(a: Aliases, name: string): string
    requires name in a.raw
  {
    a.norm(a.raw[name])
  }

  /** Where the chain from `current` stops: at a name that is no alias, or at one already seen. */
  function Chase(a: Aliases, seen: set<string>, current: string): string
    decreases a.raw.Keys - seen
  {
    if current in a.raw && current !in seen then Chase(a, seen + {current}, Next(a, current)) else current
  }

  /** The aliases kept: those whose chain stops at a scalar other than themselves. */
  ghost predicate Resolves(a: Aliases, alias: string, end: string) {
    alias in a.raw && end == Chase(a, {}, alias) && end in a.scalars && end != alias
  }

  /** The inner loop for one alias. */
  method ChaseAlias(a: Aliases, alias: string) returns (current: string)
    ensures current == Chase(a, {}, alias)
  {
    var seen: set<string>;
    seen, current := {}, alias;
    while current in a.raw && current !in seen
      invariant Chase(a, seen, current) == Chase(a, {}, alias)
      decreases a.raw.Keys - seen
    {
      seen, current := seen + {current}, Next(a, current);
    }
  }

  /** `_collect_scalar_typedefs_cached`, from the aliases read off the source. */
  method CollectScalarTypedefs(a: Aliases) returns (resolved: map<string, string>)
    ensures forall alias, end :: alias in resolved && resolved[alias] == end <==> Resolves(a, alias, end)
  {
    resolved := map[];
    var left := a.raw.Keys;
    while left != {}
      invariant left <= a.raw.Keys
      invariant forall x <- resolved :: x !in left && Resolves(a, x, resolved[x])
      invariant forall x, end :: Resolves(a, x, end) ==> x in left || x in resolved
      decreases left
    {
      var alias :| alias in left;
      var current := ChaseAlias(a, alias);
      left := left - {alias};
      if current in a.scalars && current != alias {
        resolved := resolved[alias := current];
      }
    }
  }

  /** An alias that stands, tidied, for a type that is none, ends there. */
  lemma OneLink(a: Aliases, alias: string)
    requires alias in a.raw && a.norm(a.raw[alias]) !in a.raw
    ensures Chase(a, {}, alias) == a.norm(a.raw[alias])
  {
  }

  /** The lookup of `normalize_type`. */
  function Lookup(typedefs: map<string, string>, name: string): string {
    if name in typedefs then typedefs[name] else name
  }

  // ------------------------------------------------------------------- chains

  /** `k` links along the chain, as far as it goes. */
  function Walk(a: Aliases, name: string, k: nat): string
    decreases k
  {
    if k == 0 then name
    else var w := Walk(a, name, k - 1); if w in a.raw then Next(a, w) else w
  }

  lemma {:induction false} WalkFurther(a: Aliases, name: string, j: nat, k: nat)
    ensures Walk(a, Walk(a, name, j), k) == Walk(a, name, j + k)
    decreases k
  {
    if k > 0 {
      WalkFurther(a, name, j, k - 1);
    }
  }

  /** The first `m` names of the chain are distinct aliases, and the next is not a new one. */
  ghost predicate Lasso(a: Aliases, name: string, m: nat) {
    && (forall i :: 0 <= i < m ==> Walk(a, name, i) in a.raw)
    && (forall i, j :: 0 <= i < j < m ==> Walk(a, name, i) != Walk(a, name, j))
    && (Walk(a, name, m) !in a.raw || exists i :: 0 <= i < m && Walk(a, name, i) == Walk(a, name, m))
  }

  ghost predicate SeenSoFar(a: Aliases, name: string, k: nat, seen: set<string>) {
    forall x :: x in seen <==> exists i :: 0 <= i < k && Walk(a, name, i) == x
  }

  /** Every chain is a lasso: the chase finds where it closes. */
  lemma {:induction false} ChaseIsLasso(a: Aliases, name: string, k: nat, seen: set<string>) returns (m: nat)
    requires SeenSoFar(a, name, k, seen)
    requires forall i :: 0 <= i < k ==> Walk(a, name, i) in a.raw
    requires forall i, j :: 0 <= i < j < k ==> Walk(a, name, i) != Walk(a, name, j)
    ensures Lasso(a, name, m) && Chase(a, seen, Walk(a, name, k)) == Walk(a, name, m)
    decreases a.raw.Keys - seen
  {
    var current := Walk(a, name, k);
    if current in a.raw && current !in seen {
      m := ChaseIsLasso(a, name, k + 1, seen + {current});
    } else {
      m := k;
    }
  }

  lemma {:induction false} LassoIsChase(a: Aliases, name: string, m: nat, k: nat, seen: set<string>)
    requires Lasso(a, name, m) && k <= m && SeenSoFar(a, name, k, seen)
    ensures Chase(a, seen, Walk(a, name, k)) == Walk(a, name, m)
    decreases m - k
  {
    if k < m {
      LassoIsChase(a, name, m, k + 1, seen + {Walk(a, name, k)});
    }
  }

  /** From the name the chain comes back to, the loop of the lasso is a lasso again. */
  lemma LoopIsLasso(a: Aliases, name: string, j: nat, m: nat)
    requires Lasso(a, name, m) && j < m && Walk(a, name, j) == Walk(a, name, m)
    ensures Lasso(a, Walk(a, name, j), m - j)
  {
    var end := Walk(a, name, j);
    forall i: nat
      ensures Walk(a, end, i) == Walk(a, name, j + i)
    {
      WalkFurther(a, name, j, i);
    }
    forall i, k | 0 <= i < k < m - j
      ensures Walk(a, end, i) != Walk(a, end, k)
    {
      assert Walk(a, name, j + i) != Walk(a, name, j + k);
    }
    assert Walk(a, end, 0) == Walk(a, end, m - j);
  }

  /** A chain that stops on an alias stops where it will stop again: from there it comes straight back. */
  lemma EndIsItsOwnEnd(a: Aliases, name: string)
    ensures Chase(a, {}, Chase(a, {}, name)) == Chase(a, {}, name)
  {
    var m := ChaseIsLasso(a, name, 0, {});
    var end := Walk(a, name, m);
    if end in a.raw {
      var j :| 0 <= j < m && Walk(a, name, j) == end;
      LoopIsLasso(a, name, j, m);
      LassoIsChase(a, end, m - j, 0, {});
      WalkFurther(a, name, j, m - j);
    }
  }

  /** A resolved name is never itself a resolved alias, on cyclic graphs too. */
  lemma ResolvedIsFinal(a: Aliases, alias: string, end: string, further: string)
    requires Resolves(a, alias, end)
    ensures !Resolves(a, end, further)
  {
    EndIsItsOwnEnd(a, alias);
  }

  /** So one lookup already reaches the end of the chain, and looking up again changes nothing. */
  lemma LookupIsIdempotent(a: Aliases, resolved: map<string, string>, name: string)
    requires forall alias, end :: alias in resolved && resolved[alias] == end <==> Resolves(a, alias, end)
    ensures Lookup(resolved, Lookup(resolved, name)) == Lookup(resolved, name)
    ensures name in resolved ==> Lookup(resolved, name) == Chase(a, {}, name) && Lookup(resolved, name) in a.scalars
    ensures name !in resolved ==> Chase(a, {}, name) == name || Chase(a, {}, name) !in a.scalars
  {
    if name in resolved {
      assert Resolves(a, name, resolved[name]);
      var end := resolved[name];
      if end in resolved {
        ResolvedIsFinal(a, name, end, resolved[end]);
      }
    } else {
      assert !Resolves(a, name, Chase(a, {}, name));
    }
  }

  // ------------------------------------------------------------ normalising a type

  /** A type's text, tidied, split before its last `*`s and `&`s. */
  datatype TypeText = TypeText(base: string, suffix: string)

  /** `_TYPE_ALIASES`: no spelling it gives is one it replaces, and it replaces no scalar. */
  ghost predicate Settled(table: map<string, string>, scalars: set<string>) {
    (forall x <- table :: table[x] !in table) && scalars !! table.Keys
  }

  /** `normalize_type`, past the tidying; only a bare type has an entry in the table. */
  function Normalised(table: map<string, string>, typedefs: map<string, string>, t: TypeText): TypeText {
    var base := Lookup(typedefs, t.base);
    if t.suffix == "" then TypeText(Lookup(table, base), "") else TypeText(base, t.suffix)
  }

  /** Normalising twice changes nothing, unless the table gives a spelling that the project makes an alias. */
  lemma NormalisedTwiceIff(a: Aliases, table: map<string, string>, resolved: map<string, string>, t: TypeText)
    requires forall alias, end :: alias in resolved && resolved[alias] == end <==> Resolves(a, alias, end)
    requires Settled(table, a.scalars)
    ensures Normalised(table, resolved, Normalised(table, resolved, t)) == Normalised(table, resolved, t)
       <==> !(t.suffix == "" && t.base !in resolved && t.base in table && table[t.base] in resolved)
  {
    LookupIsIdempotent(a, resolved, t.base);
    if t.suffix == "" && t.base !in resolved && t.base in table {
      var spelled := table[t.base];
      LookupIsIdempotent(a, resolved, spelled);
      if spelled in resolved { assert Resolves(a, spelled, resolved[spelled]); }
    }
  }
}
