/**
 * `ConfigurationContext`: property scopes layered over the root tables.
 *
 * A scope may own a property table. A lookup tries the own table, then the
 * scope of the location context, then the scope of the call context (each of
 * those searching its own parents in turn), and finally the root tables; the
 * first value that is not null wins. A write goes to the own table if there is
 * one, else it is handed to the location parent, else to the call parent,
 * else to the root override table.
 *
 * The specification functions work on a snapshot of the tables of every scope
 * reachable from a scope (`Stores`) together with the root tables, and return
 * the snapshot after the operation, since a lookup may cache evaluated values.
 */
module Scopes {
  import opened Support
  import opened Evaluation
  import opened RootConfig

  /** The own table of each scope: `None` where the scope has none. */
  type Stores = map<ConfigurationContext, Option<map<string, string>>>

  ghost function StoresOf(cs: set<ConfigurationContext>): (s: Stores)
    reads cs
    ensures s.Keys == cs
  {
    map c | c in cs :: c.properties
  }

  /** The part of a snapshot that belongs to the scopes in `cs`. */
  ghost function Restrict(s: Stores, cs: set<ConfigurationContext>): (r: Stores)
    requires cs <= s.Keys
    ensures r.Keys == cs
  {
    map c | c in cs :: s[c]
  }

  /** The scopes reachable from a possibly-null parent link. */
  ghost function ParentScope(p: ConfigurationContext?): set<ConfigurationContext> {
    if p == null then {} else p.Scope()
  }

  ghost function Height(p: ConfigurationContext?): nat {
    if p == null then 0 else p.height
  }

  /** A parent link that is null or points to a well-formed scope over the same root. */
  ghost predicate Attached(p: ConfigurationContext?, root: RootConfiguration) {
    p != null ==> p.Valid() && p.root == root
  }

  // ---------------------------------------------------------------------------------------------
  // Lookup and write, on snapshots

  /** The value a lookup produced, and the scope tables and root tables after it. */
  type Lookup = (Result<Option<string>, EvalError>, Stores, Tables)

  /**
   * The own-table step of `getPropertyEntry`: the stored value, evaluated when
   * it is encoded, with a `Cache` result written back into the own table.
   * Evaluation itself reads (and may cache into) the root tables.
   */
  ghost function OwnGet(ev: Option<Script>, variants: Option<seq<string>>, c: ConfigurationContext, s: Stores, t: Tables, key: string): (r: Lookup)
    requires c in s
    ensures r.1.Keys == s.Keys && r.2.Keys() == t.Keys()
    ensures s[c].None? || key !in s[c].value ==> r == (Ok(None), s, t)
    ensures forall d :: d in s && d != c ==> r.1[d] == s[d]
    ensures r.1[c] != s[c] ==>
              && s[c].Some? && key in s[c].value
              && r.0.Ok? && r.0.value.Some?
              && r.1[c] == Some(s[c].value[key := r.0.value.value])
  {
    var own := s[c];
    if own.None? || key !in own.value then (Ok(None), s, t)
    else
      var raw := own.value[key];
      if !Encoded(ev, raw) then (Ok(Some(raw)), s, t)
      else
        var o := Evaluate(ev, variants, t, key, raw);
        if o.write.Some? then (o.value, s[c := Some(own.value[key := o.write.value])], o.tables)
        else (o.value, s, o.tables)
  }

  /** A found value or a failure ends the lookup. */
  predicate Settled(v: Result<Option<string>, EvalError>) {
    v.Err? || v.value.Some?
  }

  /**
   * `ConfigurationContext.getPropertyEntry`: own table, then the location
   * parent's lookup, then the call parent's lookup, then the root tables.
   */
  ghost function ChainGet(ev: Option<Script>, variants: Option<seq<string>>, c: ConfigurationContext, s: Stores, t: Tables, key: string): (r: Lookup)
    requires c.Valid() && s.Keys == c.Scope()
    ensures r.1.Keys == s.Keys && r.2.Keys() == t.Keys()
    decreases c.height, 2
  {
    var own := OwnGet(ev, variants, c, s, t, key);
    if Settled(own.0) then own
    else Inherited(ev, variants, c, own.1, own.2, key)
  }

  /** The part of the lookup after the own table gave nothing: location parent, call parent, root. */
  ghost function Inherited(ev: Option<Script>, variants: Option<seq<string>>, c: ConfigurationContext, s: Stores, t: Tables, key: string): (r: Lookup)
    requires c.Valid() && s.Keys == c.Scope()
    ensures r.1.Keys == s.Keys && r.2.Keys() == t.Keys()
    decreases c.height, 1
  {
    var fromLocation := ParentGet(ev, variants, c.location, s, t, key);
    if Settled(fromLocation.0) then fromLocation
    else CallThenRoot(ev, variants, c, fromLocation.1, fromLocation.2, key)
  }

  /** The part of the lookup after the location parent gave nothing: call parent, root. */
  ghost function CallThenRoot(ev: Option<Script>, variants: Option<seq<string>>, c: ConfigurationContext, s: Stores, t: Tables, key: string): (r: Lookup)
    requires c.Valid() && s.Keys == c.Scope()
    ensures r.1.Keys == s.Keys && r.2.Keys() == t.Keys()
    decreases c.height, 0
  {
    var fromCall := ParentGet(ev, variants, c.call, s, t, key);
    if Settled(fromCall.0) then fromCall
    else
      var fromRoot := RootGet(ev, variants, fromCall.2, key);
      (fromRoot.0, fromCall.1, fromRoot.1)
  }

  /** The lookup in a parent scope (none for a null link), which sees and changes only its own scopes' tables. */
  ghost function ParentGet(ev: Option<Script>, variants: Option<seq<string>>, p: ConfigurationContext?, s: Stores, t: Tables, key: string): (r: Lookup)
    requires p != null ==> p.Valid() && p.Scope() <= s.Keys
    ensures r.1.Keys == s.Keys && r.2.Keys() == t.Keys()
    decreases Height(p), 3
  {
    if p == null then (Ok(None), s, t)
    else
      var sub := ChainGet(ev, variants, p, Restrict(s, p.Scope()), t, key);
      (sub.0, s + sub.1, sub.2)
  }

  /**
   * `ConfigurationContext.setPropertyEntry`: the own table if there is one,
   * else the location parent's write, else the call parent's, else the root
   * override table.
   */
  ghost function ChainSet(c: ConfigurationContext, s: Stores, t: Tables, name: string, value: string): (r: (Stores, Tables))
    requires c.Valid() && s.Keys == c.Scope()
    ensures r.0.Keys == s.Keys
    decreases c.height
  {
    if s[c].Some? then (s[c := Some(s[c].value[name := value])], t)
    else if c.location != null then
      var (sub, t') := ChainSet(c.location, Restrict(s, c.location.Scope()), t, name, value);
      (s + sub, t')
    else if c.call != null then
      var (sub, t') := ChainSet(c.call, Restrict(s, c.call.Scope()), t, name, value);
      (s + sub, t')
    else (s, t.(overrides := t.overrides[name := value]))
  }

  /** The scope whose own table a write lands in; `None` for the root override table. */
  ghost function Target(c: ConfigurationContext, s: Stores): (r: Option<ConfigurationContext>)
    requires c.Valid() && s.Keys == c.Scope()
    decreases c.height
  {
    if s[c].Some? then Some(c)
    else if c.location != null then Target(c.location, Restrict(s, c.location.Scope()))
    else if c.call != null then Target(c.call, Restrict(s, c.call.Scope()))
    else None
  }

  /** The tables of the scopes a parent link reaches, as `getProperties` was evidently meant to find them. */
  ghost function NearestTable(c: ConfigurationContext, s: Stores): Option<map<string, string>>
    requires c.Valid() && s.Keys == c.Scope()
    decreases c.height
  {
    if s[c].Some? then s[c]
    else
      var fromLocation := if c.location == null then None else NearestTable(c.location, Restrict(s, c.location.Scope()));
      if fromLocation.Some? then fromLocation
      else if c.call == null then None
      else NearestTable(c.call, Restrict(s, c.call.Scope()))
  }

  // ---------------------------------------------------------------------------------------------
  // Properties of the scope chain

  /**
   * `setPropertyEntry` changes exactly one table: the own table of an existing
   * scope (no table is created) or, when no scope on the write path has one,
   * the root override table.
   */
  lemma {:induction false} WriteTarget(c: ConfigurationContext, s: Stores, t: Tables, name: string, value: string)
    requires c.Valid() && s.Keys == c.Scope()
    ensures var w := ChainSet(c, s, t, name, value);
            match Target(c, s)
            case Some(d) => d in s && s[d].Some? && w == (s[d := Some(s[d].value[name := value])], t)
            case None => w == (s, t.(overrides := t.overrides[name := value]))
    decreases c.height
  {
    if s[c].None? {
      var p := if c.location != null then c.location else c.call;
      if p != null {
        var sub := Restrict(s, p.Scope());
        WriteTarget(p, sub, t, name, value);
        match Target(p, sub)
        case Some(d) =>
          assert s + sub[d := Some(sub[d].value[name := value])] == s[d := Some(s[d].value[name := value])];
        case None =>
          assert s + sub == s;
      }
    }
  }

  /** A value written through a scope is what a lookup through that scope then finds. */
  lemma {:induction false} SetThenGet(ev: Option<Script>, variants: Option<seq<string>>, c: ConfigurationContext, s: Stores, t: Tables, name: string, value: string)
    requires c.Valid() && s.Keys == c.Scope() && !Encoded(ev, value)
    ensures var w := ChainSet(c, s, t, name, value);
            ChainGet(ev, variants, c, w.0, w.1, name).0 == Ok(Some(value))
    decreases c.height
  {
    if s[c].None? {
      var p := if c.location != null then c.location else c.call;
      if p != null {
        SetThenGetThroughParent(ev, variants, c, p, s, t, name, value);
      } else {
        var t' := t.(overrides := t.overrides[name := value]);
        OverrideWrite(t, name, value, name);
        PlainValueUnchanged(ev, variants, t', name);
        assert Inherited(ev, variants, c, s, t', name) == (Ok(Some(value)), s, t');
      }
    }
  }

  /** The case of `SetThenGet` where the write is handed to a parent. */
  lemma {:induction false} SetThenGetThroughParent(ev: Option<Script>, variants: Option<seq<string>>, c: ConfigurationContext, p: ConfigurationContext, s: Stores, t: Tables, name: string, value: string)
    requires c.Valid() && s.Keys == c.Scope() && !Encoded(ev, value)
    requires s[c].None? && p == (if c.location != null then c.location else c.call)
    ensures var w := ChainSet(c, s, t, name, value);
            ChainGet(ev, variants, c, w.0, w.1, name).0 == Ok(Some(value))
    decreases c.height, 0
  {
    var sub := Restrict(s, p.Scope());
    var wp := ChainSet(p, sub, t, name, value);
    var w := ChainSet(c, s, t, name, value);
    assert w == (s + wp.0, wp.1);
    SetThenGet(ev, variants, p, sub, t, name, value);
    assert Restrict(w.0, p.Scope()) == wp.0;
    assert w.0[c] == s[c];
    ParentHitIsFound(ev, variants, c, p, w.0, w.1, name, value);
  }

  /** A scope without a table finds what its first parent finds. */
  lemma ParentHitIsFound(ev: Option<Script>, variants: Option<seq<string>>, c: ConfigurationContext, p: ConfigurationContext, s: Stores, t: Tables, key: string, value: string)
    requires c.Valid() && s.Keys == c.Scope() && s[c].None?
    requires p == (if c.location != null then c.location else c.call)
    requires ParentGet(ev, variants, p, s, t, key).0 == Ok(Some(value))
    ensures ChainGet(ev, variants, c, s, t, key).0 == Ok(Some(value))
  {
    assert OwnGet(ev, variants, c, s, t, key) == (Ok(None), s, t);
    if p != c.location {
      assert ParentGet(ev, variants, c.location, s, t, key) == (Ok(None), s, t);
      assert Inherited(ev, variants, c, s, t, key) == CallThenRoot(ev, variants, c, s, t, key);
    }
  }

  /**
   * When no scope defines the key and the root value is not encoded, the
   * lookup yields the root value (override, else default) and changes nothing.
   */
  lemma {:induction false} RootFallback(ev: Option<Script>, variants: Option<seq<string>>, c: ConfigurationContext, s: Stores, t: Tables, key: string)
    requires c.Valid() && s.Keys == c.Scope()
    requires forall d :: d in s && s[d].Some? ==> key !in s[d].value
    requires t.Get(key).Some? ==> !Encoded(ev, t.Get(key).value)
    ensures ChainGet(ev, variants, c, s, t, key) == (Ok(t.Get(key)), s, t)
    decreases c.height, 1
  {
    assert OwnGet(ev, variants, c, s, t, key) == (Ok(None), s, t);
    ParentFallback(ev, variants, c.location, s, t, key);
    if c.location == null || t.Get(key).None? {
      assert Inherited(ev, variants, c, s, t, key) == CallThenRoot(ev, variants, c, s, t, key);
      ParentFallback(ev, variants, c.call, s, t, key);
      PlainValueUnchanged(ev, variants, t, key);
    }
  }

  /** `RootFallback` for the lookup through a parent link; a missing link yields nothing. */
  lemma {:induction false} ParentFallback(ev: Option<Script>, variants: Option<seq<string>>, p: ConfigurationContext?, s: Stores, t: Tables, key: string)
    requires p != null ==> p.Valid() && p.Scope() <= s.Keys
    requires forall d :: d in s && s[d].Some? ==> key !in s[d].value
    requires t.Get(key).Some? ==> !Encoded(ev, t.Get(key).value)
    ensures ParentGet(ev, variants, p, s, t, key) == (if p == null then Ok(None) else Ok(t.Get(key)), s, t)
    decreases Height(p), 2
  {
    if p != null {
      var sub := Restrict(s, p.Scope());
      RootFallback(ev, variants, p, sub, t, key);
      assert ChainGet(ev, variants, p, sub, t, key).1 == sub;
      assert s + sub == s;
    }
  }

  /**
   * The parents are consulted whenever the own table lacks the key, exactly as
   * if the scope had no table at all.
   */
  lemma MissingKeyConsultsParents(ev: Option<Script>, variants: Option<seq<string>>, c: ConfigurationContext, s: Stores, t: Tables, key: string)
    requires c.Valid() && s.Keys == c.Scope() && s[c].Some? && key !in s[c].value
    ensures var a := ChainGet(ev, variants, c, s, t, key);
            var b := ChainGet(ev, variants, c, s[c := None], t, key);
            a.0 == b.0 && a.2 == b.2 && a.1 == b.1[c := s[c]]
  {
    InheritedIgnoresOwnTable(ev, variants, c, s, s[c := None], t, key);
  }

  lemma InheritedIgnoresOwnTable(ev: Option<Script>, variants: Option<seq<string>>, c: ConfigurationContext, x: Stores, y: Stores, t: Tables, key: string)
    requires c.Valid() && x.Keys == c.Scope() && y.Keys == c.Scope() && x == y[c := x[c]]
    ensures var a := Inherited(ev, variants, c, x, t, key);
            var b := Inherited(ev, variants, c, y, t, key);
            a.0 == b.0 && a.2 == b.2 && a.1 == b.1[c := x[c]]
  {
    ParentIgnoresOwnTable(ev, variants, c, c.location, x, y, t, key);
    var la := ParentGet(ev, variants, c.location, x, t, key);
    var lb := ParentGet(ev, variants, c.location, y, t, key);
    if !Settled(la.0) {
      CallThenRootIgnoresOwnTable(ev, variants, c, la.1, lb.1, la.2, key);
    }
  }

  lemma CallThenRootIgnoresOwnTable(ev: Option<Script>, variants: Option<seq<string>>, c: ConfigurationContext, x: Stores, y: Stores, t: Tables, key: string)
    requires c.Valid() && x.Keys == c.Scope() && y.Keys == c.Scope() && x == y[c := x[c]]
    ensures var a := CallThenRoot(ev, variants, c, x, t, key);
            var b := CallThenRoot(ev, variants, c, y, t, key);
            a.0 == b.0 && a.2 == b.2 && a.1 == b.1[c := x[c]]
  {
    ParentIgnoresOwnTable(ev, variants, c, c.call, x, y, t, key);
  }

  /** A parent's lookup neither reads nor writes the child's own table. */
  lemma ParentIgnoresOwnTable(ev: Option<Script>, variants: Option<seq<string>>, c: ConfigurationContext, p: ConfigurationContext?, x: Stores, y: Stores, t: Tables, key: string)
    requires p != null ==> p.Valid() && p.Scope() <= x.Keys && c !in p.Scope()
    requires x.Keys == y.Keys && c in x && x == y[c := x[c]]
    ensures var a := ParentGet(ev, variants, p, x, t, key);
            var b := ParentGet(ev, variants, p, y, t, key);
            a.0 == b.0 && a.2 == b.2 && a.1 == b.1[c := x[c]]
  {
    if p != null {
      var scope := p.Scope();
      assert Restrict(x, scope) == Restrict(y, scope);
      var sub := ChainGet(ev, variants, p, Restrict(x, scope), t, key).1;
      assert x + sub == (y + sub)[c := x[c]];
    }
  }

  /** A value in the own table shadows the parents and the root. */
  lemma OwnValueShadows(ev: Option<Script>, variants: Option<seq<string>>, c: ConfigurationContext, s: Stores, t: Tables, key: string)
    requires c.Valid() && s.Keys == c.Scope() && s[c].Some? && key in s[c].value && !Encoded(ev, s[c].value[key])
    ensures ChainGet(ev, variants, c, s, t, key) == (Ok(Some(s[c].value[key])), s, t)
  {
  }

  /**
   * `getProperties` as written returns the own field: with no own table but a
   * table at the location parent it answers null although a table is reachable.
   */
  lemma GetPropertiesMissesParentTable(c: ConfigurationContext, s: Stores)
    requires c.Valid() && s.Keys == c.Scope() && s[c].None?
    requires c.location != null && s[c.location].Some?
    ensures NearestTable(c, s).Some? && NearestTable(c, s) != s[c]
  {
    assert Restrict(s, c.location.Scope())[c.location] == s[c.location];
  }

  /** The evidently intended `getProperties` is null iff no reachable scope has a table, else one of their tables. */
  lemma {:induction false} NearestTableMeaning(c: ConfigurationContext, s: Stores)
    requires c.Valid() && s.Keys == c.Scope()
    ensures NearestTable(c, s).None? <==> forall d :: d in s ==> s[d].None?
    ensures NearestTable(c, s).Some? ==> exists d :: d in s && s[d] == NearestTable(c, s)
    decreases c.height
  {
    if s[c].None? {
      if c.location != null {
        NearestTableMeaning(c.location, Restrict(s, c.location.Scope()));
      }
      if c.call != null {
        NearestTableMeaning(c.call, Restrict(s, c.call.Scope()));
      }
    }
  }

  /** A lookup never gives a scope a table: evaluated values are cached only into existing tables. */
  lemma {:induction false} LookupCreatesNoTable(ev: Option<Script>, variants: Option<seq<string>>, c: ConfigurationContext, s: Stores, t: Tables, key: string, d: ConfigurationContext)
    requires c.Valid() && s.Keys == c.Scope() && d in s && s[d].None?
    ensures ChainGet(ev, variants, c, s, t, key).1[d].None?
    decreases c.height, 3
  {
    var own := OwnGet(ev, variants, c, s, t, key);
    assert own.1[d].None?;
    if !Settled(own.0) {
      InheritedCreatesNoTable(ev, variants, c, own.1, own.2, key, d);
    }
  }

  lemma {:induction false} InheritedCreatesNoTable(ev: Option<Script>, variants: Option<seq<string>>, c: ConfigurationContext, s: Stores, t: Tables, key: string, d: ConfigurationContext)
    requires c.Valid() && s.Keys == c.Scope() && d in s && s[d].None?
    ensures Inherited(ev, variants, c, s, t, key).1[d].None?
    decreases c.height, 2
  {
    ParentCreatesNoTable(ev, variants, c.location, s, t, key, d);
    var fromLocation := ParentGet(ev, variants, c.location, s, t, key);
    if !Settled(fromLocation.0) {
      ParentCreatesNoTable(ev, variants, c.call, fromLocation.1, fromLocation.2, key, d);
    }
  }

  lemma {:induction false} ParentCreatesNoTable(ev: Option<Script>, variants: Option<seq<string>>, p: ConfigurationContext?, s: Stores, t: Tables, key: string, d: ConfigurationContext)
    requires p != null ==> p.Valid() && p.Scope() <= s.Keys
    requires d in s && s[d].None?
    ensures ParentGet(ev, variants, p, s, t, key).1[d].None?
    decreases Height(p), 4
  {
    if p != null && d in p.Scope() {
      LookupCreatesNoTable(ev, variants, p, Restrict(s, p.Scope()), t, key, d);
    }
  }

  /** A write never gives a scope a table either. */
  lemma WriteCreatesNoTable(c: ConfigurationContext, s: Stores, t: Tables, name: string, value: string, d: ConfigurationContext)
    requires c.Valid() && s.Keys == c.Scope() && d in s && s[d].None?
    ensures ChainSet(c, s, t, name, value).0[d].None?
  {
    WriteTarget(c, s, t, name, value);
  }

  // ---------------------------------------------------------------------------------------------
  // Lookups without an evaluator

  /**
   * What a lookup finds when no stored value is evaluated: the own value, else
   * what the location parent's whole lookup finds (which ends at the root
   * tables), else the call parent's, else the root value.
   */
  ghost function Visible(c: ConfigurationContext, s: Stores, t: Tables, key: string): Option<string>
    requires c.Valid() && s.Keys == c.Scope()
    decreases c.height
  {
    if s[c].Some? && key in s[c].value then Some(s[c].value[key])
    else
      var fromLocation := if c.location == null then None else Visible(c.location, Restrict(s, c.location.Scope()), t, key);
      var fromCall := if c.call == null then None else Visible(c.call, Restrict(s, c.call.Scope()), t, key);
      if fromLocation.Some? then fromLocation else if fromCall.Some? then fromCall else t.Get(key)
  }

  /** With no evaluator registered a lookup changes nothing and finds the visible value. */
  lemma {:induction false} UnevaluatedLookup(variants: Option<seq<string>>, c: ConfigurationContext, s: Stores, t: Tables, key: string)
    requires c.Valid() && s.Keys == c.Scope()
    ensures ChainGet(None, variants, c, s, t, key) == (Ok(Visible(c, s, t, key)), s, t)
    decreases c.height, 1
  {
    if !(s[c].Some? && key in s[c].value) {
      assert OwnGet(None, variants, c, s, t, key) == (Ok(None), s, t);
      UnevaluatedInherited(variants, c, s, t, key);
    }
  }

  lemma {:induction false} UnevaluatedInherited(variants: Option<seq<string>>, c: ConfigurationContext, s: Stores, t: Tables, key: string)
    requires c.Valid() && s.Keys == c.Scope() && !(s[c].Some? && key in s[c].value)
    ensures Inherited(None, variants, c, s, t, key) == (Ok(Visible(c, s, t, key)), s, t)
    decreases c.height, 0
  {
    UnevaluatedParentLookup(variants, c.location, s, t, key);
    UnevaluatedParentLookup(variants, c.call, s, t, key);
    PlainValueUnchanged(None, variants, t, key);
  }

  lemma {:induction false} UnevaluatedParentLookup(variants: Option<seq<string>>, p: ConfigurationContext?, s: Stores, t: Tables, key: string)
    requires p != null ==> p.Valid() && p.Scope() <= s.Keys
    ensures ParentGet(None, variants, p, s, t, key) == (if p == null then Ok(None) else Ok(Visible(p, Restrict(s, p.Scope()), t, key)), s, t)
    decreases Height(p), 2
  {
    if p != null {
      var sub := Restrict(s, p.Scope());
      UnevaluatedLookup(variants, p, sub, t, key);
      assert s + sub == s;
    }
  }

  /** A lookup finds nothing exactly when neither a reachable table nor the root tables hold the key. */
  lemma {:induction false} VisibleMeaning(c: ConfigurationContext, s: Stores, t: Tables, key: string)
    requires c.Valid() && s.Keys == c.Scope()
    ensures Visible(c, s, t, key).None? <==> t.Get(key).None? && forall d :: d in s && s[d].Some? ==> key !in s[d].value
    decreases c.height
  {
    if !(s[c].Some? && key in s[c].value) {
      if c.location != null {
        VisibleMeaning(c.location, Restrict(s, c.location.Scope()), t, key);
      }
      if c.call != null {
        VisibleMeaning(c.call, Restrict(s, c.call.Scope()), t, key);
      }
    }
  }

  /**
   * The location parent's lookup falls through to the root tables itself, so
   * when the root holds the key the call parent is never consulted.
   */
  lemma LocationParentEndsAtRoot(c: ConfigurationContext, s: Stores, t: Tables, key: string)
    requires c.Valid() && s.Keys == c.Scope() && c.location != null && t.Get(key).Some?
    ensures Visible(c, s, t, key) == if s[c].Some? && key in s[c].value then Some(s[c].value[key])
                                     else Visible(c.location, Restrict(s, c.location.Scope()), t, key)
  {
    VisibleMeaning(c.location, Restrict(s, c.location.Scope()), t, key);
  }

  // ---------------------------------------------------------------------------------------------
  // Snapshot bookkeeping

  /** The snapshot of a parent's scopes is the part of the child's snapshot that belongs to them. */
  lemma RestrictStores(c: ConfigurationContext, p: ConfigurationContext)
    requires p.Scope() <= c.Scope()
    ensures Restrict(c.Stores(), p.Scope()) == p.Stores()
  {
  }

  /** A snapshot that agrees with `before` outside `p`'s scopes takes the rest from `p`. */
  lemma MergeStores(c: ConfigurationContext, p: ConfigurationContext, before: Stores)
    requires p.Scope() <= c.Scope() && before.Keys == c.Scope()
    requires forall d :: d in c.Scope() && d !in p.Scope() ==> d.properties == before[d]
    ensures c.Stores() == before + p.Stores()
  {
  }

  /** A snapshot that agrees with `before` everywhere but at `c` itself. */
  lemma OwnStoreUpdated(c: ConfigurationContext, before: Stores)
    requires before.Keys == c.Scope()
    requires forall d :: d in c.ancestors ==> d.properties == before[d]
    ensures c.Stores() == before[c := c.properties]
  {
  }

  /**
   * The part of a context the scope chain depends on: the scope registered at
   * it, and the scopes a scope created here takes as its location and call
   * parents.
   */
  class Context {
    var scope: ConfigurationContext?
    const locationScope: ConfigurationContext?
    const callScope: ConfigurationContext?
    const root: RootConfiguration

    ghost predicate Valid()
      reads this`scope
    {
      Attached(scope, root) && Attached(locationScope, root) && Attached(callScope, root)
    }

    /** The scopes a scope created here can reach. */
    ghost function Ancestors(): set<ConfigurationContext> {
      ParentScope(locationScope) + ParentScope(callScope)
    }

    constructor(locationScope: ConfigurationContext?, callScope: ConfigurationContext?, root: RootConfiguration)
      requires Attached(locationScope, root) && Attached(callScope, root)
      ensures Valid() && scope == null
      ensures this.locationScope == locationScope && this.callScope == callScope && this.root == root
    {
      this.locationScope := locationScope;
      this.callScope := callScope;
      this.root := root;
      scope := null;
    }
  }

  class ConfigurationContext {
    /** The own table; null until `instantiateLocalProperties`. */
    var properties: Option<map<string, string>>
    /** The scope of the location context, if it has one. */
    const location: ConfigurationContext?
    /** The scope of the call context, if it has one. */
    const call: ConfigurationContext?
    const root: RootConfiguration
    /** Every scope reachable through the parent links. */
    ghost const ancestors: set<ConfigurationContext>
    ghost const height: nat

    /** This scope and its ancestors. */
    ghost function Scope(): set<ConfigurationContext> {
      {this} + ancestors
    }

    /** The parent links form a finite acyclic graph over one root. */
    ghost predicate Valid()
      decreases height
    {
      && 0 < height
      && this !in ancestors
      && ancestors == ParentScope(location) + ParentScope(call)
      && (location != null ==> location.height < height && location.root == root && location.Valid())
      && (call != null ==> call.height < height && call.root == root && call.Valid())
    }

    ghost function Stores(): (s: Stores)
      reads Scope()
      ensures s.Keys == Scope()
    {
      StoresOf(Scope())
    }

    /** A new scope has no table of its own. */
    constructor(location: ConfigurationContext?, call: ConfigurationContext?, root: RootConfiguration)
      requires Attached(location, root) && Attached(call, root)
      ensures Valid() && properties.None?
      ensures this.location == location && this.call == call && this.root == root
      ensures ancestors == ParentScope(location) + ParentScope(call)
    {
      this.location := location;
      this.call := call;
      this.root := root;
      ancestors := ParentScope(location) + ParentScope(call);
      height := 1 + (if Height(location) < Height(call) then Height(call) else Height(location));
      properties := None;
    }

    /** `create`: a new scope without a table, registered at the context, replacing any earlier one. */
    static method Create(ctx: Context) returns (c: ConfigurationContext)
      requires ctx.Valid()
      modifies ctx`scope
      ensures fresh(c) && ctx.scope == c && ctx.Valid()
      ensures c.Valid() && c.properties.None? && c.root == ctx.root
      ensures c.location == ctx.locationScope && c.call == ctx.callScope && c.ancestors == ctx.Ancestors()
    {
      c := new ConfigurationContext(ctx.locationScope, ctx.callScope, ctx.root);
      ctx.scope := c;
    }

    /** `get`: the scope registered at the context, if any. */
    static method Get(ctx: Context) returns (c: ConfigurationContext?)
      requires ctx.Valid()
      ensures c == ctx.scope && Attached(c, ctx.root)
    {
      c := ctx.scope;
    }

    /** `getOrCreate`: the registered scope, or a new one registered at the context. */
    static method GetOrCreate(ctx: Context) returns (c: ConfigurationContext)
      requires ctx.Valid()
      modifies ctx`scope
      ensures ctx.scope == c && ctx.Valid() && c.Valid() && c.root == ctx.root
      ensures old(ctx.scope) != null ==> c == old(ctx.scope)
      ensures old(ctx.scope) == null ==> fresh(c) && c.properties.None? && c.ancestors == ctx.Ancestors()
    {
      var registered := Get(ctx);
      if registered == null {
        c := Create(ctx);
      } else {
        c := registered;
      }
    }

    /** The own-table step of `getPropertyEntry`. */
    method OwnPropertyEntry(key: string) returns (r: Result<Option<string>, EvalError>)
      requires Valid() && root.variantsLoaded
      modifies this`properties, root`overrides
      ensures (r, Stores(), root.Store()) == OwnGet(root.evaluator, root.configurationVariants, this, old(Stores()), old(root.Store()), key)
    {
      ghost var before := Stores();
      if properties.None? || key !in properties.value {
        return Ok(None);
      }
      var property := properties.value[key];
      if !(root.evaluator.Some? && |property| > 2 && property[0] == '\0') {
        return Ok(Some(property));
      }
      var write;
      r, write := root.EvaluateAndCacheProperty(key, property);
      if write.Some? {
        properties := Some(properties.value[key := write.value]);
      }
      OwnStoreUpdated(this, before);
    }

    /** `getPropertyEntry`: the first value found along the scope chain, else the root value. */
    method GetPropertyEntry(key: string) returns (r: Result<Option<string>, EvalError>)
      requires Valid() && root.variantsLoaded
      modifies Scope(), root`overrides
      ensures (r, Stores(), root.Store()) == ChainGet(root.evaluator, root.configurationVariants, this, old(Stores()), old(root.Store()), key)
      decreases height, 2
    {
      ghost var ev, variants := root.evaluator, root.configurationVariants;
      r := OwnPropertyEntry(key);
      ghost var own := (r, Stores(), root.Store());
      if Settled(r) {
        return;
      }
      r := ParentPropertyEntry(location, key);
      ghost var fromLocation := (r, Stores(), root.Store());
      assert fromLocation == ParentGet(ev, variants, location, own.1, own.2, key);
      if Settled(r) {
        return;
      }
      r := CallThenRootPropertyEntry(key);
    }

    /** The rest of `getPropertyEntry` once the own table and the location parent gave nothing. */
    method CallThenRootPropertyEntry(key: string) returns (r: Result<Option<string>, EvalError>)
      requires Valid() && root.variantsLoaded
      modifies Scope(), root`overrides
      ensures (r, Stores(), root.Store()) == CallThenRoot(root.evaluator, root.configurationVariants, this, old(Stores()), old(root.Store()), key)
      decreases height, 1
    {
      r := ParentPropertyEntry(call, key);
      if Settled(r) {
        return;
      }
      r := root.GetPropertyEntry(key);
    }

    /** The lookup in a parent scope, which changes only the tables of that parent's scopes. */
    method ParentPropertyEntry(parent: ConfigurationContext?, key: string) returns (r: Result<Option<string>, EvalError>)
      requires Valid() && root.variantsLoaded && (parent == location || parent == call)
      modifies ParentScope(parent), root`overrides
      ensures (r, Stores(), root.Store()) == ParentGet(root.evaluator, root.configurationVariants, parent, old(Stores()), old(root.Store()), key)
      decreases Height(parent), 3
    {
      if parent == null {
        return Ok(None);
      }
      ghost var before := Stores();
      RestrictStores(this, parent);
      r := parent.GetPropertyEntry(key);
      MergeStores(this, parent, before);
    }

    /** `setPropertyEntry`: writes the nearest table; no table is created. */
    method SetPropertyEntry(name: string, value: string)
      requires Valid()
      modifies Scope(), root`overrides
      ensures (Stores(), root.Store()) == ChainSet(this, old(Stores()), old(root.Store()), name, value)
      decreases height
    {
      ghost var before := Stores();
      if properties.Some? {
        properties := Some(properties.value[name := value]);
        OwnStoreUpdated(this, before);
        return;
      }
      var parent := if location != null then location else call;
      if parent != null {
        RestrictStores(this, parent);
        parent.SetPropertyEntry(name, value);
        MergeStores(this, parent, before);
        return;
      }
      root.SetPropertyEntry(name, value);
    }

    /**
     * `getProperties` as written: the parents are asked, but what is returned
     * is always the own field.
     */
    method GetProperties() returns (p: Option<map<string, string>>)
      requires Valid()
      ensures p == properties
      decreases height
    {
      if properties.Some? {
        return properties;
      }
      if location != null {
        var fromLocation := location.GetProperties();
        if fromLocation.Some? {
          return properties;
        }
      }
      if call != null {
        var fromCall := call.GetProperties();
        if fromCall.Some? {
          return properties;
        }
      }
      return None;
    }

    /** `getProperties` as evidently intended: the table the parents found. */
    method NearestProperties() returns (p: Option<map<string, string>>)
      requires Valid()
      ensures p == NearestTable(this, Stores())
      decreases height
    {
      if properties.Some? {
        return properties;
      }
      if location != null {
        RestrictStores(this, location);
        p := location.NearestProperties();
        if p.Some? {
          return;
        }
      }
      if call != null {
        RestrictStores(this, call);
        p := call.NearestProperties();
        if p.Some? {
          return;
        }
      }
      return None;
    }

    /** `instantiateLocalProperties`: an empty own table. */
    method InstantiateLocalProperties()
      modifies this`properties
      ensures properties == Some(map[])
    {
      properties := Some(map[]);
    }

    /** `setProperties`. */
    method SetProperties(table: Option<map<string, string>>)
      modifies this`properties
      ensures properties == table
    {
      properties := table;
    }
  }
}
