/**
 * `Factory_ConfigurationContext`: creates a scope registered at a context and
 * then applies a list of property modifiers through it. A modifier writes its
 * value under its name, optionally with the value currently found under that
 * name prepended or appended, joined by the separator.
 */
module Factories {
  import opened Support
  import opened Evaluation
  import opened RootConfig
  import opened Scopes

  /** `PropertyModifier`. The `replace` flag is carried but never consulted. */
  datatype PropertyModifier = PropertyModifier(
    name: string,
    value: Option<string>,
    prepend: bool,
    append: bool,
    replace: bool,
    separator: Option<string>)

  /** A possibly-null string as Java's string concatenation renders it. */
  function Rendered(s: Option<string>): string {
    s.GetOr("null")
  }

  /**
   * The text a modifier writes, given the current value found before it
   * (`None` when the prepend lookup was skipped or found nothing) and after it
   * (likewise for the append lookup).
   */
  function ModifiedValue(m: PropertyModifier, before: Option<string>, after: Option<string>): string {
    (if before.Some? then before.value + Rendered(m.separator) else "")
    + Rendered(m.value)
    + (if after.Some? then Rendered(m.separator) + after.value else "")
  }

  /** Tables of the scopes, root tables, and the failure that ended the run, if any. */
  type Applied = (Stores, Tables, Option<EvalError>)

  /**
   * One iteration of the modifier loop in `create`: the prepend lookup, the
   * append lookup (each only when its flag is set), then the write through the
   * new scope. A failed evaluation ends the iteration with what it changed.
   */
  ghost function ApplyModifier(ev: Option<Script>, variants: Option<seq<string>>, c: ConfigurationContext, s: Stores, t: Tables, m: PropertyModifier): (r: Applied)
    requires c.Valid() && s.Keys == c.Scope()
    ensures r.0.Keys == s.Keys
  {
    var before := if m.prepend then ChainGet(ev, variants, c, s, t, m.name) else (Ok(None), s, t);
    if before.0.Err? then (before.1, before.2, Some(before.0.error))
    else
      var after := if m.append then ChainGet(ev, variants, c, before.1, before.2, m.name) else (Ok(None), before.1, before.2);
      if after.0.Err? then (after.1, after.2, Some(after.0.error))
      else
        var w := ChainSet(c, after.1, after.2, m.name, ModifiedValue(m, before.0.value, after.0.value));
        (w.0, w.1, None)
  }

  /** The modifiers applied in order; the first failure stops the loop. */
  ghost function Modifiers(ev: Option<Script>, variants: Option<seq<string>>, c: ConfigurationContext, s: Stores, t: Tables, mods: seq<PropertyModifier>): (r: Applied)
    requires c.Valid() && s.Keys == c.Scope()
    ensures r.0.Keys == s.Keys
    decreases |mods|
  {
    if mods == [] then (s, t, None)
    else
      var prev := Modifiers(ev, variants, c, s, t, mods[..|mods| - 1]);
      if prev.2.Some? then prev
      else ApplyModifier(ev, variants, c, prev.0, prev.1, mods[|mods| - 1])
  }

  lemma ModifiersStep(ev: Option<Script>, variants: Option<seq<string>>, c: ConfigurationContext, s: Stores, t: Tables, mods: seq<PropertyModifier>, i: nat)
    requires c.Valid() && s.Keys == c.Scope() && i < |mods|
    ensures var prev := Modifiers(ev, variants, c, s, t, mods[..i]);
            Modifiers(ev, variants, c, s, t, mods[..i + 1])
              == if prev.2.Some? then prev else ApplyModifier(ev, variants, c, prev.0, prev.1, mods[i])
  {
    assert mods[..i + 1][..i] == mods[..i];
  }

  /** After a failure the remaining modifiers change nothing. */
  lemma {:induction false} ModifiersStop(ev: Option<Script>, variants: Option<seq<string>>, c: ConfigurationContext, s: Stores, t: Tables, mods: seq<PropertyModifier>, n: nat)
    requires c.Valid() && s.Keys == c.Scope() && n <= |mods|
    requires Modifiers(ev, variants, c, s, t, mods[..n]).2.Some?
    ensures Modifiers(ev, variants, c, s, t, mods) == Modifiers(ev, variants, c, s, t, mods[..n])
    decreases |mods|
  {
    if n < |mods| {
      var front := mods[..|mods| - 1];
      assert front[..n] == mods[..n];
      ModifiersStop(ev, variants, c, s, t, front, n);
    } else {
      assert mods[..n] == mods;
    }
  }

  // ---------------------------------------------------------------------------------------------
  // Properties of the modifiers

  /**
   * With no evaluator registered a modifier never fails, and a lookup through
   * the scope afterwards finds the modifier's value with the value found
   * before it prepended and/or appended, joined by the separator.
   */
  lemma ModifierReadsBack(variants: Option<seq<string>>, c: ConfigurationContext, s: Stores, t: Tables, m: PropertyModifier)
    requires c.Valid() && s.Keys == c.Scope()
    ensures var r := ApplyModifier(None, variants, c, s, t, m);
            var current := Visible(c, s, t, m.name);
            var sep := Rendered(m.separator);
            && r.2.None?
            && Visible(c, r.0, r.1, m.name)
                 == Some((if m.prepend && current.Some? then current.value + sep else "")
                         + Rendered(m.value)
                         + (if m.append && current.Some? then sep + current.value else ""))
  {
    UnevaluatedLookup(variants, c, s, t, m.name);
    var current := Visible(c, s, t, m.name);
    var v := ModifiedValue(m, if m.prepend then current else None, if m.append then current else None);
    var w := ChainSet(c, s, t, m.name, v);
    assert ApplyModifier(None, variants, c, s, t, m) == (w.0, w.1, None);
    SetThenGet(None, variants, c, s, t, m.name, v);
    UnevaluatedLookup(variants, c, w.0, w.1, m.name);
  }

  /** Modifiers apply in order: a later modifier of the same name finds what the earlier one wrote. */
  lemma LaterModifierSeesEarlier(variants: Option<seq<string>>, c: ConfigurationContext, s: Stores, t: Tables, m1: PropertyModifier, m2: PropertyModifier)
    requires c.Valid() && s.Keys == c.Scope() && m1.name == m2.name
    ensures var first := ApplyModifier(None, variants, c, s, t, m1);
            var both := Modifiers(None, variants, c, s, t, [m1, m2]);
            var written := Visible(c, first.0, first.1, m1.name);
            var sep := Rendered(m2.separator);
            && written.Some?
            && both.2.None?
            && Visible(c, both.0, both.1, m2.name)
                 == Some((if m2.prepend then written.value + sep else "")
                         + Rendered(m2.value)
                         + (if m2.append then sep + written.value else ""))
  {
    ModifierReadsBack(variants, c, s, t, m1);
    var first := ApplyModifier(None, variants, c, s, t, m1);
    assert [m1, m2][..1] == [m1];
    assert Modifiers(None, variants, c, s, t, [m1]) == first;
    ModifierReadsBack(variants, c, first.0, first.1, m2);
  }

  /** The `replace` flag has no effect. */
  lemma ReplaceIgnored(ev: Option<Script>, variants: Option<seq<string>>, c: ConfigurationContext, s: Stores, t: Tables, m: PropertyModifier)
    requires c.Valid() && s.Keys == c.Scope()
    ensures ApplyModifier(ev, variants, c, s, t, m) == ApplyModifier(ev, variants, c, s, t, m.(replace := !m.replace))
  {
  }

  /**
   * The modifiers never give a scope a table: since the new scope starts
   * without one, every modifier lands in an enclosing scope's table or in the
   * root override table.
   */
  lemma {:induction false} ModifiersCreateNoTable(ev: Option<Script>, variants: Option<seq<string>>, c: ConfigurationContext, s: Stores, t: Tables, mods: seq<PropertyModifier>, d: ConfigurationContext)
    requires c.Valid() && s.Keys == c.Scope() && d in s && s[d].None?
    ensures Modifiers(ev, variants, c, s, t, mods).0[d].None?
    decreases |mods|
  {
    if mods != [] {
      var prev := Modifiers(ev, variants, c, s, t, mods[..|mods| - 1]);
      ModifiersCreateNoTable(ev, variants, c, s, t, mods[..|mods| - 1], d);
      if prev.2.None? {
        ModifierCreatesNoTable(ev, variants, c, prev.0, prev.1, mods[|mods| - 1], d);
      }
    }
  }

  lemma ModifierCreatesNoTable(ev: Option<Script>, variants: Option<seq<string>>, c: ConfigurationContext, s: Stores, t: Tables, m: PropertyModifier, d: ConfigurationContext)
    requires c.Valid() && s.Keys == c.Scope() && d in s && s[d].None?
    ensures ApplyModifier(ev, variants, c, s, t, m).0[d].None?
  {
    var before := if m.prepend then ChainGet(ev, variants, c, s, t, m.name) else (Ok(None), s, t);
    if m.prepend {
      LookupCreatesNoTable(ev, variants, c, s, t, m.name, d);
    }
    if before.0.Ok? {
      var after := if m.append then ChainGet(ev, variants, c, before.1, before.2, m.name) else (Ok(None), before.1, before.2);
      if m.append {
        LookupCreatesNoTable(ev, variants, c, before.1, before.2, m.name, d);
      }
      if after.0.Ok? {
        WriteCreatesNoTable(c, after.1, after.2, m.name, ModifiedValue(m, before.0.value, after.0.value), d);
      }
    }
  }

  /** With no evaluator registered the modifier loop never fails. */
  lemma {:induction false} UnevaluatedModifiersSucceed(variants: Option<seq<string>>, c: ConfigurationContext, s: Stores, t: Tables, mods: seq<PropertyModifier>)
    requires c.Valid() && s.Keys == c.Scope()
    ensures Modifiers(None, variants, c, s, t, mods).2.None?
    decreases |mods|
  {
    if mods != [] {
      var prev := Modifiers(None, variants, c, s, t, mods[..|mods| - 1]);
      UnevaluatedModifiersSucceed(variants, c, s, t, mods[..|mods| - 1]);
      ModifierReadsBack(variants, c, prev.0, prev.1, mods[|mods| - 1]);
    }
  }

  // ---------------------------------------------------------------------------------------------
  // The factory

  /** One modifier applied through the scope `c`. */
  method ApplyPropertyModifier(c: ConfigurationContext, m: PropertyModifier) returns (failure: Option<EvalError>)
    requires c.Valid() && c.root.variantsLoaded
    modifies c.Scope(), c.root`overrides
    ensures (c.Stores(), c.root.Store(), failure)
         == ApplyModifier(c.root.evaluator, c.root.configurationVariants, c, old(c.Stores()), old(c.root.Store()), m)
  {
    var before: Option<string> := None;
    if m.prepend {
      var current := c.GetPropertyEntry(m.name);
      if current.Err? {
        return Some(current.error);
      }
      before := current.value;
    }
    var after: Option<string> := None;
    if m.append {
      var current := c.GetPropertyEntry(m.name);
      if current.Err? {
        return Some(current.error);
      }
      after := current.value;
    }
    c.SetPropertyEntry(m.name, ModifiedValue(m, before, after));
    failure := None;
  }

  class Factory {
    var context: Context?
    var propertyModifiers: Option<seq<PropertyModifier>>

    constructor()
      ensures context == null && propertyModifiers.None?
    {
      context := null;
      propertyModifiers := None;
    }

    method SetContext(context: Context?)
      modifies this`context
      ensures this.context == context
    {
      this.context := context;
    }

    method SetPropertyModifiers(mods: Option<seq<PropertyModifier>>)
      modifies this`propertyModifiers
      ensures propertyModifiers == mods
    {
      propertyModifiers := mods;
    }

    /**
     * `create`: a new scope registered at the context, through which every
     * modifier is applied in order. A failed evaluation ends the loop and is
     * reported; what was written before it stays written.
     */
    method Create() returns (result: ConfigurationContext, failure: Option<EvalError>)
      requires context != null && context.Valid() && context.root.variantsLoaded
      modifies context`scope, context.Ancestors(), context.root`overrides
      ensures fresh(result) && context.scope == result && result.Valid()
      ensures result.location == context.locationScope && result.call == context.callScope && result.root == context.root
      ensures (result.Stores(), context.root.Store(), failure)
           == Modifiers(context.root.evaluator, context.root.configurationVariants, result,
                        old(StoresOf(context.Ancestors()))[result := None], old(context.root.Store()),
                        propertyModifiers.GetOr([]))
    {
      ghost var s0 := StoresOf(context.Ancestors());
      result := ConfigurationContext.Create(context);
      assert result.Stores() == s0[result := None];
      failure := ApplyPropertyModifiers(result, propertyModifiers.GetOr([]));
    }
  }

  /** The modifier loop of `create`, through the scope `c`. */
  method ApplyPropertyModifiers(c: ConfigurationContext, mods: seq<PropertyModifier>) returns (failure: Option<EvalError>)
    requires c.Valid() && c.root.variantsLoaded
    modifies c.Scope(), c.root`overrides
    ensures (c.Stores(), c.root.Store(), failure)
         == Modifiers(c.root.evaluator, c.root.configurationVariants, c, old(c.Stores()), old(c.root.Store()), mods)
  {
    ghost var s0, t0 := c.Stores(), c.root.Store();
    ghost var ev, variants := c.root.evaluator, c.root.configurationVariants;
    failure := None;
    var i := 0;
    while i < |mods|
      invariant 0 <= i <= |mods|
      invariant (c.Stores(), c.root.Store(), failure) == Modifiers(ev, variants, c, s0, t0, mods[..i])
      invariant failure.None?
    {
      ModifiersStep(ev, variants, c, s0, t0, mods, i);
      failure := ApplyPropertyModifier(c, mods[i]);
      if failure.Some? {
        ModifiersStop(ev, variants, c, s0, t0, mods, i + 1);
        return;
      }
      i := i + 1;
    }
    assert mods[..i] == mods;
  }
}
