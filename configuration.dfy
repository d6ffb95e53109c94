/**
 * `Configuration`: typed access to properties named by a dot-separated prefix
 * (the client id of an instance) and a key.
 *
 * The main accessor joins prefix and key to a full key and looks it up in the
 * scope registered at the context, or in the root tables when none is. When
 * nothing is found and widening is asked for, the last segment of the prefix
 * is dropped and the lookup repeated: for prefix `a.b.c` and key `D` the keys
 * `a.b.c.D`, `a.b.D`, `a.D` and `D` are tried in this order.
 */
module Config {
  import opened Support
  import opened Text
  import opened Evaluation
  import opened RootConfig
  import opened Scopes

  /** Why a property access failed. */
  datatype LookupError =
    | Eval(error: EvalError)
    /** Prefix and key both null: the tables are asked for a null key. */
    | NullKey
    /** `ConfigurationEntryNotFound`, from the `mustGet` accessors. */
    | EntryNotFound

  /** The full key: prefix and key joined by a dot, either one alone when the other is null. */
  function FullKey(prefix: Option<string>, key: Option<string>): (r: Option<string>)
    ensures r.None? <==> prefix.None? && key.None?
    ensures key.Some? ==> r.Some? && |r.value| >= |key.value|
  {
    if key.None? then prefix
    else if prefix.None? then key
    else Some(prefix.value + "." + key.value)
  }

  // ---------------------------------------------------------------------------------------------
  // Widening the prefix

  function PrefixSize(prefix: Option<string>): nat {
    if prefix.None? then 0 else |prefix.value| + 1
  }

  /** `q` is `p` without its last dot-separated segment; `None` when `p` has a single segment. */
  predicate DropsLastSegment(p: string, next: Option<string>) {
    match next
    case None => '.' !in p
    case Some(q) => |q| < |p| && p[..|q|] == q && p[|q|] == '.' && '.' !in p[|q| + 1..]
  }

  /** The prefix a widened lookup tries next. */
  function Shortened(p: string): (r: Option<string>)
    ensures DropsLastSegment(p, r)
    ensures PrefixSize(r) <= |p|
  {
    var lastDot := LastIndexOf(p, '.');
    if lastDot == -1 then None else Some(p[..lastDot])
  }

  /**
   * The prefixes a widened lookup tries, in order: widening stops after the
   * null prefix or an empty one.
   */
  function Prefixes(prefix: Option<string>): (r: seq<Option<string>>)
    ensures |r| >= 1 && r[0] == prefix
    decreases PrefixSize(prefix)
  {
    if prefix.None? || |prefix.value| == 0 then [prefix]
    else [prefix] + Prefixes(Shortened(prefix.value))
  }

  /**
   * Each prefix tried is the previous one without its last segment, and the
   * last one tried is the null prefix or the empty prefix.
   */
  lemma {:induction false} PrefixesMeaning(prefix: Option<string>)
    ensures var r := Prefixes(prefix);
            && (r[|r| - 1] == None || r[|r| - 1] == Some(""))
            && forall i :: 0 <= i < |r| - 1 ==> r[i].Some? && r[i].value != "" && DropsLastSegment(r[i].value, r[i + 1])
    decreases PrefixSize(prefix)
  {
    if prefix.Some? && |prefix.value| != 0 {
      var next := Shortened(prefix.value);
      PrefixesMeaning(next);
      var rest := Prefixes(next);
      assert Prefixes(prefix) == [prefix] + rest;
      assert forall i :: 1 <= i < |rest| ==> Prefixes(prefix)[i] == rest[i - 1];
    }
  }

  /** The order of the documentation's example: `a.b.c.D`, `a.b.D`, `a.D`, `D`. */
  lemma ProbeOrder()
    ensures Prefixes(Some("a.b.c")) == [Some("a.b.c"), Some("a.b"), Some("a"), None]
    ensures FullKey(Some("a.b.c"), Some("D")) == Some("a.b.c.D")
    ensures FullKey(Some("a.b"), Some("D")) == Some("a.b.D")
    ensures FullKey(Some("a"), Some("D")) == Some("a.D")
    ensures FullKey(None, Some("D")) == Some("D")
  {
    assert LastIndexOf("a.b.", '.') == 3;
    assert "a.b.c"[..4] == "a.b." && "a.b.c"[..3] == "a.b";
    assert Shortened("a.b.c") == Some("a.b");
    assert LastIndexOf("a.", '.') == 1;
    assert "a.b"[..2] == "a." && "a.b"[..1] == "a";
    assert Shortened("a.b") == Some("a");
    assert "a.b.c" + "." + "D" == "a.b.c.D";
    assert "a.b" + "." + "D" == "a.b.D";
    assert "a" + "." + "D" == "a.D";
    assert Shortened("a") == None;
  }

  // ---------------------------------------------------------------------------------------------
  // Lookup and write, on snapshots

  /** The tables of the scopes the registered scope reaches (none without one), and the root tables. */
  ghost predicate Snapshot(scope: ConfigurationContext?, s: Stores) {
    s.Keys == ParentScope(scope) && (scope != null ==> scope.Valid())
  }

  /** One full key looked up through the registered scope, or in the root tables when there is none. */
  ghost function Find(ev: Option<Script>, variants: Option<seq<string>>, scope: ConfigurationContext?, s: Stores, t: Tables, fullKey: string): (r: Lookup)
    requires Snapshot(scope, s)
    ensures r.1.Keys == s.Keys
  {
    if scope == null then
      var fromRoot := RootGet(ev, variants, t, fullKey);
      (fromRoot.0, s, fromRoot.1)
    else ChainGet(ev, variants, scope, s, t, fullKey)
  }

  /** The main accessor `getProperty(prefix, key, search_in_parents_also)`. */
  ghost function PropertyValue(ev: Option<Script>, variants: Option<seq<string>>, scope: ConfigurationContext?, s: Stores, t: Tables,
                               prefix: Option<string>, key: Option<string>, widen: bool): (r: (Result<Option<string>, LookupError>, Stores, Tables))
    requires Snapshot(scope, s)
    ensures r.1.Keys == s.Keys
    decreases PrefixSize(prefix)
  {
    match FullKey(prefix, key)
    case None => (Err(NullKey), s, t)
    case Some(fullKey) =>
      var found := Find(ev, variants, scope, s, t, fullKey);
      if found.0.Err? then (Err(Eval(found.0.error)), found.1, found.2)
      else if found.0.value.None? && widen && prefix.Some? && |prefix.value| != 0 then
        PropertyValue(ev, variants, scope, found.1, found.2, Shortened(prefix.value), key, widen)
      else (Ok(found.0.value), found.1, found.2)
  }

  /** `setProperty` once the full key is known: through the registered scope, else into the root overrides. */
  ghost function Write(scope: ConfigurationContext?, s: Stores, t: Tables, fullKey: string, value: string): (r: (Stores, Tables))
    requires Snapshot(scope, s)
    ensures r.0.Keys == s.Keys
  {
    if scope == null then (s, t.(overrides := t.overrides[fullKey := value]))
    else ChainSet(scope, s, t, fullKey, value)
  }

  // ---------------------------------------------------------------------------------------------
  // Properties of the accessor

  /** What a lookup of one full key finds when no evaluator is registered. */
  ghost function Seen(scope: ConfigurationContext?, s: Stores, t: Tables, fullKey: string): Option<string>
    requires Snapshot(scope, s)
  {
    if scope == null then t.Get(fullKey) else Visible(scope, s, t, fullKey)
  }

  /** The first value seen under `key` behind one of the prefixes. */
  ghost function FirstSeen(scope: ConfigurationContext?, s: Stores, t: Tables, prefixes: seq<Option<string>>, key: string): Option<string>
    requires Snapshot(scope, s)
    decreases |prefixes|
  {
    if prefixes == [] then None
    else
      var v := Seen(scope, s, t, FullKey(prefixes[0], Some(key)).value);
      if v.Some? then v else FirstSeen(scope, s, t, prefixes[1..], key)
  }

  lemma UnevaluatedFind(variants: Option<seq<string>>, scope: ConfigurationContext?, s: Stores, t: Tables, fullKey: string)
    requires Snapshot(scope, s)
    ensures Find(None, variants, scope, s, t, fullKey) == (Ok(Seen(scope, s, t, fullKey)), s, t)
  {
    if scope == null {
      PlainValueUnchanged(None, variants, t, fullKey);
    } else {
      UnevaluatedLookup(variants, scope, s, t, fullKey);
    }
  }

  /**
   * With no evaluator registered, a lookup changes nothing; without widening
   * it finds the value under the one full key, with widening the first value
   * found along the prefixes of `Prefixes`.
   */
  lemma {:induction false} WidenedLookup(variants: Option<seq<string>>, scope: ConfigurationContext?, s: Stores, t: Tables, prefix: Option<string>, key: string)
    requires Snapshot(scope, s)
    ensures PropertyValue(None, variants, scope, s, t, prefix, Some(key), false) == (Ok(Seen(scope, s, t, FullKey(prefix, Some(key)).value)), s, t)
    ensures PropertyValue(None, variants, scope, s, t, prefix, Some(key), true) == (Ok(FirstSeen(scope, s, t, Prefixes(prefix), key)), s, t)
    decreases PrefixSize(prefix)
  {
    var fullKey := FullKey(prefix, Some(key)).value;
    UnevaluatedFind(variants, scope, s, t, fullKey);
    if prefix.Some? && |prefix.value| != 0 {
      var next := Shortened(prefix.value);
      WidenedLookup(variants, scope, s, t, next, key);
      assert Prefixes(prefix)[1..] == Prefixes(next);
    }
  }

  /** A value that is not encoded, once written, is what a lookup of the same prefix and key finds. */
  lemma PropertyWrittenIsRead(ev: Option<Script>, variants: Option<seq<string>>, scope: ConfigurationContext?, s: Stores, t: Tables,
                              prefix: Option<string>, key: Option<string>, value: string, widen: bool)
    requires Snapshot(scope, s) && FullKey(prefix, key).Some? && !Encoded(ev, value)
    ensures var w := Write(scope, s, t, FullKey(prefix, key).value, value);
            PropertyValue(ev, variants, scope, w.0, w.1, prefix, key, widen).0 == Ok(Some(value))
  {
    var fullKey := FullKey(prefix, key).value;
    var w := Write(scope, s, t, fullKey, value);
    if scope == null {
      OverrideWrite(t, fullKey, value, fullKey);
      PlainValueUnchanged(ev, variants, w.1, fullKey);
    } else {
      SetThenGet(ev, variants, scope, s, t, fullKey, value);
    }
  }

  // ---------------------------------------------------------------------------------------------
  // Typed values

  /** The `get`/`mustGet` result for a string: the default, or `EntryNotFound`, when nothing was found. */
  function StringOrDefault(found: Result<Option<string>, LookupError>, default: Option<string>, must: bool): (r: Result<Option<string>, LookupError>)
    ensures found.Ok? && found.value.Some? ==> r == found
    ensures found.Ok? && found.value.None? ==> r == if must then Err(EntryNotFound) else Ok(default)
    ensures found.Err? ==> r == found
  {
    match found
    case Err(e) => Err(e)
    case Ok(None) => if must then Err(EntryNotFound) else Ok(default)
    case Ok(Some(v)) => Ok(Some(v))
  }

  /** The text `set(key, boolean)` stores. */
  function BoolText(b: bool): string {
    if b then "true" else "false"
  }

  /** The strings a boolean property accepts. */
  function ParseBool(s: string): (r: Option<bool>)
    ensures r == Some(true) <==> s == "true" || s == "TRUE"
    ensures r == Some(false) <==> s == "false" || s == "FALSE"
  {
    if s == "true" || s == "TRUE" then Some(true)
    else if s == "false" || s == "FALSE" then Some(false)
    else None
  }

  /** The boolean `get`/`mustGet` result: an invalid entry gives the default (after a message, not modelled). */
  function BoolOrDefault(found: Result<Option<string>, LookupError>, default: bool, must: bool): (r: Result<bool, LookupError>)
    ensures r.Err? <==> found.Err? || (found.value.None? && must)
    ensures found == Ok(None) && !must ==> r == Ok(default)
    ensures found.Ok? && found.value.Some? ==>
              r == Ok(if found.value.value in {"true", "TRUE"} then true
                       else if found.value.value in {"false", "FALSE"} then false
                       else default)
  {
    match found
    case Err(e) => Err(e)
    case Ok(None) => if must then Err(EntryNotFound) else Ok(default)
    case Ok(Some(v)) => Ok(ParseBool(v).GetOr(default))
  }

  lemma BoolRoundTrip(b: bool, default: bool, must: bool)
    ensures BoolOrDefault(Ok(Some(BoolText(b))), default, must) == Ok(b)
  {
  }

  /** `convertToInt`: `Integer.parseInt`, or the default when the entry is not an int. */
  function ConvertToInt(value: string, default: int): (r: int)
    ensures INT_MIN <= r <= INT_MAX || r == default
    ensures IntegerText(value) && INT_MIN <= SignedValue(value) <= INT_MAX ==> r == SignedValue(value)
    ensures !(IntegerText(value) && INT_MIN <= SignedValue(value) <= INT_MAX) ==> r == default
  {
    ParseInteger(value, INT_MIN, INT_MAX).GetOr(default)
  }

  /** `Long.parseLong`, or the default when the entry is not a long. */
  function ConvertToLong(value: string, default: int): (r: int)
    ensures LONG_MIN <= r <= LONG_MAX || r == default
    ensures IntegerText(value) && LONG_MIN <= SignedValue(value) <= LONG_MAX ==> r == SignedValue(value)
    ensures !(IntegerText(value) && LONG_MIN <= SignedValue(value) <= LONG_MAX) ==> r == default
  {
    ParseInteger(value, LONG_MIN, LONG_MAX).GetOr(default)
  }

  /** What `set(key, int)` stores is read back by the int accessor. */
  lemma IntRoundTrip(n: int, default: int)
    requires INT_MIN <= n <= INT_MAX
    ensures ConvertToInt(IntegerToString(n), default) == n
  {
    ParsePrinted(n, INT_MIN, INT_MAX);
  }

  lemma LongRoundTrip(n: int, default: int)
    requires LONG_MIN <= n <= LONG_MAX
    ensures ConvertToLong(IntegerToString(n), default) == n
  {
    ParsePrinted(n, LONG_MIN, LONG_MAX);
  }

  /** The list accessor: the tokens between ',' and ' ', each trimmed. */
  function ListValue(property: string): (r: seq<string>)
    ensures |r| == |Tokens(property)|
  {
    var tokens := Tokens(property);
    seq(|tokens|, i requires 0 <= i < |tokens| => Trim(tokens[i]))
  }

  /** A list joined with commas is read back item by item. */
  lemma ListRoundTrip(items: seq<string>)
    requires forall i :: 0 <= i < |items| ==> items[i] != "" && forall c :: c in items[i] ==> c > ' ' && c != ','
    ensures ListValue(JoinWith(items, ',')) == items
  {
    TokensOfJoin(items);
    forall i | 0 <= i < |items|
      ensures Trim(items[i]) == items[i]
    {
      assert items[i][0] in items[i] && items[i][|items[i]| - 1] in items[i];
    }
  }

  // ---------------------------------------------------------------------------------------------
  // The accessor object

  /** The tables of the scopes the context's registered scope reaches. */
  ghost function ContextStores(ctx: Context): (s: Stores)
    reads ctx, ParentScope(ctx.scope)
    ensures s.Keys == ParentScope(ctx.scope)
  {
    StoresOf(ParentScope(ctx.scope))
  }

  class Configuration {
    /** The prefix of every key accessed through this instance. */
    const clientId: Option<string>

    /** `create(client_id)`; `create(a_class)` passes the class name. */
    constructor(clientId: Option<string>)
      ensures this.clientId == clientId
    {
      this.clientId := clientId;
    }

    /** `getProperty(prefix, key, search_in_parents_also)`. */
    static method GetProperty(ctx: Context, prefix: Option<string>, key: Option<string>, widen: bool) returns (r: Result<Option<string>, LookupError>)
      requires ctx.Valid() && ctx.root.variantsLoaded
      modifies ParentScope(ctx.scope), ctx.root`overrides
      ensures (r, ContextStores(ctx), ctx.root.Store())
           == PropertyValue(ctx.root.evaluator, ctx.root.configurationVariants, ctx.scope, old(ContextStores(ctx)), old(ctx.root.Store()), prefix, key, widen)
      decreases PrefixSize(prefix)
    {
      var fullKey := FullKey(prefix, key);
      if fullKey.None? {
        return Err(NullKey);
      }
      var cc := ConfigurationContext.Get(ctx);
      var value;
      if cc != null {
        value := cc.GetPropertyEntry(fullKey.value);
      } else {
        value := ctx.root.GetPropertyEntry(fullKey.value);
      }
      if value.Err? {
        return Err(Eval(value.error));
      }
      if value.value.None? && widen && prefix.Some? && |prefix.value| != 0 {
        var lastDot := LastIndexOf(prefix.value, '.');
        if lastDot == -1 {
          r := GetProperty(ctx, None, key, widen);
        } else {
          r := GetProperty(ctx, Some(prefix.value[..lastDot]), key, widen);
        }
        return;
      }
      r := Ok(value.value);
    }

    /** The string `get(prefix, key, default_value, search_in_parents_also, throw_exception)`. */
    static method GetString(ctx: Context, prefix: Option<string>, key: Option<string>, default: Option<string>, widen: bool, must: bool)
      returns (r: Result<Option<string>, LookupError>)
      requires ctx.Valid() && ctx.root.variantsLoaded
      modifies ParentScope(ctx.scope), ctx.root`overrides
      ensures r == StringOrDefault(PropertyValue(ctx.root.evaluator, ctx.root.configurationVariants, ctx.scope,
                                                 old(ContextStores(ctx)), old(ctx.root.Store()), prefix, key, widen).0, default, must)
    {
      var found := GetProperty(ctx, prefix, key, widen);
      if found.Ok? && found.value.None? {
        if must {
          return Err(EntryNotFound);
        }
        return Ok(default);
      }
      r := found;
    }

    /** The boolean `get(prefix, key, default_value, search_in_parents_also, throw_exception)`. */
    static method GetBoolean(ctx: Context, prefix: Option<string>, key: Option<string>, default: bool, widen: bool, must: bool)
      returns (r: Result<bool, LookupError>)
      requires ctx.Valid() && ctx.root.variantsLoaded
      modifies ParentScope(ctx.scope), ctx.root`overrides
      ensures r == BoolOrDefault(PropertyValue(ctx.root.evaluator, ctx.root.configurationVariants, ctx.scope,
                                               old(ContextStores(ctx)), old(ctx.root.Store()), prefix, key, widen).0, default, must)
    {
      var found := GetProperty(ctx, prefix, key, widen);
      if found.Err? {
        return Err(found.error);
      }
      if found.value.None? {
        if must {
          return Err(EntryNotFound);
        }
        return Ok(default);
      }
      var property := found.value.value;
      if property == "true" || property == "TRUE" {
        return Ok(true);
      } else if property == "false" || property == "FALSE" {
        return Ok(false);
      }
      r := Ok(default);
    }

    /** The static int `get(prefix, key, default_value)`. */
    static method GetInteger(ctx: Context, prefix: Option<string>, key: Option<string>, default: int) returns (r: Result<int, LookupError>)
      requires ctx.Valid() && ctx.root.variantsLoaded
      modifies ParentScope(ctx.scope), ctx.root`overrides
      ensures var found := PropertyValue(ctx.root.evaluator, ctx.root.configurationVariants, ctx.scope,
                                         old(ContextStores(ctx)), old(ctx.root.Store()), prefix, key, false).0;
              r == match found
                   case Err(e) => Err(e)
                   case Ok(None) => Ok(default)
                   case Ok(Some(v)) => Ok(ConvertToInt(v, default))
    {
      var property := GetString(ctx, prefix, key, None, false, false);
      if property.Err? {
        return Err(property.error);
      }
      if property.value.None? {
        return Ok(default);
      }
      r := Ok(ConvertToInt(property.value.value, default));
    }

    /** `get(key, default_value)` for strings: no widening, the default when nothing is found. */
    method Get(ctx: Context, key: Option<string>, default: Option<string>) returns (r: Result<Option<string>, LookupError>)
      requires ctx.Valid() && ctx.root.variantsLoaded
      modifies ParentScope(ctx.scope), ctx.root`overrides
      ensures r == StringOrDefault(PropertyValue(ctx.root.evaluator, ctx.root.configurationVariants, ctx.scope,
                                                 old(ContextStores(ctx)), old(ctx.root.Store()), clientId, key, false).0, default, false)
    {
      r := GetString(ctx, clientId, key, default, false, false);
    }

    /** `mustGet(key, default_value)` for strings: `EntryNotFound` when nothing is found. */
    method MustGet(ctx: Context, key: Option<string>, default: Option<string>) returns (r: Result<Option<string>, LookupError>)
      requires ctx.Valid() && ctx.root.variantsLoaded
      modifies ParentScope(ctx.scope), ctx.root`overrides
      ensures r == StringOrDefault(PropertyValue(ctx.root.evaluator, ctx.root.configurationVariants, ctx.scope,
                                                 old(ContextStores(ctx)), old(ctx.root.Store()), clientId, key, false).0, default, true)
    {
      r := GetString(ctx, clientId, key, default, false, true);
    }

    /** `getRecursive(key, default_value)` for strings: with widening. */
    method GetRecursive(ctx: Context, key: Option<string>, default: Option<string>) returns (r: Result<Option<string>, LookupError>)
      requires ctx.Valid() && ctx.root.variantsLoaded
      modifies ParentScope(ctx.scope), ctx.root`overrides
      ensures r == StringOrDefault(PropertyValue(ctx.root.evaluator, ctx.root.configurationVariants, ctx.scope,
                                                 old(ContextStores(ctx)), old(ctx.root.Store()), clientId, key, true).0, default, false)
    {
      r := GetString(ctx, clientId, key, default, true, false);
    }

    /** `get(key, boolean default_value)`. */
    method GetBool(ctx: Context, key: Option<string>, default: bool) returns (r: Result<bool, LookupError>)
      requires ctx.Valid() && ctx.root.variantsLoaded
      modifies ParentScope(ctx.scope), ctx.root`overrides
      ensures r == BoolOrDefault(PropertyValue(ctx.root.evaluator, ctx.root.configurationVariants, ctx.scope,
                                               old(ContextStores(ctx)), old(ctx.root.Store()), clientId, key, false).0, default, false)
    {
      r := GetBoolean(ctx, clientId, key, default, false, false);
    }

    /** `get(key, int default_value)`. */
    method GetInt(ctx: Context, key: Option<string>, default: int) returns (r: Result<int, LookupError>)
      requires ctx.Valid() && ctx.root.variantsLoaded
      modifies ParentScope(ctx.scope), ctx.root`overrides
      ensures var found := PropertyValue(ctx.root.evaluator, ctx.root.configurationVariants, ctx.scope,
                                         old(ContextStores(ctx)), old(ctx.root.Store()), clientId, key, false).0;
              r == match found
                   case Err(e) => Err(e)
                   case Ok(None) => Ok(default)
                   case Ok(Some(v)) => Ok(ConvertToInt(v, default))
    {
      var property := GetProperty(ctx, clientId, key, false);
      if property.Err? {
        return Err(property.error);
      }
      if property.value.None? {
        return Ok(default);
      }
      r := Ok(ConvertToInt(property.value.value, default));
    }

    /** `get(key, long default_value)`. */
    method GetLong(ctx: Context, key: Option<string>, default: int) returns (r: Result<int, LookupError>)
      requires ctx.Valid() && ctx.root.variantsLoaded
      modifies ParentScope(ctx.scope), ctx.root`overrides
      ensures var found := PropertyValue(ctx.root.evaluator, ctx.root.configurationVariants, ctx.scope,
                                         old(ContextStores(ctx)), old(ctx.root.Store()), clientId, key, false).0;
              r == match found
                   case Err(e) => Err(e)
                   case Ok(None) => Ok(default)
                   case Ok(Some(v)) => Ok(ConvertToLong(v, default))
    {
      var property := GetProperty(ctx, clientId, key, false);
      if property.Err? {
        return Err(property.error);
      }
      if property.value.None? {
        return Ok(default);
      }
      r := Ok(ConvertToLong(property.value.value, default));
    }

    /** `get(key, ArrayList default_value)`. */
    method GetList(ctx: Context, key: Option<string>, default: Option<seq<string>>) returns (r: Result<Option<seq<string>>, LookupError>)
      requires ctx.Valid() && ctx.root.variantsLoaded
      modifies ParentScope(ctx.scope), ctx.root`overrides
      ensures var found := PropertyValue(ctx.root.evaluator, ctx.root.configurationVariants, ctx.scope,
                                         old(ContextStores(ctx)), old(ctx.root.Store()), clientId, key, false).0;
              r == match found
                   case Err(e) => Err(e)
                   case Ok(None) => Ok(default)
                   case Ok(Some(v)) => Ok(Some(ListValue(v)))
    {
      var property := GetProperty(ctx, clientId, key, false);
      if property.Err? {
        return Err(property.error);
      }
      if property.value.None? {
        return Ok(default);
      }
      var tokens := Tokens(property.value.value);
      var items: seq<string> := [];
      var i := 0;
      while i < |tokens|
        invariant 0 <= i <= |tokens|
        invariant items == ListValue(property.value.value)[..i]
      {
        items := items + [Trim(tokens[i])];
        i := i + 1;
      }
      assert items == ListValue(property.value.value);
      r := Ok(Some(items));
    }

    /** `setProperty(key, value)`: a null full key fails; nothing else can. */
    method SetProperty(ctx: Context, key: Option<string>, value: string) returns (r: Result<(), LookupError>)
      requires ctx.Valid()
      modifies ParentScope(ctx.scope), ctx.root`overrides
      ensures FullKey(clientId, key).None? ==> r == Err(NullKey) && ContextStores(ctx) == old(ContextStores(ctx)) && ctx.root.Store() == old(ctx.root.Store())
      ensures FullKey(clientId, key).Some? ==>
                && r == Ok(())
                && (ContextStores(ctx), ctx.root.Store()) == Write(ctx.scope, old(ContextStores(ctx)), old(ctx.root.Store()), FullKey(clientId, key).value, value)
    {
      var fullKey := FullKey(clientId, key);
      if fullKey.None? {
        return Err(NullKey);
      }
      var cc := ConfigurationContext.Get(ctx);
      if cc != null {
        cc.SetPropertyEntry(fullKey.value, value);
      } else {
        ctx.root.SetPropertyEntry(fullKey.value, value);
      }
      r := Ok(());
    }

    /** `set(key, boolean)`. */
    method SetBool(ctx: Context, key: Option<string>, value: bool) returns (r: Result<(), LookupError>)
      requires ctx.Valid()
      modifies ParentScope(ctx.scope), ctx.root`overrides
      ensures FullKey(clientId, key).Some? ==>
                && r == Ok(())
                && (ContextStores(ctx), ctx.root.Store()) == Write(ctx.scope, old(ContextStores(ctx)), old(ctx.root.Store()), FullKey(clientId, key).value, BoolText(value))
      ensures FullKey(clientId, key).None? ==> r == Err(NullKey)
    {
      r := SetProperty(ctx, key, BoolText(value));
    }

    /** `set(key, int)`. */
    method SetInt(ctx: Context, key: Option<string>, value: int) returns (r: Result<(), LookupError>)
      requires ctx.Valid()
      modifies ParentScope(ctx.scope), ctx.root`overrides
      ensures FullKey(clientId, key).Some? ==>
                && r == Ok(())
                && (ContextStores(ctx), ctx.root.Store()) == Write(ctx.scope, old(ContextStores(ctx)), old(ctx.root.Store()), FullKey(clientId, key).value, IntegerToString(value))
      ensures FullKey(clientId, key).None? ==> r == Err(NullKey)
    {
      r := SetProperty(ctx, key, IntegerToString(value));
    }
  }
}
