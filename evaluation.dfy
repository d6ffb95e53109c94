/**
 * The root property table and the evaluator for encoded property values.
 *
 * A stored value that starts with `\0` and is longer than two characters is
 * encoded when a JavaScript evaluator is registered: `\0\0rest` is a literal
 * (the first character is dropped), and `\0T1/T2:body` applies the tags
 * `JavaScript` (evaluate `body`), `Variants` (append the values of
 * `key-variant` for every active variant) and `Cache` (store the result back
 * under the key). Evaluation may look up, and cache, further root entries, so
 * every function here threads the root tables through.
 */
module Evaluation {
  import opened Support
  import opened Text

  /** A registered JavaScript evaluator: the (possibly null) result of an expression. */
  type Script = string -> Option<string>

  /** `properties`, an override table whose lookups fall back to `default_properties`. */
  datatype Tables = Tables(overrides: map<string, string>, defaults: map<string, string>) {
    /** `Properties.getProperty` on a table created with defaults. */
    function Get(key: string): Option<string> {
      if key in overrides then Some(overrides[key])
      else if key in defaults then Some(defaults[key])
      else None
    }

    function Keys(): set<string> {
      overrides.Keys + defaults.Keys
    }
  }

  /** An override shadows the default of the same key; a missing override falls back to it. */
  lemma OverridesShadowDefaults(t: Tables, key: string)
    ensures key in t.overrides ==> t.Get(key) == Some(t.overrides[key])
    ensures key !in t.overrides ==> t.Get(key) == (if key in t.defaults then Some(t.defaults[key]) else None)
    ensures t.Get(key).Some? <==> key in t.Keys()
  {
  }

  datatype EvalError =
    | UnknownTag(key: string, tags: string)
    | CacheNull(key: string)
    | NoEvaluator

  /** The condition under which a stored value is handed to the evaluator. */
  predicate Encoded(ev: Option<Script>, raw: string) {
    ev.Some? && |raw| > 2 && raw[0] == '\0'
  }

  /** `evaluateJavaScript`: without a registered evaluator the call is an impossible state. */
  function EvaluateJavaScript(ev: Option<Script>, expression: string): (r: Result<Option<string>, EvalError>)
    ensures ev.None? <==> r == Err(NoEvaluator)
  {
    match ev
    case None => Err(NoEvaluator)
    case Some(script) => Ok(script(expression))
  }

  datatype Tags = Tags(javaScript: bool, variants: bool, cache: bool)

  predicate KnownTag(tag: string) {
    tag == "JavaScript" || tag == "Variants" || tag == "Cache"
  }

  /** The `/`-separated preprocessing tags; any other entry (the empty one included) is refused. */
  function ParseTags(parts: seq<string>): Option<Tags>
    decreases |parts|
  {
    if parts == [] then Some(Tags(false, false, false))
    else if !KnownTag(parts[0]) then None
    else
      match ParseTags(parts[1..])
      case None => None
      case Some(t) =>
        if parts[0] == "JavaScript" then Some(t.(javaScript := true))
        else if parts[0] == "Variants" then Some(t.(variants := true))
        else Some(t.(cache := true))
  }

  /** The tags are accepted iff every entry is known, and each flag is set iff its tag occurs. */
  lemma {:induction false} ParseTagsMeaning(parts: seq<string>)
    ensures ParseTags(parts).Some? <==> forall i :: 0 <= i < |parts| ==> KnownTag(parts[i])
    ensures ParseTags(parts).Some? ==>
              && (ParseTags(parts).value.javaScript <==> "JavaScript" in parts)
              && (ParseTags(parts).value.variants <==> "Variants" in parts)
              && (ParseTags(parts).value.cache <==> "Cache" in parts)
    decreases |parts|
  {
    if parts != [] {
      ParseTagsMeaning(parts[1..]);
      assert parts == [parts[0]] + parts[1..];
      if forall i :: 0 <= i < |parts| ==> KnownTag(parts[i]) {
        assert forall i :: 0 <= i < |parts[1..]| ==> KnownTag(parts[1..][i]) by {
          forall i | 0 <= i < |parts[1..]|
            ensures KnownTag(parts[1..][i])
          {
            assert parts[1..][i] == parts[i + 1];
          }
        }
      } else if KnownTag(parts[0]) {
        var i :| 0 <= i < |parts| && !KnownTag(parts[i]);
        assert parts[1..][i - 1] == parts[i];
      }
    }
  }

  /** What evaluating a value produced, what to store back under its key, and the root tables after. */
  datatype Outcome = Outcome(value: Result<Option<string>, EvalError>, write: Option<string>, tables: Tables)

  /** The number of table keys at least as long as `key`: the termination measure of nested lookups. */
  function AtLeast(t: Tables, key: string): nat {
    |KeysAtLeast(t, |key|)|
  }

  function KeysAtLeast(t: Tables, n: nat): set<string> {
    set k | k in t.Keys() && |k| >= n
  }

  /** The number of table keys longer than `key`. */
  function LongerThan(t: Tables, key: string): nat {
    |KeysAtLeast(t, |key| + 1)|
  }

  lemma PresentKeyMeasure(t: Tables, key: string)
    requires key in t.Keys()
    ensures LongerThan(t, key) < AtLeast(t, key)
  {
    var longer := KeysAtLeast(t, |key| + 1);
    var atLeast := KeysAtLeast(t, |key|);
    assert longer + {key} <= atLeast;
    assert key !in longer;
    SubsetCardinality(longer + {key}, atLeast);
  }

  lemma LongerKeyMeasure(t: Tables, t': Tables, key: string, longer: string)
    requires t'.Keys() == t.Keys() && |longer| > |key|
    ensures AtLeast(t', longer) <= LongerThan(t, key)
  {
    SubsetCardinality(KeysAtLeast(t', |longer|), KeysAtLeast(t, |key| + 1));
  }

  /** The key of the variant-specific entry for `variant`. */
  function VariantKey(key: string, variant: string): string {
    key + "-" + variant
  }

  /**
   * `RootConfiguration.getPropertyEntry` on the root tables: the stored value,
   * evaluated (and, with `Cache`, stored back into the override table) when it is
   * encoded. `variants` is the resolved variant list (null if resolution failed).
   */
  function RootGet(ev: Option<Script>, variants: Option<seq<string>>, t: Tables, key: string): (r: (Result<Option<string>, EvalError>, Tables))
    ensures r.1.Keys() == t.Keys()
    decreases AtLeast(t, key), 0, 0
  {
    var raw := t.Get(key);
    if raw.None? then (Ok(None), t)
    else if !Encoded(ev, raw.value) then (Ok(raw), t)
    else
      PresentKeyMeasure(t, key);
      var o := Evaluate(ev, variants, t, key, raw.value);
      if o.write.Some? then (o.value, o.tables.(overrides := o.tables.overrides[key := o.write.value]))
      else (o.value, o.tables)
  }

  /**
   * `evaluateAndCacheProperty` for a value that passed the `Encoded` test; the
   * caller stores `write` into the table the value came from.
   */
  function Evaluate(ev: Option<Script>, variants: Option<seq<string>>, t: Tables, key: string, raw: string): (o: Outcome)
    requires |raw| >= 2
    ensures o.tables.Keys() == t.Keys()
    ensures o.write.Some? ==> o.value == Ok(o.write)
    decreases LongerThan(t, key), 4, 0
  {
    if raw[1] == '\0' then Outcome(Ok(Some(raw[1..])), None, t)
    else
      var pos := IndexOf(raw, ':');
      if raw[0] == '\0' && pos != -1 then
        var ppdef := raw[1..pos];
        match ParseTags(JavaSplit(ppdef, '/'))
        case None => Outcome(Err(UnknownTag(key, ppdef)), None, t)
        case Some(tags) => ApplyTags(ev, variants, t, key, tags, raw[pos + 1..])
      else Outcome(Ok(Some(raw)), None, t)
  }

  /** The tagged part of `evaluateAndCacheProperty`: script, then variants, then cache. */
  function ApplyTags(ev: Option<Script>, variants: Option<seq<string>>, t: Tables, key: string, tags: Tags, body: string): (o: Outcome)
    ensures o.tables.Keys() == t.Keys()
    ensures o.write.Some? ==> o.value == Ok(o.write)
    decreases LongerThan(t, key), 3, 0
  {
    var evaluated := if tags.javaScript then EvaluateJavaScript(ev, body) else Ok(Some(body));
    if evaluated.Err? then Outcome(evaluated, None, t)
    else
      var (combined, t1) := if tags.variants then WithVariantValues(ev, variants, t, key, evaluated.value) else (evaluated, t);
      if combined.Err? then Outcome(combined, None, t1)
      else if !tags.cache then Outcome(combined, None, t1)
      else if combined.value.None? then Outcome(Err(CacheNull(key)), None, t1)
      else Outcome(combined, combined.value, t1)
  }

  /** The `Variants` step: the value (null read as empty) followed by the values of `key-variant`. */
  function WithVariantValues(ev: Option<Script>, variants: Option<seq<string>>, t: Tables, key: string, value: Option<string>): (r: (Result<Option<string>, EvalError>, Tables))
    ensures r.1.Keys() == t.Keys()
    ensures r.0.Ok? ==> r.0.value.Some?
    decreases LongerThan(t, key), 2, 0
  {
    var vs := variants.GetOr([]);
    var (suffix, t1) := AppendVariants(ev, variants, t, key, vs, |vs|);
    if suffix.Err? then (Err(suffix.error), t1) else (Ok(Some(value.GetOr("") + suffix.value)), t1)
  }

  /** `appendPropertyEntryVariants` for the first `n` variants: the concatenated values of `key-variant`. */
  function AppendVariants(ev: Option<Script>, variants: Option<seq<string>>, t: Tables, key: string, vs: seq<string>, n: nat): (r: (Result<string, EvalError>, Tables))
    requires n <= |vs|
    ensures r.1.Keys() == t.Keys()
    decreases LongerThan(t, key), 1, n
  {
    if n == 0 then (Ok(""), t)
    else
      var (acc, t1) := AppendVariants(ev, variants, t, key, vs, n - 1);
      if acc.Err? then (acc, t1)
      else
        LongerKeyMeasure(t, t1, key, VariantKey(key, vs[n - 1]));
        var (v, t2) := RootGet(ev, variants, t1, VariantKey(key, vs[n - 1]));
        if v.Err? then (Err(v.error), t2)
        else (Ok(acc.value + v.value.GetOr("")), t2)
  }

  /** One more variant: its lookup runs on the tables the previous ones left. */
  lemma AppendVariantsStep(ev: Option<Script>, variants: Option<seq<string>>, t: Tables, key: string, vs: seq<string>, n: nat)
    requires n < |vs| && AppendVariants(ev, variants, t, key, vs, n).0.Ok?
    ensures var (acc, t1) := AppendVariants(ev, variants, t, key, vs, n);
            var (v, t2) := RootGet(ev, variants, t1, VariantKey(key, vs[n]));
            AppendVariants(ev, variants, t, key, vs, n + 1) ==
              if v.Err? then (Err(v.error), t2) else (Ok(acc.value + v.value.GetOr("")), t2)
  {
  }

  /** Once a variant lookup failed, the remaining variants are not looked up and the failure stands. */
  lemma {:induction false} AppendVariantsStops(ev: Option<Script>, variants: Option<seq<string>>, t: Tables, key: string, vs: seq<string>, n: nat, m: nat)
    requires n <= m <= |vs|
    requires AppendVariants(ev, variants, t, key, vs, n).0.Err?
    ensures AppendVariants(ev, variants, t, key, vs, m) == AppendVariants(ev, variants, t, key, vs, n)
    decreases m
  {
    if m > n {
      AppendVariantsStops(ev, variants, t, key, vs, n, m - 1);
    }
  }

  /** `setProperty` on the override table: the key now reads as the new value, every other key as before. */
  lemma OverrideWrite(t: Tables, name: string, value: string, key: string)
    ensures var t' := t.(overrides := t.overrides[name := value]);
            t'.Get(key) == (if key == name then Some(value) else t.Get(key))
  {
  }

  /** A new default is visible only where no override shadows it. */
  lemma DefaultWrite(t: Tables, name: string, value: string, key: string)
    ensures var t' := t.(defaults := t.defaults[name := value]);
            t'.Get(key) == (if key == name && key !in t.overrides then Some(value) else t.Get(key))
  {
  }

  // ---------------------------------------------------------------------------------------------
  // Properties of the evaluator

  /** A value that is not encoded is returned as stored and nothing is cached. */
  lemma PlainValueUnchanged(ev: Option<Script>, variants: Option<seq<string>>, t: Tables, key: string)
    requires t.Get(key).Some? ==> !Encoded(ev, t.Get(key).value)
    ensures RootGet(ev, variants, t, key) == (Ok(t.Get(key)), t)
  {
  }

  /** `\0\0rest` is a literal: the value minus its first character, nothing cached. */
  lemma LiteralEscape(ev: Option<Script>, variants: Option<seq<string>>, t: Tables, key: string, rest: string)
    requires ev.Some? && |rest| >= 1 && t.Get(key) == Some("\0\0" + rest)
    ensures RootGet(ev, variants, t, key) == (Ok(Some("\0" + rest)), t)
  {
    assert ("\0\0" + rest)[1..] == "\0" + rest;
  }

  /** An encoded value without any ':' is returned unchanged. */
  lemma NoTagSectionUnchanged(ev: Option<Script>, variants: Option<seq<string>>, t: Tables, key: string)
    requires t.Get(key).Some? && Encoded(ev, t.Get(key).value)
    requires t.Get(key).value[1] != '\0' && ':' !in t.Get(key).value
    ensures RootGet(ev, variants, t, key) == (Ok(t.Get(key)), t)
  {
  }

  lemma TagSectionEnd(tags: string, body: string)
    requires ':' !in tags
    ensures var raw := "\0" + tags + ":" + body;
            IndexOf(raw, ':') == |tags| + 1 && raw[1..|tags| + 1] == tags && raw[|tags| + 2..] == body
  {
    var raw := "\0" + tags + ":" + body;
    assert raw[|tags| + 1] == ':';
    assert raw[..|tags| + 1] == "\0" + tags;
    assert raw[1..|tags| + 1] == tags;
    assert raw[|tags| + 2..] == body;
  }

  /** A value `\0tags:body` whose tags hold no ':' and do not start with `\0` is a tagged value. */
  lemma TaggedValue(ev: Option<Script>, variants: Option<seq<string>>, t: Tables, key: string, tags: string, body: string)
    requires ':' !in tags && tags != "" && tags[0] != '\0'
    ensures var raw := "\0" + tags + ":" + body;
            && |raw| >= 2
            && Evaluate(ev, variants, t, key, raw) ==
                 match ParseTags(JavaSplit(tags, '/'))
                 case None => Outcome(Err(UnknownTag(key, tags)), None, t)
                 case Some(parsed) => ApplyTags(ev, variants, t, key, parsed, body)
  {
    var raw := "\0" + tags + ":" + body;
    TagSectionEnd(tags, body);
    assert raw[1] == tags[0];
  }

  /** A value tagged `JavaScript` alone reads as what the script returns for the body; nothing is cached. */
  lemma JavaScriptTagValue(script: Script, variants: Option<seq<string>>, t: Tables, key: string, body: string)
    requires t.Get(key) == Some("\0JavaScript:" + body)
    ensures RootGet(Some(script), variants, t, key) == (Ok(script(body)), t)
  {
    var raw := "\0JavaScript:" + body;
    assert raw == "\0" + "JavaScript" + ":" + body;
    assert Encoded(Some(script), raw);
    JavaScriptTagEvaluates(script, variants, t, key, body);
  }

  lemma JavaScriptTagEvaluates(script: Script, variants: Option<seq<string>>, t: Tables, key: string, body: string)
    ensures Evaluate(Some(script), variants, t, key, "\0" + "JavaScript" + ":" + body) == Outcome(Ok(script(body)), None, t)
  {
    JavaScriptTagText();
    TaggedValue(Some(script), variants, t, key, "JavaScript", body);
    assert JavaSplit("JavaScript", '/') == ["JavaScript"];
    assert ParseTags(["JavaScript"]) == Some(Tags(true, false, false));
    assert ApplyTags(Some(script), variants, t, key, Tags(true, false, false), body) == Outcome(Ok(script(body)), None, t);
  }

  lemma JavaScriptTagText()
    ensures ':' !in "JavaScript" && '/' !in "JavaScript" && "JavaScript"[0] != '\0'
  {
    var js := "JavaScript";
    assert forall i :: 0 <= i < |js| ==> js[i] != ':' && js[i] != '/';
  }

  /** An unknown tag (the empty one included) is a precondition violation. */
  lemma UnknownTagRaises(ev: Option<Script>, variants: Option<seq<string>>, t: Tables, key: string, tags: string, body: string)
    requires ev.Some? && ':' !in tags && tags != "" && tags[0] != '\0'
    requires t.Get(key) == Some("\0" + tags + ":" + body)
    requires exists i :: 0 <= i < |JavaSplit(tags, '/')| && !KnownTag(JavaSplit(tags, '/')[i])
    ensures RootGet(ev, variants, t, key) == (Err(UnknownTag(key, tags)), t)
  {
    TaggedValue(ev, variants, t, key, tags, body);
    ParseTagsMeaning(JavaSplit(tags, '/'));
  }

  /** The concatenated stored values of `key-variant` for the first `n` variants. */
  function PlainSuffix(t: Tables, key: string, vs: seq<string>, n: nat): string
    requires n <= |vs|
  {
    if n == 0 then "" else PlainSuffix(t, key, vs, n - 1) + t.Get(VariantKey(key, vs[n - 1])).GetOr("")
  }

  /**
   * When none of the variant-specific entries is itself encoded, `Variants`
   * appends their stored values in variant order, missing ones contributing
   * nothing, and the tables are left alone.
   */
  lemma {:induction false} AppendPlainVariants(ev: Option<Script>, variants: Option<seq<string>>, t: Tables, key: string, vs: seq<string>, n: nat)
    requires n <= |vs|
    requires forall i :: 0 <= i < n && t.Get(VariantKey(key, vs[i])).Some? ==> !Encoded(ev, t.Get(VariantKey(key, vs[i])).value)
    ensures AppendVariants(ev, variants, t, key, vs, n) == (Ok(PlainSuffix(t, key, vs, n)), t)
  {
    if n > 0 {
      AppendPlainVariants(ev, variants, t, key, vs, n - 1);
      PlainValueUnchanged(ev, variants, t, VariantKey(key, vs[n - 1]));
    }
  }

  /**
   * After `Cache` stored a result, the entry holds that result; when the
   * result is not itself encoded, looking the key up again returns it without
   * further evaluation.
   */
  lemma CachedResultIsStable(ev: Option<Script>, variants: Option<seq<string>>, t: Tables, key: string)
    requires t.Get(key).Some? && Encoded(ev, t.Get(key).value)
    requires Evaluate(ev, variants, t, key, t.Get(key).value).write.Some?
    ensures var (v, t') := RootGet(ev, variants, t, key);
            var w := Evaluate(ev, variants, t, key, t.Get(key).value).write.value;
            && v == Ok(Some(w))
            && t'.Get(key) == Some(w)
            && (!Encoded(ev, w) ==> RootGet(ev, variants, t', key) == (Ok(Some(w)), t'))
  {
  }

  /**
   * `Cache` on a null result (tags `JavaScript` and `Cache` without `Variants`,
   * and a script that returns null) is an error.
   */
  lemma CacheOfNullRaises(script: Script, variants: Option<seq<string>>, t: Tables, key: string, tags: string, body: string)
    requires ':' !in tags && tags != "" && tags[0] != '\0'
    requires t.Get(key) == Some("\0" + tags + ":" + body)
    requires forall i :: 0 <= i < |JavaSplit(tags, '/')| ==> KnownTag(JavaSplit(tags, '/')[i])
    requires "JavaScript" in JavaSplit(tags, '/') && "Cache" in JavaSplit(tags, '/') && "Variants" !in JavaSplit(tags, '/')
    requires script(body).None?
    ensures RootGet(Some(script), variants, t, key).0 == Err(CacheNull(key))
  {
    TaggedValue(Some(script), variants, t, key, tags, body);
    ParseTagsMeaning(JavaSplit(tags, '/'));
    assert ParseTags(JavaSplit(tags, '/')) == Some(Tags(true, false, true));
    assert ApplyTags(Some(script), variants, t, key, Tags(true, false, true), body) == Outcome(Err(CacheNull(key)), None, t);
  }
}
