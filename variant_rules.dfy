/**
 * The configuration-variant rule language, as pure functions.
 *
 * A variant file is a sequence of lines. Blank and `#` lines are skipped;
 * `@hostclass:L=h1,h2` and `@userclass:L=u1,u2` classify the running host
 * and user; `@include.immediately=s1,s2` parses the files of other suffixes
 * on the spot; `@include.afterwards=s1,s2` queues suffixes for later; any
 * other line is a rule `attr:include[:exclude],...=v1:v2` whose right side
 * is appended to the variant list when every key on its left side accepts.
 *
 * `Resolve` is what `tryConfiguration` does to the resolution state,
 * `Drain` the queue-draining loop of `getVariants`, and `ResolveAll` the whole
 * of `getVariants`. Regular-expression matching is the `Matcher` parameter and
 * the files are given by a `Provider`.
 */
module VariantRules {
  import opened Support
  import opened Text

  /** `s.matches(pattern)`: Java regular-expression matching of a whole string. */
  type Matcher = (string, string) -> bool

  /** The facts rules are evaluated against, as `prepareBasicParameters` leaves them. */
  datatype Facts = Facts(
    host: string, user: string, os: string, osversion: string, javaversion: string,
    configuration: string, ui: string, db: string, explicit: string)

  /** A variant file: the name it is reported under and its lines. */
  datatype Document = Document(source: string, lines: seq<string>)

  /**
   * Variant files by name postfix (`""` or `"-" + variant`): for each postfix
   * the class-path resource first, then the files of the configuration folders.
   */
  type Provider = map<string, seq<Document>>

  datatype Env = Env(matches: Matcher, provider: Provider, facts: Facts)

  datatype ErrorKind =
    | ExpectedOneSeparator
    | EmptyHostClass
    | EmptyUserClass
    | BadRuleArity
    | EmptyRuleAttribute
    | IncludeTooDeep

  /** An `ExceptionConfigurationError`: where it was raised and why. */
  datatype ConfigError = ConfigError(source: string, line: nat, kind: ErrorKind)

  /**
   * Everything variant resolution updates: the variant list and its duplicate
   * set, the afterwards-queue and its seen set, and the host and user classes
   * (null until the first class is recorded).
   */
  datatype Resolution = Resolution(
    variants: seq<string>, duplicates: set<string>,
    queue: seq<string>, seen: set<string>,
    hostclasses: Option<seq<string>>, userclasses: Option<seq<string>>)

  /** The state reached and the error that stopped the run, if any. */
  datatype Run = Run(state: Resolution, failure: Option<ConfigError>)

  // ---------------------------------------------------------------------------------------------
  // Files

  function Postfix(variant: string): string {
    if variant == "" then "" else "-" + variant
  }

  function DocumentsFor(p: Provider, variant: string): seq<Document> {
    var postfix := Postfix(variant);
    if postfix in p then p[postfix] else []
  }

  ghost predicate Provided(p: Provider, doc: Document) {
    exists ds :: ds in p.Values && doc in ds
  }

  lemma DocumentsAreProvided(p: Provider, variant: string, j: nat)
    requires j < |DocumentsFor(p, variant)|
    ensures Provided(p, DocumentsFor(p, variant)[j])
  {
    var ds := p[Postfix(variant)];
    assert ds in p.Values;
  }

  // ---------------------------------------------------------------------------------------------
  // Lines

  datatype Directive =
    | Skip
    | HostClass(className: string, entries: seq<string>)
    | UserClass(className: string, entries: seq<string>)
    | IncludeNow(targets: seq<string>)
    | IncludeLater(targets: seq<string>)
    | Rule(keys: seq<string>, rhs: string)
    | Malformed(kind: ErrorKind)

  /** The line matches `^\s*$`. */
  predicate IsBlank(line: string) {
    forall i :: 0 <= i < |line| ==> IsRegexSpace(line[i])
  }

  function DropLeadingSpace(s: string): (r: string)
    ensures |r| <= |s|
    ensures r == [] || !IsRegexSpace(r[0])
    decreases |s|
  {
    if s != [] && IsRegexSpace(s[0]) then DropLeadingSpace(s[1..]) else s
  }

  /** The line matches `^\s*#.*`: `.` matches no line terminator. */
  predicate IsComment(line: string) {
    var t := DropLeadingSpace(line);
    t != [] && t[0] == '#' && forall i :: 1 <= i < |t| ==> !IsLineTerminator(t[i])
  }

  /** What a line of a variant file asks for, in the order the line is examined. */
  function Classify(line: string): Directive {
    if IsBlank(line) || IsComment(line) then Skip
    else
      var keyval := SplitAll(line, '=');
      if |keyval| != 2 then Malformed(ExpectedOneSeparator)
      else ClassifyPair(keyval[0], keyval[1])
  }

  /** A `key=value` line, by its key. */
  function ClassifyPair(key: string, value: string): Directive {
    if StartsWith(key, "@hostclass:") then
      if |key| == 11 then Malformed(EmptyHostClass)
      else HostClass(key[11..], JavaSplit(value, ','))
    else if StartsWith(key, "@userclass:") then
      if |key| == 11 then Malformed(EmptyUserClass)
      else UserClass(key[11..], JavaSplit(value, ','))
    else if key == "@include.immediately" then IncludeNow(NonEmptyFields(value, ','))
    else if key == "@include.afterwards" then IncludeLater(NonEmptyFields(value, ','))
    else Rule(SplitAll(key, ','), value)
  }

  /** The suffixes a line queues with `@include.afterwards`. */
  function Queued(d: Directive): seq<string> {
    if d.IncludeLater? then d.targets else []
  }

  /** What a sequence of directives queues. */
  function QueuedBy(dirs: seq<Directive>): set<string> {
    if dirs == [] then {} else Elements(Queued(dirs[0])) + QueuedBy(dirs[1..])
  }

  /** What a sequence of files queues. */
  function FileTargets(docs: seq<Document>): set<string> {
    if docs == [] then {} else QueuedBy(Directives(docs[0].lines)) + FileTargets(docs[1..])
  }

  /** Every suffix any provided file can queue: a finite bound for the queue-draining loop. */
  function Targets(p: Provider): set<string> {
    set ds, t | ds in p.Values && t in FileTargets(ds) :: t
  }

  lemma {:induction false} QueuedByHas(dirs: seq<Directive>, i: nat)
    requires i < |dirs|
    ensures Elements(Queued(dirs[i])) <= QueuedBy(dirs)
  {
    if i > 0 {
      QueuedByHas(dirs[1..], i - 1);
    }
  }

  lemma {:induction false} FileTargetsHas(docs: seq<Document>, doc: Document)
    requires doc in docs
    ensures QueuedBy(Directives(doc.lines)) <= FileTargets(docs)
  {
    if docs[0] != doc {
      FileTargetsHas(docs[1..], doc);
    }
  }

  lemma QueuedInTargets(p: Provider, doc: Document, i: nat)
    requires Provided(p, doc) && i < |doc.lines|
    ensures forall t :: t in Queued(Directives(doc.lines)[i]) ==> t in Targets(p)
  {
    var ds :| ds in p.Values && doc in ds;
    QueuedByHas(Directives(doc.lines), i);
    FileTargetsHas(ds, doc);
    forall t | t in Queued(Directives(doc.lines)[i])
      ensures t in Targets(p)
    {
      assert t in Elements(Queued(Directives(doc.lines)[i]));
    }
  }

  // ---------------------------------------------------------------------------------------------
  // Rule keys

  /** The outcome of the keys of a rule line: all accept, one rejects, or one is malformed. */
  datatype Verdict = Pass | Reject | Bad(kind: ErrorKind)

  /** A single-valued fact rejects when it does not match `inc` or matches `exc`. */
  predicate SingleRejects(m: Matcher, fact: string, inc: string, exc: Option<string>) {
    !m(fact, inc) || (exc.Some? && m(fact, exc.value))
  }

  /** `matches(strings, regexp)`: some element matches; a null list matches nothing. */
  predicate AnyMatches(m: Matcher, strings: Option<seq<string>>, pattern: string) {
    strings.Some? && exists i :: 0 <= i < |strings.value| && m(strings.value[i], pattern)
  }

  /** A multi-valued fact accepts when some name matches `inc` and none matches `exc`. */
  predicate ListAccepts(m: Matcher, names: seq<string>, inc: string, exc: Option<string>) {
    (exists i :: 0 <= i < |names| && m(names[i], inc))
    && !(exc.Some? && exists i :: 0 <= i < |names| && m(names[i], exc.value))
  }

  /** Whether the key `attr:inc[:exc]` accepts; unknown attributes impose no constraint. */
  predicate KeyAccepts(env: Env, st: Resolution, attr: string, inc: string, exc: Option<string>) {
    var m := env.matches;
    var f := env.facts;
    if attr == "host" then !SingleRejects(m, f.host, inc, exc)
    else if attr == "hostclass" then
      !(!AnyMatches(m, st.hostclasses, inc) || (exc.Some? && AnyMatches(m, st.hostclasses, exc.value)))
    else if attr == "user" then !SingleRejects(m, f.user, inc, exc)
    else if attr == "userclass" then
      !(!AnyMatches(m, st.userclasses, inc) || (exc.Some? && AnyMatches(m, st.userclasses, exc.value)))
    else if attr == "os" then !SingleRejects(m, f.os, inc, exc)
    else if attr == "osversion" then !SingleRejects(m, f.osversion, inc, exc)
    else if attr == "javaversion" then !SingleRejects(m, f.javaversion, inc, exc)
    else if attr == "configuration" then !SingleRejects(m, f.configuration, inc, exc)
    else if attr == "ui" then ListAccepts(m, JavaSplit(f.ui, ':'), inc, exc)
    else if attr == "db" then ListAccepts(m, JavaSplit(f.db, ':'), inc, exc)
    else if attr == "variants" then
      if f.explicit == "" then !SingleRejects(m, f.explicit, inc, exc)
      else ListAccepts(m, st.variants, inc, exc)
    else true
  }

  /** The exclude field of a split key: present only when the key has three fields. */
  function ExcludeOf(rule: seq<string>): Option<string>
    requires |rule| >= 2
  {
    if |rule| == 3 then Some(rule[2]) else None
  }

  /**
   * The keys of a rule line, examined in order: empty keys are skipped, a key
   * must have 2 or 3 `:`-fields and a non-empty attribute, and the first key
   * that does not accept ends the examination (later keys are not checked).
   */
  function EvalKeys(env: Env, st: Resolution, keys: seq<string>): Verdict
    decreases |keys|
  {
    if keys == [] then Pass
    else if keys[0] == "" then EvalKeys(env, st, keys[1..])
    else
      var rule := SplitAll(keys[0], ':');
      if |rule| != 2 && |rule| != 3 then Bad(BadRuleArity)
      else if rule[0] == "" then Bad(EmptyRuleAttribute)
      else if !KeyAccepts(env, st, rule[0], rule[1], ExcludeOf(rule)) then Reject
      else EvalKeys(env, st, keys[1..])
  }

  /** One key, judged on its own: empty, or well formed and accepting. */
  predicate KeyHolds(env: Env, st: Resolution, key: string) {
    key == ""
    || var rule := SplitAll(key, ':');
       (|rule| == 2 || |rule| == 3) && rule[0] != "" && KeyAccepts(env, st, rule[0], rule[1], ExcludeOf(rule))
  }

  /** A rule line applies exactly when every one of its keys holds (the keys are AND-ed). */
  lemma {:induction false} RuleAppliesIffAllKeysHold(env: Env, st: Resolution, keys: seq<string>)
    ensures EvalKeys(env, st, keys) == Pass <==> forall i :: 0 <= i < |keys| ==> KeyHolds(env, st, keys[i])
    decreases |keys|
  {
    if keys != [] {
      RuleAppliesIffAllKeysHold(env, st, keys[1..]);
      if EvalKeys(env, st, keys) == Pass {
        forall i | 0 <= i < |keys|
          ensures KeyHolds(env, st, keys[i])
        {
          if i > 0 {
            assert keys[i] == keys[1..][i - 1];
          }
        }
      }
    }
  }

  predicate KnownAttribute(attr: string) {
    attr in {"host", "hostclass", "user", "userclass", "os", "osversion", "javaversion",
             "configuration", "ui", "db", "variants"}
  }

  /** An empty key, or a well-formed one with an attribute the language does not know. */
  predicate UnknownKey(key: string) {
    key == ""
    || var rule := SplitAll(key, ':');
       (|rule| == 2 || |rule| == 3) && rule[0] != "" && !KnownAttribute(rule[0])
  }

  /** Well-formed keys whose attributes the language does not know never reject a line. */
  lemma UnknownAttributesNeverReject(env: Env, st: Resolution, keys: seq<string>)
    requires forall i :: 0 <= i < |keys| ==> UnknownKey(keys[i])
    ensures EvalKeys(env, st, keys) == Pass
  {
    RuleAppliesIffAllKeysHold(env, st, keys);
  }

  /** A rule with an empty left side (`=v1:v2`) applies unconditionally. */
  lemma EmptyLeftSideApplies(env: Env, st: Resolution, rhs: string)
    requires '=' !in rhs
    ensures Classify("=" + rhs) == Rule([""], rhs)
    ensures EvalKeys(env, st, [""]) == Pass
  {
    var line := "=" + rhs;
    assert line[0] == '=';
    assert !IsBlank(line) by { assert !IsRegexSpace(line[0]); }
    assert !IsComment(line) by { assert DropLeadingSpace(line) == line; }
    assert SplitAll(line, '=') == ["", rhs] by {
      SplitAfterField("", '=', rhs);
      assert "" + ['='] + rhs == line;
      SplitWithoutSeparator(rhs, '=');
    }
    assert ClassifyPair("", rhs) == Rule(SplitAll("", ','), rhs) by {
      assert !StartsWith("", "@hostclass:") && !StartsWith("", "@userclass:");
    }
    SplitWithoutSeparator("", ',');
  }

  // ---------------------------------------------------------------------------------------------
  // State updates

  predicate Synced(vs: seq<string>, dups: set<string>) {
    NoDuplicates(vs) && dups == Elements(vs)
  }

  /**
   * `addVariants` on a list of tokens: every non-empty token not yet in the
   * duplicate set is appended to the list and added to the set.
   */
  function Added(vs: seq<string>, dups: set<string>, tokens: seq<string>): (r: (seq<string>, set<string>))
    ensures |vs| <= |r.0| && r.0[..|vs|] == vs
    ensures dups <= r.1
    ensures forall i :: |vs| <= i < |r.0| ==> r.0[i] != "" && r.0[i] in tokens && r.0[i] !in dups
    ensures Synced(vs, dups) ==> Synced(r.0, r.1)
    ensures Synced(vs, dups) ==> forall t :: t in tokens && t != "" ==> t in r.0
    decreases |tokens|
  {
    if tokens == [] then (vs, dups)
    else
      var prev := Added(vs, dups, tokens[..|tokens| - 1]);
      var t := tokens[|tokens| - 1];
      assert forall x :: x in tokens[..|tokens| - 1] ==> x in tokens;
      assert tokens == tokens[..|tokens| - 1] + [t];
      if t != "" && t !in prev.1 then
        var r := (prev.0 + [t], prev.1 + {t});
        assert r.0[..|vs|] == vs by { assert r.0[..|vs|] == prev.0[..|vs|]; }
        assert Synced(vs, dups) ==> Synced(r.0, r.1) by {
          if Synced(vs, dups) {
            assert Elements(r.0) == Elements(prev.0) + {t};
          }
        }
        r
      else prev
  }
  /** One more token: `Added` on `tokens + [t]` from `Added` on `tokens`. */
  lemma AddedStep(vs: seq<string>, dups: set<string>, tokens: seq<string>, t: string)
    ensures var prev := Added(vs, dups, tokens);
            Added(vs, dups, tokens + [t]) ==
              if t != "" && t !in prev.1 then (prev.0 + [t], prev.1 + {t}) else prev
  {
    assert (tokens + [t])[..|tokens|] == tokens;
  }


  /** The state after `addVariants(variants, duplicates, s)`. */
  function WithVariants(st: Resolution, s: string): Resolution {
    if s == "" then st
    else
      var r := Added(st.variants, st.duplicates, JavaSplit(s, ':'));
      st.(variants := r.0, duplicates := r.1)
  }

  /** `@include.afterwards`: each target not seen before is queued and marked seen. */
  function Enqueued(queue: seq<string>, seen: set<string>, targets: seq<string>): (r: (seq<string>, set<string>))
    ensures |queue| <= |r.0| && r.0[..|queue|] == queue
    ensures NoDuplicates(r.0[|queue|..])
    ensures forall x :: x in r.0[|queue|..] ==> x !in seen && x in targets
    ensures r.1 == seen + Elements(r.0[|queue|..])
    ensures forall t :: t in targets ==> t in r.1
    decreases |targets|
  {
    if targets == [] then (queue, seen)
    else
      var prev := Enqueued(queue, seen, targets[..|targets| - 1]);
      var t := targets[|targets| - 1];
      assert forall x :: x in targets[..|targets| - 1] ==> x in targets;
      assert targets == targets[..|targets| - 1] + [t];
      if t !in prev.1 then
        var r := (prev.0 + [t], prev.1 + {t});
        assert r.0[|queue|..] == prev.0[|queue|..] + [t];
        assert r.0[..|queue|] == prev.0[..|queue|];
        r
      else prev
  }

  /** The number of non-empty entries equal to `fact`. */
  function CountMatching(entries: seq<string>, fact: string): nat
    decreases |entries|
  {
    if entries == [] then 0
    else
      var e := entries[|entries| - 1];
      CountMatching(entries[..|entries| - 1], fact) + (if e != "" && e == fact then 1 else 0)
  }

  /**
   * `@hostclass:`/`@userclass:` handling: `className` is appended once per
   * non-empty entry equal to the fact, the list being created on first use.
   */
  function AppendClass(classes: Option<seq<string>>, className: string, entries: seq<string>, fact: string): (r: Option<seq<string>>)
    ensures CountMatching(entries, fact) == 0 ==> r == classes
    ensures CountMatching(entries, fact) > 0 ==> r.Some?
    ensures |r.GetOr([])| == |classes.GetOr([])| + CountMatching(entries, fact)
    ensures r.GetOr([])[..|classes.GetOr([])|] == classes.GetOr([])
    ensures forall i :: |classes.GetOr([])| <= i < |r.GetOr([])| ==> r.GetOr([])[i] == className
    decreases |entries|
  {
    if entries == [] then classes
    else
      var prev := AppendClass(classes, className, entries[..|entries| - 1], fact);
      var e := entries[|entries| - 1];
      if e != "" && e == fact then
        var r := Some(prev.GetOr([]) + [className]);
        assert r.GetOr([])[..|classes.GetOr([])|] == prev.GetOr([])[..|classes.GetOr([])|];
        r
      else prev
  }

  // ---------------------------------------------------------------------------------------------
  // Runs

  /**
   * How a run may change the state: the variant list and the queue only grow
   * at their ends, and the queue receives only targets of provided files that
   * were not seen before, each once, which become seen.
   */
  ghost predicate Grows(p: Provider, st: Resolution, st': Resolution) {
    && |st.variants| <= |st'.variants| && st'.variants[..|st.variants|] == st.variants
    && |st.queue| <= |st'.queue| && st'.queue[..|st.queue|] == st.queue
    && NoDuplicates(st'.queue[|st.queue|..])
    && (forall x :: x in st'.queue[|st.queue|..] ==> x !in st.seen && x in Targets(p))
    && st'.seen == st.seen + Elements(st'.queue[|st.queue|..])
  }

  lemma GrowsRefl(p: Provider, st: Resolution)
    ensures Grows(p, st, st)
  {
    assert st.queue[|st.queue|..] == [];
    assert Elements<string>([]) == {};
  }

  lemma GrowsTrans(p: Provider, a: Resolution, b: Resolution, c: Resolution)
    requires Grows(p, a, b) && Grows(p, b, c)
    ensures Grows(p, a, c)
  {
    var dab := b.queue[|a.queue|..];
    var dbc := c.queue[|b.queue|..];
    assert c.queue[|a.queue|..] == dab + dbc by {
      assert c.queue == b.queue + dbc;
      assert b.queue == a.queue + dab;
    }
    assert c.variants[..|a.variants|] == a.variants by {
      assert c.variants[..|a.variants|] == c.variants[..|b.variants|][..|a.variants|];
    }
    assert c.queue[..|a.queue|] == a.queue by {
      assert c.queue[..|a.queue|] == c.queue[..|b.queue|][..|a.queue|];
    }
    forall i, j | 0 <= i < j < |dab + dbc|
      ensures (dab + dbc)[i] != (dab + dbc)[j]
    {
      if i < |dab| && j >= |dab| {
        assert (dab + dbc)[i] in dab;
        assert (dab + dbc)[j] in dbc;
      }
    }
    assert Elements(dab + dbc) == Elements(dab) + Elements(dbc);
  }

  lemma EnqueueGrows(p: Provider, st: Resolution, targets: seq<string>)
    requires forall t :: t in targets ==> t in Targets(p)
    ensures var q := Enqueued(st.queue, st.seen, targets);
            Grows(p, st, st.(queue := q.0, seen := q.1))
  {
    var q := Enqueued(st.queue, st.seen, targets);
    assert st.variants[..|st.variants|] == st.variants;
  }

  lemma WithVariantsGrows(p: Provider, st: Resolution, s: string)
    ensures Grows(p, st, WithVariants(st, s))
    ensures Synced(st.variants, st.duplicates) ==>
              Synced(WithVariants(st, s).variants, WithVariants(st, s).duplicates)
  {
    GrowsRefl(p, st);
  }

  /** Each line of a file, classified. */
  function Directives(lines: seq<string>): (r: seq<Directive>)
    ensures |r| == |lines|
  {
    if lines == [] then [] else [Classify(lines[0])] + Directives(lines[1..])
  }

  lemma {:induction false} DirectivesAt(lines: seq<string>, i: nat)
    requires i < |lines|
    ensures Directives(lines)[i] == Classify(lines[i])
  {
    if i > 0 {
      DirectivesAt(lines[1..], i - 1);
    }
  }

  /** What `@include.afterwards` queues is among the targets of the provided files. */
  ghost predicate Queueable(p: Provider, d: Directive) {
    d.IncludeLater? ==> forall t :: t in d.targets ==> t in Targets(p)
  }

  lemma DirectivesQueueable(p: Provider, doc: Document)
    requires Provided(p, doc)
    ensures forall i :: 0 <= i < |doc.lines| ==> Queueable(p, Directives(doc.lines)[i])
  {
    forall i | 0 <= i < |doc.lines|
      ensures Queueable(p, Directives(doc.lines)[i])
    {
      QueuedInTargets(p, doc, i);
    }
  }

  /** `tryConfiguration(variant)`: parse the files of that suffix in order. */
  function Resolve(env: Env, depth: nat, st: Resolution, variant: string): Run
    decreases depth, 4, 0
  {
    ParseDocuments(env, depth, st, variant, |DocumentsFor(env.provider, variant)|)
  }

  /** The first `n` files of a suffix, stopping at the first error. */
  function ParseDocuments(env: Env, depth: nat, st: Resolution, variant: string, n: nat): Run
    requires n <= |DocumentsFor(env.provider, variant)|
    decreases depth, 3, n
  {
    if n == 0 then Run(st, None)
    else
      var r0 := ParseDocuments(env, depth, st, variant, n - 1);
      if r0.failure.Some? then r0
      else
        var doc := DocumentsFor(env.provider, variant)[n - 1];
        ParseLines(env, depth, r0.state, doc.source, Directives(doc.lines), |doc.lines|)
  }

  /** `parseVariantFile` on the first `n` lines of a file, stopping at the first error. */
  function ParseLines(env: Env, depth: nat, st: Resolution, source: string, dirs: seq<Directive>, n: nat): Run
    requires n <= |dirs|
    decreases depth, 2, n
  {
    if n == 0 then Run(st, None)
    else
      var r0 := ParseLines(env, depth, st, source, dirs, n - 1);
      if r0.failure.Some? then r0
      else Apply(env, depth, r0.state, source, n, dirs[n - 1])
  }

  /** What one line asks for, done; `line` counts from 1 and is reported in errors. */
  function Apply(env: Env, depth: nat, st: Resolution, source: string, line: nat, d: Directive): Run
    decreases depth, 1, 0
  {
    match d
    case Skip => Run(st, None)
    case Malformed(kind) => Run(st, Some(ConfigError(source, line, kind)))
    case HostClass(className, entries) =>
      Run(st.(hostclasses := AppendClass(st.hostclasses, className, entries, env.facts.host)), None)
    case UserClass(className, entries) =>
      Run(st.(userclasses := AppendClass(st.userclasses, className, entries, env.facts.user)), None)
    case IncludeLater(targets) =>
      var q := Enqueued(st.queue, st.seen, targets);
      Run(st.(queue := q.0, seen := q.1), None)
    case IncludeNow(targets) =>
      IncludeEach(env, depth, st, source, line, targets, |targets|)
    case Rule(keys, rhs) =>
      match EvalKeys(env, st, keys)
      case Bad(kind) => Run(st, Some(ConfigError(source, line, kind)))
      case Reject => Run(st, None)
      case Pass => Run(WithVariants(st, rhs), None)
  }

  /**
   * `@include.immediately`: the first `k` targets are resolved in turn, each
   * one level deeper; at depth 0 a further include is an error.
   */
  function IncludeEach(env: Env, depth: nat, st: Resolution, source: string, line: nat, targets: seq<string>, k: nat): Run
    requires k <= |targets|
    decreases depth, 0, k
  {
    if k == 0 then Run(st, None)
    else
      var r0 := IncludeEach(env, depth, st, source, line, targets, k - 1);
      if r0.failure.Some? then r0
      else if depth == 0 then Run(r0.state, Some(ConfigError(source, line, IncludeTooDeep)))
      else Resolve(env, depth - 1, r0.state, targets[k - 1])
  }

  // Every run grows the state as `Grows` says and keeps the variant list and
  // the duplicate set in step.

  lemma {:induction false} ResolveGrows(env: Env, depth: nat, st: Resolution, variant: string)
    ensures Grows(env.provider, st, Resolve(env, depth, st, variant).state)
    ensures Synced(st.variants, st.duplicates) ==>
              Synced(Resolve(env, depth, st, variant).state.variants, Resolve(env, depth, st, variant).state.duplicates)
    decreases depth, 4, 0
  {
    ParseDocumentsGrows(env, depth, st, variant, |DocumentsFor(env.provider, variant)|);
  }

  lemma {:induction false} ParseDocumentsGrows(env: Env, depth: nat, st: Resolution, variant: string, n: nat)
    requires n <= |DocumentsFor(env.provider, variant)|
    ensures var r := ParseDocuments(env, depth, st, variant, n);
            && Grows(env.provider, st, r.state)
            && (Synced(st.variants, st.duplicates) ==> Synced(r.state.variants, r.state.duplicates))
    decreases depth, 3, n
  {
    if n == 0 {
      GrowsRefl(env.provider, st);
    } else {
      var r0 := ParseDocuments(env, depth, st, variant, n - 1);
      ParseDocumentsGrows(env, depth, st, variant, n - 1);
      if r0.failure.None? {
        var doc := DocumentsFor(env.provider, variant)[n - 1];
        DocumentsAreProvided(env.provider, variant, n - 1);
        DirectivesQueueable(env.provider, doc);
        var dirs := Directives(doc.lines);
        ParseLinesGrows(env, depth, r0.state, doc.source, dirs, |dirs|);
        GrowsTrans(env.provider, st, r0.state, ParseLines(env, depth, r0.state, doc.source, dirs, |dirs|).state);
      }
    }
  }

  lemma {:induction false} ParseLinesGrows(env: Env, depth: nat, st: Resolution, source: string, dirs: seq<Directive>, n: nat)
    requires n <= |dirs| && forall i :: 0 <= i < |dirs| ==> Queueable(env.provider, dirs[i])
    ensures var r := ParseLines(env, depth, st, source, dirs, n);
            && Grows(env.provider, st, r.state)
            && (Synced(st.variants, st.duplicates) ==> Synced(r.state.variants, r.state.duplicates))
    decreases depth, 2, n
  {
    if n == 0 {
      GrowsRefl(env.provider, st);
    } else {
      var r0 := ParseLines(env, depth, st, source, dirs, n - 1);
      ParseLinesGrows(env, depth, st, source, dirs, n - 1);
      if r0.failure.None? {
        ApplyGrows(env, depth, r0.state, source, n, dirs[n - 1]);
        GrowsTrans(env.provider, st, r0.state, Apply(env, depth, r0.state, source, n, dirs[n - 1]).state);
      }
    }
  }

  lemma {:induction false} ApplyGrows(env: Env, depth: nat, st: Resolution, source: string, line: nat, d: Directive)
    requires Queueable(env.provider, d)
    ensures var r := Apply(env, depth, st, source, line, d);
            && Grows(env.provider, st, r.state)
            && (Synced(st.variants, st.duplicates) ==> Synced(r.state.variants, r.state.duplicates))
    decreases depth, 1, 0
  {
    match d {
      case IncludeLater(targets) =>
        EnqueueGrows(env.provider, st, targets);
      case IncludeNow(targets) =>
        IncludeEachGrows(env, depth, st, source, line, targets, |targets|);
      case Rule(keys, rhs) =>
        if EvalKeys(env, st, keys).Pass? {
          WithVariantsGrows(env.provider, st, rhs);
        } else {
          GrowsRefl(env.provider, st);
        }
      case _ =>
        GrowsRefl(env.provider, st);
    }
  }

  lemma {:induction false} IncludeEachGrows(env: Env, depth: nat, st: Resolution, source: string, line: nat, targets: seq<string>, k: nat)
    requires k <= |targets|
    ensures var r := IncludeEach(env, depth, st, source, line, targets, k);
            && Grows(env.provider, st, r.state)
            && (Synced(st.variants, st.duplicates) ==> Synced(r.state.variants, r.state.duplicates))
    decreases depth, 0, k
  {
    if k == 0 {
      GrowsRefl(env.provider, st);
    } else {
      var r0 := IncludeEach(env, depth, st, source, line, targets, k - 1);
      IncludeEachGrows(env, depth, st, source, line, targets, k - 1);
      if r0.failure.None? && depth > 0 {
        ResolveGrows(env, depth - 1, r0.state, targets[k - 1]);
        GrowsTrans(env.provider, st, r0.state, Resolve(env, depth - 1, r0.state, targets[k - 1]).state);
      }
    }
  }

  // An error ends a run: the prefixes after a failed one give the same run.

  lemma {:induction false} ParseDocumentsStops(env: Env, depth: nat, st: Resolution, variant: string, k: nat, m: nat)
    requires k <= m <= |DocumentsFor(env.provider, variant)|
    requires ParseDocuments(env, depth, st, variant, k).failure.Some?
    ensures ParseDocuments(env, depth, st, variant, m) == ParseDocuments(env, depth, st, variant, k)
    decreases m - k
  {
    if k < m {
      ParseDocumentsStops(env, depth, st, variant, k, m - 1);
    }
  }

  lemma {:induction false} ParseLinesStops(env: Env, depth: nat, st: Resolution, source: string, dirs: seq<Directive>, k: nat, m: nat)
    requires k <= m <= |dirs|
    requires ParseLines(env, depth, st, source, dirs, k).failure.Some?
    ensures ParseLines(env, depth, st, source, dirs, m) == ParseLines(env, depth, st, source, dirs, k)
    decreases m - k
  {
    if k < m {
      ParseLinesStops(env, depth, st, source, dirs, k, m - 1);
    }
  }

  lemma {:induction false} IncludeEachStops(env: Env, depth: nat, st: Resolution, source: string, line: nat, targets: seq<string>, k: nat, m: nat)
    requires k <= m <= |targets|
    requires IncludeEach(env, depth, st, source, line, targets, k).failure.Some?
    ensures IncludeEach(env, depth, st, source, line, targets, m) == IncludeEach(env, depth, st, source, line, targets, k)
    decreases m - k
  {
    if k < m {
      IncludeEachStops(env, depth, st, source, line, targets, k, m - 1);
    }
  }

  /** A rule line whose keys do not all accept leaves the state as it was. */
  lemma {:induction false} RejectedRuleKeepsState(env: Env, depth: nat, st: Resolution, source: string, line: nat, keys: seq<string>, rhs: string)
    requires exists j :: 0 <= j < |keys| && !KeyHolds(env, st, keys[j])
    ensures Apply(env, depth, st, source, line, Rule(keys, rhs)).state == st
  {
    RuleAppliesIffAllKeysHold(env, st, keys);
  }

  // ---------------------------------------------------------------------------------------------
  // The queue-draining loop

  lemma ShrinkingMeasure(T: set<string>, seen: set<string>, delta: seq<string>)
    requires forall x :: x in delta ==> x !in seen && x in T
    ensures delta == [] ==> seen + Elements(delta) == seen
    ensures delta != [] ==> |T - (seen + Elements(delta))| < |T - seen|
  {
    if delta != [] {
      var x := delta[0];
      assert x in delta;
      var after := T - (seen + Elements(delta));
      assert after + {x} <= T - seen;
      assert x !in after;
      assert |after + {x}| == |after| + 1;
      SubsetCardinality(after + {x}, T - seen);
    } else {
      assert Elements(delta) == {};
    }
  }

  lemma DrainStep(p: Provider, st: Resolution, st': Resolution)
    requires st.queue != []
    requires Grows(p, st.(queue := st.queue[1..]), st')
    ensures var T := Targets(p);
            |T - st'.seen| < |T - st.seen| || (|T - st'.seen| == |T - st.seen| && |st'.queue| < |st.queue|)
  {
    var delta := st'.queue[|st.queue| - 1..];
    ShrinkingMeasure(Targets(p), st.seen, delta);
  }

  /** The `poll` loop of `getVariants`: resolve queued suffixes until the queue is empty. */
  function Drain(env: Env, depth: nat, st: Resolution): (r: Run)
    ensures |st.variants| <= |r.state.variants| && r.state.variants[..|st.variants|] == st.variants
    ensures Synced(st.variants, st.duplicates) ==> Synced(r.state.variants, r.state.duplicates)
    ensures r.failure.None? ==> r.state.queue == []
    decreases |Targets(env.provider) - st.seen|, |st.queue|
  {
    if st.queue == [] then Run(st, None)
    else
      var r := Resolve(env, depth, st.(queue := st.queue[1..]), st.queue[0]);
      ResolveGrows(env, depth, st.(queue := st.queue[1..]), st.queue[0]);
      if r.failure.Some? then r
      else
        DrainStep(env.provider, st, r.state);
        var r' := Drain(env, depth, r.state);
        assert r'.state.variants[..|st.variants|] == r'.state.variants[..|r.state.variants|][..|st.variants|];
        r'
  }

  /**
   * One turn of the loop: the head of the queue is resolved, then the rest is
   * drained; a turn without error shrinks the termination measure.
   */
  lemma DrainTurn(env: Env, depth: nat, st: Resolution)
    requires st.queue != []
    ensures var r := Resolve(env, depth, st.(queue := st.queue[1..]), st.queue[0]);
            && Drain(env, depth, st) == (if r.failure.Some? then r else Drain(env, depth, r.state))
            && var T := Targets(env.provider);
               |T - r.state.seen| < |T - st.seen| || (|T - r.state.seen| == |T - st.seen| && |r.state.queue| < |st.queue|)
  {
    var r := Resolve(env, depth, st.(queue := st.queue[1..]), st.queue[0]);
    ResolveGrows(env, depth, st.(queue := st.queue[1..]), st.queue[0]);
    DrainStep(env.provider, st, r.state);
  }

  /** The suffixes the `poll` loop takes from the queue and resolves, in order. */
  function Polled(env: Env, depth: nat, st: Resolution): seq<string>
    decreases |Targets(env.provider) - st.seen|, |st.queue|
  {
    if st.queue == [] then []
    else
      var r := Resolve(env, depth, st.(queue := st.queue[1..]), st.queue[0]);
      ResolveGrows(env, depth, st.(queue := st.queue[1..]), st.queue[0]);
      if r.failure.Some? then [st.queue[0]]
      else
        DrainStep(env.provider, st, r.state);
        [st.queue[0]] + Polled(env, depth, r.state)
  }

  lemma NoDuplicatesAppend(a: seq<string>, b: seq<string>)
    requires NoDuplicates(a) && NoDuplicates(b)
    requires forall x :: x in b ==> x !in a
    ensures NoDuplicates(a + b)
  {
    forall i, j | 0 <= i < j < |a + b|
      ensures (a + b)[i] != (a + b)[j]
    {
      if j < |a| {
        assert (a + b)[i] == a[i] && (a + b)[j] == a[j];
      } else if i < |a| {
        assert (a + b)[i] == a[i] && (a + b)[j] == b[j - |a|];
        assert b[j - |a|] in b;
      } else {
        assert (a + b)[i] == b[i - |a|] && (a + b)[j] == b[j - |a|];
      }
    }
  }

  /**
   * What one turn does to the suffixes taken so far (`done`) and the queue: the
   * head moves to `done` and the fresh targets are queued behind the rest.
   */
  lemma PollTurn(p: Provider, st: Resolution, st': Resolution, done: seq<string>)
    requires st.queue != []
    requires Grows(p, st.(queue := st.queue[1..]), st')
    requires NoDuplicates(done + st.queue) && Elements(done + st.queue) == st.seen
    ensures NoDuplicates(done + [st.queue[0]] + st'.queue)
    ensures Elements(done + [st.queue[0]] + st'.queue) == st'.seen
    ensures |st.queue| - 1 <= |st'.queue| && st'.queue[..|st.queue| - 1] == st.queue[1..]
  {
    var q := st.queue;
    var delta := st'.queue[|q| - 1..];
    assert st'.queue == q[1..] + delta;
    assert done + [q[0]] + st'.queue == (done + q) + delta by {
      assert q == [q[0]] + q[1..];
    }
    NoDuplicatesAppend(done + q, delta);
  }

  /**
   * Over a whole run every suffix is taken from the queue at most once, only
   * seen suffixes are taken, and a run without error takes the queue in
   * order and ends having taken every seen suffix.
   */
  lemma {:induction false} PolledOnce(env: Env, depth: nat, st: Resolution, done: seq<string>)
    requires NoDuplicates(done + st.queue) && Elements(done + st.queue) == st.seen
    ensures var polled := Polled(env, depth, st);
            var final := Drain(env, depth, st);
            && NoDuplicates(done + polled)
            && (forall x :: x in done + polled ==> x in final.state.seen)
            && (final.failure.None? ==>
                  && |st.queue| <= |polled| && polled[..|st.queue|] == st.queue
                  && forall x :: x in final.state.seen ==> x in done + polled)
    decreases |Targets(env.provider) - st.seen|, |st.queue|
  {
    if st.queue == [] {
      assert done + [] == done;
    } else {
      var q := st.queue;
      var r := Resolve(env, depth, st.(queue := q[1..]), q[0]);
      ResolveGrows(env, depth, st.(queue := q[1..]), q[0]);
      DrainTurn(env, depth, st);
      PolledTurn(env, depth, st);
      PollTurn(env.provider, st, r.state, done);
      if r.failure.Some? {
        HeadTaken(done, q, st.seen, r.state.seen);
        AppendAssoc(done, [q[0]], []);
        assert done + Polled(env, depth, st) == done + [q[0]] + [];
      } else {
        var rest := Polled(env, depth, r.state);
        PolledOnce(env, depth, r.state, done + [q[0]]);
        AppendAssoc(done, [q[0]], rest);
        assert done + Polled(env, depth, st) == done + [q[0]] + rest;
        if Drain(env, depth, r.state).failure.None? {
          QueueTakenInOrder(q, r.state.queue, rest);
        }
      }
    }
  }

  /**
   * One turn of the loop as the loop sees it: with `log` the suffixes taken so
   * far, the head joins the log, followed by what the rest of the run takes
   * unless resolving the head failed.
   */
  lemma PollStep(env: Env, depth: nat, st: Resolution, log: seq<string>)
    requires st.queue != []
    ensures var r := Resolve(env, depth, st.(queue := st.queue[1..]), st.queue[0]);
            && (r.failure.Some? ==> log + Polled(env, depth, st) == log + [st.queue[0]])
            && (r.failure.None? ==> log + Polled(env, depth, st) == (log + [st.queue[0]]) + Polled(env, depth, r.state))
  {
    var r := Resolve(env, depth, st.(queue := st.queue[1..]), st.queue[0]);
    PolledTurn(env, depth, st);
    if r.failure.Some? {
      assert [st.queue[0]] + [] == [st.queue[0]];
    } else {
      AppendAssoc(log, [st.queue[0]], Polled(env, depth, r.state));
    }
  }

  /** `Polled` unfolded once. */
  lemma PolledTurn(env: Env, depth: nat, st: Resolution)
    requires st.queue != []
    ensures var r := Resolve(env, depth, st.(queue := st.queue[1..]), st.queue[0]);
            Polled(env, depth, st) == [st.queue[0]] + (if r.failure.Some? then [] else Polled(env, depth, r.state))
  {
  }

  /** A failing turn: the head joins the suffixes taken, all of them seen. */
  lemma HeadTaken(done: seq<string>, q: seq<string>, seen: set<string>, seen': set<string>)
    requires q != [] && NoDuplicates(done + q) && Elements(done + q) == seen && seen <= seen'
    ensures NoDuplicates(done + [q[0]] + [])
    ensures forall x :: x in done + [q[0]] + [] ==> x in seen'
  {
    assert done + [q[0]] + [] == (done + q)[..|done| + 1];
    assert forall x :: x in done + [q[0]] + [] ==> x in done + q;
  }

  /** The head taken before a run that takes the rest of the queue first takes the queue in order. */
  lemma QueueTakenInOrder(q: seq<string>, queue': seq<string>, rest: seq<string>)
    requires q != [] && |q| - 1 <= |queue'| && queue'[..|q| - 1] == q[1..]
    requires |queue'| <= |rest| && rest[..|queue'|] == queue'
    ensures |q| <= |[q[0]] + rest| && ([q[0]] + rest)[..|q|] == q
  {
    assert ([q[0]] + rest)[..|q|] == [q[0]] + rest[..|q| - 1];
    assert rest[..|q| - 1] == queue'[..|q| - 1];
    assert q == [q[0]] + q[1..];
  }


  /** The state `getVariants` starts its loop from: explicit variants first, the queue holding `""`. */
  function InitialResolution(f: Facts, hostclasses: Option<seq<string>>, userclasses: Option<seq<string>>): Resolution {
    WithVariants(Resolution([], {}, [""], {""}, hostclasses, userclasses), f.explicit)
  }

  /** The whole of `getVariants` on its first call. */
  function ResolveAll(env: Env, depth: nat, hostclasses: Option<seq<string>>, userclasses: Option<seq<string>>): Run {
    Drain(env, depth, InitialResolution(env.facts, hostclasses, userclasses))
  }

  /**
   * The resolved variant list starts with the explicit variants, is free of
   * duplicates, and holds every non-empty explicit variant.
   */
  lemma ExplicitVariantsFirst(env: Env, depth: nat, hostclasses: Option<seq<string>>, userclasses: Option<seq<string>>)
    ensures var st0 := InitialResolution(env.facts, hostclasses, userclasses);
            var r := ResolveAll(env, depth, hostclasses, userclasses);
            && r.state.variants[..|st0.variants|] == st0.variants
            && NoDuplicates(r.state.variants)
            && forall v :: v in JavaSplit(env.facts.explicit, ':') && v != "" ==> v in r.state.variants
  {
    var st0 := InitialResolution(env.facts, hostclasses, userclasses);
    var empty := Resolution([], {}, [""], {""}, hostclasses, userclasses);
    assert Synced(empty.variants, empty.duplicates) by {
      assert Elements<string>([]) == {};
    }
    WithVariantsGrows(env.provider, empty, env.facts.explicit);
    var r := ResolveAll(env, depth, hostclasses, userclasses);
    forall v | v in JavaSplit(env.facts.explicit, ':') && v != ""
      ensures v in r.state.variants
    {
      assert v in st0.variants;
      var k :| 0 <= k < |st0.variants| && st0.variants[k] == v;
      assert r.state.variants[k] == st0.variants[k];
    }
  }

  /**
   * `getVariants` resolves the empty suffix first and every other suffix at
   * most once; without error it resolves every suffix it queued.
   */
  lemma ResolveAllResolvesEachSuffixOnce(env: Env, depth: nat, hostclasses: Option<seq<string>>, userclasses: Option<seq<string>>)
    ensures var polled := Polled(env, depth, InitialResolution(env.facts, hostclasses, userclasses));
            var r := ResolveAll(env, depth, hostclasses, userclasses);
            && polled != [] && polled[0] == ""
            && NoDuplicates(polled)
            && (forall x :: x in polled ==> x in r.state.seen)
            && (r.failure.None? ==> forall x :: x in r.state.seen ==> x in polled)
  {
    var st0 := InitialResolution(env.facts, hostclasses, userclasses);
    assert st0.queue == [""] && st0.seen == {""};
    assert Elements([""]) == {""};
    PolledOnce(env, depth, st0, []);
    DrainTurn(env, depth, st0);
    assert [] + Polled(env, depth, st0) == Polled(env, depth, st0);
  }
}
