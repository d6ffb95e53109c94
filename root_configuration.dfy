/**
 * `RootConfiguration`: the process-wide configuration state.
 *
 * The static fields of the Java class become the fields of one
 * `RootConfiguration` object: the start-up parameters the setters and the
 * command line fill in, the host and user classes and the variant list that
 * variant resolution computes, and the root property tables. The methods
 * follow the Java methods statement by statement and are proved equal to the
 * pure definitions of `VariantRules` and `Evaluation`.
 */
module RootConfig {
  import opened Support
  import opened Text
  import opened VariantRules
  import opened Evaluation

  // ---------------------------------------------------------------------------------------------
  // decode and join

  /** `decode`: each `%HH` is replaced by the character it denotes, the rest is copied. */
  method Decode(s: string) returns (r: string)
    ensures r == Decoded(s)
  {
    r := "";
    var i := 0;
    while i < |s|
      invariant 0 <= i <= |s|
      invariant r + Decoded(s[i..]) == Decoded(s)
      decreases |s| - i
    {
      ghost var t := s[i..];
      if i + 3 <= |s| && s[i] == '%' && IsHexDigit(s[i + 1]) && IsHexDigit(s[i + 2]) {
        var c := (16 * HexValue(s[i + 1]) + HexValue(s[i + 2])) as char;
        assert t[0] == '%' && t[1] == s[i + 1] && t[2] == s[i + 2] && t[3..] == s[i + 3..];
        assert Decoded(t) == [c] + Decoded(s[i + 3..]);
        AppendAssoc(r, [c], Decoded(s[i + 3..]));
        r := r + [c];
        i := i + 3;
      } else {
        assert t[0] == s[i] && t[1..] == s[i + 1..];
        assert Decoded(t) == [s[i]] + Decoded(s[i + 1..]);
        AppendAssoc(r, [s[i]], Decoded(s[i + 1..]));
        r := r + [s[i]];
        i := i + 1;
      }
    }
    assert s[i..] == [];
  }

  lemma JoinAppend(xs: seq<string>, x: string, sep: char)
    ensures JoinWith(xs + [x], sep) == if xs == [] then x else JoinWith(xs, sep) + [sep] + x
    decreases |xs|
  {
    if |xs| >= 2 {
      JoinAppend(xs[1..], x, sep);
      assert (xs + [x])[1..] == xs[1..] + [x];
    } else if |xs| == 1 {
      assert (xs + [x])[1..] == [x];
    }
  }

  /** `join`: the strings separated by ':', the empty string for a null list. */
  method Join(strings: Option<seq<string>>) returns (r: string)
    ensures r == JoinWith(strings.GetOr([]), ':')
  {
    r := "";
    var first := true;
    if strings.Some? {
      var xs := strings.value;
      var i := 0;
      while i < |xs|
        invariant 0 <= i <= |xs|
        invariant first <==> i == 0
        invariant r == JoinWith(xs[..i], ':')
      {
        JoinAppend(xs[..i], xs[i], ':');
        assert xs[..i + 1] == xs[..i] + [xs[i]];
        if !first {
          r := r + ":";
        }
        first := false;
        r := r + xs[i];
        i := i + 1;
      }
      assert xs[..i] == xs;
    }
  }

  /** A joined list of ':'-free strings splits back into the list. */
  lemma JoinedVariantsSplit(xs: seq<string>)
    requires |xs| >= 1 && forall i :: 0 <= i < |xs| ==> ':' !in xs[i]
    ensures SplitAll(JoinWith(xs, ':'), ':') == xs
  {
    SplitJoin(xs, ':');
  }

  // ---------------------------------------------------------------------------------------------
  // addTo

  /** `current` followed by ":a" for every non-empty `a` of `adds` that is not among `cs`. */
  function AppendMissing(current: string, cs: seq<string>, adds: seq<string>): (r: string)
    ensures |current| <= |r| && r[..|current|] == current
    decreases |adds|
  {
    if adds == [] then current
    else
      var prev := AppendMissing(current, cs, adds[..|adds| - 1]);
      var a := adds[|adds| - 1];
      if a != "" && a !in cs then
        assert (prev + ":" + a)[..|current|] == prev[..|current|];
        prev + ":" + a
      else prev
  }

  /** One more entry: `AppendMissing` on `adds + [a]` from `AppendMissing` on `adds`. */
  lemma AppendMissingStep(current: string, cs: seq<string>, adds: seq<string>, a: string)
    ensures AppendMissing(current, cs, adds + [a]) ==
            if a != "" && a !in cs then AppendMissing(current, cs, adds) + ":" + a
            else AppendMissing(current, cs, adds)
  {
    assert (adds + [a])[..|adds|] == adds;
  }

  /** The entries `AppendMissing` appends, in order. */
  function Missing(cs: seq<string>, adds: seq<string>): seq<string>
    decreases |adds|
  {
    if adds == [] then []
    else
      var a := adds[|adds| - 1];
      Missing(cs, adds[..|adds| - 1]) + (if a != "" && a !in cs then [a] else [])
  }

  /** The result of `addTo(current, additional, modified)`. */
  function AddedTo(current: Option<string>, additional: Option<string>): Option<string> {
    if additional.None? || additional.value == "" then current
    else if current.None? || current.value == "" then additional
    else Some(AppendMissing(current.value, JavaSplit(current.value, ':'), JavaSplit(additional.value, ':')))
  }

  /** `addTo`; its `modified` out-parameter is a local copy and never reaches the caller. */
  method AddTo(current: Option<string>, additional: Option<string>) returns (r: Option<string>)
    ensures r == AddedTo(current, additional)
  {
    if additional.None? || additional.value == "" {
      return current;
    }
    if current.None? || current.value == "" {
      return additional;
    }
    var cs := JavaSplit(current.value, ':');
    var adds := JavaSplit(additional.value, ':');
    var result := AppendEach(current.value, cs, adds);
    return Some(result);
  }

  /** The loop of `addTo`: each non-empty entry of `adds` not among `cs` is appended after a ':'. */
  method AppendEach(current: string, cs: seq<string>, adds: seq<string>) returns (result: string)
    ensures result == AppendMissing(current, cs, adds)
  {
    result := current;
    var i := 0;
    while i < |adds|
      invariant 0 <= i <= |adds|
      invariant result == AppendMissing(current, cs, adds[..i])
    {
      var a := adds[i];
      assert adds[..i + 1] == adds[..i] + [a];
      AppendMissingStep(current, cs, adds[..i], a);
      if a != "" {
        var contained := Contains(cs, a);
        if !contained {
          result := result + ":" + a;
        }
      }
      i := i + 1;
    }
    assert adds[..i] == adds;
  }

  /** The inner loop of `addTo`: whether `a` equals one of `cs`. */
  method Contains(cs: seq<string>, a: string) returns (contained: bool)
    ensures contained <==> a in cs
  {
    contained := false;
    var j := 0;
    while j < |cs|
      invariant 0 <= j <= |cs|
      invariant !contained && a !in cs[..j]
    {
      assert cs[..j + 1] == cs[..j] + [cs[j]];
      if cs[j] == a {
        contained := true;
        break;
      }
      j := j + 1;
    }
    assert contained || cs[..j] == cs;
  }

  lemma {:induction false} SplitConcat(x: string, sep: char, y: string)
    ensures SplitAll(x + [sep] + y, sep) == SplitAll(x, sep) + SplitAll(y, sep)
    decreases |x|
  {
    if x == [] {
      assert x + [sep] + y == [sep] + y;
      SplitSeparatorFirst(y, sep);
    } else {
      SplitConcat(x[1..], sep, y);
      SplitConcatStep(x[0], x[1..], sep, y);
      assert x == [x[0]] + x[1..];
    }
  }

  /** The inductive step of `SplitConcat`: one more character in front. */
  lemma SplitConcatStep(c: char, tail: string, sep: char, y: string)
    requires SplitAll(tail + [sep] + y, sep) == SplitAll(tail, sep) + SplitAll(y, sep)
    ensures SplitAll([c] + tail + [sep] + y, sep) == SplitAll([c] + tail, sep) + SplitAll(y, sep)
  {
    var rest := tail + [sep] + y;
    assert [c] + tail + [sep] + y == [c] + rest;
    if c == sep {
      SeparatorFirstConcat(tail, rest, sep, SplitAll(y, sep));
    } else {
      OtherFirstConcat(c, tail, rest, sep, SplitAll(y, sep));
    }
  }

  lemma SeparatorFirstConcat(tail: string, rest: string, sep: char, ys: seq<string>)
    requires SplitAll(rest, sep) == SplitAll(tail, sep) + ys
    ensures SplitAll([sep] + rest, sep) == SplitAll([sep] + tail, sep) + ys
  {
    SplitSeparatorFirst(tail, sep);
    SplitSeparatorFirst(rest, sep);
    AppendAssoc([""], SplitAll(tail, sep), ys);
  }

  lemma OtherFirstConcat(c: char, tail: string, rest: string, sep: char, ys: seq<string>)
    requires c != sep
    requires SplitAll(rest, sep) == SplitAll(tail, sep) + ys
    ensures SplitAll([c] + rest, sep) == SplitAll([c] + tail, sep) + ys
  {
    SplitOtherFirst(c, tail, sep);
    SplitOtherFirst(c, rest, sep);
    ExtendFirstField(c, SplitAll(tail, sep), ys);
  }

  /** Prefixing the first field commutes with appending further fields. */
  lemma ExtendFirstField(c: char, front: seq<string>, ys: seq<string>)
    requires |front| >= 1
    ensures var rest := front + ys;
            [[c] + rest[0]] + rest[1..] == ([[c] + front[0]] + front[1..]) + ys
  {
    var rest := front + ys;
    assert rest[0] == front[0];
    assert rest[1..] == front[1..] + ys;
  }

  /** A leading separator yields an empty first field. */
  lemma SplitSeparatorFirst(s: string, sep: char)
    ensures SplitAll([sep] + s, sep) == [""] + SplitAll(s, sep)
  {
    var t := [sep] + s;
    assert t[0] == sep && t[1..] == s;
  }

  /** Any other leading character joins the first field. */
  lemma SplitOtherFirst(c: char, s: string, sep: char)
    requires c != sep
    ensures SplitAll([c] + s, sep) == [[c] + SplitAll(s, sep)[0]] + SplitAll(s, sep)[1..]
  {
    var t := [c] + s;
    assert t[0] == c && t[1..] == s;
  }

  lemma {:induction false} AppendMissingFields(current: string, cs: seq<string>, adds: seq<string>)
    requires forall i :: 0 <= i < |adds| ==> ':' !in adds[i]
    ensures SplitAll(AppendMissing(current, cs, adds), ':') == SplitAll(current, ':') + Missing(cs, adds)
    decreases |adds|
  {
    if adds != [] {
      var init := adds[..|adds| - 1];
      var a := adds[|adds| - 1];
      AppendMissingFields(current, cs, init);
      if a != "" && a !in cs {
        var prev := AppendMissing(current, cs, init);
        assert AppendMissing(current, cs, adds) == prev + [':'] + a;
        assert Missing(cs, adds) == Missing(cs, init) + [a];
        SplitConcat(prev, ':', a);
        SplitWithoutSeparator(a, ':');
        AppendAssoc(SplitAll(current, ':'), Missing(cs, init), [a]);
      }
    }
  }

  lemma {:induction false} MissingHolds(cs: seq<string>, adds: seq<string>)
    ensures forall a :: a in adds && a != "" && a !in cs ==> a in Missing(cs, adds)
    decreases |adds|
  {
    if adds != [] {
      MissingHolds(cs, adds[..|adds| - 1]);
      assert adds == adds[..|adds| - 1] + [adds[|adds| - 1]];
    }
  }

  lemma JavaSplitFieldsAreFields(s: string, sep: char)
    ensures forall x :: x in JavaSplit(s, sep) ==> x in SplitAll(s, sep)
  {
    if s != "" && sep !in s {
      SplitWithoutSeparator(s, sep);
    }
  }

  /**
   * `addTo` keeps `current` as a prefix, its fields are those of `current`
   * followed by the new entries, and afterwards every non-empty entry of
   * `additional` is one of its fields.
   */
  lemma AddToMeaning(current: string, additional: string)
    requires current != "" && additional != ""
    ensures var r := AddedTo(Some(current), Some(additional)).value;
            && r[..|current|] == current
            && SplitAll(r, ':') == SplitAll(current, ':') + Missing(JavaSplit(current, ':'), JavaSplit(additional, ':'))
            && forall a :: a in JavaSplit(additional, ':') && a != "" ==> a in SplitAll(r, ':')
  {
    var cs := JavaSplit(current, ':');
    var adds := JavaSplit(additional, ':');
    var r := AppendMissing(current, cs, adds);
    AddedToBoth(current, additional);
    AppendMissingFields(current, cs, adds);
    AddedEntriesPresent(current, cs, adds, r);
  }

  lemma AddedToBoth(current: string, additional: string)
    requires current != "" && additional != ""
    ensures AddedTo(Some(current), Some(additional)) == Some(AppendMissing(current, JavaSplit(current, ':'), JavaSplit(additional, ':')))
  {
  }

  /** With the fields of `r` those of `current` followed by the missing entries, every entry is among them. */
  lemma AddedEntriesPresent(current: string, cs: seq<string>, adds: seq<string>, r: string)
    requires cs == JavaSplit(current, ':')
    requires SplitAll(r, ':') == SplitAll(current, ':') + Missing(cs, adds)
    ensures forall a :: a in adds && a != "" ==> a in SplitAll(r, ':')
  {
    MissingHolds(cs, adds);
    JavaSplitFieldsAreFields(current, ':');
    forall a | a in adds && a != ""
      ensures a in SplitAll(r, ':')
    {
      if a in cs {
        assert a in SplitAll(current, ':');
      } else {
        assert a in Missing(cs, adds);
      }
    }
  }

  /**
   * The entries of `current` are split once, so an entry that occurs twice in
   * `additional` and not in `current` is appended twice.
   */
  lemma AddToRepeatsNewEntries(current: string, a: string)
    requires current != "" && a != "" && ':' !in a && a !in JavaSplit(current, ':')
    ensures AddedTo(Some(current), Some(a + ":" + a)) == Some(current + ":" + a + ":" + a)
  {
    JavaSplitTwoFields(a, ':', a);
    assert a + ":" + a == a + [':'] + a;
    var cs := JavaSplit(current, ':');
    var adds := [a, a];
    assert adds[..1] == [a];
    assert adds[..1][..0] == [];
    var single := [a];
    assert single[..|single| - 1] == [];
    assert AppendMissing(current, cs, single[..|single| - 1]) == current;
    var once := AppendMissing(current, cs, single);
    assert once == current + ":" + a;
    assert AppendMissing(current, cs, adds) == once + ":" + a;
  }

  // ---------------------------------------------------------------------------------------------
  // Start-up parameters

  /** A null start-up parameter counts as the empty string. */
  function Norm(s: Option<string>): string {
    s.GetOr("")
  }

  /** Whether a setter completed or raised `ConfigurationAfterInitialisation`. */
  datatype Status = Done | AfterInitialisation

  /** The command-line switches `checkCommandLineArgs` recognises. */
  datatype Switch =
    | NameSwitch(value: string)
    | UINameSwitch(value: string)
    | DBNameSwitch(value: string)
    | VariantSwitch(value: string)
    | PropertySwitch(value: string)
    | DebuggerWait
    | Unrecognised

  /** `arg.matches("^" + prefix + ".*")`: `.` matches no line terminator. */
  predicate HasSwitch(arg: string, prefix: string) {
    StartsWith(arg, prefix) && forall k :: |prefix| <= k < |arg| ==> !IsLineTerminator(arg[k])
  }

  /** Which switch an argument is, checked in the order `checkCommandLineArgs` tries the switches. */
  function ClassifyArgument(arg: string): Switch {
    if HasSwitch(arg, "--configuration-name=") then NameSwitch(arg[21..])
    else if HasSwitch(arg, "--configuration-ui-name=") then UINameSwitch(arg[24..])
    else if HasSwitch(arg, "--configuration-db-name=") then DBNameSwitch(arg[24..])
    else if HasSwitch(arg, "--configuration-variant=") then VariantSwitch(arg[24..])
    else if HasSwitch(arg, "--property=") then PropertySwitch(arg[11..])
    else if arg == "--debugger-wait" then DebuggerWait
    else Unrecognised
  }

  /** The arguments that are no switch, in order. */
  function Unprocessed(args: seq<string>): seq<string>
    decreases |args|
  {
    if args == [] then []
    else
      var a := args[|args| - 1];
      Unprocessed(args[..|args| - 1]) + (if ClassifyArgument(a).Unrecognised? then [a] else [])
  }

  /** The start-up parameters the command line sets. */
  datatype Setup = Setup(
    name: Option<string>, uiName: Option<string>, dbName: Option<string>,
    explicit: Option<string>, overrides: Option<seq<string>>)

  /** The start-up parameters after the switches of `args`, before initialisation. */
  function AfterSwitches(s: Setup, args: seq<string>): Setup
    decreases |args|
  {
    if args == [] then s
    else AfterSwitch(AfterSwitches(s, args[..|args| - 1]), args[|args| - 1])
  }

  /** The start-up parameters after one argument, before initialisation. */
  function AfterSwitch(prev: Setup, arg: string): Setup {
    match ClassifyArgument(arg)
    case NameSwitch(v) => prev.(name := Some(v))
    case UINameSwitch(v) => prev.(uiName := AddedTo(prev.uiName, Some(v)))
    case DBNameSwitch(v) => prev.(dbName := AddedTo(prev.dbName, Some(v)))
    case VariantSwitch(v) => prev.(explicit := Some(v))
    case PropertySwitch(v) => prev.(overrides := Some(prev.overrides.GetOr([]) + [v]))
    case _ => prev
  }

  /** The `--property=` values of `args`, in order. */
  function PropertyValues(args: seq<string>): seq<string>
    decreases |args|
  {
    if args == [] then []
    else
      var prev := PropertyValues(args[..|args| - 1]);
      match ClassifyArgument(args[|args| - 1])
      case PropertySwitch(v) => prev + [v]
      case _ => prev
  }

  /** Each `--property=` switch appends its value to the recorded overrides. */
  lemma {:induction false} SwitchesRecordProperties(s: Setup, args: seq<string>)
    ensures AfterSwitches(s, args).overrides.GetOr([]) == s.overrides.GetOr([]) + PropertyValues(args)
    ensures PropertyValues(args) == [] ==> AfterSwitches(s, args).overrides == s.overrides
    decreases |args|
  {
    if args != [] {
      SwitchesRecordProperties(s, args[..|args| - 1]);
    }
  }

  // ---------------------------------------------------------------------------------------------
  // Property switches applied at initialisation

  /**
   * The root tables after the recorded `--property=key:value` values have been
   * applied in order, and the first value without a ':' if there is one (the
   * Java code fails on it, keeping the overrides set before it).
   */
  function WithPropertySwitches(t: Tables, switches: seq<string>): (Tables, Option<string>)
    decreases |switches|
  {
    if switches == [] then (t, None)
    else
      var (t1, failure) := WithPropertySwitches(t, switches[..|switches| - 1]);
      var last := switches[|switches| - 1];
      if failure.Some? then (t1, failure)
      else match SplitOnce(last, ':')
        case None => (t1, Some(last))
        case Some((name, value)) => (t1.(overrides := t1.overrides[name := value]), None)
  }

  /** The value of the last switch `k:value` among `switches`, if any switch names `k`. */
  function LastSwitchValue(switches: seq<string>, k: string): (r: Option<string>)
    ensures r.Some? ==> exists i :: 0 <= i < |switches| && SplitOnce(switches[i], ':') == Some((k, r.value))
    ensures r.None? ==> forall i :: 0 <= i < |switches| && SplitOnce(switches[i], ':').Some? ==> SplitOnce(switches[i], ':').value.0 != k
    decreases |switches|
  {
    if switches == [] then None
    else
      var front := switches[..|switches| - 1];
      assert forall i :: 0 <= i < |front| ==> front[i] == switches[i];
      match SplitOnce(switches[|switches| - 1], ':')
      case Some((name, value)) =>
        if name == k then Some(value) else LastSwitchValue(front, k)
      case None => LastSwitchValue(front, k)
  }

  /** Every key reads as its last switch's value, or as before when no switch names it; defaults untouched. */
  ghost predicate SwitchesRead(t: Tables, t': Tables, switches: seq<string>) {
    && t'.defaults == t.defaults
    && forall k :: t'.Get(k) == (if LastSwitchValue(switches, k).Some? then LastSwitchValue(switches, k) else t.Get(k))
  }

  /** `n` is the first switch without a ':'. */
  predicate FirstWithoutColon(switches: seq<string>, n: int) {
    0 <= n < |switches| && ':' !in switches[n] && forall i :: 0 <= i < n ==> ':' in switches[i]
  }

  /** Writing one more well-formed switch keeps every key reading as its last switch says. */
  lemma SwitchWriteReads(t: Tables, t1: Tables, front: seq<string>, last: string, name: string, value: string)
    requires SwitchesRead(t, t1, front) && SplitOnce(last, ':') == Some((name, value))
    ensures SwitchesRead(t, t1.(overrides := t1.overrides[name := value]), front + [last])
  {
    var sw := front + [last];
    assert sw[..|sw| - 1] == front;
    forall k
      ensures t1.(overrides := t1.overrides[name := value]).Get(k) ==
                (if LastSwitchValue(sw, k).Some? then LastSwitchValue(sw, k) else t.Get(k))
    {
      OverrideWrite(t1, name, value, k);
    }
  }

  lemma PropertySwitchStep(t: Tables, switches: seq<string>, i: nat)
    requires i < |switches|
    ensures var (t1, failure) := WithPropertySwitches(t, switches[..i]);
            WithPropertySwitches(t, switches[..i + 1]) ==
              if failure.Some? then (t1, failure)
              else match SplitOnce(switches[i], ':')
                case None => (t1, Some(switches[i]))
                case Some((name, value)) => (t1.(overrides := t1.overrides[name := value]), None)
  {
    assert switches[..i + 1][..i] == switches[..i];
  }

  lemma {:induction false} PropertySwitchesStop(t: Tables, switches: seq<string>, n: nat)
    requires n <= |switches| && WithPropertySwitches(t, switches[..n]).1.Some?
    ensures WithPropertySwitches(t, switches) == WithPropertySwitches(t, switches[..n])
    decreases |switches|
  {
    if n < |switches| {
      var front := switches[..|switches| - 1];
      assert front[..n] == switches[..n];
      PropertySwitchesStop(t, front, n);
    } else {
      assert switches[..n] == switches;
    }
  }

  /**
   * The switches fail iff one of them lacks a ':', and the failure names such a
   * switch; the defaults are never touched, and without a failure the last
   * switch's value is what its key reads.
   */
  lemma {:induction false} PropertySwitchesMeaning(t: Tables, switches: seq<string>)
    ensures var (t', failure) := WithPropertySwitches(t, switches);
            && t'.defaults == t.defaults
            && (failure.None? <==> forall i :: 0 <= i < |switches| ==> ':' in switches[i])
            && (failure.Some? ==> failure.value in switches && ':' !in failure.value)
            && (failure.None? && switches != [] ==>
                  var kv := SplitOnce(switches[|switches| - 1], ':').value;
                  t'.Get(kv.0) == Some(kv.1))
    decreases |switches|
  {
    if switches != [] {
      var front := switches[..|switches| - 1];
      PropertySwitchesMeaning(t, front);
      assert switches == front + [switches[|switches| - 1]];
      var (t1, failure) := WithPropertySwitches(t, front);
      if failure.Some? {
        assert failure.value in front;
      }
    }
  }

  /**
   * The whole table after the switches: without a failure every key reads as
   * the value of the last switch naming it, or as before when none does; a
   * failure is the first switch without ':', and the same holds for the
   * switches before it.
   */
  lemma {:induction false} PropertySwitchesTable(t: Tables, switches: seq<string>)
    ensures var (t', failure) := WithPropertySwitches(t, switches);
            && (failure.None? ==> SwitchesRead(t, t', switches))
            && (failure.Some? ==> exists n :: FirstWithoutColon(switches, n) && failure.value == switches[n] && SwitchesRead(t, t', switches[..n]))
    decreases |switches|
  {
    if switches == [] {
      assert SwitchesRead(t, t, switches);
    } else {
      var front := switches[..|switches| - 1];
      var last := switches[|switches| - 1];
      PropertySwitchesTable(t, front);
      assert switches == front + [last];
      var (t1, failure) := WithPropertySwitches(t, front);
      if failure.Some? {
        var n :| FirstWithoutColon(front, n) && failure.value == front[n] && SwitchesRead(t, t1, front[..n]);
        assert front[..n] == switches[..n];
        assert FirstWithoutColon(switches, n);
      } else {
        match SplitOnce(last, ':')
        case None =>
          PropertySwitchesMeaning(t, front);
          assert switches[..|switches| - 1] == front;
          assert FirstWithoutColon(switches, |switches| - 1);
        case Some((name, value)) =>
          SwitchWriteReads(t, t1, front, last, name, value);
      }
    }
  }

  // ---------------------------------------------------------------------------------------------
  // Variant resolution state

  /** The lists and sets `getVariants` creates and passes down to every parse. */
  class Accumulator {
    var variants: seq<string>
    var duplicates: set<string>
    var queue: seq<string>
    var seen: set<string>

    constructor()
      ensures variants == [] && duplicates == {} && queue == [] && seen == {}
    {
      variants := [];
      duplicates := {};
      queue := [];
      seen := {};
    }
  }

  class RootConfiguration {
    var initialised: bool
    var configurationName: Option<string>
    var configurationUIName: Option<string>
    var configurationDBName: Option<string>
    var explicitVariant: Option<string>
    var clargProperties: Option<seq<string>>

    var hostclasses: Option<seq<string>>
    var userclasses: Option<seq<string>>
    var configurationVariants: Option<seq<string>>
    var variantsLoaded: bool

    /** `properties` (the overrides) and `default_properties`. */
    var overrides: map<string, string>
    var defaults: map<string, string>
    /** The registered JavaScript evaluator, if any. */
    var evaluator: Option<Script>

    /** The facts `prepareBasicParameters` discovers about the running system. */
    const host: string
    const user: string
    const os: string
    const osversion: string
    const javaversion: string
    /** `String.matches`. */
    const matcher: Matcher
    /** The variant files of every suffix: the resource first, then the configuration folders. */
    const provider: Provider
    /** How deep `@include.immediately` may nest. */
    const includeDepth: nat

    constructor(host: string, user: string, os: string, osversion: string, javaversion: string,
                matcher: Matcher, provider: Provider, includeDepth: nat)
      ensures !initialised && !variantsLoaded
      ensures configurationName.None? && configurationUIName.None? && configurationDBName.None?
      ensures explicitVariant.None? && clargProperties.None?
      ensures hostclasses.None? && userclasses.None? && configurationVariants.None?
      ensures overrides == map[] && defaults == map[] && evaluator.None?
      ensures this.host == host && this.user == user && this.os == os
      ensures this.osversion == osversion && this.javaversion == javaversion
      ensures this.matcher == matcher && this.provider == provider && this.includeDepth == includeDepth
    {
      this.host := host;
      this.user := user;
      this.os := os;
      this.osversion := osversion;
      this.javaversion := javaversion;
      this.matcher := matcher;
      this.provider := provider;
      this.includeDepth := includeDepth;
      initialised := false;
      configurationName := None;
      configurationUIName := None;
      configurationDBName := None;
      explicitVariant := None;
      clargProperties := None;
      hostclasses := None;
      userclasses := None;
      configurationVariants := None;
      variantsLoaded := false;
      overrides := map[];
      defaults := map[];
      evaluator := None;
    }

    // -------------------------------------------------------------------------------------------
    // Setters

    /** `checkInitialisation`: a modification after initialisation is refused. */
    method CheckInitialisation(modified: bool) returns (s: Status)
      ensures s == AfterInitialisation <==> modified && initialised
    {
      if modified && initialised {
        return AfterInitialisation;
      }
      return Done;
    }

    /** `canSet`: null and "" are the same value; a change after initialisation is refused. */
    method CanSet(current: Option<string>, value: Option<string>) returns (s: Status)
      ensures s == AfterInitialisation <==> initialised && Norm(current) != Norm(value)
    {
      var modified := false;
      if value.None? || value.value == "" {
        modified := !(current.None? || current.value == "");
      } else {
        if current.None? || current.value == "" {
          modified := true;
        } else {
          modified := current.value != value.value;
        }
      }
      s := CheckInitialisation(modified);
    }

    method SetConfigurationName(value: Option<string>) returns (s: Status)
      modifies this`configurationName
      ensures s == AfterInitialisation <==> initialised && Norm(old(configurationName)) != Norm(value)
      ensures configurationName == if s == Done then value else old(configurationName)
    {
      s := CanSet(configurationName, value);
      if s == Done {
        configurationName := value;
      }
    }

    /** `setConfigurationUIName`: the names are merged with `addTo`; it never refuses. */
    method SetConfigurationUIName(value: Option<string>) returns (s: Status)
      modifies this`configurationUIName
      ensures s == Done
      ensures configurationUIName == AddedTo(old(configurationUIName), value)
    {
      var modified := false;
      configurationUIName := AddTo(configurationUIName, value);
      s := CheckInitialisation(modified);
    }

    method SetConfigurationDBName(value: Option<string>) returns (s: Status)
      modifies this`configurationDBName
      ensures s == Done
      ensures configurationDBName == AddedTo(old(configurationDBName), value)
    {
      var modified := false;
      configurationDBName := AddTo(configurationDBName, value);
      s := CheckInitialisation(modified);
    }

    method SetExplicitConfigurationVariant(value: Option<string>) returns (s: Status)
      modifies this`explicitVariant
      ensures s == AfterInitialisation <==> initialised && Norm(old(explicitVariant)) != Norm(value)
      ensures explicitVariant == if s == Done then value else old(explicitVariant)
    {
      s := CanSet(explicitVariant, value);
      if s == Done {
        explicitVariant := value;
      }
    }

    method AppendExplicitConfigurationVariant(value: Option<string>) returns (s: Status)
      modifies this`explicitVariant
      ensures s == Done
      ensures explicitVariant == AddedTo(old(explicitVariant), value)
    {
      var modified := false;
      explicitVariant := AddTo(explicitVariant, value);
      s := CheckInitialisation(modified);
    }

    /** `setPropertyOverride`: the `name:value` text is recorded for initialisation. */
    method SetPropertyOverride(o: string)
      modifies this`clargProperties
      ensures clargProperties == Some(old(clargProperties).GetOr([]) + [o])
    {
      if clargProperties.None? {
        clargProperties := Some([]);
      }
      clargProperties := Some(clargProperties.value + [o]);
    }

    /** One argument of `checkCommandLineArgs`: a switch goes to its setter, anything else is left alone. */
    method ApplySwitch(arg: string) returns (s: Status)
      modifies this`configurationName, this`configurationUIName, this`configurationDBName,
               this`explicitVariant, this`clargProperties
      ensures !initialised ==> s == Done && CurrentSetup() == AfterSwitch(old(CurrentSetup()), arg)
      ensures !ClassifyArgument(arg).NameSwitch? && !ClassifyArgument(arg).VariantSwitch? ==> s == Done
    {
      s := Done;
      match ClassifyArgument(arg) {
        case NameSwitch(v) =>
          s := SetConfigurationName(Some(v));
        case UINameSwitch(v) =>
          s := SetConfigurationUIName(Some(v));
        case DBNameSwitch(v) =>
          s := SetConfigurationDBName(Some(v));
        case VariantSwitch(v) =>
          s := SetExplicitConfigurationVariant(Some(v));
        case PropertySwitch(v) =>
          SetPropertyOverride(v);
        case DebuggerWait =>
        case Unrecognised =>
      }
    }

    ghost function CurrentSetup(): Setup
      reads this`configurationName, this`configurationUIName, this`configurationDBName,
            this`explicitVariant, this`clargProperties
    {
      Setup(configurationName, configurationUIName, configurationDBName, explicitVariant, clargProperties)
    }

    /**
     * `checkCommandLineArgs`: the switches set the start-up parameters in
     * order and the other arguments are returned. After initialisation a
     * setter may refuse, which ends the processing.
     */
    method CheckCommandLineArgs(args: seq<string>) returns (unprocessed: seq<string>, s: Status)
      modifies this`configurationName, this`configurationUIName, this`configurationDBName,
               this`explicitVariant, this`clargProperties
      ensures s == Done ==> unprocessed == Unprocessed(args)
      ensures !initialised ==> s == Done && CurrentSetup() == AfterSwitches(old(CurrentSetup()), args)
    {
      unprocessed := [];
      s := Done;
      var i := 0;
      while i < |args|
        invariant 0 <= i <= |args|
        invariant s == Done
        invariant unprocessed == Unprocessed(args[..i])
        invariant !initialised ==> CurrentSetup() == AfterSwitches(old(CurrentSetup()), args[..i])
      {
        assert args[..i + 1][..i] == args[..i];
        var arg := args[i];
        assert args[..i + 1][i] == arg;
        s := ApplySwitch(arg);
        if s == AfterInitialisation {
          return;
        }
        if ClassifyArgument(arg).Unrecognised? {
          unprocessed := unprocessed + [arg];
        }
        i := i + 1;
      }
      assert args[..i] == args;
    }

    // -------------------------------------------------------------------------------------------
    // Variant resolution

    /** The facts the rules are evaluated against, once `prepareBasicParameters` has run. */
    ghost function Environment(): Env
      reads this`configurationName, this`configurationUIName, this`configurationDBName, this`explicitVariant
    {
      Env(matcher, provider,
          Facts(host, user, os, osversion, javaversion, Norm(configurationName), Norm(configurationUIName),
                Norm(configurationDBName), Norm(explicitVariant)))
    }

    /** The resolution state: the accumulator's lists and sets and the host and user classes. */
    ghost function Snapshot(acc: Accumulator): Resolution
      reads this`hostclasses, this`userclasses, acc
    {
      Resolution(acc.variants, acc.duplicates, acc.queue, acc.seen, hostclasses, userclasses)
    }

    /** `addVariants`: appends the new non-empty ':'-separated entries of `variantString`. */
    method AddVariants(acc: Accumulator, variantString: string)
      modifies acc`variants, acc`duplicates
      ensures Snapshot(acc) == WithVariants(old(Snapshot(acc)), variantString)
    {
      if variantString != "" {
        var tokens := JavaSplit(variantString, ':');
        var i := 0;
        while i < |tokens|
          invariant 0 <= i <= |tokens|
          invariant (acc.variants, acc.duplicates) == Added(old(acc.variants), old(acc.duplicates), tokens[..i])
        {
          var variant := tokens[i];
          assert tokens[..i + 1] == tokens[..i] + [variant];
          AddedStep(old(acc.variants), old(acc.duplicates), tokens[..i], variant);
          if variant != "" && variant !in acc.duplicates {
            acc.variants := acc.variants + [variant];
            acc.duplicates := acc.duplicates + {variant};
          }
          i := i + 1;
        }
        assert tokens[..i] == tokens;
      }
    }

    /** `matches`: whether some string of the list matches the pattern; a null list never does. */
    method Matches(strings: Option<seq<string>>, pattern: string) returns (b: bool)
      ensures b == AnyMatches(matcher, strings, pattern)
    {
      if strings.Some? {
        var i := 0;
        while i < |strings.value|
          invariant 0 <= i <= |strings.value|
          invariant forall j :: 0 <= j < i ==> !matcher(strings.value[j], pattern)
        {
          if matcher(strings.value[i], pattern) {
            return true;
          }
          i := i + 1;
        }
      }
      return false;
    }

    /** The `ui`, `db` and `variants` tests: some name matches `inc`, and the first match of `exc` ends the scan. */
    method ListRuleHolds(names: seq<string>, inc: string, exc: Option<string>) returns (accept: bool)
      ensures accept == ListAccepts(matcher, names, inc, exc)
    {
      var gotInc := false;
      var gotExc := false;
      var i := 0;
      while i < |names|
        invariant 0 <= i <= |names|
        invariant gotInc <==> exists j :: 0 <= j < i && matcher(names[j], inc)
        invariant forall j :: 0 <= j < i ==> !(exc.Some? && matcher(names[j], exc.value))
        invariant !gotExc
      {
        gotInc := gotInc || matcher(names[i], inc);
        gotExc := exc.Some? && matcher(names[i], exc.value);
        if gotExc {
          return false;
        }
        i := i + 1;
      }
      return gotInc && !gotExc;
    }

    /** One key `attr:inc[:exc]` of a rule line. */
    method KeyHolds(acc: Accumulator, attr: string, inc: string, exc: Option<string>) returns (accept: bool)
      ensures accept == KeyAccepts(Environment(), Snapshot(acc), attr, inc, exc)
    {
      if attr == "host" {
        accept := !(!matcher(host, inc) || (exc.Some? && matcher(host, exc.value)));
      } else if attr == "hostclass" {
        var included := Matches(hostclasses, inc);
        var excluded := false;
        if exc.Some? {
          excluded := Matches(hostclasses, exc.value);
        }
        accept := included && !excluded;
      } else if attr == "user" {
        accept := !(!matcher(user, inc) || (exc.Some? && matcher(user, exc.value)));
      } else if attr == "userclass" {
        var included := Matches(userclasses, inc);
        var excluded := false;
        if exc.Some? {
          excluded := Matches(userclasses, exc.value);
        }
        accept := included && !excluded;
      } else if attr == "os" {
        accept := !(!matcher(os, inc) || (exc.Some? && matcher(os, exc.value)));
      } else if attr == "osversion" {
        accept := !(!matcher(osversion, inc) || (exc.Some? && matcher(osversion, exc.value)));
      } else if attr == "javaversion" {
        accept := !(!matcher(javaversion, inc) || (exc.Some? && matcher(javaversion, exc.value)));
      } else if attr == "configuration" {
        var name := Norm(configurationName);
        accept := !(!matcher(name, inc) || (exc.Some? && matcher(name, exc.value)));
      } else if attr == "ui" {
        accept := ListRuleHolds(JavaSplit(Norm(configurationUIName), ':'), inc, exc);
      } else if attr == "db" {
        accept := ListRuleHolds(JavaSplit(Norm(configurationDBName), ':'), inc, exc);
      } else if attr == "variants" {
        var explicit := Norm(explicitVariant);
        if explicit == "" {
          accept := !(!matcher(explicit, inc) || (exc.Some? && matcher(explicit, exc.value)));
        } else {
          accept := ListRuleHolds(acc.variants, inc, exc);
        }
      } else {
        accept := true;
      }
    }

    /** The key loop of a rule line: the first malformed or failing key decides. */
    method EvalRule(acc: Accumulator, keys: seq<string>) returns (v: Verdict)
      ensures v == EvalKeys(Environment(), Snapshot(acc), keys)
    {
      var i := 0;
      while i < |keys|
        invariant 0 <= i <= |keys|
        invariant EvalKeys(Environment(), Snapshot(acc), keys) == EvalKeys(Environment(), Snapshot(acc), keys[i..])
      {
        assert keys[i..][1..] == keys[i + 1..];
        if keys[i] != "" {
          var rule := SplitAll(keys[i], ':');
          if |rule| != 2 && |rule| != 3 {
            return Bad(BadRuleArity);
          }
          if rule[0] == "" {
            return Bad(EmptyRuleAttribute);
          }
          var accept := KeyHolds(acc, rule[0], rule[1], if |rule| == 3 then Some(rule[2]) else None);
          if !accept {
            return Reject;
          }
        }
        i := i + 1;
      }
      return Pass;
    }

    /** The `@hostclass:`/`@userclass:` entry loop. */
    static method RecordClass(classes: Option<seq<string>>, className: string, entries: seq<string>, fact: string)
      returns (r: Option<seq<string>>)
      ensures r == AppendClass(classes, className, entries, fact)
    {
      r := classes;
      var j := 0;
      while j < |entries|
        invariant 0 <= j <= |entries|
        invariant r == AppendClass(classes, className, entries[..j], fact)
      {
        assert entries[..j + 1][..j] == entries[..j];
        if entries[j] != "" && entries[j] == fact {
          if r.None? {
            r := Some([]);
          }
          r := Some(r.value + [className]);
        }
        j := j + 1;
      }
      assert entries[..j] == entries;
    }

    /** `@include.afterwards`: queue each target not seen before. */
    method EnqueueAfterwards(acc: Accumulator, targets: seq<string>)
      modifies acc`queue, acc`seen
      ensures (acc.queue, acc.seen) == Enqueued(old(acc.queue), old(acc.seen), targets)
    {
      var k := 0;
      while k < |targets|
        invariant 0 <= k <= |targets|
        invariant (acc.queue, acc.seen) == Enqueued(old(acc.queue), old(acc.seen), targets[..k])
      {
        assert targets[..k + 1][..k] == targets[..k];
        if targets[k] !in acc.seen {
          acc.queue := acc.queue + [targets[k]];
          acc.seen := acc.seen + {targets[k]};
        }
        k := k + 1;
      }
      assert targets[..k] == targets;
    }

    /** `@include.immediately`: each target is resolved on the spot, one level deeper. */
    method IncludeImmediately(acc: Accumulator, depth: nat, source: string, line: nat, targets: seq<string>)
      returns (failure: Option<ConfigError>)
      modifies this`hostclasses, this`userclasses, acc
      ensures Run(Snapshot(acc), failure) == IncludeEach(Environment(), depth, old(Snapshot(acc)), source, line, targets, |targets|)
      decreases depth, 0
    {
      var k := 0;
      while k < |targets|
        invariant 0 <= k <= |targets|
        invariant Run(Snapshot(acc), None) == IncludeEach(Environment(), depth, old(Snapshot(acc)), source, line, targets, k)
      {
        if depth == 0 {
          failure := Some(ConfigError(source, line, IncludeTooDeep));
          IncludeEachStops(Environment(), depth, old(Snapshot(acc)), source, line, targets, k + 1, |targets|);
          return;
        }
        failure := TryConfiguration(acc, depth - 1, targets[k]);
        if failure.Some? {
          IncludeEachStops(Environment(), depth, old(Snapshot(acc)), source, line, targets, k + 1, |targets|);
          return;
        }
        k := k + 1;
      }
      return None;
    }

    /** The body of the line loop of `parseVariantFile`, for line `i` (numbered from 1 in errors). */
    method ProcessLine(acc: Accumulator, depth: nat, source: string, lineNumber: nat, line: string)
      returns (failure: Option<ConfigError>)
      modifies this`hostclasses, this`userclasses, acc
      ensures Run(Snapshot(acc), failure) == Apply(Environment(), depth, old(Snapshot(acc)), source, lineNumber, Classify(line))
      decreases depth, 4
    {
      if IsBlank(line) || IsComment(line) {
        return None;
      }
      failure := ProcessContentLine(acc, depth, source, lineNumber, line);
    }

    /** A line that is neither blank nor a comment must hold exactly one '='. */
    method ProcessContentLine(acc: Accumulator, depth: nat, source: string, lineNumber: nat, line: string)
      returns (failure: Option<ConfigError>)
      requires !IsBlank(line) && !IsComment(line)
      modifies this`hostclasses, this`userclasses, acc
      ensures Run(Snapshot(acc), failure) == Apply(Environment(), depth, old(Snapshot(acc)), source, lineNumber, Classify(line))
      decreases depth, 3
    {
      var keyval := SplitAll(line, '=');
      if |keyval| != 2 {
        return Some(ConfigError(source, lineNumber, ExpectedOneSeparator));
      }
      failure := ProcessPair(acc, depth, source, lineNumber, keyval[0], keyval[1]);
    }

    /** A `key=value` line: class definitions, includes, and rules. */
    method ProcessPair(acc: Accumulator, depth: nat, source: string, lineNumber: nat, key: string, value: string)
      returns (failure: Option<ConfigError>)
      modifies this`hostclasses, this`userclasses, acc
      ensures Run(Snapshot(acc), failure) == Apply(Environment(), depth, old(Snapshot(acc)), source, lineNumber, ClassifyPair(key, value))
      decreases depth, 2
    {
      if StartsWith(key, "@hostclass:") || StartsWith(key, "@userclass:") {
        failure := ProcessClassLine(acc, depth, source, lineNumber, key, value);
      } else if key == "@include.immediately" || key == "@include.afterwards" {
        assert !StartsWith(key, "@hostclass:") && !StartsWith(key, "@userclass:");
        failure := ProcessIncludeLine(acc, depth, source, lineNumber, key, value);
      } else {
        assert ClassifyPair(key, value) == Rule(SplitAll(key, ','), value);
        failure := ApplyRule(acc, source, lineNumber, SplitAll(key, ','), value);
      }
    }

    /** An `@hostclass:` or `@userclass:` line: the class name must not be empty. */
    method ProcessClassLine(acc: Accumulator, depth: nat, source: string, lineNumber: nat, key: string, value: string)
      returns (failure: Option<ConfigError>)
      requires StartsWith(key, "@hostclass:") || StartsWith(key, "@userclass:")
      modifies this`hostclasses, this`userclasses
      ensures Run(Snapshot(acc), failure) == Apply(Environment(), depth, old(Snapshot(acc)), source, lineNumber, ClassifyPair(key, value))
    {
      if StartsWith(key, "@hostclass:") {
        var hostClass := key[11..];
        if hostClass == "" {
          assert ClassifyPair(key, value) == Malformed(EmptyHostClass);
          return Some(ConfigError(source, lineNumber, EmptyHostClass));
        }
        assert ClassifyPair(key, value) == HostClass(hostClass, JavaSplit(value, ','));
        hostclasses := RecordClass(hostclasses, hostClass, JavaSplit(value, ','), host);
        return None;
      }
      var userClass := key[11..];
      if userClass == "" {
        assert ClassifyPair(key, value) == Malformed(EmptyUserClass);
        return Some(ConfigError(source, lineNumber, EmptyUserClass));
      }
      assert ClassifyPair(key, value) == UserClass(userClass, JavaSplit(value, ','));
      userclasses := RecordClass(userclasses, userClass, JavaSplit(value, ','), user);
      return None;
    }

    /** An `@include.immediately` or `@include.afterwards` line. */
    method ProcessIncludeLine(acc: Accumulator, depth: nat, source: string, lineNumber: nat, key: string, value: string)
      returns (failure: Option<ConfigError>)
      requires key == "@include.immediately" || key == "@include.afterwards"
      requires !StartsWith(key, "@hostclass:") && !StartsWith(key, "@userclass:")
      modifies this`hostclasses, this`userclasses, acc
      ensures Run(Snapshot(acc), failure) == Apply(Environment(), depth, old(Snapshot(acc)), source, lineNumber, ClassifyPair(key, value))
      decreases depth, 1
    {
      var targets := NonEmptyFields(value, ',');
      if key == "@include.immediately" {
        assert ClassifyPair(key, value) == IncludeNow(targets);
        failure := IncludeImmediately(acc, depth, source, lineNumber, targets);
      } else {
        assert ClassifyPair(key, value) == IncludeLater(targets);
        EnqueueAfterwards(acc, targets);
        failure := None;
      }
    }

    /** A rule line: its variants are added when every key holds. */
    method ApplyRule(acc: Accumulator, source: string, lineNumber: nat, keys: seq<string>, value: string)
      returns (failure: Option<ConfigError>)
      modifies acc`variants, acc`duplicates
      ensures forall depth: nat :: Run(Snapshot(acc), failure) == Apply(Environment(), depth, old(Snapshot(acc)), source, lineNumber, Rule(keys, value))
    {
      var verdict := EvalRule(acc, keys);
      match verdict {
        case Bad(kind) =>
          return Some(ConfigError(source, lineNumber, kind));
        case Reject =>
          return None;
        case Pass =>
          AddVariants(acc, value);
          return None;
      }
    }

    /** `parseVariantFile`: the lines in order, stopping at the first error. */
    method ParseVariantFile(acc: Accumulator, depth: nat, doc: Document) returns (failure: Option<ConfigError>)
      modifies this`hostclasses, this`userclasses, acc
      ensures Run(Snapshot(acc), failure) == ParseLines(Environment(), depth, old(Snapshot(acc)), doc.source, Directives(doc.lines), |doc.lines|)
      decreases depth, 5, 1
    {
      ghost var dirs := Directives(doc.lines);
      var i := 0;
      while i < |doc.lines|
        invariant 0 <= i <= |doc.lines|
        invariant Run(Snapshot(acc), None) == ParseLines(Environment(), depth, old(Snapshot(acc)), doc.source, dirs, i)
      {
        failure := ParseLineAt(acc, depth, doc, i, old(Snapshot(acc)));
        if failure.Some? {
          ParseLinesStops(Environment(), depth, old(Snapshot(acc)), doc.source, dirs, i + 1, |doc.lines|);
          return;
        }
        i := i + 1;
      }
      return None;
    }

    /** One turn of the line loop of `parseVariantFile`: line `i` extends `ParseLines` by its directive. */
    method ParseLineAt(acc: Accumulator, depth: nat, doc: Document, i: nat, ghost start: Resolution) returns (failure: Option<ConfigError>)
      requires i < |doc.lines|
      requires Run(Snapshot(acc), None) == ParseLines(Environment(), depth, start, doc.source, Directives(doc.lines), i)
      modifies this`hostclasses, this`userclasses, acc
      ensures Run(Snapshot(acc), failure) == ParseLines(Environment(), depth, start, doc.source, Directives(doc.lines), i + 1)
      decreases depth, 5, 0
    {
      DirectivesAt(doc.lines, i);
      failure := ProcessLine(acc, depth, doc.source, i + 1, doc.lines[i]);
    }

    /** `tryConfiguration`: the files of one suffix, the resource first and then the folders. */
    method TryConfiguration(acc: Accumulator, depth: nat, variant: string) returns (failure: Option<ConfigError>)
      modifies this`hostclasses, this`userclasses, acc
      ensures Run(Snapshot(acc), failure) == Resolve(Environment(), depth, old(Snapshot(acc)), variant)
      decreases depth, 6
    {
      var docs := DocumentsFor(provider, variant);
      var j := 0;
      while j < |docs|
        invariant 0 <= j <= |docs|
        invariant Run(Snapshot(acc), None) == ParseDocuments(Environment(), depth, old(Snapshot(acc)), variant, j)
      {
        failure := ParseVariantFile(acc, depth, docs[j]);
        if failure.Some? {
          ParseDocumentsStops(Environment(), depth, old(Snapshot(acc)), variant, j + 1, |docs|);
          return;
        }
        j := j + 1;
      }
      return None;
    }

    /** The part of `prepareBasicParameters` that touches the start-up parameters: null becomes "". */
    method PrepareBasicParameters()
      modifies this`configurationName, this`configurationUIName, this`configurationDBName, this`explicitVariant
      ensures configurationName == Some(Norm(old(configurationName)))
      ensures configurationUIName == Some(Norm(old(configurationUIName)))
      ensures configurationDBName == Some(Norm(old(configurationDBName)))
      ensures explicitVariant == Some(Norm(old(explicitVariant)))
    {
      if configurationName.None? {
        configurationName := Some("");
      }
      if configurationUIName.None? {
        configurationUIName := Some("");
      }
      if configurationDBName.None? {
        configurationDBName := Some("");
      }
      if explicitVariant.None? {
        explicitVariant := Some("");
      }
    }

    /**
     * The `poll` loop of `getVariants`: each queued suffix is resolved in turn;
     * `polled` records the suffixes taken from the queue.
     */
    method DrainQueue(acc: Accumulator) returns (failure: Option<ConfigError>, ghost polled: seq<string>)
      modifies this`hostclasses, this`userclasses, acc
      ensures Run(Snapshot(acc), failure) == Drain(Environment(), includeDepth, old(Snapshot(acc)))
      ensures polled == Polled(Environment(), includeDepth, old(Snapshot(acc)))
    {
      ghost var env := Environment();
      polled := [];
      while acc.queue != []
        invariant Drain(env, includeDepth, Snapshot(acc)) == Drain(env, includeDepth, old(Snapshot(acc)))
        invariant polled + Polled(env, includeDepth, Snapshot(acc)) == Polled(env, includeDepth, old(Snapshot(acc)))
        decreases |Targets(provider) - acc.seen|, |acc.queue|
      {
        ghost var before := Snapshot(acc);
        var cvar := acc.queue[0];
        acc.queue := acc.queue[1..];
        failure := TryConfiguration(acc, includeDepth, cvar);
        DrainTurn(env, includeDepth, before);
        PollStep(env, includeDepth, before, polled);
        polled := polled + [cvar];
        if failure.Some? {
          return;
        }
      }
      assert polled + [] == polled;
      return None, polled;
    }

    /**
     * `getVariants`: on the first call the explicit variants are added, the
     * queue starts with the empty suffix (already seen) and is drained; the
     * list is recorded only when no error occurred. Later calls return the
     * recorded list unchanged.
     */
    method GetVariants() returns (r: Result<Option<seq<string>>, ConfigError>, ghost polled: seq<string>)
      modifies this`variantsLoaded, this`configurationName, this`configurationUIName, this`configurationDBName,
               this`explicitVariant, this`hostclasses, this`userclasses, this`configurationVariants
      ensures variantsLoaded
      ensures old(variantsLoaded) ==> r == Ok(old(configurationVariants)) && unchanged(this)
      ensures !old(variantsLoaded) ==>
                var run := ResolveAll(Environment(), includeDepth, old(hostclasses), old(userclasses));
                && Environment().facts.explicit == Norm(old(explicitVariant))
                && hostclasses == run.state.hostclasses && userclasses == run.state.userclasses
                && (run.failure.None? ==> r == Ok(Some(run.state.variants)) && configurationVariants == r.value)
                && (run.failure.Some? ==> r == Err(run.failure.value) && configurationVariants == old(configurationVariants))
                && polled == Polled(Environment(), includeDepth, InitialResolution(Environment().facts, old(hostclasses), old(userclasses)))
      ensures old(variantsLoaded) ==> polled == []
    {
      if variantsLoaded {
        return Ok(configurationVariants), [];
      }
      variantsLoaded := true;
      PrepareBasicParameters();
      var acc := new Accumulator();
      acc.queue := [""];
      acc.seen := {""};
      AddVariants(acc, explicitVariant.value);
      assert Snapshot(acc) == InitialResolution(Environment().facts, old(hostclasses), old(userclasses));
      var failure;
      failure, polled := DrainQueue(acc);
      if failure.Some? {
        return Err(failure.value), polled;
      }
      configurationVariants := Some(acc.variants);
      return Ok(configurationVariants), polled;
    }
  
    // -------------------------------------------------------------------------------------------
    // The root property tables

    /** `properties` with its fallback `default_properties`. */
    function Store(): Tables
      reads this`overrides, this`defaults
    {
      Tables(overrides, defaults)
    }

    /** `setConfigurationJavaScriptEvaluator`. */
    method SetEvaluator(script: Script)
      modifies this`evaluator
      ensures evaluator == Some(script)
    {
      evaluator := Some(script);
    }

    /**
     * `getPropertyEntry`: the stored value, handed to the evaluator when it is
     * encoded; a `Cache` result is stored back into the override table.
     */
    method GetPropertyEntry(key: string) returns (r: Result<Option<string>, EvalError>)
      requires variantsLoaded
      modifies this`overrides
      ensures (r, Store()) == RootGet(evaluator, configurationVariants, old(Store()), key)
      decreases AtLeast(Store(), key), 0
    {
      var property := Store().Get(key);
      if property.None? {
        return Ok(None);
      }
      if !(evaluator.Some? && |property.value| > 2 && property.value[0] == '\0') {
        return Ok(property);
      }
      PresentKeyMeasure(Store(), key);
      var write;
      r, write := EvaluateAndCacheProperty(key, property.value);
      if write.Some? {
        overrides := overrides[key := write.value];
      }
    }

    /**
     * `evaluateAndCacheProperty`: `\0\0rest` is a literal, `\0tags:body` is
     * evaluated as its tags say, anything else is returned as it is. What
     * `Cache` stores is returned in `write`; the caller puts it into the table
     * the value came from.
     */
    method EvaluateAndCacheProperty(key: string, property: string) returns (value: Result<Option<string>, EvalError>, write: Option<string>)
      requires |property| >= 2 && variantsLoaded
      modifies this`overrides
      ensures Outcome(value, write, Store()) == Evaluate(evaluator, configurationVariants, old(Store()), key, property)
      decreases LongerThan(Store(), key), 4
    {
      if property[1] == '\0' {
        return Ok(Some(property[1..])), None;
      }
      var pos := IndexOf(property, ':');
      if property[0] == '\0' && pos != -1 {
        var ppdef := property[1..pos];
        var tags := ReadTags(JavaSplit(ppdef, '/'));
        if tags.None? {
          return Err(UnknownTag(key, ppdef)), None;
        }
        value, write := ApplyPreprocessing(key, tags.value, property[pos + 1..]);
        return;
      }
      return Ok(Some(property)), None;
    }

    /** The tag steps of `evaluateAndCacheProperty`: script, then variants, then cache. */
    method ApplyPreprocessing(key: string, tags: Tags, body: string) returns (value: Result<Option<string>, EvalError>, write: Option<string>)
      requires variantsLoaded
      modifies this`overrides
      ensures Outcome(value, write, Store()) == ApplyTags(evaluator, configurationVariants, old(Store()), key, tags, body)
      decreases LongerThan(Store(), key), 3
    {
      value := Ok(Some(body));
      if tags.javaScript {
        value := EvaluateJavaScript(evaluator, body);
        if value.Err? {
          return value, None;
        }
      }
      if tags.variants {
        var sb := value.value.GetOr("");
        var suffix := AppendPropertyEntryVariants(key);
        if suffix.Err? {
          return Err(suffix.error), None;
        }
        value := Ok(Some(sb + suffix.value));
      }
      if tags.cache {
        if value.value.None? {
          return Err(CacheNull(key)), None;
        }
        return value, value.value;
      }
      return value, None;
    }

    /** The tag loop of `evaluateAndCacheProperty`: each entry sets its flag; an unknown entry is refused. */
    static method ReadTags(parts: seq<string>) returns (tags: Option<Tags>)
      ensures tags == ParseTags(parts)
    {
      var js, variants, cache := false, false, false;
      var i := 0;
      while i < |parts|
        invariant 0 <= i <= |parts|
        invariant forall j :: 0 <= j < i ==> KnownTag(parts[j])
        invariant js <==> "JavaScript" in parts[..i]
        invariant variants <==> "Variants" in parts[..i]
        invariant cache <==> "Cache" in parts[..i]
      {
        assert parts[..i + 1] == parts[..i] + [parts[i]];
        if parts[i] == "JavaScript" {
          js := true;
        } else if parts[i] == "Variants" {
          variants := true;
        } else if parts[i] == "Cache" {
          cache := true;
        } else {
          ParseTagsMeaning(parts);
          return None;
        }
        i := i + 1;
      }
      assert parts[..i] == parts;
      ParseTagsMeaning(parts);
      return Some(Tags(js, variants, cache));
    }

    /**
     * `appendPropertyEntryVariants`: the values of `key-variant` for every
     * resolved variant, in order; once resolution has run, `getVariants`
     * returns the recorded list.
     */
    method AppendPropertyEntryVariants(key: string) returns (suffix: Result<string, EvalError>)
      requires variantsLoaded
      modifies this`overrides
      ensures var vs := configurationVariants.GetOr([]);
              (suffix, Store()) == AppendVariants(evaluator, configurationVariants, old(Store()), key, vs, |vs|)
      decreases LongerThan(Store(), key), 1
    {
      var vs := configurationVariants.GetOr([]);
      ghost var t0 := Store();
      var sb := "";
      var n := 0;
      while n < |vs|
        invariant 0 <= n <= |vs|
        invariant (Ok(sb), Store()) == AppendVariants(evaluator, configurationVariants, t0, key, vs, n)
      {
        var appended := AppendVariantValue(key, t0, vs, n, sb);
        if appended.Err? {
          AppendVariantsStops(evaluator, configurationVariants, t0, key, vs, n + 1, |vs|);
          return appended;
        }
        sb := appended.value;
        n := n + 1;
      }
      return Ok(sb);
    }

    /** One iteration of `appendPropertyEntryVariants`: `sb` followed by the value of `key-vs[n]`. */
    method AppendVariantValue(key: string, ghost t0: Tables, vs: seq<string>, n: nat, sb: string) returns (r: Result<string, EvalError>)
      requires variantsLoaded && n < |vs|
      requires (Ok(sb), Store()) == AppendVariants(evaluator, configurationVariants, t0, key, vs, n)
      modifies this`overrides
      ensures (r, Store()) == AppendVariants(evaluator, configurationVariants, t0, key, vs, n + 1)
      decreases LongerThan(t0, key), 1, 0
    {
      var variantKey := VariantKey(key, vs[n]);
      LongerKeyMeasure(t0, Store(), key, variantKey);
      AppendVariantsStep(evaluator, configurationVariants, t0, key, vs, n);
      var variantValue := GetPropertyEntry(variantKey);
      if variantValue.Err? {
        return Err(variantValue.error);
      }
      return Ok(sb + variantValue.value.GetOr(""));
    }

    /** `setPropertyEntry`: an override for `name`. */
    method SetPropertyEntry(name: string, value: string)
      modifies this`overrides
      ensures overrides == old(overrides)[name := value]
    {
      overrides := overrides[name := value];
    }

    /** `setDefaultProperty`: a default for `name`, shadowed by any override of it. */
    method SetDefaultProperty(name: string, value: string)
      modifies this`defaults
      ensures defaults == old(defaults)[name := value]
    {
      defaults := defaults[name := value];
    }

    /**
     * The `--property=key:value` step of `initialise`: each recorded switch is
     * split at its first ':' and becomes an override; a switch without ':'
     * fails there.
     */
    method ApplyPropertySwitches() returns (failure: Option<string>)
      modifies this`overrides
      ensures (Store(), failure) == WithPropertySwitches(old(Store()), clargProperties.GetOr([]))
    {
      var switches := clargProperties.GetOr([]);
      var i := 0;
      while i < |switches|
        invariant 0 <= i <= |switches|
        invariant (Store(), None) == WithPropertySwitches(old(Store()), switches[..i])
      {
        PropertySwitchStep(old(Store()), switches, i);
        var kv := SplitOnce(switches[i], ':');
        if kv.None? {
          PropertySwitchesStop(old(Store()), switches, i + 1);
          return Some(switches[i]);
        }
        SetPropertyEntry(kv.value.0, kv.value.1);
        i := i + 1;
      }
      assert switches[..i] == switches;
      return None;
    }

    /**
     * `initialise`: the first call marks the configuration initialised, which
     * freezes the name and the explicit variant, starts a fresh override table
     * in front of the defaults and applies the `--property=` switches. Later
     * calls change nothing.
     */
    method Initialise() returns (failure: Option<string>)
      modifies this`initialised, this`overrides
      ensures initialised
      ensures old(initialised) ==> failure.None? && overrides == old(overrides)
      ensures !old(initialised) ==>
                (Store(), failure) == WithPropertySwitches(Tables(map[], defaults), clargProperties.GetOr([]))
    {
      if initialised {
        return None;
      }
      initialised := true;
      overrides := map[];
      failure := ApplyPropertySwitches();
    }
  }

}
