/** The C++ agent option parser: `ParametersParser::parse` walks a
    comma-separated `key=value` string the way POSIX `getsubopt` does and
    fills an `AgentParameters` record; `toHex` renders a byte string as
    upper-case hexadecimal for its diagnostics.  Where the program calls
    `abort()`, the model returns an error value. */
module ParametersParser {
  import opened Wrappers
  import opened Text

  const DEFAULT_COUNT_THRESHOLD: int := 0
  const DEFAULT_TIME_THRESHOLD: int := 1
  const DEFAULT_PRINT_HEAP_HISTOGRAM: int := 0
  const HEX_CHARS: string := "0123456789ABCDEF"

  /** The recognised suboptions, in the order of the `tokens` table
      (TIME_OPT, COUNT_OPT, PRINT_HEAP_HISTOGRAM_OPT). */
  datatype Suboption = TimeOpt | CountOpt | PrintHeapHistogramOpt

  /** The `tokens` table handed to getsubopt. */
  const TOKENS: seq<string> := ["time", "count", "printHeapHistogram"]

  function TokenIndex(o: Suboption): (i: nat)
    ensures i < |TOKENS|
  {
    match o
    case TimeOpt => 0
    case CountOpt => 1
    case PrintHeapHistogramOpt => 2
  }

  function TokenName(o: Suboption): string {
    TOKENS[TokenIndex(o)]
  }

  /** The three fields the parser sets; the flag is an `int`, as `atoi` produces it. */
  datatype AgentParameters = AgentParameters(countThreshold: int, timeThreshold: int, printHeapHistogram: int)

  const DEFAULTS: AgentParameters :=
    AgentParameters(DEFAULT_COUNT_THRESHOLD, DEFAULT_TIME_THRESHOLD, DEFAULT_PRINT_HEAP_HISTOGRAM)

  /** Why the program aborts: a recognised suboption without `=<value>`, or a
      suboption whose name is not in the table (glibc's getsubopt hands back
      the whole suboption text in that case). */
  datatype ParseError = MissingValue(option: Suboption) | UnknownSuboption(suboption: string)

  function DefaultOf(o: Suboption): int {
    match o
    case TimeOpt => DEFAULT_TIME_THRESHOLD
    case CountOpt => DEFAULT_COUNT_THRESHOLD
    case PrintHeapHistogramOpt => DEFAULT_PRINT_HEAP_HISTOGRAM
  }

  /** The field a suboption sets. */
  function Field(p: AgentParameters, o: Suboption): int {
    match o
    case TimeOpt => p.timeThreshold
    case CountOpt => p.countThreshold
    case PrintHeapHistogramOpt => p.printHeapHistogram
  }

  /** `p` with the field of `o` set to `v` and the other two fields kept. */
  function WithField(p: AgentParameters, o: Suboption, v: int): (q: AgentParameters)
    ensures Field(q, o) == v
    ensures forall o' :: o' != o ==> Field(q, o') == Field(p, o')
  {
    match o
    case TimeOpt => p.(timeThreshold := v)
    case CountOpt => p.(countThreshold := v)
    case PrintHeapHistogramOpt => p.(printHeapHistogram := v)
  }

  // ---- atoi ----

  /** C's `isspace` in the "C" locale. */
  predicate IsSpace(c: char) {
    c == ' ' || c == '\t' || c == '\n' || c == '\r' || c as int == 11 || c as int == 12
  }

  function SkipSpaces(s: string): (t: string)
    ensures |t| <= |s| && t == s[|s| - |t|..]
    ensures forall i :: 0 <= i < |s| - |t| ==> IsSpace(s[i])
    ensures t != [] ==> !IsSpace(t[0])
  {
    if s != [] && IsSpace(s[0]) then SkipSpaces(s[1..]) else s
  }

  /** C's `atoi`: leading white space, an optional sign, then the longest run
      of decimal digits; 0 when there are none. */
  function Atoi(s: string): int {
    var t := SkipSpaces(s);
    if t != [] && t[0] == '-' then -(DigitsValue(LeadingDigits(t[1..])) as int)
    else if t != [] && t[0] == '+' then DigitsValue(LeadingDigits(t[1..]))
    else DigitsValue(LeadingDigits(t))
  }

  lemma {:induction false} LeadingDigitsOf(d: string, rest: string)
    requires IsDigits(d)
    requires rest != [] ==> !IsDigit(rest[0])
    ensures LeadingDigits(d + rest) == d
    decreases |d|
  {
    if d != [] {
      assert (d + rest)[0] == d[0];
      assert (d + rest)[1..] == d[1..] + rest;
      LeadingDigitsOf(d[1..], rest);
    }
  }

  /** A value that starts with digits reads as those digits, whatever follows. */
  lemma AtoiDigits(d: string, rest: string)
    requires IsDigits(d) && |d| >= 1
    requires rest != [] ==> !IsDigit(rest[0])
    ensures Atoi(d + rest) == DigitsValue(d)
  {
    var x := d + rest;
    assert x[0] == d[0];
    assert !IsSpace(x[0]) && x[0] != '-' && x[0] != '+';
    assert SkipSpaces(x) == x;
    assert Atoi(x) == DigitsValue(LeadingDigits(x));
    LeadingDigitsOf(d, rest);
  }

  /** `atoi` inverts decimal rendering. */
  lemma AtoiNatToString(n: nat)
    ensures Atoi(NatToString(n)) == n
  {
    AtoiDigits(NatToString(n), []);
    assert NatToString(n) + [] == NatToString(n);
  }

  /** A value that does not start with white space, a sign or a digit reads as
      0: `atoi` reports no error. */
  lemma AtoiNonNumeric(s: string)
    requires s != [] && !IsSpace(s[0]) && !IsDigit(s[0]) && s[0] != '-' && s[0] != '+'
    ensures Atoi(s) == 0
  {
  }

  // ---- getsubopt ----

  /** getsubopt's lookup of a suboption name in the tokens table. */
  function LookupToken(name: string): (r: Option<Suboption>)
    ensures forall o :: r == Some(o) <==> TokenName(o) == name
  {
    if name == TOKENS[0] then Some(TimeOpt)
    else if name == TOKENS[1] then Some(CountOpt)
    else if name == TOKENS[2] then Some(PrintHeapHistogramOpt)
    else None
  }

  /** One suboption as getsubopt sees it: the text before the first `=`, and
      the text after it (NULL when there is no `=`). */
  datatype Subopt = Subopt(name: string, value: Option<string>)

  function ParseSubopt(sub: string): (r: Subopt)
  {
    match SplitOnce(sub, '=')
    case None => Subopt(sub, None)
    case Some((n, v)) => Subopt(n, Some(v))
  }

  /** The name is everything before the first `=`, the value everything after it. */
  lemma ParseSuboptParts(sub: string)
    ensures ParseSubopt(sub).value.None? ==> ParseSubopt(sub).name == sub && '=' !in sub
    ensures ParseSubopt(sub).value.Some? ==>
      sub == ParseSubopt(sub).name + "=" + ParseSubopt(sub).value.value && '=' !in ParseSubopt(sub).name
  {
  }

  /** The suboptions the `while (*subopts != '\0')` loop hands to getsubopt,
      in order: each runs to the next `,`; a `,` at the very end starts none. */
  function Subopts(s: string): (subs: seq<string>)
    ensures forall i :: 0 <= i < |subs| ==> ',' !in subs[i]
    decreases |s|
  {
    if s == [] then []
    else
      match SplitOnce(s, ',')
      case None => [s]
      case Some((head, tail)) => [head] + Subopts(tail)
  }

  /** The suboptions are the comma-separated pieces of the string, except that
      a trailing comma contributes no empty last piece and "" has none.  Empty
      pieces elsewhere do reach getsubopt. */
  lemma {:induction false} SuboptsAreSplit(s: string)
    ensures Subopts(s) ==
      if s == [] then []
      else if s[|s| - 1] == ',' then Split(s[..|s| - 1], ',')
      else Split(s, ',')
    decreases |s|
  {
    if s != [] {
      match SplitOnce(s, ',')
      case None =>
        assert s[|s| - 1] in s;
      case Some((h, t)) =>
        SuboptsAreSplit(t);
        if t == [] {
          assert s[..|s| - 1] == h;
          assert SplitOnce(h, ',').None?;
        } else if t[|t| - 1] == ',' {
          assert s[..|s| - 1] == h + [','] + t[..|t| - 1];
          SplitAppend(h, ',', t[..|t| - 1]);
          assert SplitOnce(h, ',').None?;
        } else {
          SplitAppend(h, ',', t);
          assert SplitOnce(h, ',').None?;
        }
    }
  }

  // ---- parse ----

  /** `checkValueProvided`: a recognised suboption must carry `=`; in the
      program a missing value aborts. */
  function CheckValueProvided(value: Option<string>, option: Suboption): (r: Option<ParseError>)
    ensures r.None? <==> value.Some?
    ensures r.Some? ==> r.value == MissingValue(option)
  {
    if value.None? then Some(MissingValue(option)) else None
  }

  /** What one pass of the `switch` does with a suboption: assign a value to
      a field, or abort. */
  datatype Step = Assign(option: Suboption, value: string) | Abort(error: ParseError)

  /** getsubopt's answer for one suboption, followed by the `switch`. */
  function Classify(sub: string): Step {
    var so := ParseSubopt(sub);
    match LookupToken(so.name)
    case None => Abort(UnknownSuboption(sub))
    case Some(o) =>
      match CheckValueProvided(so.value, o)
      case Some(e) => Abort(e)
      case None => Assign(o, so.value.value)
  }

  function ClassifyAll(subs: seq<string>): seq<Step>
  {
    if subs == [] then [] else [Classify(subs[0])] + ClassifyAll(subs[1..])
  }

  /** The value a recognised suboption with `=` assigns: its default when the
      value is empty, its `atoi` otherwise. */
  function SuboptValue(o: Suboption, value: string): int {
    if |value| == 0 then DefaultOf(o) else Atoi(value)
  }

  /** The loop over all suboptions, left to right; the first abort ends it. */
  function Run(p: AgentParameters, steps: seq<Step>): Result<AgentParameters, ParseError>
    decreases |steps|
  {
    if steps == [] then Ok(p)
    else
      match steps[0]
      case Abort(e) => Err(e)
      case Assign(o, v) => Run(WithField(p, o, SuboptValue(o, v)), steps[1..])
  }

  /** What `parse` computes; `None` stands for a NULL options argument. */
  function ParseSpec(options: Option<string>): Result<AgentParameters, ParseError> {
    match options
    case None => Ok(DEFAULTS)
    case Some(s) => Run(DEFAULTS, ClassifyAll(Subopts(s)))
  }

  lemma ClassifyCons(sub: string, subs: seq<string>)
    ensures ClassifyAll([sub] + subs) == [Classify(sub)] + ClassifyAll(subs)
  {
    assert ([sub] + subs)[1..] == subs;
  }

  lemma RunCons(p: AgentParameters, step: Step, rest: seq<Step>)
    ensures Run(p, [step] + rest) ==
      if step.Abort? then Err(step.error)
      else Run(WithField(p, step.option, SuboptValue(step.option, step.value)), rest)
  {
    assert ([step] + rest)[1..] == rest;
  }

  /** One call of getsubopt on the unparsed rest of the options string: the
      suboption up to the first `,` (or the end), split at its first `=`, its
      token looked up; the rest then starts after that `,`. */
  method GetSubopt(subopts: string) returns (sub: string, so: Subopt, option: Option<Suboption>, rest: string)
    requires subopts != []
    ensures |rest| < |subopts|
    ensures Subopts(subopts) == [sub] + Subopts(rest)
    ensures so == ParseSubopt(sub) && option == LookupToken(so.name)
  {
    var split := SplitOnce(subopts, ',');
    if split.None? {
      sub, rest := subopts, [];
    } else {
      sub, rest := split.value.0, split.value.1;
    }
    so := ParseSubopt(sub);
    option := LookupToken(so.name);
  }

  /** `ParametersParser::parse`: start from the defaults and let each suboption
      overwrite one field, stopping at the first bad suboption. */
  method Parse(options: Option<string>) returns (r: Result<AgentParameters, ParseError>)
    ensures r == ParseSpec(options)
  {
    var result := AgentParameters(DEFAULT_COUNT_THRESHOLD, DEFAULT_TIME_THRESHOLD, DEFAULT_PRINT_HEAP_HISTOGRAM);
    if options.None? {
      return Ok(result);
    }
    var subopts := options.value;
    while subopts != []
      invariant Run(result, ClassifyAll(Subopts(subopts))) == ParseSpec(options)
      decreases |subopts|
    {
      var sub, so, option, rest := GetSubopt(subopts);
      ClassifyCons(sub, Subopts(rest));
      RunCons(result, Classify(sub), ClassifyAll(Subopts(rest)));
      subopts := rest;
      if option.None? {
        return Err(UnknownSuboption(sub));
      }
      var o := option.value;
      var missing := CheckValueProvided(so.value, o);
      if missing.Some? {
        return Err(missing.value);
      }
      var value := so.value.value;
      assert Classify(sub) == Assign(o, value);
      ghost var updated := WithField(result, o, SuboptValue(o, value));
      match o {
        case CountOpt =>
          result := result.(countThreshold := if |value| == 0 then DEFAULT_COUNT_THRESHOLD else Atoi(value));
        case TimeOpt =>
          result := result.(timeThreshold := if |value| == 0 then DEFAULT_TIME_THRESHOLD else Atoi(value));
        case PrintHeapHistogramOpt =>
          result := result.(printHeapHistogram := if |value| == 0 then DEFAULT_PRINT_HEAP_HISTOGRAM else Atoi(value));
      }
      assert result == updated;
    }
    return Ok(result);
  }

  /** A NULL or empty options string leaves every field at its default. */
  lemma ParseNoOptions()
    ensures ParseSpec(None) == Ok(DEFAULTS)
    ensures ParseSpec(Some("")) == Ok(DEFAULTS)
  {
    assert Subopts("") == [];
  }

  // ---- properties of the parse ----

  /** The parse fails exactly when some suboption aborts. */
  lemma {:induction false} RunFails(p: AgentParameters, steps: seq<Step>)
    ensures Run(p, steps).Err? <==> exists i :: 0 <= i < |steps| && steps[i].Abort?
    decreases |steps|
  {
    if steps != [] && steps[0].Assign? {
      RunFails(WithField(p, steps[0].option, SuboptValue(steps[0].option, steps[0].value)), steps[1..]);
      if exists i :: 0 <= i < |steps| && steps[i].Abort? {
        var i :| 0 <= i < |steps| && steps[i].Abort?;
        assert steps[1..][i - 1] == steps[i];
      }
    }
  }

  /** A failing parse fails with the abort of the FIRST bad suboption; no
      partial result is returned. */
  lemma {:induction false} RunFirstAbort(p: AgentParameters, steps: seq<Step>, i: nat)
    requires i < |steps| && steps[i].Abort?
    requires forall j :: 0 <= j < i ==> steps[j].Assign?
    ensures Run(p, steps) == Err(steps[i].error)
    decreases i
  {
    if i > 0 {
      assert steps[1..][i - 1] == steps[i];
      RunFirstAbort(WithField(p, steps[0].option, SuboptValue(steps[0].option, steps[0].value)), steps[1..], i - 1);
    }
  }

  /** When no suboption aborts, each field holds the value that the LAST
      suboption naming it assigns (later settings override earlier ones),
      and a field no suboption names keeps its value from `p`. */
  lemma {:induction false} RunValues(p: AgentParameters, steps: seq<Step>, o: Suboption)
    requires forall i :: 0 <= i < |steps| ==> steps[i].Assign?
    ensures Run(p, steps).Ok?
    ensures (forall i :: 0 <= i < |steps| ==> steps[i].option != o) ==> Field(Run(p, steps).value, o) == Field(p, o)
    ensures forall i :: 0 <= i < |steps| && steps[i].option == o && (forall j :: i < j < |steps| ==> steps[j].option != o) ==>
      Field(Run(p, steps).value, o) == SuboptValue(o, steps[i].value)
    decreases |steps|
  {
    if steps != [] {
      var q := WithField(p, steps[0].option, SuboptValue(steps[0].option, steps[0].value));
      var tail := steps[1..];
      assert forall j :: 0 <= j < |tail| ==> tail[j] == steps[j + 1];
      RunValues(q, tail, o);
      forall i | 0 <= i < |steps| && steps[i].option == o && (forall j :: i < j < |steps| ==> steps[j].option != o)
        ensures Field(Run(p, steps).value, o) == SuboptValue(o, steps[i].value)
      {
        if i > 0 {
          assert tail[i - 1] == steps[i];
        }
      }
    }
  }

  lemma {:induction false} RunAppend(p: AgentParameters, steps: seq<Step>, last: Step)
    ensures Run(p, steps + [last]) ==
      if Run(p, steps).Err? then Run(p, steps) else Run(Run(p, steps).value, [last])
    decreases |steps|
  {
    if steps != [] {
      assert (steps + [last])[1..] == steps[1..] + [last];
      if steps[0].Assign? {
        RunAppend(WithField(p, steps[0].option, SuboptValue(steps[0].option, steps[0].value)), steps[1..], last);
      }
    }
  }

  lemma NameBeforeFirstEquals(name: string, v: string)
    requires '=' !in name
    ensures ParseSubopt(name + "=" + v) == Subopt(name, Some(v))
  {
    var sub := name + "=" + v;
    assert sub[|name|] == '=';
    assert IndexOf(sub, '=') == |name|;
    assert sub[..|name|] == name && sub[|name| + 1..] == v;
  }

  /** `name=value` for a recognised name assigns `value`, which is
      everything after the first `=` (it may itself contain `=`). */
  lemma ClassifySetting(o: Suboption, v: string)
    ensures Classify(TokenName(o) + "=" + v) == Assign(o, v)
  {
    NameBeforeFirstEquals(TokenName(o), v);
  }

  /** A recognised name without `=` aborts with a missing value. */
  lemma ClassifyMissingValue(o: Suboption)
    ensures Classify(TokenName(o)) == Abort(MissingValue(o))
  {
    assert '=' !in TokenName(o);
    assert ParseSubopt(TokenName(o)) == Subopt(TokenName(o), None);
  }

  /** A suboption whose name (the text before any `=`) is not in the tokens
      table aborts, reporting the whole suboption. */
  lemma ClassifyUnknown(sub: string)
    requires forall o :: TokenName(o) != ParseSubopt(sub).name
    ensures Classify(sub) == Abort(UnknownSuboption(sub))
  {
  }

  lemma {:induction false} ClassifyAllAppend(subs: seq<string>, t: string)
    ensures ClassifyAll(subs + [t]) == ClassifyAll(subs) + [Classify(t)]
    decreases |subs|
  {
    if subs != [] {
      assert (subs + [t])[1..] == subs[1..] + [t];
      ClassifyAllAppend(subs[1..], t);
    } else {
      assert [] + [t] == [t];
    }
  }

  /** A single `name=value` (no comma) assigns that value over the defaults. */
  lemma ParseSingle(o: Suboption, v: string)
    requires ',' !in v
    ensures ParseSpec(Some(TokenName(o) + "=" + v)) == Ok(WithField(DEFAULTS, o, SuboptValue(o, v)))
  {
    var t := TokenName(o) + "=" + v;
    assert ',' !in TokenName(o);
    assert ',' !in t;
    assert Subopts(t) == [t];
    ClassifySetting(o, v);
    ClassifyCons(t, []);
    assert [t] + [] == [t];
    assert ClassifyAll([t]) == [Assign(o, v)];
    RunCons(DEFAULTS, Assign(o, v), []);
    assert [Assign(o, v)] + [] == [Assign(o, v)];
  }

  /** Appending `,t` for a non-empty `t` without commas adds one suboption. */
  lemma SuboptsAppend(s: string, t: string)
    requires s != [] && s[|s| - 1] != ','
    requires t != [] && ',' !in t
    ensures Subopts(s + [','] + t) == Subopts(s) + [t]
  {
    SuboptsAreSplit(s + [','] + t);
    SuboptsAreSplit(s);
    SplitAppend(s, ',', t);
    assert SplitOnce(t, ',').None?;
  }

  lemma TokenNameChars(o: Suboption)
    ensures ',' !in TokenName(o) && '=' !in TokenName(o)
  {
  }

  /** Appending `,name=value` appends one assignment to the steps. */
  lemma StepsAppendSetting(s: string, o: Suboption, v: string)
    requires s != [] && s[|s| - 1] != ','
    requires ',' !in v
    ensures ClassifyAll(Subopts(s + "," + TokenName(o) + "=" + v)) == ClassifyAll(Subopts(s)) + [Assign(o, v)]
  {
    var t := TokenName(o) + "=" + v;
    TokenNameChars(o);
    assert s + "," + TokenName(o) + "=" + v == s + [','] + t;
    SuboptsAppend(s, t);
    ClassifyAllAppend(Subopts(s), t);
    ClassifySetting(o, v);
  }

  /** Appending `,name=value` to an options string either keeps its error or
      replaces exactly the named field of its result. */
  lemma ParseLaterOverrides(s: string, o: Suboption, v: string)
    requires s != [] && s[|s| - 1] != ','
    requires ',' !in v
    ensures ParseSpec(Some(s + "," + TokenName(o) + "=" + v)) ==
      if ParseSpec(Some(s)).Err? then ParseSpec(Some(s))
      else Ok(WithField(ParseSpec(Some(s)).value, o, SuboptValue(o, v)))
  {
    var steps := ClassifyAll(Subopts(s));
    StepsAppendSetting(s, o, v);
    RunAppend(DEFAULTS, steps, Assign(o, v));
    var q := Run(DEFAULTS, steps);
    if q.Ok? {
      RunCons(q.value, Assign(o, v), []);
      assert [Assign(o, v)] + [] == [Assign(o, v)];
    }
  }

  lemma LastOfAppend(x: string, y: string)
    requires y != []
    ensures x + y != [] && (x + y)[|x + y| - 1] == y[|y| - 1]
  {
  }

  /** The documented form `count=N,time=M,printHeapHistogram=K` sets all
      three fields to the numbers written. */
  lemma ParseDocumentedForm(n: nat, m: nat, k: nat)
    ensures ParseSpec(Some("count" + "=" + NatToString(n) + "," + "time" + "=" + NatToString(m)
                           + "," + "printHeapHistogram" + "=" + NatToString(k)))
            == Ok(AgentParameters(n, m, k))
  {
    var a, b, c := NatToString(n), NatToString(m), NatToString(k);
    assert TokenName(CountOpt) == "count" && TokenName(TimeOpt) == "time";
    assert TokenName(PrintHeapHistogramOpt) == "printHeapHistogram";
    assert ',' !in a && ',' !in b && ',' !in c by {
      assert forall x: string, i :: IsDigits(x) && 0 <= i < |x| ==> x[i] != ',';
    }
    var s1 := "count" + "=" + a;
    var s2 := s1 + "," + "time" + "=" + b;
    var s3 := s2 + "," + "printHeapHistogram" + "=" + c;
    ParseSingle(CountOpt, a);
    AtoiNatToString(n);
    assert ParseSpec(Some(s1)) == Ok(AgentParameters(n, DEFAULT_TIME_THRESHOLD, DEFAULT_PRINT_HEAP_HISTOGRAM));
    LastOfAppend("count" + "=", a);
    ParseLaterOverrides(s1, TimeOpt, b);
    AtoiNatToString(m);
    assert ParseSpec(Some(s2)) == Ok(AgentParameters(n, m, DEFAULT_PRINT_HEAP_HISTOGRAM));
    LastOfAppend(s1 + "," + "time" + "=", b);
    ParseLaterOverrides(s2, PrintHeapHistogramOpt, c);
    AtoiNatToString(k);
  }

  lemma {:induction false} ClassifyAllIndex(subs: seq<string>)
    ensures |ClassifyAll(subs)| == |subs|
    ensures forall i :: 0 <= i < |subs| ==> ClassifyAll(subs)[i] == Classify(subs[i])
    decreases |subs|
  {
    if subs != [] {
      var tail := subs[1..];
      ClassifyAllIndex(tail);
      var all := ClassifyAll(subs);
      assert all == [Classify(subs[0])] + ClassifyAll(tail);
      forall i | 0 < i < |subs|
        ensures all[i] == Classify(subs[i])
      {
        assert all[i] == ClassifyAll(tail)[i - 1] && tail[i - 1] == subs[i];
      }
    }
  }

  /** The loop over a list of suboptions fails exactly when one of them is
      unknown or lacks its value. */
  lemma ClassifyAllFails(p: AgentParameters, subs: seq<string>)
    ensures Run(p, ClassifyAll(subs)).Err? <==> exists i :: 0 <= i < |subs| && Classify(subs[i]).Abort?
  {
    var steps := ClassifyAll(subs);
    ClassifyAllIndex(subs);
    RunFails(p, steps);
    if exists i :: 0 <= i < |subs| && Classify(subs[i]).Abort? {
      var i :| 0 <= i < |subs| && Classify(subs[i]).Abort?;
      assert steps[i].Abort?;
    }
    if exists i :: 0 <= i < |steps| && steps[i].Abort? {
      var i :| 0 <= i < |steps| && steps[i].Abort?;
      assert Classify(subs[i]).Abort?;
    }
  }

  /** `parse` fails exactly when one of the suboptions getsubopt hands out is
      unknown or lacks its value. */
  lemma ParseFails(s: string)
    ensures ParseSpec(Some(s)).Err? <==>
      exists i :: 0 <= i < |Subopts(s)| && Classify(Subopts(s)[i]).Abort?
  {
    var subs := Subopts(s);
    assert ParseSpec(Some(s)) == Run(DEFAULTS, ClassifyAll(subs));
    ClassifyAllFails(DEFAULTS, subs);
    if ParseSpec(Some(s)).Err? {
      var i :| 0 <= i < |subs| && Classify(subs[i]).Abort?;
      assert Classify(Subopts(s)[i]).Abort?;
    }
  }

  /** The error reported is that of the first bad suboption. */
  lemma ParseFirstError(s: string, i: nat)
    requires i < |Subopts(s)| && Classify(Subopts(s)[i]).Abort?
    requires forall j :: 0 <= j < i ==> Classify(Subopts(s)[j]).Assign?
    ensures ParseSpec(Some(s)) == Err(Classify(Subopts(s)[i]).error)
  {
    ClassifyAllIndex(Subopts(s));
    RunFirstAbort(DEFAULTS, ClassifyAll(Subopts(s)), i);
  }

  /** What the `switch` makes of each suboption of `s`, in order. */
  function Steps(s: string): (steps: seq<Step>)
    ensures |steps| == |Subopts(s)|
    ensures forall i :: 0 <= i < |steps| ==> steps[i] == Classify(Subopts(s)[i])
  {
    ClassifyAllIndex(Subopts(s));
    ClassifyAll(Subopts(s))
  }

  /** A successful parse gives each field the value of the last suboption
      naming it, or its default when none does. */
  lemma ParseLastSettingWins(s: string, o: Suboption)
    requires forall i :: 0 <= i < |Steps(s)| ==> Steps(s)[i].Assign?
    ensures ParseSpec(Some(s)).Ok?
    ensures (forall i :: 0 <= i < |Steps(s)| ==> Steps(s)[i].option != o) ==>
      Field(ParseSpec(Some(s)).value, o) == DefaultOf(o)
    ensures forall i :: (0 <= i < |Steps(s)| && Steps(s)[i].option == o
                         && (forall j :: i < j < |Steps(s)| ==> Steps(s)[j].option != o)) ==>
      Field(ParseSpec(Some(s)).value, o) == SuboptValue(o, Steps(s)[i].value)
  {
    var steps := Steps(s);
    assert ParseSpec(Some(s)) == Run(DEFAULTS, steps);
    RunValues(DEFAULTS, steps, o);
  }

  /** A recognised name with no `=` is an error. */
  lemma ParseMissingValue(o: Suboption)
    ensures ParseSpec(Some(TokenName(o))) == Err(MissingValue(o))
  {
    var t := TokenName(o);
    assert ',' !in t;
    assert Subopts(t) == [t];
    ClassifyMissingValue(o);
    ClassifyCons(t, []);
    assert [t] + [] == [t];
    RunCons(DEFAULTS, Abort(MissingValue(o)), []);
    assert [Abort(MissingValue(o))] + [] == [Abort(MissingValue(o))];
  }

  /** A leading `,` hands getsubopt an empty suboption, which names no token. */
  lemma ParseLeadingComma(s: string)
    ensures ParseSpec(Some("," + s)) == Err(UnknownSuboption(""))
  {
    var t := "," + s;
    assert IndexOf(t, ',') == 0;
    assert t[1..] == s;
    assert SplitOnce(t, ',') == Some(([], s));
    assert Subopts(t) == [""] + Subopts(s);
    assert ParseSubopt("") == Subopt("", None);
    ClassifyCons("", Subopts(s));
    RunCons(DEFAULTS, Abort(UnknownSuboption("")), ClassifyAll(Subopts(s)));
  }

  /** A trailing `,` after a non-empty list changes nothing. */
  lemma ParseTrailingComma(s: string)
    requires s != [] && s[|s| - 1] != ','
    ensures ParseSpec(Some(s + ",")) == ParseSpec(Some(s))
  {
    SuboptsAreSplit(s + ",");
    SuboptsAreSplit(s);
    assert (s + ",")[..|s|] == s;
  }

  /** An empty value puts back the DEFAULT, whatever was set before. */
  lemma ParseEmptyValueResets(s: string, o: Suboption)
    requires s != [] && s[|s| - 1] != ','
    requires ParseSpec(Some(s)).Ok?
    ensures ParseSpec(Some(s + "," + TokenName(o) + "=")) == Ok(WithField(ParseSpec(Some(s)).value, o, DefaultOf(o)))
  {
    ParseLaterOverrides(s, o, "");
    assert s + "," + TokenName(o) + "=" + "" == s + "," + TokenName(o) + "=";
  }

  // ---- toHex ----

  /** One C `char`, seen as the byte it occupies. */
  type Byte = x: int | 0 <= x < 256

  /** `(c >> 4) & 0xF`: the high nibble of the byte (the same for a signed
      `char`, whose sign bits the mask removes). */
  function HighNibble(c: Byte): (n: nat)
    ensures n < 16
  {
    c / 16
  }

  /** `c & 0xF`: the low nibble. */
  function LowNibble(c: Byte): (n: nat)
    ensures n < 16
  {
    c % 16
  }

  /** An upper-case hexadecimal digit, i.e. a character of HEX_CHARS. */
  predicate IsHexDigit(c: char) {
    '0' <= c <= '9' || 'A' <= c <= 'F'
  }

  /** The value of a hex digit (the position of the digit in HEX_CHARS). */
  function HexValue(c: char): (v: nat)
    requires IsHexDigit(c)
    ensures v < 16
  {
    if '0' <= c <= '9' then c as int - '0' as int else c as int - 'A' as int + 10
  }

  /** HEX_CHARS holds the sixteen digits in order. */
  lemma HexCharAt(i: nat)
    requires i < 16
    ensures IsHexDigit(HEX_CHARS[i]) && HexValue(HEX_CHARS[i]) == i
  {
    if i < 8 {
      if i < 4 { if i == 0 {} else if i == 1 {} else if i == 2 {} else {} }
      else { if i == 4 {} else if i == 5 {} else if i == 6 {} else {} }
    } else {
      if i < 12 { if i == 8 {} else if i == 9 {} else if i == 10 {} else {} }
      else { if i == 12 {} else if i == 13 {} else if i == 14 {} else {} }
    }
  }

  /** The two hex digits of one byte. */
  function HexPair(c: Byte): string {
    [HEX_CHARS[HighNibble(c)], HEX_CHARS[LowNibble(c)]]
  }

  /** The hex rendering of a byte string. */
  function Hex(s: seq<Byte>): (h: string)
    ensures |h| == 2 * |s|
    ensures forall i :: 0 <= i < |h| ==> IsHexDigit(h[i])
  {
    if s == [] then []
    else
      HexCharAt(HighNibble(s[0]));
      HexCharAt(LowNibble(s[0]));
      HexPair(s[0]) + Hex(s[1..])
  }

  /** Position 2i of the rendering is the high nibble's digit of byte i,
      position 2i+1 the low nibble's. */
  lemma {:induction false} HexAt(s: seq<Byte>, i: nat)
    requires i < |s|
    ensures Hex(s)[2 * i] == HEX_CHARS[HighNibble(s[i])]
    ensures Hex(s)[2 * i + 1] == HEX_CHARS[LowNibble(s[i])]
    decreases i
  {
    if i > 0 {
      HexAt(s[1..], i - 1);
      assert Hex(s) == HexPair(s[0]) + Hex(s[1..]);
    }
  }

  /** Decoding an even-length string of hex digits back into bytes. */
  function FromHex(h: string): seq<Byte>
    requires |h| % 2 == 0
    requires forall i :: 0 <= i < |h| ==> IsHexDigit(h[i])
  {
    if h == [] then [] else [HexValue(h[0]) * 16 + HexValue(h[1])] + FromHex(h[2..])
  }

  /** The rendering loses nothing: it decodes to the original bytes. */
  lemma {:induction false} HexRoundTrip(s: seq<Byte>)
    ensures FromHex(Hex(s)) == s
  {
    if s != [] {
      var h := Hex(s);
      assert h == HexPair(s[0]) + Hex(s[1..]);
      HexCharAt(HighNibble(s[0]));
      HexCharAt(LowNibble(s[0]));
      assert h[2..] == Hex(s[1..]);
      HexRoundTrip(s[1..]);
    }
  }

  /** `strlen`: the number of bytes before the first NUL. */
  function CStringLength(s: seq<Byte>): (n: nat)
    requires 0 in s
    ensures n < |s| && s[n] == 0
    ensures forall i :: 0 <= i < n ==> s[i] != 0
  {
    if s[0] == 0 then 0 else 1 + CStringLength(s[1..])
  }

  /** `toHex`: `s` is the memory the argument points to, which holds a NUL
      somewhere; the result is a new NUL-terminated buffer of `2 * len + 1`
      chars holding two hex digits per byte before that NUL. */
  method ToHex(s: seq<Byte>) returns (result: array<char>)
    requires 0 in s
    ensures fresh(result)
    ensures result.Length == 2 * CStringLength(s) + 1
    ensures result[..2 * CStringLength(s)] == Hex(s[..CStringLength(s)])
    ensures result[2 * CStringLength(s)] == '\0'
  {
    var len := CStringLength(s);
    ghost var str := s[..len];
    result := new char[len * 2 + 1];
    for i := 0 to len
      invariant forall j :: 0 <= j < 2 * i ==> result[j] == Hex(str)[j]
    {
      var c := s[i];
      assert c == str[i];
      HexAt(str, i);
      result[2 * i] := HEX_CHARS[HighNibble(c)];
      result[2 * i + 1] := HEX_CHARS[LowNibble(c)];
    }
    result[len * 2] := '\0';
  }
}
