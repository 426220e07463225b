/** The Rust agent's reading of its option string, `AgentParameters::parseParameters`
    in src/agentcontroller/parms.rs: comma-separated `key=value` pairs over
    five keys, each value an unsigned machine integer. */
module AgentParms {
  import opened Wrappers
  import opened Text

  // ---- machine integers ----

  /** `usize` on a 64-bit target. */
  const USIZE_MAX: int := 0xFFFF_FFFF_FFFF_FFFF
  type Usize = x: int | 0 <= x <= USIZE_MAX

  /** Why `str::parse::<usize>` refuses a string. */
  datatype IntErrorKind = Empty | InvalidDigit | PosOverflow

  /** The digits read left to right, as `from_str_radix` does: each character
      must be a digit, and the running value times ten plus that digit must
      still fit. */
  function ScanDigits(ds: string): Result<Usize, IntErrorKind>
    decreases |ds|
  {
    if ds == [] then Ok(0)
    else
      match ScanDigits(ds[..|ds| - 1])
      case Err(e) => Err(e)
      case Ok(a) =>
        var c := ds[|ds| - 1];
        if !IsDigit(c) then Err(InvalidDigit)
        else if 10 * a + (c as int - '0' as int) > USIZE_MAX then Err(PosOverflow)
        else Ok(10 * a + (c as int - '0' as int))
  }

  /** `str::parse::<usize>`: an optional `+`, then at least one digit; a sign
      on its own, a `-`, or anything else is an invalid digit. */
  function ParseUsize(s: string): Result<Usize, IntErrorKind> {
    if s == [] then Err(Empty)
    else if (s[0] == '+' || s[0] == '-') && |s| == 1 then Err(InvalidDigit)
    else if s[0] == '+' then ScanDigits(s[1..])
    else ScanDigits(s)
  }

  lemma {:induction false} ScanDigitsValue(ds: string)
    ensures ScanDigits(ds).Ok? <==> IsDigits(ds) && DigitsValue(ds) <= USIZE_MAX
    ensures ScanDigits(ds).Ok? ==> ScanDigits(ds).value == DigitsValue(ds)
    decreases |ds|
  {
    if ds != [] {
      var p := ds[..|ds| - 1];
      ScanDigitsValue(p);
      if IsDigits(ds) {
        assert IsDigits(p) by {
          assert forall i :: 0 <= i < |p| ==> p[i] == ds[i];
        }
      } else if IsDigits(p) {
        assert !IsDigit(ds[|ds| - 1]);
      }
    }
  }

  /** A leading non-digit is reported as an invalid digit, whatever follows. */
  lemma {:induction false} ScanLeadingNonDigit(ds: string)
    requires ds != [] && !IsDigit(ds[0])
    ensures ScanDigits(ds) == Err(InvalidDigit)
    decreases |ds|
  {
    if |ds| > 1 {
      var p := ds[..|ds| - 1];
      assert p[0] == ds[0];
      ScanLeadingNonDigit(p);
    }
  }

  /** `parse` accepts exactly an optional `+` and a non-empty digit string
      whose value fits in a `usize`, and yields that value. */
  lemma ParseUsizeAccepts(s: string, n: int)
    ensures ParseUsize(s) == Ok(n) <==>
      exists ds :: (s == ds || s == "+" + ds) && |ds| >= 1 && IsDigits(ds)
                   && DigitsValue(ds) == n && n <= USIZE_MAX
  {
    if s != [] && s[0] == '+' {
      ScanDigitsValue(s[1..]);
      assert s == "+" + s[1..];
      if exists ds :: (s == ds || s == "+" + ds) && |ds| >= 1 && IsDigits(ds) && DigitsValue(ds) == n && n <= USIZE_MAX {
        var ds :| (s == ds || s == "+" + ds) && |ds| >= 1 && IsDigits(ds) && DigitsValue(ds) == n && n <= USIZE_MAX;
        assert IsDigit(ds[0]);
        assert ds == s[1..];
      }
    } else if s != [] {
      ScanDigitsValue(s);
      if exists ds :: (s == ds || s == "+" + ds) && |ds| >= 1 && IsDigits(ds) && DigitsValue(ds) == n && n <= USIZE_MAX {
        var ds :| (s == ds || s == "+" + ds) && |ds| >= 1 && IsDigits(ds) && DigitsValue(ds) == n && n <= USIZE_MAX;
        assert s == ds;
      }
    }
  }

  /** Decimal rendering (with or without `+`) parses back to the number. */
  lemma ParseUsizeNatToString(n: Usize)
    ensures ParseUsize(NatToString(n)) == Ok(n)
    ensures ParseUsize("+" + NatToString(n)) == Ok(n)
  {
    var ds := NatToString(n);
    ParseUsizeAccepts(ds, n);
    ParseUsizeAccepts("+" + ds, n);
  }

  /** A value starting with anything but a digit or `+` is an invalid digit. */
  lemma ParseUsizeNonNumeric(s: string)
    requires s != [] && !IsDigit(s[0]) && s[0] != '+'
    ensures ParseUsize(s) == Err(InvalidDigit)
  {
    if s[0] != '-' || |s| > 1 {
      ScanLeadingNonDigit(s);
    }
  }

  // ---- the five settings ----

  /** The struct the parse returns: the two flags are booleans. */
  datatype AgentParameters = AgentParameters(
    timeThreshold: Usize,
    countThreshold: Usize,
    printHeapHistogram: bool,
    heapHistogramMaxEntries: Usize,
    printMemoryUsage: bool)

  datatype Key = Time | Count | PrintHeapHistogram | HeapHistogramMaxEntries | PrintMemoryUsage

  function KeyName(k: Key): string {
    match k
    case Time => "time"
    case Count => "count"
    case PrintHeapHistogram => "printHeapHistogram"
    case HeapHistogramMaxEntries => "heapHistogramMaxEntries"
    case PrintMemoryUsage => "printMemoryUsage"
  }

  /** The `match key` arms: exactly the five key names are recognised. */
  function KeyOf(name: string): (r: Option<Key>)
    ensures forall k :: r == Some(k) <==> KeyName(k) == name
  {
    if name == "time" then Some(Time)
    else if name == "count" then Some(Count)
    else if name == "printHeapHistogram" then Some(PrintHeapHistogram)
    else if name == "heapHistogramMaxEntries" then Some(HeapHistogramMaxEntries)
    else if name == "printMemoryUsage" then Some(PrintMemoryUsage)
    else None
  }

  /** The five `usize` locals the loop updates, the flags still numbers. */
  datatype Locals = Locals(
    time: Usize,
    count: Usize,
    printHeapHistogram: Usize,
    heapHistogramMaxEntries: Usize,
    printMemoryUsage: Usize)

  const INITIAL := Locals(1, 0, 0, 100, 1)

  function Get(l: Locals, k: Key): Usize {
    match k
    case Time => l.time
    case Count => l.count
    case PrintHeapHistogram => l.printHeapHistogram
    case HeapHistogramMaxEntries => l.heapHistogramMaxEntries
    case PrintMemoryUsage => l.printMemoryUsage
  }

  function Set(l: Locals, k: Key, n: Usize): (m: Locals)
    ensures Get(m, k) == n
    ensures forall k' :: k' != k ==> Get(m, k') == Get(l, k')
  {
    match k
    case Time => l.(time := n)
    case Count => l.(count := n)
    case PrintHeapHistogram => l.(printHeapHistogram := n)
    case HeapHistogramMaxEntries => l.(heapHistogramMaxEntries := n)
    case PrintMemoryUsage => l.(printMemoryUsage := n)
  }

  /** The struct literal at the end: the three numbers are copied, and a flag
      is on when its number is not 0. */
  function Pack(l: Locals): (p: AgentParameters)
    ensures p.printHeapHistogram <==> l.printHeapHistogram != 0
    ensures p.printMemoryUsage <==> l.printMemoryUsage != 0
    ensures p.timeThreshold == l.time && p.countThreshold == l.count
    ensures p.heapHistogramMaxEntries == l.heapHistogramMaxEntries
  {
    AgentParameters(l.time, l.count, l.printHeapHistogram != 0, l.heapHistogramMaxEntries, l.printMemoryUsage != 0)
  }

  const DEFAULTS := Pack(INITIAL)

  // ---- one comma-separated option ----

  /** The panics of `parseParameters`, as errors: `assert_eq!` on the
      `splitn` result, `expect("not a number")` and `assert!(false, ...)`. */
  datatype ParseError =
    | InvalidOption(option: string)
    | NotANumber(kind: IntErrorKind)
    | UnknownOption(key: string)

  /** What one option does to the locals. */
  datatype Step = Skip | Assign(key: Key, value: Usize) | Fail(error: ParseError)

  /** `splitn(2, '=')` collected: the whole option when it has no `=`, else
      the text before its first `=` and the rest. */
  function SplitN2(s: string): (tokens: seq<string>)
    ensures |tokens| == if '=' in s then 2 else 1
    ensures '=' !in tokens[0]
    ensures |tokens| == 1 ==> tokens[0] == s
    ensures |tokens| == 2 ==> s == tokens[0] + "=" + tokens[1]
  {
    match SplitOnce(s, '=')
    case None => [s]
    case Some((key, value)) => [key, value]
  }

  /** One turn of the `for option in &options` loop: an empty option is
      skipped; one without `=` is invalid; an unknown key is refused whatever
      its value; an empty value leaves the local as it is; any other value
      must parse as a `usize`. */
  function Classify(option: string): Step {
    if option == [] then Skip
    else
      var tokens := SplitN2(option);
      if |tokens| != 2 then Fail(InvalidOption(option))
      else
        match KeyOf(tokens[0])
        case None => Fail(UnknownOption(tokens[0]))
        case Some(k) =>
          if tokens[1] == [] then Skip
          else
            match ParseUsize(tokens[1])
            case Err(e) => Fail(NotANumber(e))
            case Ok(n) => Assign(k, n)
  }

  /** The loop over the options in order; the first failure ends it. */
  function Run(l: Locals, options: seq<string>): Result<Locals, ParseError>
    decreases |options|
  {
    if options == [] then Ok(l)
    else
      match Classify(options[0])
      case Fail(e) => Err(e)
      case Skip => Run(l, options[1..])
      case Assign(k, n) => Run(Set(l, k, n), options[1..])
  }

  /** The locals after the loop over the string's comma-separated pieces. */
  function Settings(s: string): Result<Locals, ParseError> {
    Run(INITIAL, Split(s, ','))
  }

  /** What `parseParameters` computes from the option string. */
  function ParseSpec(s: string): Result<AgentParameters, ParseError> {
    match Settings(s)
    case Err(e) => Err(e)
    case Ok(l) => Ok(Pack(l))
  }

  lemma RunCons(l: Locals, option: string, rest: seq<string>)
    ensures Run(l, [option] + rest) ==
      var step := Classify(option);
      if step.Fail? then Err(step.error)
      else if step.Skip? then Run(l, rest)
      else Run(Set(l, step.key, step.value), rest)
  {
    assert ([option] + rest)[1..] == rest;
  }

  /** `AgentParameters::parseParameters`: the five locals start at their
      defaults and each option updates at most one of them. */
  method ParseParameters(s: string) returns (r: Result<AgentParameters, ParseError>)
    ensures r == ParseSpec(s)
  {
    var timeThreshold: Usize := 1;
    var countThreshold: Usize := 0;
    var printHeapHistogram: Usize := 0;
    var heapHistogramMaxEntries: Usize := 100;
    var printMemoryUsage: Usize := 1;
    var options := Split(s, ',');
    for i := 0 to |options|
      invariant Run(Locals(timeThreshold, countThreshold, printHeapHistogram, heapHistogramMaxEntries, printMemoryUsage), options[i..])
        == Run(INITIAL, options)
    {
      ghost var l := Locals(timeThreshold, countThreshold, printHeapHistogram, heapHistogramMaxEntries, printMemoryUsage);
      var option := options[i];
      assert options[i..] == [option] + options[i + 1..];
      RunCons(l, option, options[i + 1..]);
      if option == [] {
        continue;
      }
      var tokens := SplitN2(option);
      if |tokens| != 2 {
        return Err(InvalidOption(option));
      }
      var key, value := tokens[0], tokens[1];
      var known := KeyOf(key);
      if known.None? {
        return Err(UnknownOption(key));
      }
      if value != [] {
        var parsed := ParseUsize(value);
        if parsed.Err? {
          return Err(NotANumber(parsed.error));
        }
        var n := parsed.value;
        assert Classify(option) == Assign(known.value, n);
        match known.value {
          case Time => timeThreshold := n;
          case Count => countThreshold := n;
          case PrintHeapHistogram => printHeapHistogram := n;
          case HeapHistogramMaxEntries => heapHistogramMaxEntries := n;
          case PrintMemoryUsage => printMemoryUsage := n;
        }
        assert Locals(timeThreshold, countThreshold, printHeapHistogram, heapHistogramMaxEntries, printMemoryUsage)
          == Set(l, known.value, n);
      }
    }
    assert options[|options|..] == [];
    return Ok(AgentParameters(timeThreshold, countThreshold, printHeapHistogram != 0,
                              heapHistogramMaxEntries, printMemoryUsage != 0));
  }

  // ---- properties of the loop ----

  /** The parse fails exactly when some option fails. */
  lemma {:induction false} RunFails(l: Locals, options: seq<string>)
    ensures Run(l, options).Err? <==> exists i :: 0 <= i < |options| && Classify(options[i]).Fail?
    decreases |options|
  {
    if options != [] && !Classify(options[0]).Fail? {
      var step := Classify(options[0]);
      var tail := options[1..];
      var l' := if step.Assign? then Set(l, step.key, step.value) else l;
      RunFails(l', tail);
      if exists i :: 0 <= i < |options| && Classify(options[i]).Fail? {
        var i :| 0 <= i < |options| && Classify(options[i]).Fail?;
        assert tail[i - 1] == options[i];
      }
    }
  }

  /** A failing parse reports the error of the FIRST failing option. */
  lemma {:induction false} RunFirstError(l: Locals, options: seq<string>, i: nat)
    requires i < |options| && Classify(options[i]).Fail?
    requires forall j :: 0 <= j < i ==> !Classify(options[j]).Fail?
    ensures Run(l, options) == Err(Classify(options[i]).error)
    decreases i
  {
    if i > 0 {
      var step := Classify(options[0]);
      var l' := if step.Assign? then Set(l, step.key, step.value) else l;
      assert options[1..][i - 1] == options[i];
      RunFirstError(l', options[1..], i - 1);
    }
  }

  /** When no option fails, each local holds the value of the LAST option
      assigning it; skipped options (empty, or with an empty value) leave it
      alone, and a local nothing assigns keeps its value from `l`. */
  lemma {:induction false} RunValues(l: Locals, options: seq<string>, k: Key)
    requires forall i :: 0 <= i < |options| ==> !Classify(options[i]).Fail?
    ensures Run(l, options).Ok?
    ensures (forall i :: 0 <= i < |options| ==> !(Classify(options[i]).Assign? && Classify(options[i]).key == k)) ==>
      Get(Run(l, options).value, k) == Get(l, k)
    ensures forall i :: (0 <= i < |options| && Classify(options[i]).Assign? && Classify(options[i]).key == k
                         && (forall j :: i < j < |options| ==> !(Classify(options[j]).Assign? && Classify(options[j]).key == k))) ==>
      Get(Run(l, options).value, k) == Classify(options[i]).value
    decreases |options|
  {
    if options != [] {
      var step := Classify(options[0]);
      var l' := if step.Assign? then Set(l, step.key, step.value) else l;
      var tail := options[1..];
      assert forall j :: 0 <= j < |tail| ==> tail[j] == options[j + 1];
      RunValues(l', tail, k);
      forall i | 0 <= i < |options| && Classify(options[i]).Assign? && Classify(options[i]).key == k
                 && (forall j :: i < j < |options| ==> !(Classify(options[j]).Assign? && Classify(options[j]).key == k))
        ensures Get(Run(l, options).value, k) == Classify(options[i]).value
      {
        if i > 0 {
          assert tail[i - 1] == options[i];
        }
      }
    }
  }

  /** Running two lists of options one after the other. */
  lemma {:induction false} RunAppend(l: Locals, xs: seq<string>, ys: seq<string>)
    ensures Run(l, xs + ys) == if Run(l, xs).Err? then Run(l, xs) else Run(Run(l, xs).value, ys)
    decreases |xs|
  {
    if xs == [] {
      assert xs + ys == ys;
    } else {
      var step := Classify(xs[0]);
      var l' := if step.Assign? then Set(l, step.key, step.value) else l;
      assert (xs + ys)[1..] == xs[1..] + ys;
      RunAppend(l', xs[1..], ys);
    }
  }

  /** The string is processed piece by piece: what `a,b` does is what `a`
      does followed by what `b` does. */
  lemma SettingsAppend(a: string, b: string)
    ensures Settings(a + "," + b) ==
      if Settings(a).Err? then Settings(a) else Run(Settings(a).value, Split(b, ','))
  {
    SplitAppend(a, ',', b);
    RunAppend(INITIAL, Split(a, ','), Split(b, ','));
  }

  lemma SplitLeadingComma(s: string)
    ensures Split("," + s, ',') == [""] + Split(s, ',')
  {
    assert "," + s == [] + [','] + s;
    SplitAppend([], ',', s);
    assert SplitOnce([], ',') == None;
  }

  /** An empty piece anywhere is skipped: doubled, leading and trailing
      commas change nothing. */
  lemma ParseSkipsEmptyPieces(a: string, b: string)
    ensures ParseSpec(a + "," + "," + b) == ParseSpec(a + "," + b)
    ensures ParseSpec("," + b) == ParseSpec(b)
    ensures ParseSpec(a + ",") == ParseSpec(a)
  {
    SplitLeadingComma(b);
    assert Classify("") == Skip;
    RunCons(INITIAL, "", Split(b, ','));
    assert a + "," + "," + b == a + "," + ("," + b);
    SettingsAppend(a, "," + b);
    SettingsAppend(a, b);
    if Settings(a).Ok? {
      RunCons(Settings(a).value, "", Split(b, ','));
    }
    SettingsAppend(a, "");
    assert a + "," + "" == a + ",";
    assert SplitOnce([], ',') == None;
    RunCons(INITIAL, "", []);
    assert [""] + [] == [""];
    if Settings(a).Ok? {
      RunCons(Settings(a).value, "", []);
    }
  }

  /** No key name holds a separator (one lemma per name keeps each check small). */
  lemma KeyNameChars(k: Key)
    ensures ',' !in KeyName(k) && '=' !in KeyName(k)
  {
    match k
    case Time => TimeNameChars();
    case Count => CountNameChars();
    case PrintHeapHistogram => PrintHeapHistogramNameChars();
    case HeapHistogramMaxEntries => HeapHistogramMaxEntriesNameChars();
    case PrintMemoryUsage => PrintMemoryUsageNameChars();
  }

  lemma TimeNameChars()
    ensures ',' !in "time" && '=' !in "time"
  {
  }

  lemma CountNameChars()
    ensures ',' !in "count" && '=' !in "count"
  {
  }

  lemma PrintHeapHistogramNameChars()
    ensures ',' !in "printHeapHistogram" && '=' !in "printHeapHistogram"
  {
  }

  lemma HeapHistogramMaxEntriesNameChars()
    ensures ',' !in "heapHistogramMaxEntries" && '=' !in "heapHistogramMaxEntries"
  {
  }

  lemma PrintMemoryUsageNameChars()
    ensures ',' !in "printMemoryUsage" && '=' !in "printMemoryUsage"
  {
  }

  /** `key=value` for a recognised key: skipped when the value is empty,
      otherwise the value must parse.  The value is everything after the
      first `=`. */
  lemma ClassifySetting(k: Key, v: string)
    ensures Classify(KeyName(k) + "=" + v) ==
      if v == [] then Skip
      else if ParseUsize(v).Err? then Fail(NotANumber(ParseUsize(v).error))
      else Assign(k, ParseUsize(v).value)
  {
    KeyNameChars(k);
    SplitOnceAt(KeyName(k), '=', v);
    assert SplitN2(KeyName(k) + "=" + v) == [KeyName(k), v];
  }

  /** One more option after a comma runs after all the earlier ones. */
  lemma SettingsAppendOption(a: string, option: string)
    requires ',' !in option
    ensures Settings(a + "," + option) ==
      if Settings(a).Err? then Settings(a) else Run(Settings(a).value, [option])
  {
    SettingsAppend(a, option);
    assert Split(option, ',') == [option];
  }

  /** Appending `key=value` for a recognised key with a value that parses
      either keeps an earlier error or sets that one local and nothing else;
      with an empty value it changes nothing. */
  lemma SettingsLaterOverrides(a: string, k: Key, v: string)
    requires ',' !in v
    ensures Settings(a + "," + KeyName(k) + "=" + v) ==
      if Settings(a).Err? then Settings(a)
      else if v == [] then Settings(a)
      else if ParseUsize(v).Err? then Err(NotANumber(ParseUsize(v).error))
      else Ok(Set(Settings(a).value, k, ParseUsize(v).value))
  {
    var t := KeyName(k) + "=" + v;
    KeyNameChars(k);
    assert ',' !in t;
    assert a + "," + KeyName(k) + "=" + v == a + "," + t;
    SettingsAppendOption(a, t);
    ClassifySetting(k, v);
    if Settings(a).Ok? {
      RunCons(Settings(a).value, t, []);
      assert [t] + [] == [t];
    }
  }

  // ---- single options ----

  /** An empty string leaves every setting at its default. */
  lemma ParseEmpty()
    ensures ParseSpec("") == Ok(AgentParameters(1, 0, false, 100, true))
  {
    assert SplitOnce([], ',') == None;
    assert Split("", ',') == [""];
    RunCons(INITIAL, "", []);
    assert [""] + [] == [""];
  }

  /** A single `key=value` for a recognised key. */
  lemma ParseSetting(k: Key, v: string)
    requires ',' !in v
    ensures ParseSpec(KeyName(k) + "=" + v) ==
      if v == [] then Ok(DEFAULTS)
      else if ParseUsize(v).Err? then Err(NotANumber(ParseUsize(v).error))
      else Ok(Pack(Set(INITIAL, k, ParseUsize(v).value)))
  {
    SettingsSingle(k, v);
  }

  lemma SettingsSingle(k: Key, v: string)
    requires ',' !in v
    ensures Settings(KeyName(k) + "=" + v) ==
      if v == [] then Ok(INITIAL)
      else if ParseUsize(v).Err? then Err(NotANumber(ParseUsize(v).error))
      else Ok(Set(INITIAL, k, ParseUsize(v).value))
  {
    var t := KeyName(k) + "=" + v;
    KeyNameChars(k);
    assert ',' !in t;
    assert Split(t, ',') == [t];
    ClassifySetting(k, v);
    RunCons(INITIAL, t, []);
    assert [t] + [] == [t];
  }

  /** A key outside the five is refused, whatever its value. */
  lemma ParseUnknownKey(key: string, v: string)
    requires '=' !in key && ',' !in key && ',' !in v
    requires KeyOf(key).None?
    ensures ParseSpec(key + "=" + v) == Err(UnknownOption(key))
  {
    var t := key + "=" + v;
    assert ',' !in t;
    assert Split(t, ',') == [t];
    SplitOnceAt(key, '=', v);
    assert SplitN2(t) == [key, v];
    RunCons(INITIAL, t, []);
    assert [t] + [] == [t];
  }

  /** A non-empty option without `=` is invalid. */
  lemma ParseNoEquals(option: string)
    requires option != [] && ',' !in option && '=' !in option
    ensures ParseSpec(option) == Err(InvalidOption(option))
  {
    assert Split(option, ',') == [option];
    RunCons(INITIAL, option, []);
    assert [option] + [] == [option];
  }

  // ---- the unit tests of parms.rs, one lemma per test ----

  lemma ParsesTimeThreshold()
    ensures ParseSpec("time=99") == Ok(DEFAULTS.(timeThreshold := 99))
  {
    assert KeyName(Time) + "=" + "99" == "time=99";
    assert ParseUsize("99") == Ok(99) by {
      ParseUsizeNatToString(99);
      assert NatToString(99) == "99";
    }
    assert ParseSpec("time=99") == Ok(Pack(Set(INITIAL, Time, 99))) by {
      ParseSetting(Time, "99");
    }
  }

  lemma ParsesTimeThresholdDefault()
    ensures ParseSpec("time=") == Ok(DEFAULTS)
  {
    assert KeyName(Time) + "=" + "" == "time=";
    ParseSetting(Time, "");
  }

  lemma ParsesTimeThresholdInvalid()
    ensures ParseSpec("time=forever") == Err(NotANumber(InvalidDigit))
  {
    assert KeyName(Time) + "=" + "forever" == "time=forever";
    assert ParseUsize("forever") == Err(InvalidDigit) by {
      ParseUsizeNonNumeric("forever");
    }
    assert ParseSpec("time=forever") == Err(NotANumber(InvalidDigit)) by {
      ParseSetting(Time, "forever");
    }
  }

  lemma ParsesCountThreshold()
    ensures ParseSpec("count=88") == Ok(DEFAULTS.(countThreshold := 88))
  {
    assert KeyName(Count) + "=" + "88" == "count=88";
    assert ParseUsize("88") == Ok(88) by {
      ParseUsizeNatToString(88);
      assert NatToString(88) == "88";
    }
    assert ParseSpec("count=88") == Ok(Pack(Set(INITIAL, Count, 88))) by {
      ParseSetting(Count, "88");
    }
  }

  lemma ParsesCountThresholdDefault()
    ensures ParseSpec("count=") == Ok(DEFAULTS)
  {
    assert KeyName(Count) + "=" + "" == "count=";
    ParseSetting(Count, "");
  }

  lemma ParsesCountThresholdInvalid()
    ensures ParseSpec("count=zero") == Err(NotANumber(InvalidDigit))
  {
    assert KeyName(Count) + "=" + "zero" == "count=zero";
    assert ParseUsize("zero") == Err(InvalidDigit) by {
      ParseUsizeNonNumeric("zero");
    }
    assert ParseSpec("count=zero") == Err(NotANumber(InvalidDigit)) by {
      ParseSetting(Count, "zero");
    }
  }

  lemma ParsesPrintHeapHistogramOn()
    ensures ParseSpec("printHeapHistogram=1") == Ok(DEFAULTS.(printHeapHistogram := true))
  {
    assert KeyName(PrintHeapHistogram) + "=" + "1" == "printHeapHistogram=1";
    assert ParseUsize("1") == Ok(1) by {
      ParseUsizeNatToString(1);
      assert NatToString(1) == "1";
    }
    assert ParseSpec("printHeapHistogram=1") == Ok(Pack(Set(INITIAL, PrintHeapHistogram, 1))) by {
      ParseSetting(PrintHeapHistogram, "1");
    }
  }

  lemma ParsesPrintHeapHistogramOff()
    ensures ParseSpec("printHeapHistogram=0") == Ok(DEFAULTS.(printHeapHistogram := false))
  {
    assert KeyName(PrintHeapHistogram) + "=" + "0" == "printHeapHistogram=0";
    assert ParseUsize("0") == Ok(0) by {
      ParseUsizeNatToString(0);
      assert NatToString(0) == "0";
    }
    assert ParseSpec("printHeapHistogram=0") == Ok(Pack(Set(INITIAL, PrintHeapHistogram, 0))) by {
      ParseSetting(PrintHeapHistogram, "0");
    }
  }

  lemma ParsesPrintHeapHistogramDefault()
    ensures ParseSpec("printHeapHistogram=") == Ok(DEFAULTS)
  {
    assert KeyName(PrintHeapHistogram) + "=" + "" == "printHeapHistogram=";
    ParseSetting(PrintHeapHistogram, "");
  }

  lemma ParsesPrintHeapHistogramInvalid()
    ensures ParseSpec("printHeapHistogram=true") == Err(NotANumber(InvalidDigit))
  {
    assert KeyName(PrintHeapHistogram) + "=" + "true" == "printHeapHistogram=true";
    assert ParseUsize("true") == Err(InvalidDigit) by {
      ParseUsizeNonNumeric("true");
    }
    assert ParseSpec("printHeapHistogram=true") == Err(NotANumber(InvalidDigit)) by {
      ParseSetting(PrintHeapHistogram, "true");
    }
  }

  lemma ParsesHeapHistogramMaxEntries()
    ensures ParseSpec("heapHistogramMaxEntries=200") == Ok(DEFAULTS.(heapHistogramMaxEntries := 200))
  {
    assert KeyName(HeapHistogramMaxEntries) + "=" + "200" == "heapHistogramMaxEntries=200";
    assert ParseUsize("200") == Ok(200) by {
      ParseUsizeNatToString(200);
      assert NatToString(200) == "200";
    }
    assert ParseSpec("heapHistogramMaxEntries=200") == Ok(Pack(Set(INITIAL, HeapHistogramMaxEntries, 200))) by {
      ParseSetting(HeapHistogramMaxEntries, "200");
    }
  }

  lemma ParsesHeapHistogramMaxEntriesUnlimited()
    ensures ParseSpec("heapHistogramMaxEntries=0") == Ok(DEFAULTS.(heapHistogramMaxEntries := 0))
  {
    assert KeyName(HeapHistogramMaxEntries) + "=" + "0" == "heapHistogramMaxEntries=0";
    assert ParseUsize("0") == Ok(0) by {
      ParseUsizeNatToString(0);
      assert NatToString(0) == "0";
    }
    assert ParseSpec("heapHistogramMaxEntries=0") == Ok(Pack(Set(INITIAL, HeapHistogramMaxEntries, 0))) by {
      ParseSetting(HeapHistogramMaxEntries, "0");
    }
  }

  lemma ParsesHeapHistogramMaxEntriesDefault()
    ensures ParseSpec("heapHistogramMaxEntries=") == Ok(DEFAULTS)
  {
    assert KeyName(HeapHistogramMaxEntries) + "=" + "" == "heapHistogramMaxEntries=";
    ParseSetting(HeapHistogramMaxEntries, "");
  }

  lemma ParsesHeapHistogramMaxEntriesInvalid()
    ensures ParseSpec("heapHistogramMaxEntries=unlimited") == Err(NotANumber(InvalidDigit))
  {
    assert KeyName(HeapHistogramMaxEntries) + "=" + "unlimited" == "heapHistogramMaxEntries=unlimited";
    assert ParseUsize("unlimited") == Err(InvalidDigit) by {
      ParseUsizeNonNumeric("unlimited");
    }
    assert ParseSpec("heapHistogramMaxEntries=unlimited") == Err(NotANumber(InvalidDigit)) by {
      ParseSetting(HeapHistogramMaxEntries, "unlimited");
    }
  }

  lemma ParsesPrintMemoryUsageOn()
    ensures ParseSpec("printMemoryUsage=1") == Ok(DEFAULTS.(printMemoryUsage := true))
  {
    assert KeyName(PrintMemoryUsage) + "=" + "1" == "printMemoryUsage=1";
    assert ParseUsize("1") == Ok(1) by {
      ParseUsizeNatToString(1);
      assert NatToString(1) == "1";
    }
    assert ParseSpec("printMemoryUsage=1") == Ok(Pack(Set(INITIAL, PrintMemoryUsage, 1))) by {
      ParseSetting(PrintMemoryUsage, "1");
    }
  }

  lemma ParsesPrintMemoryUsageOff()
    ensures ParseSpec("printMemoryUsage=0") == Ok(DEFAULTS.(printMemoryUsage := false))
  {
    assert KeyName(PrintMemoryUsage) + "=" + "0" == "printMemoryUsage=0";
    assert ParseUsize("0") == Ok(0) by {
      ParseUsizeNatToString(0);
      assert NatToString(0) == "0";
    }
    assert ParseSpec("printMemoryUsage=0") == Ok(Pack(Set(INITIAL, PrintMemoryUsage, 0))) by {
      ParseSetting(PrintMemoryUsage, "0");
    }
  }

  lemma ParsesPrintMemoryUsageDefault()
    ensures ParseSpec("printMemoryUsage=") == Ok(DEFAULTS)
  {
    assert KeyName(PrintMemoryUsage) + "=" + "" == "printMemoryUsage=";
    ParseSetting(PrintMemoryUsage, "");
  }

  lemma ParsesPrintMemoryUsageInvalid()
    ensures ParseSpec("printMemoryUsage=false") == Err(NotANumber(InvalidDigit))
  {
    assert KeyName(PrintMemoryUsage) + "=" + "false" == "printMemoryUsage=false";
    assert ParseUsize("false") == Err(InvalidDigit) by {
      ParseUsizeNonNumeric("false");
    }
    assert ParseSpec("printMemoryUsage=false") == Err(NotANumber(InvalidDigit)) by {
      ParseSetting(PrintMemoryUsage, "false");
    }
  }

  lemma UnknownOptionTest()
    ensures ParseSpec("noSuch=0") == Err(UnknownOption("noSuch"))
  {
    ParseUnknownKey("noSuch", "0");
    assert "noSuch" + "=" + "0" == "noSuch=0";
  }

  lemma InvalidOptionTest()
    ensures ParseSpec("noequals") == Err(InvalidOption("noequals"))
  {
    ParseNoEquals("noequals");
  }
}
