/** Command-line handling of the coordinator (src/index.js, lines 10-42):
    the `--help` check, the `key=value` parsing loop, the `iterations`
    default and the size of the worker pool. */
module Args {
  import Estimator

  datatype Option<T> = None | Some(value: T)

  /** One accepted `key=value` argument. */
  datatype Pair = Pair(key: string, value: int)

  /** What the process does with its argument list. */
  datatype Launch =
    | ShowHelp   // usage printed, process exits, nothing parsed or forked
    | ArgError   // diagnostic printed, process exits, nothing forked
    | Run(processedArgs: map<string, int>, numIterations: int, numWorkers: int)

  const HelpFlag: string := "--help"
  const Separator: char := '='
  /** The key whose assignment on a plain object reaches the
      `Object.prototype.__proto__` setter instead of creating a property. */
  const ProtoKey: string := "__proto__"
  const DefaultIterations: int := 10

  // ---------------------------------------------------------------------
  // `String.prototype.split` with a one-character separator

  function Occurrences(s: string, c: char): nat
  {
    if s == [] then 0 else (if s[0] == c then 1 else 0) + Occurrences(s[1..], c)
  }

  /** `s.split(sep)`: the pieces between separators, empty pieces included. */
  function Split(s: string, sep: char): (parts: seq<string>)
    ensures |parts| == Occurrences(s, sep) + 1
    ensures forall i :: 0 <= i < |parts| ==> sep !in parts[i]
  {
    if s == [] then [""]
    else
      var rest := Split(s[1..], sep);
      if s[0] == sep then [""] + rest
      else [[s[0]] + rest[0]] + rest[1..]
  }

  /** `parts.join(sep)`, the inverse of `Split`. */
  function Join(parts: seq<string>, sep: char): string
    requires |parts| >= 1
  {
    if |parts| == 1 then parts[0] else parts[0] + [sep] + Join(parts[1..], sep)
  }

  lemma {:induction false} JoinSplit(s: string, sep: char)
    ensures Join(Split(s, sep), sep) == s
  {
    if s != [] {
      var rest := Split(s[1..], sep);
      JoinSplit(s[1..], sep);
      if s[0] != sep && |rest| > 1 {
        assert ([s[0]] + rest[0]) + [sep] + Join(rest[1..], sep)
            == [s[0]] + (rest[0] + [sep] + Join(rest[1..], sep));
      }
    }
  }

  /** Splitting a piece free of separators, followed by `t`, glues the piece
      onto the first part of `t`. */
  lemma {:induction false} SplitPrefix(p: string, t: string, sep: char)
    requires sep !in p
    ensures Split(p + t, sep) == [p + Split(t, sep)[0]] + Split(t, sep)[1..]
  {
    if p != [] {
      assert (p + t)[1..] == p[1..] + t;
      assert (p + t)[0] == p[0];
      SplitPrefix(p[1..], t, sep);
      assert [p[0]] + (p[1..] + Split(t, sep)[0]) == p + Split(t, sep)[0];
    } else {
      var parts := Split(t, sep);
      assert p + t == t;
      assert p + parts[0] == parts[0];
      assert [parts[0]] + parts[1..] == parts;
    }
  }

  lemma {:induction false} SplitJoin(parts: seq<string>, sep: char)
    requires |parts| >= 1
    requires forall i :: 0 <= i < |parts| ==> sep !in parts[i]
    ensures Split(Join(parts, sep), sep) == parts
  {
    if |parts| == 1 {
      SplitPrefix(parts[0], "", sep);
      assert parts[0] + "" == parts[0];
    } else {
      var tail := Join(parts[1..], sep);
      SplitJoin(parts[1..], sep);
      assert parts[0] + [sep] + tail == parts[0] + ([sep] + tail);
      SplitPrefix(parts[0], [sep] + tail, sep);
      assert ([sep] + tail)[1..] == tail;
      assert parts[0] + "" == parts[0];
      assert [parts[0]] + parts[1..] == parts;
    }
  }

  // ---------------------------------------------------------------------
  // `parseInt` in radix 10

  predicate IsDigit(c: char)
  {
    '0' <= c <= '9'
  }

  predicate AllDigits(s: string)
  {
    forall i :: 0 <= i < |s| ==> IsDigit(s[i])
  }

  /** Length of the run of decimal digits at the start of `s`. */
  function DigitRun(s: string): (k: nat)
    ensures k <= |s|
    ensures AllDigits(s[..k])
    ensures k < |s| ==> !IsDigit(s[k])
  {
    if s != [] && IsDigit(s[0]) then
      var k := 1 + DigitRun(s[1..]);
      assert forall i :: 1 <= i < k ==> s[..k][i] == s[1..][..k - 1][i - 1];
      k
    else 0
  }

  function DecimalValue(ds: string): nat
    requires AllDigits(ds)
  {
    if ds == [] then 0
    else 10 * DecimalValue(ds[..|ds| - 1]) + (ds[|ds| - 1] as int - '0' as int)
  }

  /** The string after an optional leading sign. */
  function Unsigned(s: string): (t: string)
    ensures |t| <= |s|
  {
    if s != [] && (s[0] == '+' || s[0] == '-') then s[1..] else s
  }

  /** `parseInt(s)`; `None` stands for NaN. An optional sign, then the
      longest run of decimal digits; anything after the run is ignored. */
  function ParseInt(s: string): (r: Option<int>)
    ensures r.Some? <==> DigitRun(Unsigned(s)) > 0
  {
    var body := Unsigned(s);
    var k := DigitRun(body);
    if k == 0 then None
    else
      var magnitude: int := DecimalValue(body[..k]);
      Some(if s[0] == '-' then -magnitude else magnitude)
  }

  /** The decimal rendering of a natural number, without leading zeros. */
  function ShowNat(n: nat): (s: string)
    ensures s != [] && AllDigits(s)
  {
    var c := ('0' as int + n % 10) as char;
    if n < 10 then [c] else ShowNat(n / 10) + [c]
  }

  function ShowInt(i: int): string
  {
    if i < 0 then "-" + ShowNat(-i) else ShowNat(i)
  }

  lemma {:induction false} DecimalValueShowNat(n: nat)
    ensures DecimalValue(ShowNat(n)) == n
  {
    var s := ShowNat(n);
    if n >= 10 {
      DecimalValueShowNat(n / 10);
      assert s[..|s| - 1] == ShowNat(n / 10);
    }
  }

  lemma {:induction false} DigitRunOfDigits(d: string, rest: string)
    requires AllDigits(d)
    requires rest == [] || !IsDigit(rest[0])
    ensures DigitRun(d + rest) == |d|
  {
    if d != [] {
      assert (d + rest)[1..] == d[1..] + rest;
      DigitRunOfDigits(d[1..], rest);
    } else {
      assert d + rest == rest;
    }
  }

  /** A rendered integer starts with `-` exactly when it is negative, and
      past the sign it is the rendering of its magnitude. */
  lemma ShowIntShape(i: int, rest: string)
    ensures var s := ShowInt(i) + rest;
            s != [] && (s[0] == '-' <==> i < 0) && Unsigned(s) == ShowNat(if i < 0 then -i else i) + rest
  {
    var s := ShowInt(i) + rest;
    if i < 0 {
      var d := ShowNat(-i);
      assert s == ['-'] + (d + rest);
      assert s[1..] == d + rest;
    } else {
      var d := ShowNat(i);
      assert s == d + rest;
      assert s[0] == d[0];
      assert IsDigit(d[0]);
    }
  }

  /** Round trip: `parseInt` reads back the decimal rendering of any integer,
      whatever non-digit text follows it. */
  lemma ParseShowInt(i: int, rest: string)
    requires rest == [] || !IsDigit(rest[0])
    ensures ParseInt(ShowInt(i) + rest) == Some(i)
  {
    var n: nat := if i < 0 then -i else i;
    var d := ShowNat(n);
    ShowIntShape(i, rest);
    DigitRunOfDigits(d, rest);
    assert (d + rest)[..|d|] == d;
    DecimalValueShowNat(n);
  }

  // ---------------------------------------------------------------------
  // The argument loop

  /** One argument: it must split on `=` into exactly two parts, and the
      second must be accepted by `parseInt`. */
  function ParseArg(arg: string): (r: Option<Pair>)
  {
    var split := Split(arg, Separator);
    if |split| == 2 && ParseInt(split[1]).Some? then
      Some(Pair(split[0], ParseInt(split[1]).value))
    else None
  }

  /** An accepted argument is its key, one `=`, and a text that `parseInt`
      reads as its value. */
  lemma ParseArgShape(arg: string)
    requires ParseArg(arg).Some?
    ensures var p := ParseArg(arg).value;
      exists text :: arg == p.key + [Separator] + text && Separator !in p.key && Separator !in text
                     && ParseInt(text) == Some(p.value)
  {
    var split := Split(arg, Separator);
    JoinSplit(arg, Separator);
    assert Join(split[1..], Separator) == split[1];
    assert arg == split[0] + [Separator] + split[1];
  }

  /** Conversely, any key without `=`, followed by `=` and any `=`-free text
      that `parseInt` reads, is accepted with that key and the value read. */
  lemma ParseArgOfShape(key: string, text: string)
    requires Separator !in key && Separator !in text && ParseInt(text).Some?
    ensures ParseArg(key + [Separator] + text) == Some(Pair(key, ParseInt(text).value))
  {
    var parts := [key, text];
    assert Join(parts, Separator) == key + [Separator] + text;
    SplitJoin(parts, Separator);
  }

  /** Texts that are not the rendering of their value are accepted too:
      leading zeros, trailing non-digits, a plus sign and a negative zero. */
  lemma NonCanonicalValuesAccepted()
    ensures ParseArg("n=007") == Some(Pair("n", 7))
    ensures ParseArg("n=12abc") == Some(Pair("n", 12))
    ensures ParseArg("n=+5") == Some(Pair("n", 5))
    ensures ParseArg("n=-0") == Some(Pair("n", 0))
  {
    Accepted("007", 7);
    assert "n=" + "007" == "n=007";
    Accepted("12abc", 12);
    assert "n=" + "12abc" == "n=12abc";
    Accepted("+5", 5);
    assert "n=" + "+5" == "n=+5";
    Accepted("-0", 0);
    assert "n=" + "-0" == "n=-0";
  }

  /** `n=<text>` is accepted with the value `parseInt` reads from `text`. */
  lemma Accepted(text: string, value: int)
    requires text in {"007", "12abc", "+5", "-0"}
    requires value == (if text == "007" then 7 else if text == "12abc" then 12
                       else if text == "+5" then 5 else 0)
    ensures ParseArg("n=" + text) == Some(Pair("n", value))
  {
    LeadingZerosRead();
    TrailingTextRead();
    SignsRead();
    ParseArgOfShape("n", text);
    assert "n" + [Separator] + text == "n=" + text;
  }

  /** `parseInt("007")` is 7. */
  lemma LeadingZerosRead()
    ensures ParseInt("007") == Some(7)
  {
    assert DigitRun("7") == 1 by { assert "7"[1..] == []; }
    assert DigitRun("07") == 2 by { assert "07"[1..] == "7"; }
    assert DigitRun("007") == 3 by { assert "007"[1..] == "07"; }
    assert DecimalValue("007") == 7 by {
      assert "007"[..2] == "00" && "00"[..1] == "0" && "0"[..0] == [];
    }
    assert "007"[..3] == "007";
  }

  /** `parseInt("12abc")` is 12. */
  lemma TrailingTextRead()
    ensures ParseInt("12abc") == Some(12)
  {
    assert DigitRun("abc") == 0;
    assert DigitRun("2abc") == 1 by { assert "2abc"[1..] == "abc"; }
    assert DigitRun("12abc") == 2 by { assert "12abc"[1..] == "2abc"; }
    assert "12abc"[..2] == "12";
    assert DecimalValue("12") == 12 by { assert "12"[..1] == "1" && "1"[..0] == []; }
  }

  /** `parseInt("+5")` is 5 and `parseInt("-0")` is 0. */
  lemma SignsRead()
    ensures ParseInt("+5") == Some(5)
    ensures ParseInt("-0") == Some(0)
  {
    assert Unsigned("+5") == "5" && Unsigned("-0") == "0";
    assert DigitRun("5") == 1 by { assert "5"[1..] == []; }
    assert DigitRun("0") == 1 by { assert "0"[1..] == []; }
    assert "5"[..1] == "5" && "0"[..1] == "0";
    assert DecimalValue("5") == 5 by { assert "5"[..0] == []; }
    assert DecimalValue("0") == 0 by { assert "0"[..0] == []; }
  }

  /** Any key without `=`, followed by `=` and a rendered integer, is accepted
      with that key and value. */
  lemma ParseArgShowInt(key: string, value: int)
    requires Separator !in key
    ensures ParseArg(key + [Separator] + ShowInt(value)) == Some(Pair(key, value))
  {
    var text := ShowInt(value);
    assert Separator !in text by {
      if value < 0 {
        assert forall i :: 1 <= i < |text| ==> text[i] == ShowNat(-value)[i - 1];
      }
    }
    var parts := [key, text];
    assert Join(parts, Separator) == key + [Separator] + text;
    SplitJoin(parts, Separator);
    ParseShowInt(value, "");
    assert text + "" == text;
  }

  /** `processedArgs[key] = value` on a plain object. Any key but
      `__proto__` gets the value; `__proto__` reaches the prototype setter,
      which ignores a number, so the object is left as it was. */
  function Store(processed: map<string, int>, p: Pair): map<string, int>
  {
    if p.key == ProtoKey then processed else processed[p.key := p.value]
  }

  /** The result of the argument loop: the first argument that fails aborts
      the whole parse; otherwise each pair is stored under its key, later
      ones overwriting earlier ones. */
  function ParseAll(args: seq<string>): Option<map<string, int>>
  {
    if args == [] then Some(map[])
    else
      match ParseAll(args[..|args| - 1])
      case None => None
      case Some(m) =>
        match ParseArg(args[|args| - 1])
        case None => None
        case Some(p) => Some(Store(m, p))
  }

  predicate DefinesKey(arg: string, k: string)
  {
    ParseArg(arg).Some? && ParseArg(arg).value.key == k
  }

  lemma {:induction false} ParseAllSucceeds(args: seq<string>)
    ensures ParseAll(args).Some? <==> forall i :: 0 <= i < |args| ==> ParseArg(args[i]).Some?
  {
    if args != [] {
      var init := args[..|args| - 1];
      ParseAllSucceeds(init);
      assert forall i :: 0 <= i < |init| ==> init[i] == args[i];
    }
  }

  /** The parsed keys are exactly the keys of the arguments, recognised or
      not, except `__proto__`, which is never stored. */
  lemma {:induction false} ParseAllKeys(args: seq<string>, m: map<string, int>, k: string)
    requires ParseAll(args) == Some(m)
    ensures k in m <==> k != ProtoKey && exists i :: 0 <= i < |args| && DefinesKey(args[i], k)
  {
    if args != [] {
      var last := |args| - 1;
      var init := args[..last];
      var m' := ParseAll(init).value;
      ParseAllKeys(init, m', k);
      assert forall i :: 0 <= i < |init| ==> init[i] == args[i];
      assert DefinesKey(args[last], k) && k != ProtoKey ==> k in m;
    }
  }

  /** The value stored under a key is the one of the last argument with that
      key; `__proto__` keeps no value at all. */
  lemma {:induction false} ParseAllLastWins(args: seq<string>, m: map<string, int>, i: nat)
    requires ParseAll(args) == Some(m)
    requires i < |args| && ParseArg(args[i]).Some?
    requires forall j :: i < j < |args| ==> !DefinesKey(args[j], ParseArg(args[i]).value.key)
    ensures ParseArg(args[i]).value.key == ProtoKey ==> ProtoKey !in m
    ensures ParseArg(args[i]).value.key != ProtoKey ==>
              ParseArg(args[i]).value.key in m && m[ParseArg(args[i]).value.key] == ParseArg(args[i]).value.value
  {
    if ParseArg(args[i]).value.key == ProtoKey {
      ParseAllKeys(args, m, ProtoKey);
      return;
    }
    var last := |args| - 1;
    if i < last {
      var init := args[..last];
      assert init[i] == args[i];
      assert forall j :: i < j < |init| ==> init[j] == args[j];
      ParseAllLastWins(init, ParseAll(init).value, i);
      assert !DefinesKey(args[last], ParseArg(args[i]).value.key);
    }
  }

  /** The `for (const arg of args)` loop that fills `processedArgs`, aborting
      on the first malformed argument. */
  method ParseArgs(args: seq<string>) returns (r: Option<map<string, int>>)
    ensures r == ParseAll(args)
  {
    var processed: map<string, int> := map[];
    var i := 0;
    while i < |args|
      invariant 0 <= i <= |args|
      invariant ParseAll(args[..i]) == Some(processed)
    {
      assert args[..i + 1][..i] == args[..i];
      var pair := ParseArg(args[i]);
      if pair.None? {
        ParseAllAbort(args, i + 1);
        return None;
      }
      processed := Store(processed, pair.value);
      i := i + 1;
    }
    assert args[..|args|] == args;
    r := Some(processed);
  }

  /** Once a prefix fails, so does every longer prefix. */
  lemma {:induction false} ParseAllAbort(args: seq<string>, i: nat)
    requires i <= |args|
    requires ParseAll(args[..i]).None?
    ensures ParseAll(args).None?
    decreases |args| - i
  {
    if i < |args| {
      assert args[..i + 1][..i] == args[..i];
      ParseAllAbort(args, i + 1);
    } else {
      assert args[..i] == args;
    }
  }

  // ---------------------------------------------------------------------
  // Settings derived from the parsed arguments

  /** `processedArgs.iterations ? processedArgs.iterations : 10`: a missing
      or zero `iterations` falls back to 10. */
  function NumIterations(processed: map<string, int>): (n: int)
    ensures n != 0
    ensures var key := Estimator.IterationsKey;
            key in processed && processed[key] != 0 ==> n == processed[key]
    ensures var key := Estimator.IterationsKey;
            key !in processed || processed[key] == 0 ==> n == DefaultIterations
  {
    var key := Estimator.IterationsKey;
    if key in processed && processed[key] != 0 then processed[key] else DefaultIterations
  }

  /** `Math.min(os.cpus().length, numIterations)`. */
  function NumWorkers(cpuCount: int, numIterations: int): (w: int)
    ensures w <= cpuCount && w <= numIterations
    ensures w == cpuCount || w == numIterations
  {
    if cpuCount < numIterations then cpuCount else numIterations
  }

  /** The coordinator's start-up: `--help` anywhere wins before any parsing;
      a malformed argument stops the process before any worker is forked. */
  method Start(args: seq<string>, cpuCount: int) returns (l: Launch)
    ensures HelpFlag in args <==> l == ShowHelp
    ensures l == ArgError <==> HelpFlag !in args && exists i :: 0 <= i < |args| && ParseArg(args[i]).None?
    ensures l.Run? ==> ParseAll(args) == Some(l.processedArgs)
                       && l.numIterations == NumIterations(l.processedArgs)
                       && l.numWorkers == NumWorkers(cpuCount, l.numIterations)
  {
    if HelpFlag in args {
      return ShowHelp;
    }
    var parsed := ParseArgs(args);
    ParseAllSucceeds(args);
    if parsed.None? {
      return ArgError;
    }
    var numIterations := NumIterations(parsed.value);
    l := Run(parsed.value, numIterations, NumWorkers(cpuCount, numIterations));
  }

  /** `iterations=0` is not an error: it falls back to 10. */
  lemma ZeroIterationsDefault()
    ensures ParseAll(["iterations=0"]) == Some(map["iterations" := 0])
    ensures NumIterations(map["iterations" := 0]) == 10
  {
    var arg := "iterations=0";
    assert ShowInt(0) == "0";
    assert Estimator.IterationsKey + [Separator] + ShowInt(0) == arg;
    ParseArgShowInt(Estimator.IterationsKey, 0);
    var args := [arg];
    assert args[..0] == [];
  }

  /** `__proto__=5` is accepted but stores nothing. */
  lemma ProtoKeyIgnored()
    ensures ParseAll(["__proto__=5"]) == Some(map[])
  {
    var arg := "__proto__=5";
    assert ShowInt(5) == "5";
    assert ProtoKey + [Separator] + ShowInt(5) == arg;
    ParseArgShowInt(ProtoKey, 5);
    var args := [arg];
    assert args[..0] == [];
  }

  /** `n=abc` is an argument error. */
  lemma NonIntegerValueRejected()
    ensures ParseArg("n=abc").None?
  {
    var parts := ["n", "abc"];
    assert Join(parts, Separator) == "n=abc";
    SplitJoin(parts, Separator);
  }
}
