/**
 * Server configuration (server/config.js): the hand-written `.env` loader
 * and the settings derived from the environment afterwards. The file's
 * contents are an input (None when the file is missing or cannot be read);
 * the process environment is an object whose map the loader updates.
 */
module Config {
  import opened Common

  predicate IsQuote(c: char)
  {
    c == '\'' || c == '"'
  }

  /** The character classes the line pattern uses: `\s`, the key class `[\w.-]`, and `.`. */
  datatype CharClass = Space | KeyChar | AnyButTerminator

  predicate InClass(c: char, k: CharClass)
  {
    match k
    case Space => IsJsSpace(c)
    case KeyChar => IsWordChar(c) || c == '.' || c == '-'
    case AnyButTerminator => !IsLineTerminator(c)
  }

  /** The end of the longest run of class `k` starting at `i` (what a greedy `k*` consumes). */
  function Skip(s: string, i: nat, k: CharClass): (j: nat)
    requires i <= |s|
    decreases |s| - i
    ensures i <= j <= |s|
  {
    if i == |s| || !InClass(s[i], k) then i else Skip(s, i + 1, k)
  }

  /** The run is all of class `k`, and what stops it is not. */
  lemma {:induction false} SkipFacts(s: string, i: nat, k: CharClass)
    requires i <= |s|
    decreases |s| - i
    ensures forall m :: i <= m < Skip(s, i, k) ==> InClass(s[m], k)
    ensures Skip(s, i, k) < |s| ==> !InClass(s[Skip(s, i, k)], k)
  {
    if i < |s| && InClass(s[i], k) {
      SkipFacts(s, i + 1, k);
    }
  }

  /** `content.split('\n')`. */
  function Lines(s: string): (ls: seq<string>)
    ensures |ls| >= 1
    ensures forall i :: 0 <= i < |ls| ==> '\n' !in ls[i]
  {
    if s == [] then [""]
    else
      var rest := Lines(s[1..]);
      if s[0] == '\n' then [""] + rest else [[s[0]] + rest[0]] + rest[1..]
  }

  /** The lines joined back with '\n' between them. */
  function JoinLines(ls: seq<string>): string
    requires |ls| >= 1
  {
    if |ls| == 1 then ls[0] else ls[0] + "\n" + JoinLines(ls[1..])
  }

  /** Splitting loses nothing: the lines joined with '\n' give back the contents. */
  lemma {:induction false} LinesRoundTrip(s: string)
    ensures JoinLines(Lines(s)) == s
  {
    if s != [] {
      LinesRoundTrip(s[1..]);
      var rest := Lines(s[1..]);
      if s[0] == '\n' {
        assert Lines(s)[1..] == rest;
      } else {
        var ls := Lines(s);
        assert ls[1..] == rest[1..];
        if |rest| == 1 {
          assert JoinLines(ls) == [s[0]] + rest[0];
        } else {
          assert JoinLines(ls) == [s[0]] + rest[0] + "\n" + JoinLines(rest[1..]);
        }
      }
    }
  }

  /** `value.replace(/^['"]|['"]$/g, '')`: one leading and one trailing quote, each removed on its own. */
  function Unquote(v: string): string
  {
    var a := if |v| > 0 && IsQuote(v[0]) then v[1..] else v;
    if |a| > 0 && IsQuote(a[|a| - 1]) then a[..|a| - 1] else a
  }

  /** Any pair of quotes around a value is removed, matched or not. */
  lemma UnquoteStrips(q1: char, s: string, q2: char)
    requires IsQuote(q1) && IsQuote(q2)
    ensures Unquote([q1] + s + [q2]) == s
  {
    assert ([q1] + s + [q2])[1..] == s + [q2];
    assert (s + [q2])[..|s|] == s;
  }

  /** A value without a quote at either end is kept as it is. */
  lemma UnquoteKeeps(s: string)
    requires s == [] || (!IsQuote(s[0]) && !IsQuote(s[|s| - 1]))
    ensures Unquote(s) == s
  {
  }

  datatype Entry = Entry(key: string, value: string)

  /**
   * `line.match(/^\s*([\w.-]+)\s*=\s*(.*)?\s*$/)`, the key and the unquoted
   * value. Greedy matching makes the outcome deterministic: the value runs
   * from the first non-space after '=' to the first line terminator, and
   * only whitespace may follow it.
   */
  function MatchLine(line: string): Option<Entry>
  {
    var a := Skip(line, 0, Space);
    var k := Skip(line, a, KeyChar);
    if k == a then None
    else
      var b := Skip(line, k, Space);
      if b == |line| || line[b] != '=' then None
      else
        var c := Skip(line, b + 1, Space);
        var v := Skip(line, c, AnyButTerminator);
        if Skip(line, v, Space) != |line| then None
        else Some(Entry(line[a..k], Unquote(line[c..v])))
  }

  /** One line of the reduce: empty lines and comments are skipped before matching. */
  function ParseLine(line: string): (e: Option<Entry>)
    ensures line == "" || StartsWith(line, "#") ==> e == None
  {
    if line == "" || StartsWith(line, "#") then None else MatchLine(line)
  }

  predicate AllSpace(w: string)
  {
    forall i :: 0 <= i < |w| ==> IsJsSpace(w[i])
  }

  predicate IsKey(key: string)
  {
    |key| > 0 && forall i :: 0 <= i < |key| ==> InClass(key[i], KeyChar)
  }

  /** A value written back by `KEY=value` parses to itself. */
  predicate PlainValue(v: string)
  {
    && (forall i :: 0 <= i < |v| ==> !IsLineTerminator(v[i]))
    && (v == [] || (!IsJsSpace(v[0]) && !IsQuote(v[0]) && !IsQuote(v[|v| - 1])))
  }

  lemma SkipOver(s: string, i: nat, w: string, k: CharClass)
    requires i + |w| <= |s| && s[i..i + |w|] == w
    requires forall m :: 0 <= m < |w| ==> InClass(w[m], k)
    requires i + |w| == |s| || !InClass(s[i + |w|], k)
    ensures Skip(s, i, k) == i + |w|
  {
    SkipFacts(s, i, k);
  }

  /** A greedy run from the start of `w + q` covers exactly `w` when `q` does not continue it. */
  lemma SkipPrefix(w: string, q: string, k: CharClass)
    requires forall m :: 0 <= m < |w| ==> InClass(w[m], k)
    requires q == [] || !InClass(q[0], k)
    ensures Skip(w + q, 0, k) == |w|
  {
    var s := w + q;
    assert s[..|w|] == w;
    if q != [] {
      assert s[|w|] == q[0];
    }
    SkipOver(s, 0, w, k);
  }

  /** A run inside the suffix `s` of `p + s` ends where it ends in `s`, shifted by `|p|`. */
  lemma {:induction false} SkipShift(p: string, s: string, i: nat, k: CharClass)
    requires i <= |s|
    decreases |s| - i
    ensures Skip(p + s, |p| + i, k) == |p| + Skip(s, i, k)
  {
    if i < |s| {
      assert (p + s)[|p| + i] == s[i];
      if InClass(s[i], k) {
        SkipShift(p, s, i + 1, k);
      }
    }
  }

  /** A greedy run starting after `p` covers exactly `w` when `q` does not continue it. */
  lemma SkipAfter(p: string, w: string, q: string, k: CharClass)
    requires forall m :: 0 <= m < |w| ==> InClass(w[m], k)
    requires q == [] || !InClass(q[0], k)
    ensures Skip(p + (w + q), |p|, k) == |p| + |w|
  {
    SkipPrefix(w, q, k);
    SkipShift(p, w + q, 0, k);
  }

  /** In a `KEY = value` line the leading whitespace ends where the key starts. */
  lemma RunLeading(w0: string, key: string, w1: string, w2: string, value: string)
    requires AllSpace(w0) && IsKey(key)
    ensures Skip(w0 + key + w1 + "=" + w2 + value, 0, Space) == |w0|
  {
    var r1 := key + w1 + "=" + w2 + value;
    assert r1[0] == key[0];
    assert w0 + key + w1 + "=" + w2 + value == w0 + r1;
    SkipPrefix(w0, r1, Space);
  }

  /** A run over `w` between `p` and `q`, stated on the left-nested concatenation. */
  lemma SkipBetween(p: string, w: string, q: string, k: CharClass)
    requires forall m :: 0 <= m < |w| ==> InClass(w[m], k)
    requires q == [] || !InClass(q[0], k)
    ensures Skip(p + w + q, |p|, k) == |p + w|
  {
    assert p + w + q == p + (w + q);
    SkipAfter(p, w, q, k);
  }

  /** What MatchLine answers once the five runs of the pattern are known. */
  lemma MatchLineFromRuns(line: string, a: nat, k: nat, b: nat, c: nat)
    requires a < k <= b < |line| && line[b] == '='
    requires Skip(line, 0, Space) == a && Skip(line, a, KeyChar) == k && Skip(line, k, Space) == b
    requires Skip(line, b + 1, Space) == c && Skip(line, c, AnyButTerminator) == |line|
    ensures MatchLine(line).Some?
    ensures MatchLine(line).value.key == line[a..k]
    ensures MatchLine(line).value.value == Unquote(line[c..|line|])
  {
    assert Skip(line, |line|, Space) == |line|;
  }

  /** The key's run ends where the key ends. */
  lemma KeyRun(w0: string, key: string, w1: string, w2: string, value: string)
    requires AllSpace(w1) && IsKey(key)
    ensures Skip(w0 + key + w1 + "=" + w2 + value, |w0|, KeyChar) == |w0 + key|
  {
    assert (w1 + "=" + w2 + value)[0] == (if w1 == [] then '=' else w1[0]);
    assert w0 + key + w1 + "=" + w2 + value == w0 + key + (w1 + "=" + w2 + value);
    SkipBetween(w0, key, w1 + "=" + w2 + value, KeyChar);
  }

  /** The whitespace after the key ends at the '='. */
  lemma GapRun(w0: string, key: string, w1: string, w2: string, value: string)
    requires AllSpace(w1)
    ensures Skip(w0 + key + w1 + "=" + w2 + value, |w0 + key|, Space) == |w0 + key + w1|
  {
    assert w0 + key + w1 + "=" + w2 + value == (w0 + key) + w1 + ("=" + w2 + value);
    SkipBetween(w0 + key, w1, "=" + w2 + value, Space);
  }

  /** The whitespace after the '=' ends where the value starts. */
  lemma PadRun(w0: string, key: string, w1: string, w2: string, value: string)
    requires AllSpace(w2) && PlainValue(value)
    ensures Skip(w0 + key + w1 + "=" + w2 + value, |w0 + key + w1 + "="|, Space) == |w0 + key + w1 + "=" + w2|
  {
    assert value == [] || !InClass(value[0], Space);
    SkipBetween(w0 + key + w1 + "=", w2, value, Space);
  }

  /** The value runs to the end of the line. */
  lemma ValueRun(w0: string, key: string, w1: string, w2: string, value: string)
    requires PlainValue(value)
    ensures Skip(w0 + key + w1 + "=" + w2 + value, |w0 + key + w1 + "=" + w2|, AnyButTerminator)
      == |w0 + key + w1 + "=" + w2 + value|
  {
    assert w0 + key + w1 + "=" + w2 + value == (w0 + key + w1 + "=" + w2) + value + [];
    SkipBetween(w0 + key + w1 + "=" + w2, value, [], AnyButTerminator);
  }

  /**
   * A line `KEY = value`, with any whitespace around the key and the '=',
   * parses to exactly that key and value.
   */
  lemma ParseRoundTrip(w0: string, key: string, w1: string, w2: string, value: string)
    requires AllSpace(w0) && AllSpace(w1) && AllSpace(w2)
    requires IsKey(key) && PlainValue(value)
    ensures ParseLine(w0 + key + w1 + "=" + w2 + value) == Some(Entry(key, value))
  {
    var line := w0 + key + w1 + "=" + w2 + value;
    RunLeading(w0, key, w1, w2, value);
    KeyRun(w0, key, w1, w2, value);
    GapRun(w0, key, w1, w2, value);
    PadRun(w0, key, w1, w2, value);
    ValueRun(w0, key, w1, w2, value);
    LineSlices(w0, key, w1, w2, value);
    MatchLineFromRuns(line, |w0|, |w0 + key|, |w0 + key + w1|, |w0 + key + w1 + "=" + w2|);
    UnquoteKeeps(value);
  }

  /** Where the key, the '=' and the value sit in a `KEY = value` line, which is not a comment. */
  lemma LineSlices(w0: string, key: string, w1: string, w2: string, value: string)
    requires AllSpace(w0) && IsKey(key)
    ensures var line := w0 + key + w1 + "=" + w2 + value;
      && |w0 + key + w1 + "="| == |w0 + key + w1| + 1
      && line[|w0 + key + w1|] == '='
      && line[|w0|..|w0 + key|] == key
      && line[|w0 + key + w1 + "=" + w2|..|line|] == value
      && line != "" && !StartsWith(line, "#")
  {
    var line := w0 + key + w1 + "=" + w2 + value;
    assert line[0] == (if w0 == [] then key[0] else w0[0]);
  }

  /** The reduce's state: the accumulated object and the process environment. */
  datatype LoadState = LoadState(acc: map<string, string>, env: map<string, string>)

  /** Whether the environment lacks a usable value (`!process.env[key]`). */
  predicate Unset(env: map<string, string>, key: string)
  {
    key !in env || env[key] == ""
  }

  /** One step of the reduce: the object always takes the pair, the environment only when unset or empty. */
  function Step(st: LoadState, parsed: Option<Entry>): LoadState
  {
    match parsed
    case None => st
    case Some(e) =>
      LoadState(st.acc[e.key := e.value],
                if Unset(st.env, e.key) then st.env[e.key := e.value] else st.env)
  }

  /** The reduce over the lines' parses, first to last. */
  function Fold(st: LoadState, lines: seq<Option<Entry>>): LoadState
  {
    if lines == [] then st else Step(Fold(st, lines[..|lines| - 1]), lines[|lines| - 1])
  }

  /** What each line of the file parses to. */
  function Parsed(lines: seq<string>): (ps: seq<Option<Entry>>)
    ensures |ps| == |lines| && forall i :: 0 <= i < |lines| ==> ps[i] == ParseLine(lines[i])
  {
    seq(|lines|, i requires 0 <= i < |lines| => ParseLine(lines[i]))
  }

  predicate ParsesKey(parsed: Option<Entry>, key: string)
  {
    parsed.Some? && parsed.value.key == key
  }

  /** The object holds a key exactly when some line gave it one. */
  lemma {:induction false} AccKeys(lines: seq<Option<Entry>>, key: string)
    ensures key in Fold(LoadState(map[], map[]), lines).acc <==> exists i :: 0 <= i < |lines| && ParsesKey(lines[i], key)
  {
    if lines != [] {
      var init := lines[..|lines| - 1];
      AccKeys(init, key);
      if exists i :: 0 <= i < |init| && ParsesKey(init[i], key) {
        var i :| 0 <= i < |init| && ParsesKey(init[i], key);
        assert lines[i] == init[i];
      }
      if exists i :: 0 <= i < |lines| && ParsesKey(lines[i], key) {
        var i :| 0 <= i < |lines| && ParsesKey(lines[i], key);
        if i < |init| {
          assert init[i] == lines[i];
        }
      }
    }
  }

  /** Lines `i` to the end give no value for `key`. */
  predicate NoLaterKey(lines: seq<Option<Entry>>, i: nat, key: string)
  {
    forall j :: i < j < |lines| ==> !ParsesKey(lines[j], key)
  }

  lemma NoLaterKeyExtends(init: seq<Option<Entry>>, last: Option<Entry>, i: nat, key: string)
    requires NoLaterKey(init, i, key) && !ParsesKey(last, key)
    ensures NoLaterKey(init + [last], i, key)
  {
    var lines := init + [last];
    forall j | i < j < |lines| ensures !ParsesKey(lines[j], key) {
      if j < |init| {
        assert lines[j] == init[j];
      }
    }
  }

  /** A key of the object holds the value of the last line that gave it: later duplicates override earlier ones. */
  lemma {:induction false} LastDuplicateWins(lines: seq<Option<Entry>>, key: string)
    requires key in Fold(LoadState(map[], map[]), lines).acc
    ensures exists i :: 0 <= i < |lines| && lines[i] == Some(Entry(key, Fold(LoadState(map[], map[]), lines).acc[key]))
                        && NoLaterKey(lines, i, key)
  {
    var acc := Fold(LoadState(map[], map[]), lines).acc;
    var init := lines[..|lines| - 1];
    var last := lines[|lines| - 1];
    assert lines == init + [last];
    if ParsesKey(last, key) {
      assert lines[|lines| - 1] == Some(Entry(key, acc[key]));
      assert NoLaterKey(lines, |lines| - 1, key);
    } else {
      LastDuplicateWins(init, key);
      var i :| 0 <= i < |init| && init[i] == Some(Entry(key, acc[key])) && NoLaterKey(init, i, key);
      assert lines[i] == init[i];
      NoLaterKeyExtends(init, last, i, key);
    }
  }

  /** Only the parsed keys are written to the environment; the accumulated object starts empty, so its keys are theirs too. */
  lemma {:induction false} EnvKeysGrow(st: LoadState, lines: seq<Option<Entry>>, key: string)
    ensures key in st.env ==> key in Fold(st, lines).env
    ensures key in Fold(st, lines).env && key !in st.env ==> exists i :: 0 <= i < |lines| && ParsesKey(lines[i], key)
  {
    if lines != [] {
      var init := lines[..|lines| - 1];
      EnvKeysGrow(st, init, key);
      if key in Fold(st, lines).env && key !in st.env && key !in Fold(st, init).env {
        assert ParsesKey(lines[|lines| - 1], key);
      } else if key in Fold(st, init).env && key !in st.env {
        var i :| 0 <= i < |init| && ParsesKey(init[i], key);
        assert lines[i] == init[i];
      }
    }
  }

  /** A key no line gives keeps its place and value in the environment. */
  lemma {:induction false} UntouchedKey(st: LoadState, lines: seq<Option<Entry>>, key: string)
    requires forall i :: 0 <= i < |lines| ==> !ParsesKey(lines[i], key)
    ensures (key in Fold(st, lines).env <==> key in st.env)
    ensures key in st.env ==> Fold(st, lines).env[key] == st.env[key]
  {
    if lines != [] {
      var init := lines[..|lines| - 1];
      assert forall i :: 0 <= i < |init| ==> init[i] == lines[i];
      UntouchedKey(st, init, key);
      assert !ParsesKey(lines[|lines| - 1], key);
    }
  }

  /** A non-empty value already in the environment is never overwritten by the file. */
  lemma {:induction false} EarlierValueWins(st: LoadState, lines: seq<Option<Entry>>, key: string)
    requires !Unset(st.env, key)
    ensures !Unset(Fold(st, lines).env, key) && Fold(st, lines).env[key] == st.env[key]
  {
    if lines != [] {
      EarlierValueWins(st, lines[..|lines| - 1], key);
    }
  }

  /** The process environment, updated in place by the loader. */
  class Environment {
    var vars: map<string, string>

    constructor (initial: map<string, string>)
      ensures vars == initial
    {
      vars := initial;
    }

    /**
     * loadEnvVars: a missing or unreadable file yields an empty object and
     * leaves the environment alone; otherwise the reduce over the file's
     * lines produces the object and the new environment.
     */
    method LoadEnvVars(file: Option<string>) returns (acc: map<string, string>)
      modifies this
      ensures file.None? ==> acc == map[] && vars == old(vars)
      ensures file.Some? ==> LoadState(acc, vars) == Fold(LoadState(map[], old(vars)), Parsed(Lines(file.value)))
    {
      if file.None? {
        return map[];
      }
      var lines := Lines(file.value);
      ghost var parsedLines := Parsed(lines);
      acc := map[];
      var i := 0;
      while i < |lines|
        invariant 0 <= i <= |lines|
        invariant LoadState(acc, vars) == Fold(LoadState(map[], old(vars)), parsedLines[..i])
      {
        assert parsedLines[..i + 1][..i] == parsedLines[..i];
        var parsed := ParseLine(lines[i]);
        if parsed.Some? {
          var key := parsed.value.key;
          var value := parsed.value.value;
          if Unset(vars, key) {
            vars := vars[key := value];
          }
          acc := acc[key := value];
        }
        i := i + 1;
      }
      assert parsedLines[..|lines|] == parsedLines;
    }
  }

  /** `process.env[name] || fallback`. */
  function Setting(env: map<string, string>, name: string, fallback: string): (r: string)
    ensures !Unset(env, name) ==> r == env[name]
    ensures Unset(env, name) ==> r == fallback
  {
    if !Unset(env, name) then env[name] else fallback
  }

  datatype Settings = Settings(
    port: string, nodeEnv: string, mongoUri: string, jwtSecret: string,
    emailUser: string, emailPassword: string)

  const DefaultPort := "5000"
  const DefaultNodeEnv := "development"
  const DefaultMongoUri := "mongodb://localhost:27017/SportsBuddy"
  const DefaultJwtSecret := "fallback_jwt_secret_key"

  /** The default export and EMAIL_CONFIG, read from the environment after loading. */
  function SettingsOf(env: map<string, string>): Settings
  {
    Settings(Setting(env, "PORT", DefaultPort), Setting(env, "NODE_ENV", DefaultNodeEnv),
             Setting(env, "MONGO_URI", DefaultMongoUri), Setting(env, "JWT_SECRET", DefaultJwtSecret),
             Setting(env, "EMAIL_USER", ""), Setting(env, "EMAIL_PASSWORD", ""))
  }

  /**
   * A secret set in the process environment takes precedence over the
   * file; when neither supplies one, the fallback secret is used.
   */
  lemma JwtSecretSource(env: map<string, string>, lines: seq<Option<Entry>>)
    ensures var s := SettingsOf(Fold(LoadState(map[], env), lines).env).jwtSecret;
      && (!Unset(env, "JWT_SECRET") ==> s == env["JWT_SECRET"])
      && ((Unset(env, "JWT_SECRET") && forall i :: 0 <= i < |lines| ==> !ParsesKey(lines[i], "JWT_SECRET"))
           ==> s == DefaultJwtSecret)
  {
    if !Unset(env, "JWT_SECRET") {
      EarlierValueWins(LoadState(map[], env), lines, "JWT_SECRET");
    } else if forall i :: 0 <= i < |lines| ==> !ParsesKey(lines[i], "JWT_SECRET") {
      UntouchedKey(LoadState(map[], env), lines, "JWT_SECRET");
    }
  }

  /** With nothing set, the settings are the built-in defaults and empty mail credentials. */
  lemma DefaultSettings(env: map<string, string>)
    requires forall name :: name in env ==> env[name] == ""
    ensures SettingsOf(env) == Settings(DefaultPort, DefaultNodeEnv, DefaultMongoUri, DefaultJwtSecret, "", "")
  {
  }
}
