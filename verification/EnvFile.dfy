/** The `.env` file of a compose site: generated from `.env.example` and the driver's own variables
    (internal/engine/compose.go) and read back (internal/engine/info.go). */
module EnvFile {
  import opened Text

  type Env = map<string, string>

  datatype Assignment = None | Assign(key: string, value: string)

  /** One line as both readers see it: trimmed, comments and lines without a key skipped. */
  function ParseLine(raw: string): Assignment {
    var line := Trim(raw);
    if line == "" || line[0] == '#' then None
    else
      var i := IndexOf(line, '=');
      if 0 < i < |line| then Assign(line[..i], line[i + 1..]) else None
  }

  /** Lines as they are read: blanks around an assignment do not count, and comments, blank lines and
      lines without a key assign nothing. */
  lemma LinesAsRead(a: string, key: string, value: string, b: string)
    requires Blank(a) && Blank(b)
    ensures Clean(key, value) ==> ParseLine(a + (key + "=" + value) + b) == Assign(key, value)
    ensures ParseLine(a + ("#" + key + "=" + value + "#") + b) == None
    ensures ParseLine("") == None && ParseLine("=" + key + "x") == None
    ensures '=' !in key ==> ParseLine("k" + key + "x") == None
  {
    hide Trim, IndexOf;
    SpacesAndOthers();
    if Clean(key, value) {
      var line := key + "=" + value;
      assert line[0] == key[0];
      assert line[|line| - 1] == if value == "" then '=' else value[|value| - 1];
      TrimDropsBlanks(a, line, b);
      FirstEqualsSign(key, value);
      assert line[..|key|] == key && line[|key| + 1..] == value;
    }
    TrimDropsBlanks(a, "#" + key + "=" + value + "#", b);
    TrimOfNothing();
    TrimKeeps("=" + key + "x");
    FirstEqualsSign("", key + "x");
    assert "" + "=" + (key + "x") == "=" + key + "x";
    TrimKeeps("k" + key + "x");
    IndexOfFacts("k" + key + "x", '=');
  }

  lemma TrimOfNothing()
    ensures Trim("") == ""
  {
  }

  function ParseLines(lines: seq<string>, env: Env): Env {
    if lines == [] then env
    else
      match ParseLine(lines[0])
      case None => ParseLines(lines[1..], env)
      case Assign(k, v) => ParseLines(lines[1..], env[k := v])
  }

  function Parse(content: string): Env { ParseLines(Lines(content), map[]) }

  method ParseEnvFile(content: string) returns (m: Env)
    ensures m == Parse(content)
  {
    m := map[];
    var lines := Lines(content);
    for i := 0 to |lines|
      invariant ParseLines(lines[i..], m) == Parse(content)
    {
      var line := Trim(lines[i]);
      if line == "" || line[0] == '#' {
        continue;
      }
      var idx := IndexOf(line, '=');
      if 0 < idx < |line| {
        m := m[line[..idx] := line[idx + 1..]];
      }
    }
  }

  function Print(order: seq<string>, env: Env): string
    requires forall k :: k in order ==> k in env
  {
    if order == [] then "" else order[0] + "=" + env[order[0]] + "\n" + Print(order[1..], env)
  }

  ghost predicate Lists(order: seq<string>, env: Env) {
    forall k :: k in order <==> k in env
  }

  /** The assignments of `.env.example`, and their keys in order, repeated keys repeated. */
  method LoadExample(example: string) returns (envMap: Env, envOrder: seq<string>)
    ensures envMap == Parse(example) && Lists(envOrder, envMap)
  {
    envMap, envOrder := map[], [];
    var lines := Lines(example);
    for i := 0 to |lines|
      invariant ParseLines(lines[i..], envMap) == Parse(example)
      invariant Lists(envOrder, envMap)
    {
      var line := Trim(lines[i]);
      if line == "" || line[0] == '#' {
        continue;
      }
      var idx := IndexOf(line, '=');
      if 0 < idx < |line| {
        var key := line[..idx];
        envMap := envMap[key := line[idx + 1..]];
        envOrder := envOrder + [key];
      }
    }
  }

  /** The driver's variables on top, visited in the arbitrary order of a Go map. */
  method Override(example: Env, exampleOrder: seq<string>, overrides: Env) returns (envMap: Env, envOrder: seq<string>)
    requires Lists(exampleOrder, example)
    ensures envMap == example + overrides && Lists(envOrder, envMap)
  {
    envMap, envOrder := example, exampleOrder;
    var todo := overrides.Keys;
    while todo != {}
      invariant todo <= overrides.Keys
      invariant envMap == example + (overrides - todo)
      invariant Lists(envOrder, envMap)
    {
      var envKey :| envKey in todo;
      if envKey !in envMap {
        envOrder := envOrder + [envKey];
      }
      envMap := envMap[envKey := overrides[envKey]];
      todo := todo - {envKey};
    }
    assert overrides - todo == overrides;
  }

  method PrintEnv(envOrder: seq<string>, envMap: Env) returns (content: string)
    requires forall k :: k in envOrder ==> k in envMap
    ensures content == Print(envOrder, envMap)
  {
    content := "";
    for i := 0 to |envOrder|
      invariant content + Print(envOrder[i..], envMap) == Print(envOrder, envMap)
    {
      var key := envOrder[i];
      var line := key + "=" + envMap[key] + "\n";
      assert Print(envOrder[i..], envMap) == line + Print(envOrder[i + 1..], envMap);
      assert content + (line + Print(envOrder[i + 1..], envMap)) == (content + line) + Print(envOrder[i + 1..], envMap);
      content := content + line;
    }
    assert content + "" == content;
  }

  /** The generated file reads back as the example's assignments overridden by the driver's, in
      whatever order it was written, exactly when the driver's entries are clean. */
  method GenerateEnv(example: string, overrides: Env) returns (content: string)
    ensures Parse(content) == Parse(example) + overrides <==> AllClean(overrides)
  {
    var envMap, envOrder := LoadExample(example);
    envMap, envOrder := Override(envMap, envOrder, overrides);
    content := PrintEnv(envOrder, envMap);
    RoundTripIffClean(envOrder, envMap);
    LinesHaveNoNewline(example);
    ParsedIsClean(Lines(example), map[]);
    CleanOverride(Parse(example), overrides);
  }

  /** What a line of the file can carry: a key that is not empty, has no `=`, starts neither a
      comment nor with white space, and a value whose end the line trim would not eat; no newline. */
  predicate Clean(key: string, value: string) {
    && key != "" && '=' !in key && key[0] != '#' && !IsSpace(key[0])
    && '\n' !in key && '\n' !in value
    && (value == "" || !IsSpace(value[|value| - 1]))
  }

  ghost predicate AllClean(env: Env) {
    forall k :: k in env ==> Clean(k, env[k])
  }

  lemma ParsedLineIsClean(raw: string)
    requires '\n' !in raw && ParseLine(raw).Assign?
    ensures Clean(ParseLine(raw).key, ParseLine(raw).value)
  {
    TrimFacts(raw);
    hide Trim, IndexOf;
    var line := Trim(raw);
    IndexOfFacts(line, '=');
    assert line[|line| - 1] == (if ParseLine(raw).value == "" then '=' else ParseLine(raw).value[|ParseLine(raw).value| - 1]);
  }

  /** Whatever is read back is clean. */
  lemma {:induction false} ParsedIsClean(lines: seq<string>, env: Env)
    requires AllClean(env) && forall l :: l in lines ==> '\n' !in l
    ensures AllClean(ParseLines(lines, env))
  {
    if lines != [] {
      match ParseLine(lines[0])
      case None => ParsedIsClean(lines[1..], env);
      case Assign(k, v) =>
        ParsedLineIsClean(lines[0]);
        ParsedIsClean(lines[1..], env[k := v]);
    }
  }

  lemma {:induction false} FirstEqualsSign(key: string, rest: string)
    requires '=' !in key
    ensures IndexOf(key + "=" + rest, '=') == |key|
  {
    var s := key + "=" + rest;
    if key != "" {
      assert s[1..] == key[1..] + "=" + rest;
      FirstEqualsSign(key[1..], rest);
    }
  }

  lemma CleanLineParses(key: string, value: string)
    requires Clean(key, value)
    ensures '\n' !in key + "=" + value
    ensures ParseLine(key + "=" + value) == Assign(key, value)
  {
    var line := key + "=" + value;
    assert line[0] == key[0];
    assert line[|line| - 1] == if value == "" then '=' else value[|value| - 1];
    TrimKeeps(line);
    FirstEqualsSign(key, value);
    assert line[..|key|] == key && line[|key| + 1..] == value;
  }

  /** The entries of `env` whose keys the order lists. */
  function Listed(order: seq<string>, env: Env): Env { map k | k in env && k in order :: env[k] }

  lemma ListedStep(order: seq<string>, env: Env, acc: Env)
    requires order != [] && order[0] in env
    ensures acc[order[0] := env[order[0]]] + Listed(order[1..], env) == acc + Listed(order, env)
  {
  }

  lemma ParseFirstLine(key: string, value: string, rest: string, acc: Env)
    requires Clean(key, value)
    ensures ParseLines(Lines(key + "=" + value + "\n" + rest), acc) == ParseLines(Lines(rest), acc[key := value])
  {
    var line := key + "=" + value;
    CleanLineParses(key, value);
    LinesOfFirst(line, rest);
    assert ([line] + Lines(rest))[1..] == Lines(rest);
  }

  lemma {:induction false} PrintedParses(order: seq<string>, env: Env, acc: Env)
    requires AllClean(env) && forall k :: k in order ==> k in env
    ensures ParseLines(Lines(Print(order, env)), acc) == acc + Listed(order, env)
  {
    if order == [] {
      assert Lines("") == [""] && ParseLine("") == None;
    } else {
      ParseFirstLine(order[0], env[order[0]], Print(order[1..], env), acc);
      PrintedParses(order[1..], env, acc[order[0] := env[order[0]]]);
      ListedStep(order, env, acc);
    }
  }

  /** Printing and parsing undo each other, for any order and with repeated keys, if and only if
      every entry is clean. */
  lemma RoundTripIffClean(order: seq<string>, env: Env)
    requires Lists(order, env)
    ensures Parse(Print(order, env)) == env <==> AllClean(env)
  {
    hide ParseLines, Lines, Print, Clean;
    if AllClean(env) {
      PrintedParses(order, env, map[]);
      assert map[] + Listed(order, env) == env;
    }
    LinesHaveNoNewline(Print(order, env));
    ParsedIsClean(Lines(Print(order, env)), map[]);
  }

  lemma CleanOverride(base: Env, overrides: Env)
    requires AllClean(base)
    ensures AllClean(base + overrides) <==> AllClean(overrides)
  {
    hide Clean;
    if AllClean(base + overrides) {
      assert forall k :: k in overrides ==> k in base + overrides && (base + overrides)[k] == overrides[k];
    }
  }
}
